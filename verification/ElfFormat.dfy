/** The ELF64 layout as numbers at offsets, and what the parser makes of every file laid out so. */
module ElfFormat {
  import opened Wrappers
  import opened Elf

  // ---- Little-endian numbers ----

  function Pow256(k: nat): nat { if k == 0 then 1 else 256 * Pow256(k - 1) }

  function Le(n: nat, k: nat): (b: seq<Byte>)
    ensures |b| == k
  {
    if k == 0 then [] else [n % 256] + Le(n / 256, k - 1)
  }

  /** A number written in `k` bytes anywhere in a file reads back as itself. */
  lemma {:induction false} ReadsBack(b: seq<Byte>, at: nat, n: nat, k: nat)
    requires at + k <= |b| && b[at..at + k] == Le(n, k) && n < Pow256(k)
    ensures ReadLe(b, at, k) == n
    decreases k
  {
    if k > 0 {
      assert b[at] == b[at..at + k][0];
      assert b[at + 1..at + k] == b[at..at + k][1..] == Le(n / 256, k - 1);
      ReadsBack(b, at + 1, n / 256, k - 1);
    }
  }

  /** `b` holds the number `n` in `k` bytes at `at`. */
  predicate Field(b: seq<Byte>, at: nat, n: nat, k: nat) {
    at + k <= |b| && b[at..at + k] == Le(n, k) && n < Pow256(k)
  }

  // ---- The layout ----

  datatype ProgramHeader = ProgramHeader(kind: nat, flags: nat, offset: nat, vaddr: nat, filesz: nat, memsz: nat)

  predicate HeaderAt(b: seq<Byte>, at: nat, ph: ProgramHeader) {
    && Field(b, at, ph.kind, 4) && Field(b, at + 4, ph.flags, 4)
    && Field(b, at + 8, ph.offset, 8) && Field(b, at + 16, ph.vaddr, 8)
    && Field(b, at + 32, ph.filesz, 8) && Field(b, at + 40, ph.memsz, 8)
  }

  /** The magic number, then 64-bit, little-endian, version one. */
  predicate IdentOk(b: seq<Byte>) {
    |b| >= 64 && b[..4] == [0x7f, 0x45, 0x4c, 0x46] && b[4] == 2 && b[5] == 1 && b[6] == 1
  }

  /** A 64-bit little-endian x86-64 executable with these program headers, `stride` bytes apart. */
  predicate LaidOut(b: seq<Byte>, entry: nat, table: nat, stride: nat, phs: seq<ProgramHeader>) {
    && IdentOk(b) && Field(b, 16, 2, 2) && Field(b, 18, 62, 2)
    && Field(b, 24, entry, 8) && Field(b, 32, table, 8)
    && Field(b, 54, stride, 2) && Field(b, 56, |phs|, 2)
    && stride >= 56 && table + |phs| * stride <= |b| && |b| < U64_LIMIT
    && forall i :: 0 <= i < |phs| ==> HeaderAt(b, table + i * stride, phs[i])
  }

  /** A header the parser accepts: not loaded, or inside the file, fitting its memory and not wrapping. */
  predicate Acceptable(b: seq<Byte>, ph: ProgramHeader) {
    ph.kind == 1 ==> ph.filesz <= ph.memsz && ph.offset + ph.filesz <= |b| && ph.vaddr + ph.memsz < U64_LIMIT
  }

  function SegmentOf(b: seq<Byte>, ph: ProgramHeader): Segment
    requires ph.offset + ph.filesz <= |b|
  {
    Segment(ph.vaddr, ph.memsz, b[ph.offset..ph.offset + ph.filesz], ph.flags / 2 % 2 == 1, ph.flags % 2 == 1)
  }

  /** The loaded segments among the headers from `i` on. */
  function Loadable(b: seq<Byte>, phs: seq<ProgramHeader>, i: nat): seq<Segment>
    requires i <= |phs| && forall k :: 0 <= k < |phs| ==> Acceptable(b, phs[k])
    decreases |phs| - i
  {
    if i == |phs| then []
    else
      assert Acceptable(b, phs[i]);
      (if phs[i].kind == 1 then [SegmentOf(b, phs[i])] else []) + Loadable(b, phs, i + 1)
  }

  // ---- Reading a header ----

  lemma FieldOf(b: seq<Byte>, lo: nat, at: nat, n: nat, k: nat)
    requires lo + P_SIZE <= |b| && at + k <= P_SIZE && Field(b, lo + at, n, k)
    ensures ReadLe(b[lo..lo + P_SIZE], at, k) == n
  {
    var h := b[lo..lo + P_SIZE];
    var x, y := h[at..at + k], b[lo + at..lo + at + k];
    forall i | 0 <= i < k ensures x[i] == y[i] {
      assert x[i] == h[at + i] == b[lo + at + i];
    }
    assert x == y;
    ReadsBack(h, at, n, k);
  }

  lemma ReadsHeader(b: seq<Byte>, lo: nat, ph: ProgramHeader)
    requires lo + P_SIZE <= |b| && HeaderAt(b, lo, ph)
    ensures var h := b[lo..lo + P_SIZE];
            && Read32(h, P_TYPE) == ph.kind && Read32(h, P_FLAGS) == ph.flags && Read64(h, P_OFFSET) == ph.offset
            && Read64(h, P_VADDR) == ph.vaddr && Read64(h, P_FILESZ) == ph.filesz && Read64(h, P_MEMSZ) == ph.memsz
  {
    FieldOf(b, lo, P_TYPE, ph.kind, 4);
    FieldOf(b, lo, P_FLAGS, ph.flags, 4);
    FieldOf(b, lo, P_OFFSET, ph.offset, 8);
    FieldOf(b, lo, P_VADDR, ph.vaddr, 8);
    FieldOf(b, lo, P_FILESZ, ph.filesz, 8);
    FieldOf(b, lo, P_MEMSZ, ph.memsz, 8);
  }

  /** The parser's verdict on a header's bytes, and the segment it makes of them, are the layout's. */
  predicate Settles(b: seq<Byte>, h: seq<Byte>, ph: ProgramHeader) {
    && |h| == P_SIZE
    && (ValidateSegment(b, h).Ok? <==> Acceptable(b, ph))
    && (Acceptable(b, ph) ==> SegmentAt(b, h) == if ph.kind == 1 then Some(SegmentOf(b, ph)) else None)
  }

  lemma ValidatesHeader(b: seq<Byte>, lo: nat, ph: ProgramHeader)
    requires lo + P_SIZE <= |b| < U64_LIMIT && HeaderAt(b, lo, ph)
    ensures Settles(b, b[lo..lo + P_SIZE], ph)
  {
    ReadsHeader(b, lo, ph);
  }

  // ---- Reading a file ----

  function ImageOf(entry: nat, table: nat, stride: nat, phs: seq<ProgramHeader>): Image {
    Image(entry, table, stride, |phs|)
  }

  lemma HeaderSettles(b: seq<Byte>, image: Image, i: nat, ph: ProgramHeader)
    requires TableInside(b, image) && i < image.phnum && |b| < U64_LIMIT
    requires HeaderAt(b, image.phoff + i * image.phentsize, ph)
    ensures Settles(b, Header(b, image, i), ph)
  {
    HeaderFits(image, |b|, i);
    ValidatesHeader(b, image.phoff + i * image.phentsize, ph);
  }

  ghost predicate AllSettle(b: seq<Byte>, image: Image, phs: seq<ProgramHeader>) {
    && TableInside(b, image) && image.phnum == |phs|
    && forall i: nat {:trigger Header(b, image, i)} :: i < |phs| ==> Settles(b, Header(b, image, i), phs[i])
  }

  lemma LayoutSettles(b: seq<Byte>, entry: nat, table: nat, stride: nat, phs: seq<ProgramHeader>)
    requires LaidOut(b, entry, table, stride, phs)
    ensures AllSettle(b, ImageOf(entry, table, stride, phs), phs)
  {
    var image := ImageOf(entry, table, stride, phs);
    forall i: nat | i < |phs| ensures Settles(b, Header(b, image, i), phs[i]) {
      HeaderSettles(b, image, i, phs[i]);
    }
  }

  lemma {:induction false} ValidatesFrom(b: seq<Byte>, image: Image, phs: seq<ProgramHeader>, i: nat)
    requires AllSettle(b, image, phs) && i <= |phs|
    ensures ValidateFrom(b, image, i).Ok? <==> forall k :: i <= k < |phs| ==> Acceptable(b, phs[k])
    decreases |phs| - i
  {
    if i < |phs| {
      assert Settles(b, Header(b, image, i), phs[i]);
      ValidatesFrom(b, image, phs, i + 1);
    }
  }

  lemma {:induction false} CollectsFrom(b: seq<Byte>, image: Image, phs: seq<ProgramHeader>, i: nat)
    requires AllSettle(b, image, phs) && i <= |phs| && forall k :: 0 <= k < |phs| ==> Acceptable(b, phs[k])
    requires ValidateFrom(b, image, i).Ok?
    ensures SegmentsFrom(b, image, i) == Loadable(b, phs, i)
    decreases |phs| - i
  {
    if i < |phs| {
      assert Settles(b, Header(b, image, i), phs[i]);
      CollectsFrom(b, image, phs, i + 1);
    }
  }

  lemma ReadsFileHeader(b: seq<Byte>, entry: nat, table: nat, stride: nat, phs: seq<ProgramHeader>)
    requires LaidOut(b, entry, table, stride, phs)
    ensures Read16(b, E_MACHINE) == EM_X86_64 && Read16(b, E_TYPE) == ET_EXEC
    ensures Image(Read64(b, E_ENTRY), Read64(b, E_PHOFF), Read16(b, E_PHENTSIZE), Read16(b, E_PHNUM))
            == ImageOf(entry, table, stride, phs)
  {
    ReadsBack(b, E_MACHINE, EM_X86_64, 2);
    ReadsBack(b, E_TYPE, ET_EXEC, 2);
    ReadsBack(b, E_ENTRY, entry, 8);
    ReadsBack(b, E_PHOFF, table, 8);
    ReadsBack(b, E_PHENTSIZE, stride, 2);
    ReadsBack(b, E_PHNUM, |phs|, 2);
  }

  /**
   A file laid out with given headers parses if and only if every header is acceptable, and
   then its entry and its segments are the ones laid out, in order.
   */
  lemma ParsesExactly(b: seq<Byte>, entry: nat, table: nat, stride: nat, phs: seq<ProgramHeader>)
    requires LaidOut(b, entry, table, stride, phs)
    ensures Parse(b).Ok? <==> forall k :: 0 <= k < |phs| ==> Acceptable(b, phs[k])
    ensures Parse(b).Ok? ==> Parse(b).value.entry == entry && Segments(b) == Loadable(b, phs, 0)
  {
    var image := ImageOf(entry, table, stride, phs);
    ReadsFileHeader(b, entry, table, stride, phs);
    LayoutSettles(b, entry, table, stride, phs);
    ValidatesFrom(b, image, phs, 0);
    if Parse(b).Ok? {
      CollectsFrom(b, image, phs, 0);
    }
  }

  // ---- Every file that parses is laid out so ----

  lemma {:induction false} WrittenAs(b: seq<Byte>, at: nat, k: nat)
    requires at + k <= |b|
    ensures Field(b, at, ReadLe(b, at, k), k)
    decreases k
  {
    if k > 0 {
      WrittenAs(b, at + 1, k - 1);
      var n, rest := ReadLe(b, at, k), ReadLe(b, at + 1, k - 1);
      assert n % 256 == b[at] && n / 256 == rest;
      assert b[at..at + k] == [b[at]] + b[at + 1..at + 1 + (k - 1)];
    } else {
      assert b[at..at] == [];
    }
  }

  /** The header whose fields are at `at`. */
  function HeaderFrom(b: seq<Byte>, at: nat): ProgramHeader
    requires at + 56 <= |b|
  {
    ProgramHeader(ReadLe(b, at, 4), ReadLe(b, at + 4, 4), ReadLe(b, at + 8, 8), ReadLe(b, at + 16, 8),
                  ReadLe(b, at + 32, 8), ReadLe(b, at + 40, 8))
  }

  lemma HeaderFromAt(b: seq<Byte>, at: nat)
    requires at + 56 <= |b|
    ensures HeaderAt(b, at, HeaderFrom(b, at))
  {
    WrittenAs(b, at, 4);
    WrittenAs(b, at + 4, 4);
    WrittenAs(b, at + 8, 8);
    WrittenAs(b, at + 16, 8);
    WrittenAs(b, at + 32, 8);
    WrittenAs(b, at + 40, 8);
  }

  lemma {:induction false} HeadersFrom(b: seq<Byte>, image: Image, n: nat) returns (phs: seq<ProgramHeader>)
    requires TableInside(b, image) && n <= image.phnum
    ensures |phs| == n && forall i :: 0 <= i < n ==> HeaderAt(b, image.phoff + i * image.phentsize, phs[i])
  {
    if n == 0 {
      phs := [];
    } else {
      phs := HeadersFrom(b, image, n - 1);
      var at := image.phoff + (n - 1) * image.phentsize;
      HeaderFits(image, |b|, n - 1);
      HeaderFromAt(b, at);
      phs := phs + [HeaderFrom(b, at)];
    }
  }

  lemma FileHeaderIs(b: seq<Byte>)
    requires Parse(b).Ok?
    ensures IdentOk(b) && Field(b, 16, 2, 2) && Field(b, 18, 62, 2)
    ensures var image := Parse(b).value;
      && Field(b, 24, image.entry, 8) && Field(b, 32, image.phoff, 8)
      && Field(b, 54, image.phentsize, 2) && Field(b, 56, image.phnum, 2) && TableInside(b, image)
  {
    WrittenAs(b, 16, 2);
    WrittenAs(b, 18, 2);
    WrittenAs(b, 24, 8);
    WrittenAs(b, 32, 8);
    WrittenAs(b, 54, 2);
    WrittenAs(b, 56, 2);
  }

  /** A file is accepted if and only if it is laid out so with acceptable headers. */
  ghost predicate Wellformed(b: seq<Byte>) {
    exists entry, table, stride, phs ::
      LaidOut(b, entry, table, stride, phs) && forall k :: 0 <= k < |phs| ==> Acceptable(b, phs[k])
  }

  lemma AcceptedExactly(b: seq<Byte>)
    requires |b| < U64_LIMIT
    ensures Parse(b).Ok? <==> Wellformed(b)
  {
    if Parse(b).Ok? {
      var image := Parse(b).value;
      FileHeaderIs(b);
      var phs := HeadersFrom(b, image, image.phnum);
      assert LaidOut(b, image.entry, image.phoff, image.phentsize, phs);
      ParsesExactly(b, image.entry, image.phoff, image.phentsize, phs);
    }
    if entry, table, stride, phs :|
      LaidOut(b, entry, table, stride, phs) && forall k :: 0 <= k < |phs| ==> Acceptable(b, phs[k]) {
      ParsesExactly(b, entry, table, stride, phs);
    }
  }
}
