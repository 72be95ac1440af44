/** Parsing a static ELF64 executable: every bound checked up front, so that iterating its segments cannot fail. */
module Elf {
  import opened Wrappers

  type Byte = x: int | 0 <= x < 256

  const U64_LIMIT: nat := 0x1_0000_0000_0000_0000

  datatype ElfError = TooShort | BadMagic | NotElf64 | NotX86_64 | NotExecutable | BadProgramHeader | SegmentTooLarge

  // Byte offsets into the file header and a program header.
  const E_TYPE := 16
  const E_MACHINE := 18
  const E_ENTRY := 24
  const E_PHOFF := 32
  const E_PHENTSIZE := 54
  const E_PHNUM := 56
  const E_SIZE := 64
  const P_TYPE := 0
  const P_FLAGS := 4
  const P_OFFSET := 8
  const P_VADDR := 16
  const P_FILESZ := 32
  const P_MEMSZ := 40
  const P_SIZE := 56

  const EM_X86_64 := 62
  const ET_EXEC := 2
  const PT_LOAD := 1

  datatype Segment = Segment(vaddr: nat, memSize: nat, data: seq<Byte>, writable: bool, executable: bool)

  datatype Image = Image(entry: nat, phoff: nat, phentsize: nat, phnum: nat)

  /** A little-endian number of `n` bytes. */
  function ReadLe(b: seq<Byte>, at: nat, n: nat): nat
    requires at + n <= |b|
    decreases n
  {
    if n == 0 then 0 else b[at] + 256 * ReadLe(b, at + 1, n - 1)
  }

  function Read16(b: seq<Byte>, at: nat): nat requires at + 2 <= |b| { ReadLe(b, at, 2) }

  function Read32(b: seq<Byte>, at: nat): nat requires at + 4 <= |b| { ReadLe(b, at, 4) }

  function Read64(b: seq<Byte>, at: nat): nat requires at + 8 <= |b| { ReadLe(b, at, 8) }

  /** Each program header lies inside the table, and so inside the file. */
  lemma HeaderFits(image: Image, len: nat, i: nat)
    requires i < image.phnum && image.phentsize >= P_SIZE && image.phoff + image.phnum * image.phentsize <= len
    ensures image.phoff + i * image.phentsize + P_SIZE <= len
  {
    assert (i + 1) * image.phentsize <= image.phnum * image.phentsize;
  }

  predicate TableInside(b: seq<Byte>, image: Image) {
    image.phentsize >= P_SIZE && image.phoff + image.phnum * image.phentsize <= |b|
  }

  function Header(b: seq<Byte>, image: Image, i: nat): (h: seq<Byte>)
    requires TableInside(b, image) && i < image.phnum
    ensures |h| == P_SIZE
  {
    HeaderFits(image, |b|, i);
    b[image.phoff + i * image.phentsize..image.phoff + i * image.phentsize + P_SIZE]
  }

  function ValidateSegment(b: seq<Byte>, h: seq<Byte>): Result<(), ElfError>
    requires |h| == P_SIZE
  {
    var offset, filesz, memsz := Read64(h, P_OFFSET), Read64(h, P_FILESZ), Read64(h, P_MEMSZ);
    if Read32(h, P_TYPE) != PT_LOAD then Ok(())
    else if filesz > memsz then Err(SegmentTooLarge)
    else if offset + filesz >= U64_LIMIT || offset + filesz > |b| then Err(BadProgramHeader)
    else if Read64(h, P_VADDR) + memsz >= U64_LIMIT then Err(BadProgramHeader)
    else Ok(())
  }

  /** The first refusal among the headers from `i` on. */
  function ValidateFrom(b: seq<Byte>, image: Image, i: nat): Result<(), ElfError>
    requires TableInside(b, image) && i <= image.phnum
    decreases image.phnum - i
  {
    if i == image.phnum then Ok(())
    else
      var r := ValidateSegment(b, Header(b, image, i));
      if r.Err? then r else ValidateFrom(b, image, i + 1)
  }

  function Parse(b: seq<Byte>): Result<Image, ElfError> {
    if |b| < E_SIZE then Err(TooShort)
    else if b[..4] != [0x7f, 0x45, 0x4c, 0x46] then Err(BadMagic)
    else if b[4] != 2 || b[5] != 1 || b[6] != 1 then Err(NotElf64)
    else if Read16(b, E_MACHINE) != EM_X86_64 then Err(NotX86_64)
    else if Read16(b, E_TYPE) != ET_EXEC then Err(NotExecutable)
    else
      var image := Image(Read64(b, E_ENTRY), Read64(b, E_PHOFF), Read16(b, E_PHENTSIZE), Read16(b, E_PHNUM));
      if image.phentsize < P_SIZE then Err(BadProgramHeader)
      else if image.phoff + image.phnum * image.phentsize >= U64_LIMIT then Err(BadProgramHeader)
      else if image.phoff + image.phnum * image.phentsize > |b| then Err(BadProgramHeader)
      else
        var r := ValidateFrom(b, image, 0);
        if r.Err? then Err(r.error) else Ok(image)
  }

  /** The segment a header describes, or nothing for one that is not loaded. */
  function SegmentAt(b: seq<Byte>, h: seq<Byte>): Option<Segment>
    requires |h| == P_SIZE && ValidateSegment(b, h).Ok?
  {
    if Read32(h, P_TYPE) != PT_LOAD then None
    else
      var flags, offset := Read32(h, P_FLAGS), Read64(h, P_OFFSET);
      Some(Segment(Read64(h, P_VADDR), Read64(h, P_MEMSZ), b[offset..offset + Read64(h, P_FILESZ)],
                   flags / 2 % 2 == 1, flags % 2 == 1))
  }

  function SegmentsFrom(b: seq<Byte>, image: Image, i: nat): seq<Segment>
    requires TableInside(b, image) && i <= image.phnum && ValidateFrom(b, image, i).Ok?
    decreases image.phnum - i
  {
    if i == image.phnum then []
    else
      var s := SegmentAt(b, Header(b, image, i));
      (if s.Some? then [s.value] else []) + SegmentsFrom(b, image, i + 1)
  }

  /** The loadable segments of a file that parsed, in the file's order. */
  function Segments(b: seq<Byte>): seq<Segment>
    requires Parse(b).Ok?
  {
    SegmentsFrom(b, Parse(b).value, 0)
  }

  /** What a loader may rely on: the file image fits the memory, and the range does not wrap. */
  predicate SegmentOk(s: Segment) {
    |s.data| <= s.memSize && s.vaddr + s.memSize < U64_LIMIT
  }

  lemma {:induction false} SegmentsFromOk(b: seq<Byte>, image: Image, i: nat)
    requires TableInside(b, image) && i <= image.phnum && ValidateFrom(b, image, i).Ok?
    ensures forall k :: 0 <= k < |SegmentsFrom(b, image, i)| ==> SegmentOk(SegmentsFrom(b, image, i)[k])
    decreases image.phnum - i
  {
    if i < image.phnum {
      SegmentsFromOk(b, image, i + 1);
    }
  }

  /** Every segment of every file that parses is one a loader may rely on. */
  lemma ParsedSegmentsOk(b: seq<Byte>)
    requires Parse(b).Ok?
    ensures forall k :: 0 <= k < |Segments(b)| ==> SegmentOk(Segments(b)[k])
  {
    SegmentsFromOk(b, Parse(b).value, 0);
  }
}
