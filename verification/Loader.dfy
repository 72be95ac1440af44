/** Loading an executable: its pages mapped, its bytes copied, its permissions settled, or every frame returned. */
module Loader {
  import opened Seqs
  import opened Wrappers
  import opened Elf
  import opened VmSpace

  const STACK_TOP_PAGE: nat := 0x7_fff0_0000
  const STACK_PAGES: nat := 4

  datatype LoadError =
    | BadElf(elf: ElfError)
    | OutOfMemory
    | BadAddress
    | NotUser(vaddr: nat)
    | WriteExecutePage(n: nat)
    | MapFailed(why: MapError)

  // ---- What a program asks for ----

  function PageOf(a: nat): nat { a / 4096 }

  /**
   A segment touches the pages its memory is on. One without memory touches none, unless it
   starts inside a page, and then that one.
   */
  ghost predicate Touches(s: Segment, n: nat) {
    || (exists a: nat :: s.vaddr <= a < s.vaddr + s.memSize && PageOf(a) == n)
    || (s.memSize == 0 && s.vaddr % 4096 != 0 && PageOf(s.vaddr) == n)
  }

  ghost predicate Touched(segs: seq<Segment>, n: nat) {
    exists k :: 0 <= k < |segs| && Touches(segs[k], n)
  }

  ghost predicate Writes(segs: seq<Segment>, n: nat) {
    exists k :: 0 <= k < |segs| && Touches(segs[k], n) && segs[k].writable
  }

  ghost predicate Executes(segs: seq<Segment>, n: nat) {
    exists k :: 0 <= k < |segs| && Touches(segs[k], n) && segs[k].executable
  }

  /** Why a segment is refused: its last page ends past the address space, or it is not all user memory. */
  function Refusal(s: Segment): Option<LoadError> {
    if s.vaddr + s.memSize > 0xffff_ffff_ffff_f000 then Some(BadAddress)
    else if s.vaddr < 0x1000 || s.vaddr + s.memSize > 0x8000_0000_0000 then Some(NotUser(s.vaddr))
    else None
  }

  // ---- Which pages a segment occupies ----

  /** The pages of a segment, first and past the last, partial pages included. */
  function SegmentPages(s: Segment): Result<(nat, nat), LoadError> {
    var lo, hi := s.vaddr / 4096, (s.vaddr + s.memSize + 4095) / 4096;
    if s.vaddr + s.memSize >= U64_LIMIT || hi * 4096 >= U64_LIMIT then Err(BadAddress)
    else if hi * 4096 > USER_MAX then Err(NotUser(s.vaddr))
    else if lo * 4096 < USER_MIN then Err(NotUser(s.vaddr))
    else Ok((lo, hi))
  }

  function Range(lo: nat, hi: nat): (r: set<nat>)
    ensures forall n: nat :: n in r <==> lo <= n < hi
    decreases hi
  {
    if hi <= lo then {} else Range(lo, hi - 1) + {hi - 1}
  }

  function PagesOf(s: Segment): set<nat> {
    var r := SegmentPages(s);
    if r.Ok? then Range(r.value.0, r.value.1) else {}
  }

  /** A segment is refused exactly where its addresses say so. */
  lemma RefusedExactly(s: Segment)
    ensures SegmentPages(s).Err? <==> Refusal(s).Some?
    ensures SegmentPages(s).Err? ==> SegmentPages(s).error == Refusal(s).value
  {
  }

  /** The page range is exactly the pages touched. */
  lemma PagesAreTouched(s: Segment, n: nat)
    requires SegmentPages(s).Ok?
    ensures n in PagesOf(s) <==> Touches(s, n)
  {
    if n in PagesOf(s) && s.memSize > 0 {
      var a := if n * 4096 < s.vaddr then s.vaddr else n * 4096;
      assert s.vaddr <= a < s.vaddr + s.memSize && PageOf(a) == n;
    }
  }

  function AllPages(segs: seq<Segment>): set<nat> {
    if segs == [] then {} else AllPages(segs[..|segs| - 1]) + PagesOf(segs[|segs| - 1])
  }

  function StackPages(): set<nat> { Range(STACK_TOP_PAGE - STACK_PAGES, STACK_TOP_PAGE) }

  /** Write and execute, each if any segment on the page asks for it. */
  function Perms(segs: seq<Segment>, n: nat): (bool, bool) {
    if segs == [] then (false, false)
    else
      var (p, last) := (Perms(segs[..|segs| - 1], n), segs[|segs| - 1]);
      if n in PagesOf(last) then (p.0 || last.writable, p.1 || last.executable) else p
  }

  /** The byte an address holds: the last segment with file data there decides, and zero elsewhere. */
  function ImageAt(segs: seq<Segment>, a: nat): Byte {
    if segs == [] then 0
    else
      var last := segs[|segs| - 1];
      if last.vaddr <= a < last.vaddr + |last.data| then last.data[a - last.vaddr] else ImageAt(segs[..|segs| - 1], a)
  }

  /** The byte seen at an address through the page tables; unmapped reads as zero here. */
  function At(pages: map<nat, Page>, mem: map<nat, Bytes>, a: nat): Byte {
    if a / 4096 in pages && pages[a / 4096].frame in mem && |mem[pages[a / 4096].frame]| == 4096
    then mem[pages[a / 4096].frame][a % 4096]
    else 0
  }

  ghost predicate SameBytes(pages: map<nat, Page>, mem: map<nat, Bytes>, pages': map<nat, Page>,
                            mem': map<nat, Bytes>) {
    forall a: nat {:trigger At(pages', mem', a)} :: At(pages', mem', a) == At(pages, mem, a)
  }

  ghost predicate Shows(pages: map<nat, Page>, mem: map<nat, Bytes>, segs: seq<Segment>) {
    forall a: nat {:trigger At(pages, mem, a)} :: At(pages, mem, a) == ImageAt(segs, a)
  }

  // ---- Mapping ----

  /** The space is sound, and nobody else's frames or their contents are touched. */
  ghost predicate Kept(space: Space, others: set<nat>, mem: map<nat, Bytes>)
    reads space, space.ram
  {
    && space.Valid() && space.Others() == others && space.ram.mem.Keys == mem.Keys
    && forall f :: f in others && f in mem ==> space.ram.mem[f] == mem[f]
  }

  lemma NewPageReadsZero(pages: map<nat, Page>, mem: map<nat, Bytes>, mem': map<nat, Bytes>, n: nat, page: Page)
    requires n !in pages && page.frame in mem' && mem'[page.frame] == Zeroes()
    requires forall m :: m in pages ==>
      pages[m].frame in mem && pages[m].frame in mem' && mem'[pages[m].frame] == mem[pages[m].frame]
    ensures SameBytes(pages, mem, pages[n := page], mem')
  {
  }

  lemma SameTwice(p1: map<nat, Page>, m1: map<nat, Bytes>, p2: map<nat, Page>, m2: map<nat, Bytes>, p3: map<nat, Page>,
                  m3: map<nat, Bytes>)
    requires SameBytes(p1, m1, p2, m2) && SameBytes(p2, m2, p3, m3)
    ensures SameBytes(p1, m1, p3, m3)
  {
    forall a: nat ensures At(p3, m3, a) == At(p1, m1, a) {
      assert At(p2, m2, a) == At(p1, m1, a);
    }
  }

  /** The space took at most `most` frames more, or ran out before it had. */
  predicate Spends(owned0: nat, owned: nat, within: nat, most: nat, ok: bool) {
    if ok then owned <= owned0 + most else within < owned0 + most
  }

  /** Maps one page unless an earlier segment already did. */
  method MapPage(space: Space, n: nat) returns (r: Result<(), LoadError>)
    requires space.Valid() && IsUserPage(n)
    modifies space, space.ram
    ensures Kept(space, old(space.Others()), old(space.ram.mem))
    ensures space.Within() == old(space.Within()) && Spends(|old(space.owned)|, |space.owned|, space.Within(), 4, r.Ok?)
    ensures r.Err? ==> r.error == MapFailed(OutOfFrames)
    ensures r.Ok? ==> space.pages.Keys == old(space.pages).Keys + {n}
    ensures r.Ok? ==> SameBytes(old(space.pages), old(space.ram.mem), space.pages, space.ram.mem)
  {
    if n !in space.pages {
      var mapped := space.MapNewPage(n, true, true);
      if mapped.Err? {
        return Err(MapFailed(mapped.error));
      }
      NewPageReadsZero(old(space.pages), old(space.ram.mem), space.ram.mem, n, space.pages[n]);
    }
    r := Ok(());
  }

  /** Maps the pages of one segment, writable and executable for the copy. */
  method MapSegment(space: Space, lo: nat, hi: nat) returns (r: Result<(), LoadError>)
    requires space.Valid() && lo <= hi && USER_MIN <= lo * 4096 && hi * 4096 <= USER_MAX
    modifies space, space.ram
    ensures Kept(space, old(space.Others()), old(space.ram.mem))
    ensures space.Within() == old(space.Within())
    ensures Spends(|old(space.owned)|, |space.owned|, space.Within(), 4 * (hi - lo), r.Ok?)
    ensures r.Err? ==> r.error == MapFailed(OutOfFrames)
    ensures r.Ok? ==> space.pages.Keys == old(space.pages).Keys + Range(lo, hi)
    ensures r.Ok? ==> SameBytes(old(space.pages), old(space.ram.mem), space.pages, space.ram.mem)
  {
    for n := lo to hi
      invariant Kept(space, old(space.Others()), old(space.ram.mem))
      invariant space.Within() == old(space.Within()) && |space.owned| <= |old(space.owned)| + 4 * (n - lo)
      invariant space.pages.Keys == old(space.pages).Keys + Range(lo, n)
      invariant SameBytes(old(space.pages), old(space.ram.mem), space.pages, space.ram.mem)
    {
      ghost var pages, mem := space.pages, space.ram.mem;
      r := MapPage(space, n);
      if r.Err? {
        return;
      }
      SameTwice(old(space.pages), old(space.ram.mem), pages, mem, space.pages, space.ram.mem);
      RangeGrows(old(space.pages).Keys, lo, n);
    }
    r := Ok(());
  }

  lemma RangeGrows(keys: set<nat>, lo: nat, n: nat)
    requires lo <= n
    ensures keys + Range(lo, n) + {n} == keys + Range(lo, n + 1)
  {
  }

  // ---- Copying ----

  /** Writing within one page changes the bytes written and no others: no two pages share a frame. */
  lemma WriteShows(pages: map<nat, Page>, owned: seq<nat>, mem: map<nat, Bytes>, n: nat, off: nat, d: Bytes, a: nat)
    requires PagesOk(pages, owned) && n in pages && pages[n].frame in mem
    requires off + |d| <= 4096 && |mem[pages[n].frame]| == 4096
    ensures At(pages, mem[pages[n].frame := Splice(mem[pages[n].frame], off, d)], a)
            == if n * 4096 + off <= a < n * 4096 + off + |d| then d[a - n * 4096 - off] else At(pages, mem, a)
  {
    assert a == a / 4096 * 4096 + a % 4096;
  }

  /** `copied` bytes of the segment are in place, over what was there before. */
  ghost predicate Copied(pages: map<nat, Page>, mem0: map<nat, Bytes>, mem: map<nat, Bytes>, s: Segment, copied: nat) {
    forall a: nat {:trigger At(pages, mem, a)} ::
      At(pages, mem, a) == if s.vaddr <= a < s.vaddr + copied && copied <= |s.data| then s.data[a - s.vaddr]
          else At(pages, mem0, a)
  }

  lemma CopyStep(pages: map<nat, Page>, owned: seq<nat>, mem0: map<nat, Bytes>, mem: map<nat, Bytes>, s: Segment,
                 copied: nat, run: nat)
    requires PagesOk(pages, owned) && Copied(pages, mem0, mem, s, copied) && copied + run <= |s.data|
    requires (s.vaddr + copied) / 4096 in pages && pages[(s.vaddr + copied) / 4096].frame in mem
    requires (s.vaddr + copied) % 4096 + run <= 4096 && |mem[pages[(s.vaddr + copied) / 4096].frame]| == 4096
    ensures var (n, off, d) := ((s.vaddr + copied) / 4096, (s.vaddr + copied) % 4096, s.data[copied..copied + run]);
            Copied(pages, mem0, mem[pages[n].frame := Splice(mem[pages[n].frame], off, d)], s, copied + run)
  {
    var n, off, d := (s.vaddr + copied) / 4096, (s.vaddr + copied) % 4096, s.data[copied..copied + run];
    var mem' := mem[pages[n].frame := Splice(mem[pages[n].frame], off, d)];
    assert n * 4096 + off == s.vaddr + copied;
    forall a: nat
      ensures At(pages, mem', a)
              == if s.vaddr <= a < s.vaddr + copied + run then s.data[a - s.vaddr] else At(pages, mem0, a)
    {
      WriteShows(pages, owned, mem, n, off, d, a);
      assert At(pages, mem, a) == At(pages, mem, a);
    }
  }

  /** Copies a segment's file image page run by page run. */
  method CopySegment(space: Space, s: Segment)
    requires space.Valid() && SegmentOk(s)
    requires forall a: nat :: s.vaddr <= a < s.vaddr + |s.data| ==> a / 4096 in space.pages
    modifies space.ram`mem
    ensures Kept(space, old(space.Others()), old(space.ram.mem))
    ensures Copied(space.pages, old(space.ram.mem), space.ram.mem, s, |s.data|)
    ensures space.Within() == old(space.Within())
  {
    var copied := 0;
    while copied < |s.data|
      invariant copied <= |s.data|
      invariant Kept(space, old(space.Others()), old(space.ram.mem))
      invariant Copied(space.pages, old(space.ram.mem), space.ram.mem, s, copied)
    {
      var va := s.vaddr + copied;
      var frame := space.pages[va / 4096].frame;
      var inPage := 4096 - va % 4096;
      var run := if inPage < |s.data| - copied then inPage else |s.data| - copied;
      CopyStep(space.pages, space.owned, old(space.ram.mem), space.ram.mem, s, copied, run);
      space.ram.Write(frame, va % 4096, s.data[copied..copied + run]);
      copied := copied + run;
    }
  }

  // ---- One segment after the other ----

  lemma PagesCover(s: Segment, a: nat)
    requires SegmentOk(s) && SegmentPages(s).Ok? && s.vaddr <= a < s.vaddr + |s.data|
    ensures a / 4096 in PagesOf(s)
  {
  }

  lemma ImageGrows(pages0: map<nat, Page>, mem0: map<nat, Bytes>, pages: map<nat, Page>, mem1: map<nat, Bytes>,
                   mem: map<nat, Bytes>,
                   segs: seq<Segment>, s: Segment)
    requires Shows(pages0, mem0, segs) && SameBytes(pages0, mem0, pages, mem1) && Copied(pages, mem1, mem, s, |s.data|)
    ensures Shows(pages, mem, segs + [s])
  {
    var all := segs + [s];
    assert all[..|all| - 1] == segs && all[|all| - 1] == s;
    forall a: nat ensures At(pages, mem, a) == ImageAt(all, a) {
      assert At(pages, mem1, a) == At(pages0, mem0, a);
      assert At(pages0, mem0, a) == ImageAt(segs, a);
    }
  }

  method LoadSegment(space: Space, ghost segs: seq<Segment>, s: Segment) returns (r: Result<(), LoadError>)
    requires space.Valid() && SegmentOk(s) && SegmentPages(s).Ok?
    requires space.pages.Keys == AllPages(segs) && Shows(space.pages, space.ram.mem, segs)
    modifies space, space.ram
    ensures Kept(space, old(space.Others()), old(space.ram.mem))
    ensures space.Within() == old(space.Within())
    ensures Spends(|old(space.owned)|, |space.owned|, space.Within(), 4 * PagesIn(s), r.Ok?)
    ensures r.Err? ==> r.error == MapFailed(OutOfFrames)
    ensures r.Ok? ==> space.pages.Keys == AllPages(segs + [s]) && Shows(space.pages, space.ram.mem, segs + [s])
  {
    var (lo, hi) := SegmentPages(s).value;
    r := MapSegment(space, lo, hi);
    assert (segs + [s])[..|segs|] == segs;
    if r.Err? {
      return;
    }
    ghost var mem := space.ram.mem;
    forall a: nat | s.vaddr <= a < s.vaddr + |s.data| ensures a / 4096 in space.pages {
      PagesCover(s, a);
    }
    CopySegment(space, s);
    ImageGrows(old(space.pages), old(space.ram.mem), space.pages, mem, space.ram.mem, segs, s);
  }

  /** From the page a segment starts in to the one it ends in. */
  function PagesIn(s: Segment): nat {
    (s.vaddr + s.memSize + 4095) / 4096 - s.vaddr / 4096
  }

  /** Pages of all segments, one counted as often as segments are on it. */
  function PageCount(segs: seq<Segment>): nat {
    if segs == [] then 0 else PageCount(segs[..|segs| - 1]) + PagesIn(segs[|segs| - 1])
  }

  lemma {:induction false} PrefixCount(segs: seq<Segment>, n: nat)
    requires n < |segs|
    ensures PageCount(segs[..n + 1]) == PageCount(segs[..n]) + PagesIn(segs[n])
    ensures PageCount(segs[..n + 1]) <= PageCount(segs)
  {
    assert segs[..n + 1][..n] == segs[..n];
    if n + 1 < |segs| {
      var init := segs[..|segs| - 1];
      PrefixCount(init, n);
      assert init[..n + 1] == segs[..n + 1];
    } else {
      assert segs[..n + 1] == segs;
    }
  }

  method LoadSegments(space: Space, segs: seq<Segment>) returns (r: Result<(), LoadError>)
    requires space.Valid() && space.pages == map[]
    requires forall k :: 0 <= k < |segs| ==> SegmentOk(segs[k]) && SegmentPages(segs[k]).Ok?
    modifies space, space.ram
    ensures Kept(space, old(space.Others()), old(space.ram.mem))
    ensures space.Within() == old(space.Within())
    ensures Spends(|old(space.owned)|, |space.owned|, space.Within(), 4 * PageCount(segs), r.Ok?)
    ensures r.Err? ==> r.error == MapFailed(OutOfFrames)
    ensures r.Ok? ==> space.pages.Keys == AllPages(segs) && Shows(space.pages, space.ram.mem, segs)
  {
    for i := 0 to |segs|
      invariant Kept(space, old(space.Others()), old(space.ram.mem))
      invariant space.Within() == old(space.Within())
      invariant |space.owned| <= |old(space.owned)| + 4 * PageCount(segs[..i])
      invariant space.pages.Keys == AllPages(segs[..i]) && Shows(space.pages, space.ram.mem, segs[..i])
    {
      assert segs[..i] + [segs[i]] == segs[..i + 1];
      PrefixCount(segs, i);
      r := LoadSegment(space, segs[..i], segs[i]);
      if r.Err? {
        return;
      }
    }
    assert segs[..|segs|] == segs;
    r := Ok(());
  }

  // ---- Permissions ----

  /** The union of the permissions every segment asks for, page by page. */
  method Permissions(segs: seq<Segment>) returns (perms: map<nat, (bool, bool)>)
    requires forall k :: 0 <= k < |segs| ==> SegmentPages(segs[k]).Ok?
    ensures perms.Keys == AllPages(segs) && forall n :: n in perms ==> perms[n] == Perms(segs, n)
  {
    perms := map[];
    for i := 0 to |segs|
      invariant perms.Keys == AllPages(segs[..i]) && forall n :: n in perms ==> perms[n] == Perms(segs[..i], n)
    {
      assert segs[..i + 1][..i] == segs[..i];
      AbsentPerms(segs[..i]);
      perms := AddSegment(perms, segs[i]);
    }
    assert segs[..|segs|] == segs;
  }

  /** A page no segment touches has no permissions to unite with. */
  lemma {:induction false} AbsentPerms(segs: seq<Segment>)
    ensures forall n: nat :: n !in AllPages(segs) ==> Perms(segs, n) == (false, false)
  {
    if segs != [] {
      AbsentPerms(segs[..|segs| - 1]);
    }
  }

  method AddSegment(perms: map<nat, (bool, bool)>, s: Segment) returns (out: map<nat, (bool, bool)>)
    requires SegmentPages(s).Ok?
    ensures out.Keys == perms.Keys + PagesOf(s)
    ensures forall n :: n in out ==>
              var p := if n in perms then perms[n] else (false, false);
              out[n] == if n in PagesOf(s) then (p.0 || s.writable, p.1 || s.executable) else p
  {
    var (lo, hi) := SegmentPages(s).value;
    out := perms;
    for n := lo to hi
      invariant out.Keys == perms.Keys + Range(lo, n)
      invariant forall m :: m in out ==>
                  var p := if m in perms then perms[m] else (false, false);
                  out[m] == if m in Range(lo, n) then (p.0 || s.writable, p.1 || s.executable) else p
    {
      var p := if n in out then out[n] else (false, false);
      out := out[n := (p.0 || s.writable, p.1 || s.executable)];
    }
  }

  predicate IsLeast(todo: set<nat>, n: nat) {
    n in todo && forall m :: m in todo ==> n <= m
  }

  lemma {:induction false} HasLeast(todo: set<nat>)
    requires todo != {}
    ensures exists n :: IsLeast(todo, n)
    decreases |todo|
  {
    var x :| x in todo;
    var rest := todo - {x};
    assert todo == rest + {x};
    if rest == {} {
      assert IsLeast(todo, x);
    } else {
      HasLeast(rest);
      var n :| IsLeast(rest, n);
      assert IsLeast(todo, if n < x then n else x);
    }
  }

  /** Same frames under the same pages: the bytes read are the same. */
  lemma SameFrames(pages: map<nat, Page>, pages': map<nat, Page>, mem: map<nat, Bytes>)
    requires pages.Keys == pages'.Keys && forall n :: n in pages ==> pages'[n].frame == pages[n].frame
    ensures SameBytes(pages, mem, pages', mem)
  {
    forall a: nat ensures At(pages', mem, a) == At(pages, mem, a) {
      assert a / 4096 in pages <==> a / 4096 in pages'.Keys;
    }
  }

  /** What page `n` is while permissions are applied: as mapped while still to do, then as asked. */
  predicate PageSettled(pages0: map<nat, Page>, pages: map<nat, Page>, perms: map<nat, (bool, bool)>, todo: set<nat>,
                        n: nat) {
    n in perms ==>
      && n in pages0 && n in pages
      && (if n in todo then pages[n] == pages0[n]
          else pages[n] == Page(pages0[n].frame, perms[n].0, perms[n].1) && !(perms[n].0 && perms[n].1))
  }

  ghost predicate Settled(pages0: map<nat, Page>, pages: map<nat, Page>, perms: map<nat, (bool, bool)>,
                          todo: set<nat>) {
    && pages.Keys == perms.Keys == pages0.Keys
    && forall n: nat {:trigger PageSettled(pages0, pages, perms, todo, n)} :: PageSettled(pages0, pages, perms, todo, n)
  }

  lemma SettleOne(pages0: map<nat, Page>, pages: map<nat, Page>, perms: map<nat, (bool, bool)>, todo: set<nat>, n: nat)
    requires Settled(pages0, pages, perms, todo) && n in todo && n in perms && !(perms[n].0 && perms[n].1)
    ensures n in pages && Settled(pages0, pages[n := Page(pages[n].frame, perms[n].0, perms[n].1)], perms, todo - {n})
  {
    assert PageSettled(pages0, pages, perms, todo, n);
    var pages', todo' := pages[n := Page(pages[n].frame, perms[n].0, perms[n].1)], todo - {n};
    forall m: nat ensures PageSettled(pages0, pages', perms, todo', m) {
      assert PageSettled(pages0, pages, perms, todo, m);
    }
  }

  method Least(todo: set<nat>) returns (n: nat)
    requires todo != {}
    ensures IsLeast(todo, n)
  {
    HasLeast(todo);
    n :| n in todo && IsLeast(todo, n);
  }

  /** The pages asked to be both writable and executable. */
  function Clashes(perms: map<nat, (bool, bool)>): set<nat> {
    set n | n in perms && perms[n] == (true, true)
  }

  lemma OneLess(todo: set<nat>, clashes: set<nat>, n: nat)
    requires n in todo && n !in clashes && clashes <= todo
    ensures clashes <= todo - {n} && |todo - {n}| < |todo|
  {
  }

  lemma ClashIs(perms: map<nat, (bool, bool)>, n: nat)
    requires n in perms
    ensures n in Clashes(perms) <==> perms[n].0 && perms[n].1
  {
    assert perms[n] == (perms[n].0, perms[n].1);
  }

  lemma NoneSettled(pages: map<nat, Page>, perms: map<nat, (bool, bool)>)
    requires pages.Keys == perms.Keys
    ensures Settled(pages, pages, perms, perms.Keys) && Clashes(perms) <= perms.Keys
  {
    forall n: nat ensures PageSettled(pages, pages, perms, perms.Keys, n) {
      assert n in pages.Keys <==> n in perms.Keys;
    }
  }

  ghost predicate Holds(space: Space, others: set<nat>, owned: seq<nat>, within: nat)
    reads space, space.ram
  {
    space.Valid() && space.Others() == others && space.owned == owned && space.Within() == within
  }

  method ApplyOne(space: Space, ghost pages0: map<nat, Page>, perms: map<nat, (bool, bool)>, ghost todo: set<nat>,
                  n: nat)
    requires space.Valid() && n in todo && n in perms && !(perms[n].0 && perms[n].1)
    requires Settled(pages0, space.pages, perms, todo)
    modifies space, space.ram`pool
    ensures Holds(space, old(space.Others()), old(space.owned), old(space.Within()))
    ensures Settled(pages0, space.pages, perms, todo - {n})
  {
    SettleOne(pages0, space.pages, perms, todo, n);
    var _ := space.SetPermissions(n, perms[n].0, perms[n].1);
  }

  /** Applies the permissions in address order, and fails just at the first page both writable and executable. */
  method ApplyPermissions(space: Space, perms: map<nat, (bool, bool)>) returns (r: Result<(), LoadError>)
    requires space.Valid() && space.pages.Keys == perms.Keys
    modifies space, space.ram`pool
    ensures Holds(space, old(space.Others()), old(space.owned), old(space.Within()))
    ensures r.Ok? ==> Clashes(perms) == {} && Settled(old(space.pages), space.pages, perms, {})
    ensures r.Err? ==> r.error.WriteExecutePage? && IsLeast(Clashes(perms), r.error.n)
  {
    var todo := perms.Keys;
    ghost var clashes := Clashes(perms);
    NoneSettled(space.pages, perms);
    while todo != {}
      invariant todo <= perms.Keys && clashes <= todo
      invariant Holds(space, old(space.Others()), old(space.owned), old(space.Within()))
      invariant Settled(old(space.pages), space.pages, perms, todo)
      decreases |todo|
    {
      var n := Least(todo);
      ClashIs(perms, n);
      if perms[n].0 && perms[n].1 {
        return Err(WriteExecutePage(n));
      }
      ApplyOne(space, old(space.pages), perms, todo, n);
      OneLess(todo, clashes, n);
      todo := todo - {n};
    }
    r := Ok(());
  }

  // ---- The stack ----

  predicate IsStackPage(page: Page) { page.writable && !page.executable }

  /** The stack's pages mapped on top of what was there, and nothing else changed. */
  ghost predicate StackedTo(pages0: map<nat, Page>, pages: map<nat, Page>, n: nat, top: nat) {
    && pages.Keys == pages0.Keys + Range(n, top) && pages0.Keys !! Range(n, top)
    && (forall m :: m in pages0 ==> pages[m] == pages0[m])
    && (forall m :: m in pages && m !in pages0 ==> IsStackPage(pages[m]))
  }

  /** Maps one stack page below those there are. */
  method MapStackPage(space: Space, ghost pages0: map<nat, Page>, n: nat) returns (r: Result<(), LoadError>)
    requires space.Valid() && n < STACK_TOP_PAGE && IsUserPage(n)
    requires StackedTo(pages0, space.pages, n + 1, STACK_TOP_PAGE)
    modifies space, space.ram
    ensures Kept(space, old(space.Others()), old(space.ram.mem))
    ensures space.Within() == old(space.Within()) && |space.owned| <= |old(space.owned)| + 4
    ensures r.Err? ==>
      || (r.error == MapFailed(AlreadyMapped) && n in pages0)
      || (r.error == MapFailed(OutOfFrames) && space.Within() < |old(space.owned)| + 4)
    ensures r.Ok? ==> StackedTo(pages0, space.pages, n, STACK_TOP_PAGE)
    ensures r.Ok? ==> SameBytes(old(space.pages), old(space.ram.mem), space.pages, space.ram.mem)
  {
    var mapped := space.MapNewPage(n, true, false);
    if mapped.Err? {
      return Err(MapFailed(mapped.error));
    }
    StackStep(pages0, old(space.pages), n + 1, STACK_TOP_PAGE, space.pages[n]);
    NewPageReadsZero(old(space.pages), old(space.ram.mem), space.ram.mem, n, space.pages[n]);
    r := Ok(());
  }

  lemma InRange(lo: nat, n: nat, hi: nat)
    requires lo <= n < hi
    ensures n in Range(lo, hi)
  {
  }

  method MapStack(space: Space) returns (r: Result<(), LoadError>)
    requires space.Valid()
    modifies space, space.ram
    ensures Kept(space, old(space.Others()), old(space.ram.mem))
    ensures space.Within() == old(space.Within())
    ensures r.Ok? ==> |space.owned| <= |old(space.owned)| + 4 * STACK_PAGES
    ensures r.Err? ==>
      || (r.error == MapFailed(AlreadyMapped) && !(old(space.pages).Keys !! StackPages()))
      || (r.error == MapFailed(OutOfFrames) && space.Within() < |old(space.owned)| + 4 * STACK_PAGES)
    ensures r.Ok? ==> StackedTo(old(space.pages), space.pages, STACK_TOP_PAGE - STACK_PAGES, STACK_TOP_PAGE)
    ensures r.Ok? ==> SameBytes(old(space.pages), old(space.ram.mem), space.pages, space.ram.mem)
  {
    for page := 0 to STACK_PAGES
      invariant Kept(space, old(space.Others()), old(space.ram.mem))
      invariant space.Within() == old(space.Within()) && |space.owned| <= |old(space.owned)| + 4 * page
      invariant StackedTo(old(space.pages), space.pages, STACK_TOP_PAGE - page, STACK_TOP_PAGE)
      invariant SameBytes(old(space.pages), old(space.ram.mem), space.pages, space.ram.mem)
    {
      ghost var pages, mem := space.pages, space.ram.mem;
      var n := STACK_TOP_PAGE - (page + 1);
      InRange(STACK_TOP_PAGE - STACK_PAGES, n, STACK_TOP_PAGE);
      r := MapStackPage(space, old(space.pages), n);
      if r.Err? {
        return;
      }
      SameTwice(old(space.pages), old(space.ram.mem), pages, mem, space.pages, space.ram.mem);
    }
    r := Ok(());
  }

  lemma StackStep(pages0: map<nat, Page>, pages: map<nat, Page>, n: nat, top: nat, page: Page)
    requires 0 < n <= top && StackedTo(pages0, pages, n, top) && n - 1 !in pages && IsStackPage(page)
    ensures StackedTo(pages0, pages[n - 1 := page], n - 1, top)
  {
    assert Range(n - 1, top) == Range(n, top) + {n - 1};
  }

  // ---- The whole load ----

  /** The first segment that may not be mapped decides the refusal. */
  function FirstRefusal(segs: seq<Segment>): (r: Option<LoadError>)
    ensures r.Some? ==> r.value == BadAddress || r.value.NotUser?
  {
    if segs == [] then None
    else if Refusal(segs[0]).Some? then Refusal(segs[0])
    else FirstRefusal(segs[1..])
  }

  lemma {:induction false} NoRefusal(segs: seq<Segment>)
    ensures FirstRefusal(segs).None? <==> forall k :: 0 <= k < |segs| ==> SegmentPages(segs[k]).Ok?
  {
    if segs != [] {
      RefusedExactly(segs[0]);
      NoRefusal(segs[1..]);
      assert forall k :: 0 <= k < |segs[1..]| ==> segs[1..][k] == segs[k + 1];
    }
  }

  method Validate(segs: seq<Segment>) returns (r: Option<LoadError>)
    ensures r == FirstRefusal(segs)
  {
    var i := 0;
    while i < |segs|
      invariant i <= |segs| && FirstRefusal(segs[i..]) == FirstRefusal(segs)
    {
      RefusedExactly(segs[i]);
      if SegmentPages(segs[i]).Err? {
        return Some(SegmentPages(segs[i]).error);
      }
      assert segs[i..][1..] == segs[i + 1..];
      i := i + 1;
    }
    r := None;
  }

  /** One segment more. */
  lemma AskedOnce(segs: seq<Segment>, n: nat)
    requires segs != []
    ensures Touched(segs, n) <==> Touched(segs[..|segs| - 1], n) || Touches(segs[|segs| - 1], n)
    ensures Writes(segs, n) <==>
      Writes(segs[..|segs| - 1], n) || (Touches(segs[|segs| - 1], n) && segs[|segs| - 1].writable)
    ensures Executes(segs, n) <==>
      Executes(segs[..|segs| - 1], n) || (Touches(segs[|segs| - 1], n) && segs[|segs| - 1].executable)
  {
    var init := segs[..|segs| - 1];
    assert forall k :: 0 <= k < |init| ==> init[k] == segs[k];
  }

  lemma {:induction false} PagesAre(segs: seq<Segment>, n: nat)
    requires forall k :: 0 <= k < |segs| ==> SegmentPages(segs[k]).Ok?
    ensures n in AllPages(segs) <==> Touched(segs, n)
    ensures Perms(segs, n).0 <==> Writes(segs, n)
    ensures Perms(segs, n).1 <==> Executes(segs, n)
  {
    if segs != [] {
      var init, last := segs[..|segs| - 1], segs[|segs| - 1];
      PagesAre(init, n);
      PagesAreTouched(last, n);
      AskedOnce(segs, n);
    }
  }

  predicate IsAsked(page: Page, writable: bool, executable: bool) {
    page.writable == writable && page.executable == executable && !(writable && executable)
  }

  /**
   Exactly the pages some segment touches and the stack's are mapped, each with the union of
   what its segments asked for and never both write and execute, and every byte is the program's.
   */
  ghost predicate Loaded(segs: seq<Segment>, pages: map<nat, Page>, mem: map<nat, Bytes>) {
    && (forall n: nat :: n in pages <==> Touched(segs, n) || n in StackPages())
    && (forall n: nat :: n in pages && Touched(segs, n) ==>
          n !in StackPages() && IsAsked(pages[n], Writes(segs, n), Executes(segs, n)))
    && (forall n :: n in StackPages() && n in pages ==> pages[n].writable && !pages[n].executable)
    && Shows(pages, mem, segs)
  }

  lemma LoadedIs(segs: seq<Segment>, perms: map<nat, (bool, bool)>, p0: map<nat, Page>, p1: map<nat, Page>,
                 p2: map<nat, Page>,
                 m0: map<nat, Bytes>, m2: map<nat, Bytes>)
    requires forall k :: 0 <= k < |segs| ==> SegmentPages(segs[k]).Ok?
    requires p0.Keys == AllPages(segs) && Shows(p0, m0, segs)
    requires perms.Keys == AllPages(segs) && forall n :: n in perms ==> perms[n] == Perms(segs, n)
    requires Settled(p0, p1, perms, {}) && StackedTo(p1, p2, STACK_TOP_PAGE - STACK_PAGES, STACK_TOP_PAGE)
    requires SameBytes(p1, m0, p2, m2)
    ensures Loaded(segs, p2, m2)
  {
    forall n | n in p0
      ensures n in p1 && p1[n].frame == p0[n].frame && IsAsked(p1[n], Perms(segs, n).0, Perms(segs, n).1)
    {
      assert n in perms.Keys;
      assert PageSettled(p0, p1, perms, {}, n);
    }
    forall n: nat
      ensures n in p0 <==> Touched(segs, n)
      ensures Perms(segs, n) == (Writes(segs, n), Executes(segs, n))
    {
      PagesAre(segs, n);
      assert n in p0 <==> n in p0.Keys;
    }
    SameFrames(p0, p1, m0);
    forall a: nat ensures At(p2, m2, a) == ImageAt(segs, a) {
      assert At(p1, m0, a) == At(p0, m0, a);
    }
  }

  /** A page whose segments together ask for both. */
  ghost predicate Clashing(segs: seq<Segment>, n: nat) {
    Writes(segs, n) && Executes(segs, n)
  }

  /** Frames that suffice for a program: a root, and for every page of a segment or the stack one and three tables. */
  function Enough(segs: seq<Segment>): nat {
    1 + 4 * (PageCount(segs) + STACK_PAGES)
  }

  /**
   Why a load with acceptable segments and `within` frames to take fails: they are too few,
   a page is both writable and executable, or a segment is where the stack goes.
   */
  ghost predicate Why(segs: seq<Segment>, error: LoadError, within: nat) {
    || (error == MapFailed(OutOfFrames) && within < Enough(segs))
    || (error.WriteExecutePage? && Clashing(segs, error.n) && forall n: nat :: Clashing(segs, n) ==> error.n <= n)
    || (error == MapFailed(AlreadyMapped) && (forall n: nat :: !Clashing(segs, n))
        && exists n :: n in StackPages() && Touched(segs, n))
  }

  lemma ClashesAre(segs: seq<Segment>, perms: map<nat, (bool, bool)>, n: nat)
    requires forall k :: 0 <= k < |segs| ==> SegmentPages(segs[k]).Ok?
    requires perms.Keys == AllPages(segs) && forall n :: n in perms ==> perms[n] == Perms(segs, n)
    ensures n in Clashes(perms) <==> Clashing(segs, n)
  {
    PagesAre(segs, n);
    assert n in perms <==> n in perms.Keys;
    if n in perms { ClashIs(perms, n); }
  }

  lemma ClashIsWhy(segs: seq<Segment>, perms: map<nat, (bool, bool)>, n: nat, within: nat)
    requires forall k :: 0 <= k < |segs| ==> SegmentPages(segs[k]).Ok?
    requires perms.Keys == AllPages(segs) && forall n :: n in perms ==> perms[n] == Perms(segs, n)
    requires IsLeast(Clashes(perms), n)
    ensures Why(segs, WriteExecutePage(n), within)
  {
    forall m: nat ensures m in Clashes(perms) <==> Clashing(segs, m) { ClashesAre(segs, perms, m); }
  }

  lemma StackIsWhy(segs: seq<Segment>, perms: map<nat, (bool, bool)>, within: nat)
    requires forall k :: 0 <= k < |segs| ==> SegmentPages(segs[k]).Ok?
    requires perms.Keys == AllPages(segs) && forall n :: n in perms ==> perms[n] == Perms(segs, n)
    requires Clashes(perms) == {} && !(AllPages(segs) !! StackPages())
    ensures Why(segs, MapFailed(AlreadyMapped), within)
  {
    forall m: nat ensures !Clashing(segs, m) { ClashesAre(segs, perms, m); }
    var n :| n in AllPages(segs) && n in StackPages();
    PagesAre(segs, n);
  }

  method Fill(space: Space, segs: seq<Segment>) returns (r: Result<(), LoadError>)
    requires space.Valid() && space.pages == map[] && |space.owned| == 1
    requires forall k :: 0 <= k < |segs| ==> SegmentOk(segs[k]) && SegmentPages(segs[k]).Ok?
    modifies space, space.ram
    ensures Kept(space, old(space.Others()), old(space.ram.mem))
    ensures r.Ok? ==> Loaded(segs, space.pages, space.ram.mem)
    ensures r.Ok? ==> |space.owned| <= Enough(segs)
    ensures space.Within() == old(space.Within()) && (r.Err? ==> Why(segs, r.error, space.Within()))
  {
    r := LoadSegments(space, segs);
    if r.Err? {
      return;
    }
    ghost var p0, m0 := space.pages, space.ram.mem;
    var perms := Permissions(segs);
    r := ApplyPermissions(space, perms);
    if r.Err? {
      ClashIsWhy(segs, perms, r.error.n, space.Within());
      return;
    }
    ghost var p1 := space.pages;
    r := MapStack(space);
    if r.Ok? {
      LoadedIs(segs, perms, p0, p1, space.pages, m0, space.ram.mem);
    } else if r.error == MapFailed(AlreadyMapped) {
      StackIsWhy(segs, perms, space.Within());
    }
  }

  /** Fills a fresh space, or drops it; it is not the one in use. */
  method LoadInto(space: Space, segs: seq<Segment>, active: nat) returns (r: Result<(), LoadError>)
    requires space.Valid() && space.pages == map[] && forall k :: 0 <= k < |segs| ==> SegmentOk(segs[k])
    requires active != space.root && |space.owned| == 1
    modifies space, space.ram
    ensures space.ram.Valid() && space.ram.mem.Keys == old(space.ram.mem).Keys
    ensures forall f :: f in old(space.Others()) ==> space.ram.mem[f] == old(space.ram.mem)[f]
    ensures r.Ok? ==> space.Valid() && space.Others() == old(space.Others()) && Loaded(segs, space.pages, space.ram.mem)
    ensures r.Err? ==> space.ram.Taken() == old(space.Others())
    ensures FirstRefusal(segs).Some? ==> r == Err(FirstRefusal(segs).value)
    ensures FirstRefusal(segs).None? && r.Err? ==> Why(segs, r.error, old(space.Within()))
    ensures r.Ok? ==> space.Within() == old(space.Within()) && |space.owned| <= Enough(segs)
  {
    var refusal := Validate(segs);
    NoRefusal(segs);
    if refusal.Some? {
      space.Drop(active);
      return Err(refusal.value);
    }
    r := Fill(space, segs);
    if r.Err? {
      space.Drop(active);
    }
  }

  datatype Process = Process(space: Space, entry: nat, stackTop: nat)

  /**
   Loads a program, or fails and gives back every frame it took. Nobody else's memory is
   touched either way. A segment out of bounds is refused before anything is mapped, and every
   other failure has one of three reasons; with four frames a page and one for the root it is
   not for want of memory.
   */
  method FromElf(ram: Ram, bytes: seq<Byte>, kernelRoot: nat, active: nat) returns (r: Result<Process, LoadError>)
    requires ram.Valid() && kernelRoot in ram.Taken() && active in ram.Taken()
    modifies ram
    ensures ram.Valid()
    ensures r.Err? ==> ram.Taken() == old(ram.Taken())
    ensures forall f :: f in old(ram.Taken()) ==> f in ram.mem && ram.mem[f] == old(ram.mem)[f]
    ensures Parse(bytes).Err? ==> r == Err(BadElf(Parse(bytes).error))
    ensures r.Ok? ==>
      Parse(bytes).Ok? && r.value.entry == Parse(bytes).value.entry && r.value.stackTop == STACK_TOP_PAGE * 4096
    ensures r.Ok? ==> fresh(r.value.space) && r.value.space.ram == ram && r.value.space.Valid()
    ensures r.Ok? ==>
      r.value.space.Others() == old(ram.Taken()) && Loaded(Segments(bytes), r.value.space.pages, ram.mem)
    ensures r.Ok? ==> FirstRefusal(Segments(bytes)).None?
    ensures r.Ok? ==> |old(ram.pool)| <= |ram.pool| + Enough(Segments(bytes))
    ensures Parse(bytes).Ok? ==> (r == Err(OutOfMemory) <==> old(ram.pool) == [])
    ensures Parse(bytes).Ok? && r.Err? && r.error != OutOfMemory ==>
              if FirstRefusal(Segments(bytes)).Some? then r.error == FirstRefusal(Segments(bytes)).value
              else Why(Segments(bytes), r.error, |old(ram.pool)|)
  {
    var parsed := Parse(bytes);
    if parsed.Err? {
      return Err(BadElf(parsed.error));
    }
    var segs := Segments(bytes);
    ParsedSegmentsOk(bytes);
    var space := NewSpace(ram, kernelRoot);
    if space == null {
      return Err(OutOfMemory);
    }
    var loaded := LoadInto(space, segs, active);
    r := if loaded.Ok? then Ok(Process(space, parsed.value.entry, STACK_TOP_PAGE * 4096)) else Err(loaded.error);
  }
}
