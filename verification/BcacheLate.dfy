/**
 A run in which a write the driver gave up on reaches the disk after newer bytes were
 written, acknowledged by `sync` and evicted: the block then reads as the older bytes.
 */
module BcacheLate {
  import opened Wrappers
  import opened BcacheSpec
  import opened BcacheInv
  import opened BcacheTheorems

  const K := Key(0, 0)
  const OTHER := Key(0, 1)

  /** A cache of one slot. */
  function One(c: Cell, disk: map<Key, Block>, durable: map<Key, nat>, clock: nat,
               strays: multiset<(Key, Block)>): Sys {
    Sys([c], disk, durable, clock, strays, map[])
  }

  function Held(state: SlotState, frame: Block, job: Job, version: nat): Cell {
    Cell(K, state, 0, false, frame, false, false, job, multiset{}, version)
  }

  function Begin(): Sys { One(FreeCell(), map[], map[], 0, multiset{}) }

  function Stray(a: Block): multiset<(Key, Block)> { multiset{(K, a)} }

  /** The first bytes stored, their writeback begun and abandoned. */
  function Abandoned(a: Block): Sys { One(Held(Dirty, a, NoJob, 1), map[], map[], 1, Stray(a)) }

  /** The second bytes stored, written and acknowledged. */
  function Written(a: Block, b: Block): Sys { One(Held(Clean, b, NoJob, 2), map[K := b], map[K := 2], 2, Stray(a)) }

  function FirstWrite(a: Block): seq<Step> { [Store(K, a), BeginWriteback(0), DropWriteback(0)] }

  function SecondWrite(b: Block): seq<Step> { [Store(K, b)] + Flush() }

  lemma Leads(s: Sys, step: Step, rest: seq<Step>, end: Sys)
    requires Enabled(s, step) && IsRun(Stepped(s, step), rest) && After(Stepped(s, step), rest) == end
    ensures IsRun(s, [step] + rest) && After(s, [step] + rest) == end
  {
    assert ([step] + rest)[1..] == rest;
  }

  lemma StoresFirst(a: Block)
    requires |a| == BLOCK_BYTES
    ensures IsRun(Begin(), FirstWrite(a)) && After(Begin(), FirstWrite(a)) == Abandoned(a)
  {
    var s1 := One(Held(Dirty, a, NoJob, 1), map[], map[], 1, multiset{});
    var s2 := One(Held(InFlight, a, Writing(None), 1), map[], map[], 1, multiset{});
    assert Stepped(Begin(), Store(K, a)) == s1;
    assert Stepped(s1, BeginWriteback(0)) == s2;
    assert Stepped(s2, DropWriteback(0)) == Abandoned(a);
    Leads(s2, DropWriteback(0), [], Abandoned(a));
    Leads(s1, BeginWriteback(0), [DropWriteback(0)], Abandoned(a));
    Leads(Begin(), Store(K, a), [BeginWriteback(0), DropWriteback(0)], Abandoned(a));
    assert FirstWrite(a) == [Store(K, a)] + ([BeginWriteback(0)] + ([DropWriteback(0)] + []));
  }

  function Flush(): seq<Step> { [BeginWriteback(0), WriteDone(0, true, []), FinishWriteback(0)] }

  function Rewritten(a: Block, b: Block): Sys { One(Held(Dirty, b, NoJob, 2), map[], map[], 2, Stray(a)) }

  lemma Flushes(a: Block, b: Block)
    ensures IsRun(Rewritten(a, b), Flush()) && After(Rewritten(a, b), Flush()) == Written(a, b)
  {
    var s1 := Rewritten(a, b);
    var s2 := One(Held(InFlight, b, Writing(None), 2), map[], map[], 2, Stray(a));
    var s3 := One(Held(InFlight, b, Writing(Some(true)), 2), map[K := b], map[K := 2], 2, Stray(a));
    assert Stepped(s1, BeginWriteback(0)) == s2;
    assert Stepped(s2, WriteDone(0, true, [])) == s3;
    assert Stepped(s3, FinishWriteback(0)) == Written(a, b);
    Leads(s3, FinishWriteback(0), [], Written(a, b));
    Leads(s2, WriteDone(0, true, []), [FinishWriteback(0)], Written(a, b));
    Leads(s1, BeginWriteback(0), [WriteDone(0, true, []), FinishWriteback(0)], Written(a, b));
    assert Flush() == [BeginWriteback(0)] + ([WriteDone(0, true, [])] + ([FinishWriteback(0)] + []));
  }

  lemma StoresSecond(a: Block, b: Block)
    requires |b| == BLOCK_BYTES
    ensures IsRun(Abandoned(a), SecondWrite(b)) && After(Abandoned(a), SecondWrite(b)) == Written(a, b)
  {
    assert Stepped(Abandoned(a), Store(K, b)) == Rewritten(a, b);
    Flushes(a, b);
    Leads(Abandoned(a), Store(K, b), Flush(), Written(a, b));
  }

  function Late(a: Block): seq<Step> { [LateLanding(K, a)] + ([Claim(OTHER)] + []) }

  function Reused(a: Block, b: Block): Sys {
    One(Held(InFlight, b, Reading(None), 2).(key := OTHER, filling := true), map[K := a], map[K := 2], 2, multiset{})
  }

  lemma Reuses(a: Block, b: Block)
    ensures IsRun(Written(a, b), Late(a)) && After(Written(a, b), Late(a)) == Reused(a, b)
  {
    var s1 := One(Held(Clean, b, NoJob, 2), map[K := a], map[K := 2], 2, multiset{});
    assert Stepped(Written(a, b), LateLanding(K, a)) == s1;
    assert Stepped(s1, Claim(OTHER)) == Reused(a, b);
    Leads(s1, Claim(OTHER), [], Reused(a, b));
    Leads(Written(a, b), LateLanding(K, a), [Claim(OTHER)] + [], Reused(a, b));
  }

  /**
   From there nothing is owed, so a `sync` returns `Ok` at once; the abandoned write lands,
   the slot is reused for another block, and a reader is given the older bytes.
   */
  lemma LateLandingLosesBytes(a: Block, b: Block)
    requires |a| == BLOCK_BYTES && |b| == BLOCK_BYTES && a != b
    ensures IsRun(Begin(), FirstWrite(a)) && After(Begin(), FirstWrite(a)) == Abandoned(a)
    ensures IsRun(Abandoned(a), SecondWrite(b)) && After(Abandoned(a), SecondWrite(b)) == Written(a, b)
    ensures UnsyncedSlots(Written(a, b)) == {} && View(Written(a, b), K) == b
    ensures !Harmless(Written(a, b), K, a)
    ensures IsRun(Written(a, b), Late(a)) && View(After(Written(a, b), Late(a)), K) == a
  {
    StoresFirst(a);
    StoresSecond(a, b);
    Reuses(a, b);
    assert View(Written(a, b), K) == b;
    assert View(Reused(a, b), K) == a;
  }
}
