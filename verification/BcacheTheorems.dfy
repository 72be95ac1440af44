/** What the buffer cache promises its callers over every run. */
module BcacheTheorems {
  import opened Wrappers
  import opened BcacheSpec
  import opened BcacheInv

  // ---- The view, one slot at a time ----

  function ViewAt(s: Sys, i: nat, k: Key): Block
    requires i < |s.cells|
  {
    if s.cells[i].Holds(k) && !s.cells[i].filling then s.cells[i].frame else DiskAt(s, k)
  }

  ghost predicate HeldElsewhere(s: Sys, i: nat, k: Key) {
    exists j: nat :: j < |s.cells| && j != i && s.cells[j].Holds(k)
  }

  lemma ViewIs(s: Sys, i: nat, k: Key)
    requires Inv(s) && i < |s.cells| && !HeldElsewhere(s, i, k)
    ensures View(s, k) == ViewAt(s, i, k)
  {
    var j := Lookup(s.cells, k);
    assert j == |s.cells| || j == i;
  }

  lemma ViewHeld(s: Sys, j: nat, k: Key)
    requires Inv(s) && j < |s.cells| && s.cells[j].Holds(k)
    ensures View(s, k) == ViewAt(s, j, k)
  {
    LookupFinds(s, j);
  }

  /** One slot rewritten, and the disk only where that slot's block lives. */
  predicate Local(s: Sys, s': Sys, i: nat) {
    && i < |s.cells| == |s'.cells| && s'.cells == s.cells[i := s'.cells[i]]
    && (|| s'.disk == s.disk
        || (&& s.cells[i].state != Free && s.cells[i].key in s'.disk
            && s'.disk == s.disk[s.cells[i].key := s'.disk[s.cells[i].key]]))
  }

  function Expected(s: Sys, step: Step, k: Key): Block {
    if step.Store? && step.key == k then step.data else View(s, k)
  }

  predicate MeetsAt(s: Sys, s': Sys, i: nat, step: Step, k: Key)
    requires i < |s.cells| == |s'.cells|
  {
    ViewAt(s', i, k) == if step.Store? && step.key == k then step.data else ViewAt(s, i, k)
  }

  /** The rewritten slot gives the block it held and the block it now holds the bytes expected of them. */
  predicate Meets(s: Sys, s': Sys, i: nat, step: Step)
    requires i < |s.cells| == |s'.cells|
  {
    && MeetsAt(s, s', i, step, s.cells[i].key)
    && MeetsAt(s, s', i, step, s'.cells[i].key)
    && (step.Store? ==> s'.cells[i].Holds(step.key))
  }

  lemma Elsewhere(s: Sys, s': Sys, i: nat, k: Key)
    requires Local(s, s', i)
    ensures HeldElsewhere(s, i, k) <==> HeldElsewhere(s', i, k)
  {
    assert forall j: nat :: j < |s.cells| && j != i ==> s'.cells[j] == s.cells[j];
  }

  lemma DataKept(s: Sys, s': Sys, i: nat)
    requires Inv(s) && DataInv(s) && Local(s, s', i) && DataOk(s', i)
    ensures DataInv(s')
  {
    forall j: nat ensures DataOk(s', j) {
      assert DataOk(s, j);
      assert Apart(s, i, j);
      assert j != i && j < |s.cells| ==> s'.cells[j] == s.cells[j];
    }
  }

  lemma LocalView(s: Sys, s': Sys, i: nat, step: Step, k: Key)
    requires Inv(s) && Inv(s') && Local(s, s', i) && Meets(s, s', i, step)
    ensures View(s', k) == Expected(s, step, k)
  {
    Elsewhere(s, s', i, k);
    if HeldElsewhere(s, i, k) {
      var j: nat :| j < |s.cells| && j != i && s.cells[j].Holds(k);
      assert s'.cells[j] == s.cells[j];
      assert Apart(s, i, j) && Apart(s', i, j);
      ViewHeld(s, j, k);
      ViewHeld(s', j, k);
    } else {
      ViewIs(s, i, k);
      ViewIs(s', i, k);
    }
  }

  lemma LocalRefines(s: Sys, step: Step, i: nat)
    requires Inv(s) && DataInv(s) && Enabled(s, step) && Exec(s, step).Next?
    requires Local(s, Exec(s, step).s, i) && DataOk(Exec(s, step).s, i) && Meets(s, Exec(s, step).s, i, step)
    ensures StepRefines(s, step)
  {
    StepInv(s, step);
    DataKept(s, Exec(s, step).s, i);
    forall k ensures View(Exec(s, step).s, k) == Expected(s, step, k) {
      LocalView(s, Exec(s, step).s, i, step, k);
    }
  }

  // ---- Each step keeps the data and changes the view only by storing ----

  ghost predicate StepRefines(s: Sys, step: Step)
    requires Enabled(s, step)
  {
    Exec(s, step).Next? ==>
      && DataInv(Exec(s, step).s)
      && (forall k {:trigger View(Exec(s, step).s, k)} :: View(Exec(s, step).s, k) == Expected(s, step, k))
  }

  lemma ClaimHitRefines(s: Sys, key: Key)
    requires Inv(s) && DataInv(s) && Enabled(s, Claim(key)) && Lookup(s.cells, key) < |s.cells|
    ensures StepRefines(s, Claim(key))
  {
    var i := Lookup(s.cells, key);
    assert CellInv(s, i) && DataOk(s, i);
    if Exec(s, Claim(key)).Next? {
      LocalRefines(s, Claim(key), i);
    }
  }

  lemma ClaimMissRefines(s: Sys, key: Key)
    requires Inv(s) && DataInv(s) && Enabled(s, Claim(key)) && Lookup(s.cells, key) == |s.cells|
    ensures StepRefines(s, Claim(key))
  {
    RoomIs(s, key);
    if Exec(s, Claim(key)).Next? {
      var i := ClaimFreeSlot(s, key).i;
      assert CellInv(s, i) && DataOk(s, i);
      LocalRefines(s, Claim(key), i);
    }
  }

  lemma StoreHitRefines(s: Sys, key: Key, data: Block)
    requires Inv(s) && DataInv(s) && Enabled(s, Store(key, data)) && Lookup(s.cells, key) < |s.cells|
    ensures StepRefines(s, Store(key, data))
  {
    var i := Lookup(s.cells, key);
    assert CellInv(s, i) && DataOk(s, i);
    if Exec(s, Store(key, data)).Next? {
      LocalRefines(s, Store(key, data), i);
    }
  }

  lemma StoreMissRefines(s: Sys, key: Key, data: Block)
    requires Inv(s) && DataInv(s) && Enabled(s, Store(key, data)) && Lookup(s.cells, key) == |s.cells|
    ensures StepRefines(s, Store(key, data))
  {
    StoreMissIs(s, key, data);
    if Exec(s, Store(key, data)).Next? {
      var i := ClaimFreeSlot(s, key).i;
      assert CellInv(s, i) && DataOk(s, i);
      LocalRefines(s, Store(key, data), i);
    }
  }

  lemma ReadRefines(s: Sys, step: Step)
    requires Inv(s) && DataInv(s) && Enabled(s, step)
    requires step.ReadProgress? || step.ReadDone?
    ensures StepRefines(s, step)
  {
    assert CellInv(s, step.i) && DataOk(s, step.i);
    if Exec(s, step).Next? {
      LocalRefines(s, step, step.i);
    }
  }

  lemma DropRefRefines(s: Sys, step: Step)
    requires Inv(s) && DataInv(s) && Enabled(s, step)
    requires step.DropRef?
    ensures StepRefines(s, step)
  {
    assert CellInv(s, step.i) && DataOk(s, step.i);
    if Exec(s, step).Next? {
      LocalRefines(s, step, step.i);
    }
  }

  lemma FinishFillRefines(s: Sys, step: Step)
    requires Inv(s) && DataInv(s) && Enabled(s, step)
    requires step.FinishFill?
    ensures StepRefines(s, step)
  {
    assert CellInv(s, step.i) && DataOk(s, step.i);
    if Exec(s, step).Next? {
      LocalRefines(s, step, step.i);
    }
  }

  lemma DropFillRefines(s: Sys, step: Step)
    requires Inv(s) && DataInv(s) && Enabled(s, step)
    requires step.DropFill?
    ensures StepRefines(s, step)
  {
    assert CellInv(s, step.i) && DataOk(s, step.i);
    if Exec(s, step).Next? {
      LocalRefines(s, step, step.i);
    }
  }

  lemma BeginWritebackRefines(s: Sys, step: Step)
    requires Inv(s) && DataInv(s) && Enabled(s, step)
    requires step.BeginWriteback?
    ensures StepRefines(s, step)
  {
    assert CellInv(s, step.i) && DataOk(s, step.i);
    if Exec(s, step).Next? {
      LocalRefines(s, step, step.i);
    }
  }

  lemma WriteProgressRefines(s: Sys, step: Step)
    requires Inv(s) && DataInv(s) && Enabled(s, step)
    requires step.WriteProgress?
    ensures StepRefines(s, step)
  {
    assert CellInv(s, step.i) && DataOk(s, step.i);
    if Exec(s, step).Next? {
      LocalRefines(s, step, step.i);
    }
  }

  lemma WriteDoneRefines(s: Sys, i: nat, ok: bool, junk: Block)
    requires Inv(s) && DataInv(s) && Enabled(s, WriteDone(i, ok, junk))
    ensures StepRefines(s, WriteDone(i, ok, junk))
  {
    assert CellInv(s, i);
    var c := s.cells[i];
    var s' := Exec(s, WriteDone(i, ok, junk)).s;
    assert s'.cells[i] == c.(job := Writing(Some(ok)));
    assert s'.disk == s.disk[c.key := if ok then c.frame else junk];
    assert Local(s, s', i);
    assert DataOk(s', i);
    assert Meets(s, s', i, WriteDone(i, ok, junk));
    LocalRefines(s, WriteDone(i, ok, junk), i);
  }

  lemma WritebackEndRefines(s: Sys, step: Step)
    requires Inv(s) && DataInv(s) && Enabled(s, step)
    requires step.FinishWriteback? || step.DropWriteback?
    ensures StepRefines(s, step)
  {
    assert CellInv(s, step.i) && DataOk(s, step.i);
    if Exec(s, step).Next? {
      LocalRefines(s, step, step.i);
    }
  }

  lemma SyncRefines(s: Sys, step: Step)
    requires Inv(s) && DataInv(s) && Enabled(s, step)
    requires step.SyncStart? || step.SyncFail? || step.SyncReturn?
    ensures StepRefines(s, step)
  {
    var s' := Exec(s, step).s;
    assert s'.cells == s.cells && s'.disk == s.disk;
    forall i: nat ensures DataOk(s', i) { assert DataOk(s, i); }
    forall k ensures View(s', k) == View(s, k) {}
  }

  // ---- Late landings ----

  /** What a late write puts on the disk: all of it, or anything at all while it is under way. */
  function Landing(step: Step): Block
    requires step.LateProgress? || step.LateLanding?
  {
    if step.LateProgress? then step.junk else step.bytes
  }

  /** Bytes of a write given up on land where they already are, or under a newer write still to come. */
  predicate Harmless(s: Sys, k: Key, bytes: Block) {
    var i := Lookup(s.cells, k);
    || DiskAt(s, k) == bytes
    || (i < |s.cells| && s.cells[i].Unsynced() && s.cells[i].job != Writing(Some(true)))
  }

  lemma HarmlessLands(s: Sys, s': Sys, k: Key, bytes: Block)
    requires Inv(s) && DataInv(s) && Harmless(s, k, bytes) && s'.cells == s.cells && s'.disk == s.disk[k := bytes]
    ensures DataInv(s') && forall q {:trigger View(s', q)} :: View(s', q) == View(s, q)
  {
    var i := Lookup(s.cells, k);
    assert i < |s.cells| ==> CellInv(s, i) && DataOk(s, i);
    forall j: nat ensures DataOk(s', j) {
      assert DataOk(s, j);
      if j < |s.cells| && s.cells[j].Holds(k) {
        LookupFinds(s, j);
      }
    }
    forall q ensures View(s', q) == View(s, q) {}
  }

  lemma HarmfulLands(s: Sys, s': Sys, k: Key, bytes: Block)
    requires Inv(s) && DataInv(s) && !Harmless(s, k, bytes) && s'.cells == s.cells && s'.disk == s.disk[k := bytes]
    ensures !DataInv(s') || View(s', k) != View(s, k)
  {
    var i := Lookup(s.cells, k);
    assert DiskAt(s', k) == bytes;
    assert i < |s.cells| ==> CellInv(s, i) && DataOk(s, i);
    if i < |s.cells| && !s.cells[i].filling {
      assert !DataOk(s', i);
    }
  }

  /**
   A late write, whole or torn, leaves the cache's belief about the disk true and every
   block's view alone just when what it puts there is harmless.
   */
  lemma LateLandingExactly(s: Sys, step: Step)
    requires Inv(s) && DataInv(s) && Enabled(s, step) && (step.LateProgress? || step.LateLanding?)
    ensures StepRefines(s, step) <==> Harmless(s, step.k, Landing(step))
  {
    var s' := Exec(s, step).s;
    if Harmless(s, step.k, Landing(step)) {
      HarmlessLands(s, s', step.k, Landing(step));
    } else {
      HarmfulLands(s, s', step.k, Landing(step));
      assert StepRefines(s, step) ==> View(s', step.k) == Expected(s, step, step.k);
    }
  }

  predicate Calm(s: Sys, step: Step) {
    step.LateProgress? || step.LateLanding? ==> Harmless(s, step.k, Landing(step))
  }

  /**
   Every step, in whatever order the interleaving takes them, changes what readers are owed
   only by a store, and only at its block, exactly when it is not a harmful late landing.
   */
  lemma StepViewExactly(s: Sys, step: Step)
    requires Inv(s) && DataInv(s) && Enabled(s, step)
    ensures StepRefines(s, step) <==> Calm(s, step)
  {
    match step
    case Claim(key) =>
      if Lookup(s.cells, key) < |s.cells| { ClaimHitRefines(s, key); } else { ClaimMissRefines(s, key); }
    case Store(key, data) =>
      if Lookup(s.cells, key) < |s.cells| { StoreHitRefines(s, key, data); } else { StoreMissRefines(s, key, data); }
    case ReadProgress(_, _) => ReadRefines(s, step);
    case ReadDone(_, _, _) => ReadRefines(s, step);
    case FinishFill(_) => FinishFillRefines(s, step);
    case DropFill(_) => DropFillRefines(s, step);
    case DropRef(_, _) => DropRefRefines(s, step);
    case BeginWriteback(_) => BeginWritebackRefines(s, step);
    case WriteProgress(_, _) => WriteProgressRefines(s, step);
    case WriteDone(i, ok, junk) => WriteDoneRefines(s, i, ok, junk);
    case FinishWriteback(_) => WritebackEndRefines(s, step);
    case DropWriteback(_) => WritebackEndRefines(s, step);
    case LateProgress(_, _, _) => LateLandingExactly(s, step);
    case LateLanding(_, _) => LateLandingExactly(s, step);
    case SyncStart(_) => SyncRefines(s, step);
    case SyncFail(_, _) => SyncRefines(s, step);
    case SyncReturn(_) => SyncRefines(s, step);
  }

  // ---- Runs ----

  /** The state a step leaves: a refused claim or store changes nothing. */
  function Stepped(s: Sys, step: Step): Sys
    requires Enabled(s, step)
  {
    if Exec(s, step).Next? then Exec(s, step).s else s
  }

  predicate IsRun(s: Sys, steps: seq<Step>)
    decreases steps
  {
    steps == [] || (Enabled(s, steps[0]) && IsRun(Stepped(s, steps[0]), steps[1..]))
  }

  function After(s: Sys, steps: seq<Step>): Sys
    requires IsRun(s, steps)
    decreases steps
  {
    if steps == [] then s else After(Stepped(s, steps[0]), steps[1..])
  }

  predicate CalmRun(s: Sys, steps: seq<Step>)
    requires IsRun(s, steps)
    decreases steps
  {
    steps == [] || (Calm(s, steps[0]) && CalmRun(Stepped(s, steps[0]), steps[1..]))
  }

  /** The bytes last stored to `k` along a run, or `now` if none were. */
  function LastStored(s: Sys, steps: seq<Step>, k: Key, now: Block): Block
    requires IsRun(s, steps)
    decreases steps
  {
    if steps == [] then now
    else
      var stored := steps[0].Store? && steps[0].key == k && Exec(s, steps[0]).Next?;
      LastStored(Stepped(s, steps[0]), steps[1..], k, if stored then steps[0].data else now)
  }

  predicate NoPanics(s: Sys, steps: seq<Step>)
    requires IsRun(s, steps)
    decreases steps
  {
    steps == [] || (Exec(s, steps[0]) != Panic && NoPanics(Stepped(s, steps[0]), steps[1..]))
  }

  /** No assertion, `expect` or `unreachable!` in the cache can fire, on any run at all. */
  lemma {:induction false} RunInv(s: Sys, steps: seq<Step>)
    requires Inv(s) && IsRun(s, steps)
    ensures NoPanics(s, steps) && Inv(After(s, steps))
    decreases steps
  {
    if steps != [] {
      StepInv(s, steps[0]);
      RunInv(Stepped(s, steps[0]), steps[1..]);
    }
  }

  /** The cache is a block store: after any calm run each block reads as last stored. */
  lemma {:induction false} RunView(s: Sys, steps: seq<Step>, k: Key)
    requires Inv(s) && DataInv(s) && IsRun(s, steps) && CalmRun(s, steps)
    ensures DataInv(After(s, steps))
    ensures View(After(s, steps), k) == LastStored(s, steps, k, View(s, k))
    decreases steps
  {
    if steps != [] {
      StepInv(s, steps[0]);
      StepViewExactly(s, steps[0]);
      RunView(Stepped(s, steps[0]), steps[1..], k);
    }
  }

  // ---- What a step may do to a slot ----

  /** The slot a step works on, or the table's size. */
  function Touched(s: Sys, step: Step): nat {
    match step
    case Claim(key) => TouchedFor(s, key)
    case Store(key, _) => TouchedFor(s, key)
    case LateProgress(_, _, _) => |s.cells|
    case LateLanding(_, _) => |s.cells|
    case SyncStart(_) => |s.cells|
    case SyncFail(_, _) => |s.cells|
    case SyncReturn(_) => |s.cells|
    case _ => step.i
  }

  function TouchedFor(s: Sys, key: Key): nat {
    var i := Lookup(s.cells, key);
    if i < |s.cells| then i else if ClaimFreeSlot(s, key).Room? then ClaimFreeSlot(s, key).i else |s.cells|
  }

  /**
   What a step may do to a slot: take a reference away only by dropping it; let go of
   unsynced bytes only once the disk has them; make bytes unsynced only by storing them.
   */
  predicate Fate(step: Step, c: Cell, c': Cell) {
    && (step.DropRef? || c.refs <= c'.refs)
    && (c.Unsynced() ==>
          && c'.Holds(c.key) && c'.version >= c.version
          && (c'.Unsynced() || (c'.state == Clean && Agrees(c))))
    && (c'.Unsynced() && !(c.Unsynced() && c.key == c'.key) ==> step.Store? && step.key == c'.key)
  }

  /** A step rewrites at most one slot, and that one within its fate. */
  predicate Moves(s: Sys, step: Step, s': Sys, t: nat) {
    if t < |s.cells|
    then |s'.cells| == |s.cells| && s'.cells == s.cells[t := s'.cells[t]] && Fate(step, s.cells[t], s'.cells[t])
    else s'.cells == s.cells
  }

  lemma HitMoves(s: Sys, step: Step)
    requires Inv(s) && Enabled(s, step) && (step.Claim? || step.Store?) && Exec(s, step).Next?
    requires Lookup(s.cells, step.key) < |s.cells|
    ensures Moves(s, step, Exec(s, step).s, Lookup(s.cells, step.key))
  {
    assert CellInv(s, Lookup(s.cells, step.key));
  }

  lemma ClaimMissMoves(s: Sys, key: Key)
    requires Inv(s) && Enabled(s, Claim(key)) && Lookup(s.cells, key) == |s.cells| && Exec(s, Claim(key)).Next?
    ensures Moves(s, Claim(key), Exec(s, Claim(key)).s, TouchedFor(s, key))
  {
    RoomIs(s, key);
    assert CellInv(s, TouchedFor(s, key));
  }

  lemma StoreMissMoves(s: Sys, key: Key, data: Block)
    requires Inv(s) && Enabled(s, Store(key, data)) && Lookup(s.cells, key) == |s.cells|
    requires Exec(s, Store(key, data)).Next?
    ensures Moves(s, Store(key, data), Exec(s, Store(key, data)).s, TouchedFor(s, key))
  {
    StoreMissIs(s, key, data);
    assert CellInv(s, TouchedFor(s, key));
  }

  lemma ReadMoves(s: Sys, step: Step)
    requires Inv(s) && Enabled(s, step) && Exec(s, step).Next?
    requires step.ReadProgress? || step.ReadDone? || step.DropRef?
    ensures Moves(s, step, Exec(s, step).s, step.i)
  {
    assert CellInv(s, step.i);
  }

  lemma FillEndMoves(s: Sys, step: Step)
    requires Inv(s) && Enabled(s, step) && Exec(s, step).Next?
    requires step.FinishFill? || step.DropFill?
    ensures Moves(s, step, Exec(s, step).s, step.i)
  {
    assert CellInv(s, step.i);
  }

  lemma WriteMoves(s: Sys, step: Step)
    requires Inv(s) && Enabled(s, step) && Exec(s, step).Next?
    requires step.BeginWriteback? || step.WriteProgress? || step.WriteDone?
    ensures Moves(s, step, Exec(s, step).s, step.i)
  {
    assert CellInv(s, step.i);
  }

  lemma WritebackEndMoves(s: Sys, step: Step)
    requires Inv(s) && Enabled(s, step) && Exec(s, step).Next?
    requires step.FinishWriteback? || step.DropWriteback?
    ensures Moves(s, step, Exec(s, step).s, step.i)
  {
    assert CellInv(s, step.i);
  }

  lemma StepMoves(s: Sys, step: Step)
    requires Inv(s) && Enabled(s, step) && Exec(s, step).Next?
    ensures Moves(s, step, Exec(s, step).s, Touched(s, step))
  {
    match step
    case Claim(key) => if Lookup(s.cells, key) < |s.cells| { HitMoves(s, step); } else { ClaimMissMoves(s, key); }
    case Store(key, data) =>
      if Lookup(s.cells, key) < |s.cells| { HitMoves(s, step); } else { StoreMissMoves(s, key, data); }
    case ReadProgress(_, _) => ReadMoves(s, step);
    case ReadDone(_, _, _) => ReadMoves(s, step);
    case FinishFill(_) => FillEndMoves(s, step);
    case DropFill(_) => FillEndMoves(s, step);
    case DropRef(_, _) => ReadMoves(s, step);
    case BeginWriteback(_) => WriteMoves(s, step);
    case WriteProgress(_, _) => WriteMoves(s, step);
    case WriteDone(_, _, _) => WriteMoves(s, step);
    case FinishWriteback(_) => WritebackEndMoves(s, step);
    case DropWriteback(_) => WritebackEndMoves(s, step);
    case _ =>
  }

  lemma StepFate(s: Sys, step: Step, i: nat)
    requires Inv(s) && Enabled(s, step) && i < |s.cells|
    ensures |Stepped(s, step).cells| == |s.cells|
    ensures Fate(step, s.cells[i], Stepped(s, step).cells[i])
    ensures i != Touched(s, step) ==> Stepped(s, step).cells[i] == s.cells[i]
  {
    if Exec(s, step).Next? {
      StepMoves(s, step);
    }
  }

  // ---- Readers ----

  /** A hit hands its reader the bytes the block is owed, and pins the slot they are in. */
  lemma HitReturnsView(s: Sys, key: Key)
    requires Inv(s) && Enabled(s, Claim(key)) && Exec(s, Claim(key)).Next? && Lookup(s.cells, key) < |s.cells|
    ensures var i := Lookup(s.cells, key);
            && Exec(s, Claim(key)).s.cells[i].refs == s.cells[i].refs + multiset{Ref(key, View(s, key))}
            && Exec(s, Claim(key)).s.cells[i].pins == s.cells[i].pins + 1
  {
    assert CellInv(s, Lookup(s.cells, key));
  }

  /** A finished fill hands its reader the bytes the block is owed; a failed one frees the slot. */
  lemma FillReturnsView(s: Sys, i: nat)
    requires Inv(s) && DataInv(s) && Enabled(s, FinishFill(i))
    ensures Exec(s, FinishFill(i)).Next?
    ensures var c := Exec(s, FinishFill(i)).s.cells[i];
            var key := s.cells[i].key;
            if s.cells[i].job.done.value
            then c.state == Clean && c.refs == multiset{Ref(key, View(s, key))} && !c.filling
            else c.state == Free
  {
    assert CellInv(s, i) && DataOk(s, i);
    LookupFinds(s, i);
    assert s.cells[i].refs == multiset{};
  }

  /** While a reference is out its slot keeps its block, and the bytes seen through it are the block's. */
  lemma ReferenceIsCurrent(s: Sys, i: nat, r: Ref)
    requires Inv(s) && i < |s.cells| && r in s.cells[i].refs
    ensures s.cells[i].Holds(r.key) && s.cells[i].frame == r.bytes
    ensures View(s, r.key) == r.bytes
  {
    assert CellInv(s, i);
    assert s.cells[i].pins > 0;
    LookupFinds(s, i);
  }

  /** How often a run drops a reference of this slot, key and bytes. */
  function Drops(steps: seq<Step>, i: nat, r: Ref): nat {
    if steps == [] then 0 else (if steps[0] == DropRef(i, r) then 1 else 0) + Drops(steps[1..], i, r)
  }

  lemma DropsOne(s: Sys, step: Step, i: nat, r: Ref)
    requires Inv(s) && Enabled(s, step) && step.DropRef? && i < |s.cells|
    ensures |Stepped(s, step).cells| == |s.cells|
    ensures Stepped(s, step).cells[i].refs[r] + (if step == DropRef(i, r) then 1 else 0) >= s.cells[i].refs[r]
  {
  }

  /** A step takes away at most the one reference it drops. */
  lemma RefsCount(s: Sys, step: Step, i: nat, r: Ref)
    requires Inv(s) && Enabled(s, step) && i < |s.cells|
    ensures |Stepped(s, step).cells| == |s.cells|
    ensures Stepped(s, step).cells[i].refs[r] + (if step == DropRef(i, r) then 1 else 0) >= s.cells[i].refs[r]
  {
    if step.DropRef? { DropsOne(s, step, i, r); } else { StepFate(s, step, i); }
  }

  /**
   Whatever runs, other readers of the same block dropping theirs included, a reference not
   yet dropped keeps its slot on its block and its bytes as they were when it was handed out.
   */
  lemma {:induction false} ReferenceHoldsStill(s: Sys, steps: seq<Step>, i: nat, r: Ref)
    requires Inv(s) && IsRun(s, steps) && i < |s.cells| && Drops(steps, i, r) < s.cells[i].refs[r]
    ensures i < |After(s, steps).cells| && r in After(s, steps).cells[i].refs
    ensures After(s, steps).cells[i].Holds(r.key) && After(s, steps).cells[i].frame == r.bytes
    ensures View(After(s, steps), r.key) == r.bytes
    decreases steps
  {
    if steps == [] {
      ReferenceIsCurrent(s, i, r);
    } else {
      StepInv(s, steps[0]);
      RefsCount(s, steps[0], i, r);
      ReferenceHoldsStill(Stepped(s, steps[0]), steps[1..], i, r);
    }
  }
}
