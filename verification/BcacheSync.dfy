/** What `sync` promises, whatever else runs beside it. */
module BcacheSync {
  import opened Wrappers
  import opened BcacheSpec
  import opened BcacheInv
  import opened BcacheTheorems

  /** Version `v` of block `k`, in slot `i` when it was owed, is on the disk or still on its way there. */
  predicate Owed(s: Sys, i: nat, k: Key, v: nat) {
    || DurableAt(s, k) >= v
    || (i < |s.cells| && s.cells[i].Holds(k) && s.cells[i].Unsynced() && s.cells[i].version >= v)
  }

  lemma ClaimsKeep(s: Sys, key: Key)
    ensures ClaimFreeSlot(s, key).Room? ==>
              ClaimFreeSlot(s, key).s == s.(cells := ClaimFreeSlot(s, key).s.cells)
  {
  }

  /** Claiming or storing touches neither the disk's history nor a `sync` in progress. */
  lemma OthersKept(s: Sys, step: Step)
    requires Enabled(s, step) && (step.Claim? || step.Store?)
    ensures Stepped(s, step).durable == s.durable && Stepped(s, step).syncs == s.syncs
  {
    ClaimsKeep(s, step.key);
  }

  lemma DurableGrows(s: Sys, step: Step, k: Key)
    requires Inv(s) && Enabled(s, step)
    ensures DurableAt(Stepped(s, step), k) >= DurableAt(s, k)
  {
    if step.Claim? || step.Store? {
      OthersKept(s, step);
    } else if step.WriteDone? {
      assert CellInv(s, step.i);
    }
  }

  lemma OwedStep(s: Sys, step: Step, i: nat, k: Key, v: nat)
    requires Inv(s) && Enabled(s, step) && Owed(s, i, k, v)
    ensures Owed(Stepped(s, step), i, k, v)
  {
    DurableGrows(s, step, k);
    if i < |s.cells| {
      StepFate(s, step, i);
      assert CellInv(s, i);
    }
  }

  lemma {:induction false} OwedRun(s: Sys, steps: seq<Step>, i: nat, k: Key, v: nat)
    requires Inv(s) && IsRun(s, steps) && Owed(s, i, k, v)
    ensures Owed(After(s, steps), i, k, v)
    decreases steps
  {
    if steps != [] {
      StepInv(s, steps[0]);
      OwedStep(s, steps[0], i, k, v);
      OwedRun(Stepped(s, steps[0]), steps[1..], i, k, v);
    }
  }

  lemma SyncKept(s: Sys, step: Step, id: nat)
    requires Enabled(s, step) && id in s.syncs && step != SyncReturn(id)
    ensures id in Stepped(s, step).syncs && Stepped(s, step).syncs[id].owed == s.syncs[id].owed
  {
    if step.Claim? || step.Store? {
      OthersKept(s, step);
    } else if step.ReadProgress? || step.ReadDone? || step.FinishFill? || step.DropFill? || step.DropRef? {
      ReadsOnly(s, step);
    } else if step.BeginWriteback? || step.WriteProgress? || step.WriteDone? {
      WritesOnly(s, step);
    } else if step.LateProgress? || step.LateLanding? {
      LateOnly(s, step);
    } else if step.FinishWriteback? || step.DropWriteback? {
      WritebackEndsOnly(s, step);
    }
  }

  lemma ReadsOnly(s: Sys, step: Step)
    requires Enabled(s, step)
    requires step.ReadProgress? || step.ReadDone? || step.FinishFill? || step.DropFill? || step.DropRef?
    ensures Stepped(s, step).syncs == s.syncs
  {
  }

  lemma WritesOnly(s: Sys, step: Step)
    requires Enabled(s, step)
    requires step.BeginWriteback? || step.WriteProgress? || step.WriteDone?
    ensures Stepped(s, step).syncs == s.syncs
  {
  }

  lemma LateOnly(s: Sys, step: Step)
    requires Enabled(s, step)
    requires step.LateProgress? || step.LateLanding?
    ensures Stepped(s, step).syncs == s.syncs
  {
  }

  lemma WritebackEndsOnly(s: Sys, step: Step)
    requires Enabled(s, step)
    requires step.FinishWriteback? || step.DropWriteback?
    ensures Stepped(s, step).syncs == s.syncs
  {
  }

  lemma {:induction false} SyncKeptRun(s: Sys, steps: seq<Step>, id: nat)
    requires IsRun(s, steps) && id in s.syncs && SyncReturn(id) !in steps
    ensures id in After(s, steps).syncs && After(s, steps).syncs[id].owed == s.syncs[id].owed
    decreases steps
  {
    if steps != [] {
      SyncKept(s, steps[0], id);
      assert forall step :: step in steps[1..] ==> step in steps;
      SyncKeptRun(Stepped(s, steps[0]), steps[1..], id);
    }
  }

  /** A `sync` begun in `s`, then any run at all, then its return. */
  predicate Syncs(s: Sys, steps: seq<Step>, id: nat) {
    && id !in s.syncs
    && IsRun(Exec(s, SyncStart(id)).s, steps) && SyncReturn(id) !in steps
    && Enabled(After(Exec(s, SyncStart(id)).s, steps), SyncReturn(id))
  }

  function AtReturn(s: Sys, steps: seq<Step>, id: nat): Sys
    requires Syncs(s, steps, id)
  {
    After(Exec(s, SyncStart(id)).s, steps)
  }

  /** `sync` returns `Ok`: no writeback of its own was refused. */
  predicate ReturnsOk(s: Sys, steps: seq<Step>, id: nat)
    requires Syncs(s, steps, id)
  {
    id in AtReturn(s, steps, id).syncs && AtReturn(s, steps, id).syncs[id].failed == {}
  }

  lemma ReturnsSynced(s: Sys, steps: seq<Step>, id: nat, i: nat)
    requires Syncs(s, steps, id) && ReturnsOk(s, steps, id)
    requires i < |s.cells| && s.cells[i].Unsynced() && i < |AtReturn(s, steps, id).cells|
    ensures !AtReturn(s, steps, id).cells[i].Unsynced()
  {
    var s1 := Exec(s, SyncStart(id)).s;
    SyncKeptRun(s1, steps, id);
    assert i in s1.syncs[id].owed;
  }

  /**
   When `sync` returns `Ok`, the disk has held a version at least as new as the one in the
   cache at entry, of every block dirty or under writeback then; slots may since have been
   written again, flushed by someone else, or reused.
   */
  lemma SyncIsDurable(s: Sys, steps: seq<Step>, id: nat, i: nat)
    requires Inv(s) && Syncs(s, steps, id) && ReturnsOk(s, steps, id)
    requires i < |s.cells| && s.cells[i].Unsynced()
    ensures DurableAt(AtReturn(s, steps, id), s.cells[i].key) >= s.cells[i].version
  {
    var s1 := Exec(s, SyncStart(id)).s;
    StepInv(s, SyncStart(id));
    OwedRun(s1, steps, i, s.cells[i].key, s.cells[i].version);
    if i < |AtReturn(s, steps, id).cells| {
      ReturnsSynced(s, steps, id, i);
    }
  }

  // ---- The bytes themselves ----

  ghost predicate Settled(s: Sys, k: Key) {
    forall j: nat {:trigger s.cells[j]} :: j < |s.cells| && s.cells[j].Holds(k) ==> !s.cells[j].Unsynced()
  }

  ghost predicate Owing(s: Sys, i: nat, k: Key) {
    || (i < |s.cells| && s.cells[i].Holds(k) && s.cells[i].Unsynced())
    || Settled(s, k)
  }

  predicate NoStore(steps: seq<Step>, k: Key) {
    forall step :: step in steps ==> !(step.Store? && step.key == k)
  }

  lemma SettledStep(s: Sys, step: Step, k: Key)
    requires Inv(s) && Enabled(s, step) && Settled(s, k) && !(step.Store? && step.key == k)
    ensures Settled(Stepped(s, step), k)
  {
    var s' := Stepped(s, step);
    forall j: nat | j < |s'.cells| && s'.cells[j].Holds(k) ensures !s'.cells[j].Unsynced() {
      if j < |s.cells| {
        StepFate(s, step, j);
      } else {
        SameSize(s, step);
      }
    }
  }

  lemma {:induction false} SettledRun(s: Sys, steps: seq<Step>, k: Key)
    requires Inv(s) && IsRun(s, steps) && Settled(s, k) && NoStore(steps, k)
    ensures Settled(After(s, steps), k)
    decreases steps
  {
    if steps != [] {
      StepInv(s, steps[0]);
      SettledStep(s, steps[0], k);
      SettledRun(Stepped(s, steps[0]), steps[1..], k);
    }
  }

  lemma SameSize(s: Sys, step: Step)
    requires Inv(s) && Enabled(s, step)
    ensures |Stepped(s, step).cells| == |s.cells|
  {
    if Exec(s, step).Next? {
      StepMoves(s, step);
    }
  }

  lemma OwingStep(s: Sys, step: Step, i: nat, k: Key)
    requires Inv(s) && Enabled(s, step) && Owing(s, i, k) && !(step.Store? && step.key == k)
    ensures Owing(Stepped(s, step), i, k)
  {
    if Settled(s, k) {
      SettledStep(s, step, k);
    } else {
      var s' := Stepped(s, step);
      StepInv(s, step);
      StepFate(s, step, i);
      forall j: nat | j < |s'.cells| && s'.cells[j].Holds(k) && !s'.cells[i].Unsynced()
        ensures !s'.cells[j].Unsynced() {
        assert Apart(s', i, j);
      }
    }
  }

  lemma {:induction false} OwingRun(s: Sys, steps: seq<Step>, i: nat, k: Key)
    requires Inv(s) && IsRun(s, steps) && Owing(s, i, k) && NoStore(steps, k)
    ensures Owing(After(s, steps), i, k)
    decreases steps
  {
    if steps != [] {
      StepInv(s, steps[0]);
      OwingStep(s, steps[0], i, k);
      OwingRun(Stepped(s, steps[0]), steps[1..], i, k);
    }
  }

  lemma {:induction false} NothingStored(s: Sys, steps: seq<Step>, k: Key, now: Block)
    requires IsRun(s, steps) && NoStore(steps, k)
    ensures LastStored(s, steps, k, now) == now
    decreases steps
  {
    if steps != [] {
      NothingStored(Stepped(s, steps[0]), steps[1..], k, now);
    }
  }

  lemma SettledDisk(s: Sys, k: Key)
    requires Inv(s) && DataInv(s) && Settled(s, k)
    ensures DiskAt(s, k) == View(s, k)
  {
    var i := Lookup(s.cells, k);
    if i < |s.cells| {
      assert CellInv(s, i) && DataOk(s, i);
    }
  }

  /**
   When `sync` returns `Ok`, the disk holds for every block exactly the bytes its last
   writer had stored when `sync` was called, unless it was stored again since.
   */
  lemma SyncWritesBack(s: Sys, steps: seq<Step>, id: nat, k: Key)
    requires Inv(s) && DataInv(s) && Syncs(s, steps, id) && ReturnsOk(s, steps, id)
    requires CalmRun(Exec(s, SyncStart(id)).s, steps) && NoStore(steps, k)
    ensures DiskAt(AtReturn(s, steps, id), k) == View(s, k)
  {
    var s1, s2 := Exec(s, SyncStart(id)).s, AtReturn(s, steps, id);
    StepInv(s, SyncStart(id));
    StepViewExactly(s, SyncStart(id));
    RunInv(s1, steps);
    RunView(s1, steps, k);
    NothingStored(s1, steps, k, View(s1, k));
    var i := Lookup(s.cells, k);
    if i < |s.cells| && s.cells[i].Unsynced() {
      OwingRun(s1, steps, i, k);
      if i < |s2.cells| {
        ReturnsSynced(s, steps, id, i);
      }
    } else {
      forall j: nat | j < |s1.cells| && s1.cells[j].Holds(k) ensures !s1.cells[j].Unsynced() {
        LookupFinds(s, j);
      }
      SettledRun(s1, steps, k);
    }
    SettledDisk(s2, k);
  }
}
