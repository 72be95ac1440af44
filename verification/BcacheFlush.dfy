/** `sync` itself, with nobody else at work: it ends, and says whether everything owed reached the disk. */
module BcacheFlush {
  import opened Wrappers
  import opened BcacheSpec
  import opened BcacheInv
  import opened BcacheTheorems
  import opened BcacheSync
  import opened BcacheKernel

  /** The bytes every reader is owed are the same. */
  ghost predicate SameView(s: Sys, s': Sys) {
    forall k {:trigger View(s', k)} :: View(s', k) == View(s, k)
  }

  /** Only slot `i` may have changed, and nothing new is owed. */
  predicate OnlySlot(s: Sys, s': Sys, i: nat) {
    |s'.cells| == |s.cells| && (forall j :: 0 <= j < |s.cells| && j != i ==> s'.cells[j] == s.cells[j])
  }

  lemma Begins(s: Sys, i: nat)
    requires Inv(s) && DataInv(s) && i < |s.cells| && s.cells[i].state == Dirty
    ensures var o := Exec(s, BeginWriteback(i));
            && o.Next? && Inv(o.s) && DataInv(o.s) && SameView(s, o.s) && OnlySlot(s, o.s, i)
            && o.s.cells[i].job == Writing(None) && Enabled(o.s, WriteDone(i, true, []))
            && o.s.cells[i].state == InFlight
  {
    StepInv(s, BeginWriteback(i));
    StepViewExactly(s, BeginWriteback(i));
    assert CellInv(s, i);
  }

  lemma Lands(s: Sys, i: nat, ok: bool, junk: Block)
    requires Inv(s) && DataInv(s) && Enabled(s, WriteDone(i, ok, junk))
    ensures var o := Exec(s, WriteDone(i, ok, junk));
            && o.Next? && Inv(o.s) && DataInv(o.s) && SameView(s, o.s) && OnlySlot(s, o.s, i)
            && i < |s.cells| && o.s.cells[i] == s.cells[i].(job := Writing(Some(ok)))
  {
    StepInv(s, WriteDone(i, ok, junk));
    StepViewExactly(s, WriteDone(i, ok, junk));
  }

  lemma Ends(s: Sys, i: nat, ok: bool)
    requires Inv(s) && DataInv(s) && i < |s.cells| && s.cells[i].job == Writing(Some(ok))
    ensures var o := Exec(s, FinishWriteback(i));
            && o.Next? && Inv(o.s) && DataInv(o.s) && SameView(s, o.s) && OnlySlot(s, o.s, i)
            && o.s.cells[i].state == if ok then Clean else Dirty
  {
    StepInv(s, FinishWriteback(i));
    StepViewExactly(s, FinishWriteback(i));
    assert CellInv(s, i);
  }

  lemma ViewTwice(a: Sys, b: Sys, c: Sys)
    requires SameView(a, b) && SameView(b, c)
    ensures SameView(a, c)
  {
    forall k ensures View(c, k) == View(a, k) {
      assert View(b, k) == View(a, k);
    }
  }

  /** The device's part of a write: nothing of the driver's changes but what is known of it. */
  method Land(c: Bcache, i: nat, ok: bool, ghost junk: Block)
    requires c.Valid() && DataInv(c.model) && Enabled(c.model, WriteDone(i, ok, junk))
    modifies c
    ensures c.Valid() && Exec(old(c.model), WriteDone(i, ok, junk)) == Next(c.model)
  {
    Lands(c.model, i, ok, junk);
    ghost var s := c.model;
    c.model := Exec(s, WriteDone(i, ok, junk)).s;
    c.OneSlot(i) by {
      assert old(c.Matches(i));
    }
  }

  /** Writes one slot back, or does nothing if it is not dirty; a refused block stays dirty. */
  method WriteBack(c: Bcache, i: nat, ok: bool, ghost junk: Block) returns (r: Option<bool>)
    requires c.Valid() && DataInv(c.model) && i < |c.model.cells|
    modifies c, c.slots, c.writebackFailed
    ensures c.Valid() && DataInv(c.model) && SameView(old(c.model), c.model) && OnlySlot(old(c.model), c.model, i)
    ensures r.None? <==> old(c.model).cells[i].state != Dirty
    ensures r.None? ==> c.model == old(c.model)
    ensures r.Some? ==> r.value == ok && c.model.cells[i].state == if ok then Clean else Dirty
  {
    ghost var s0 := c.model;
    if s0.cells[i].state == Dirty {
      Begins(s0, i);
    }
    var begun := c.BeginWriteback(i);
    if !begun {
      return None;
    }
    ghost var s1 := c.model;
    Lands(s1, i, ok, junk);
    Land(c, i, ok, junk);
    ghost var s2 := c.model;
    Ends(s2, i, ok);
    c.FinishWriteback(i, ok);
    ViewTwice(s0, s1, s2);
    ViewTwice(s0, s2, c.model);
    r := Some(ok);
  }

  /** No writeback is under way: whatever is owed is dirty. */
  predicate Quiet(s: Sys) {
    forall i :: 0 <= i < |s.cells| && s.cells[i].Unsynced() ==> s.cells[i].state == Dirty
  }

  /** What is owed, what is pending and what was refused, between rounds. */
  predicate Between(owed: set<nat>, pending: set<nat>, failed: set<nat>, refuses: set<nat>, unsynced: set<nat>) {
    && unsynced == pending + failed && failed <= refuses && unsynced <= owed
    && pending !! failed && (owed - unsynced) !! refuses
  }

  /** With nobody else at work one round settles everything. */
  lemma OneRound(owed: set<nat>, pending: set<nat>, failed: set<nat>, refuses: set<nat>, unsynced: set<nat>)
    requires Between(owed, pending, failed, refuses, unsynced)
    ensures var (failed', unsynced') := (failed + pending * refuses, unsynced - (pending - refuses));
            owed * unsynced' - failed' == {} && Between(owed, {}, failed', refuses, unsynced')
  {
  }

  lemma AllSettled(s: Sys, k: Key)
    requires Inv(s) && DataInv(s) && UnsyncedSlots(s) == {}
    ensures DiskAt(s, k) == View(s, k)
  {
    forall j: nat | j < |s.cells| && s.cells[j].Holds(k) ensures !s.cells[j].Unsynced() {
      assert j !in UnsyncedSlots(s);
    }
    SettledDisk(s, k);
  }

  /** Somewhere in a flush begun at `s0`: readers notice nothing, and what is owed is dirty. */
  ghost predicate Flushing(s0: Sys, s: Sys) {
    DataInv(s) && Quiet(s) && SameView(s0, s)
  }

  lemma FlushOne(s0: Sys, s: Sys, s': Sys, i: nat)
    requires Flushing(s0, s) && DataInv(s') && SameView(s, s') && OnlySlot(s, s', i) && i in UnsyncedSlots(s)
    requires s'.cells[i].state == Clean || s'.cells[i].state == Dirty
    ensures Flushing(s0, s')
    ensures UnsyncedSlots(s') == if s'.cells[i].state == Clean then UnsyncedSlots(s) - {i} else UnsyncedSlots(s)
  {
    ViewTwice(s0, s, s');
    forall j ensures j in UnsyncedSlots(s') <==> (j in UnsyncedSlots(s) && !(j == i && s'.cells[i].state == Clean)) {
    }
  }

  /** Within a round: which of the pending slots are done, and how. */
  predicate Settling(u0: set<nat>, pending: set<nat>, todo: set<nat>, failed: set<nat>, refuses: set<nat>,
                     u: set<nat>) {
    todo <= pending <= u0 && failed == (pending - todo) * refuses && u == u0 - (pending - todo - refuses)
  }

  lemma SettleOne(u0: set<nat>, pending: set<nat>, todo: set<nat>, failed: set<nat>, refuses: set<nat>, u: set<nat>,
                  i: nat)
    requires Settling(u0, pending, todo, failed, refuses, u) && i in todo
    ensures i in u
    ensures Settling(u0, pending, todo - {i}, if i in refuses then failed + {i} else failed, refuses,
                     if i in refuses then u else u - {i})
  {
  }

  /** Writes a slot known to be dirty back, and says what that leaves owed. */
  method FlushSlot(c: Bcache, i: nat, refuses: set<nat>, ghost junk: Block, ghost s0: Sys) returns (refused: bool)
    requires c.Valid() && Flushing(s0, c.model) && i in UnsyncedSlots(c.model)
    modifies c, c.slots, c.writebackFailed
    ensures c.Valid() && Flushing(s0, c.model) && refused == (i in refuses)
    ensures UnsyncedSlots(c.model) == UnsyncedSlots(old(c.model)) - (if i in refuses then {} else {i})
  {
    ghost var s := c.model;
    var done := WriteBack(c, i, i !in refuses, junk);
    FlushOne(s0, s, c.model, i);
    refused := done == Some(false);
  }

  /** One round over the slots pending at its start. */
  method SyncRound(c: Bcache, pending: set<nat>, refuses: set<nat>, ghost junk: Block, ghost s0: Sys)
    returns (failed: set<nat>)
    requires c.Valid() && Flushing(s0, c.model) && pending <= UnsyncedSlots(c.model)
    modifies c, c.slots, c.writebackFailed
    ensures c.Valid() && Flushing(s0, c.model)
    ensures failed == pending * refuses
    ensures UnsyncedSlots(c.model) == UnsyncedSlots(old(c.model)) - (pending - refuses)
  {
    failed := {};
    var todo := pending;
    ghost var u0 := UnsyncedSlots(c.model);
    while todo != {}
      invariant c.Valid() && Flushing(s0, c.model)
      invariant Settling(u0, pending, todo, failed, refuses, UnsyncedSlots(c.model))
      decreases |todo|
    {
      var i :| i in todo;
      SettleOne(u0, pending, todo, failed, refuses, UnsyncedSlots(c.model), i);
      var refused := FlushSlot(c, i, refuses, junk, s0);
      if refused {
        failed := failed + {i};
      }
      todo := todo - {i};
    }
  }

  ghost predicate DiskShows(s0: Sys, s: Sys) {
    forall k {:trigger DiskAt(s, k)} :: DiskAt(s, k) == View(s0, k)
  }

  /** When nothing is pending, what is left owed is what the device refused. */
  lemma SyncEnds(s0: Sys, s: Sys, owed: set<nat>, failed: set<nat>, refuses: set<nat>)
    requires Inv(s) && Flushing(s0, s) && Between(owed, {}, failed, refuses, UnsyncedSlots(s))
    ensures UnsyncedSlots(s) == owed * refuses
    ensures failed == {} <==> owed !! refuses
    ensures failed == {} ==> DiskShows(s0, s)
  {
    if failed == {} {
      forall k ensures DiskAt(s, k) == View(s0, k) {
        AllSettled(s, k);
        assert View(s, k) == View(s0, k);
      }
    }
  }

  /** One turn of the outer loop: a round, and what it leaves pending. */
  method SyncTurn(c: Bcache, owed: set<nat>, pending: set<nat>, failed: set<nat>, refuses: set<nat>, ghost junk: Block,
                  ghost s0: Sys)
    returns (pending': set<nat>, failed': set<nat>)
    requires c.Valid() && Flushing(s0, c.model) && Between(owed, pending, failed, refuses, UnsyncedSlots(c.model))
    modifies c, c.slots, c.writebackFailed
    ensures c.Valid() && Flushing(s0, c.model) && pending' == {}
    ensures Between(owed, pending', failed', refuses, UnsyncedSlots(c.model))
  {
    OneRound(owed, pending, failed, refuses, UnsyncedSlots(c.model));
    var refused := SyncRound(c, pending, refuses, junk, s0);
    failed' := failed + refused;
    var unsynced := c.UnsyncedMask();
    pending' := owed * unsynced - failed';
  }

  /**
   Rounds until nothing owed is left that the device has not refused. `Ok` means no refusal,
   and then the disk holds for every block the bytes its last writer stored.
   */
  method Sync(c: Bcache, refuses: set<nat>, ghost junk: Block) returns (ok: bool)
    requires c.Valid() && DataInv(c.model) && Quiet(c.model)
    modifies c, c.slots, c.writebackFailed
    ensures c.Valid() && Flushing(old(c.model), c.model)
    ensures ok <==> UnsyncedSlots(old(c.model)) !! refuses
    ensures UnsyncedSlots(c.model) == UnsyncedSlots(old(c.model)) * refuses
    ensures ok ==> DiskShows(old(c.model), c.model)
  {
    ghost var s0 := c.model;
    var owed := c.UnsyncedMask();
    var failed: set<nat> := {};
    var pending := owed;
    while pending != {}
      invariant c.Valid() && Flushing(s0, c.model)
      invariant Between(owed, pending, failed, refuses, UnsyncedSlots(c.model))
      decreases |pending|
    {
      pending, failed := SyncTurn(c, owed, pending, failed, refuses, junk, s0);
    }
    ok := failed == {};
    SyncEnds(s0, c.model, owed, failed, refuses);
  }
}
