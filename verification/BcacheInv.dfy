/** What every step of the buffer cache keeps. */
module BcacheInv {
  import opened Wrappers
  import opened BcacheSpec

  /** One slot's bookkeeping agrees with the guards and references outstanding against it. */
  predicate CellOk(c: Cell, durable: nat, clock: nat) {
    && !c.dirtied
    && |c.refs| == c.pins
    && c.version <= clock
    && (c.state == InFlight <==> c.job != NoJob)
    && (c.filling <==> c.job.Reading?)
    && (c.filling ==> c.pins == 0)
    && (c.failed ==> c.Unsynced())
    && (c.state == Free ==> c.pins == 0)
    && (c.state != Free ==> CheckRead(c.key).Ok?)
    && (c.Unsynced() ==> c.version >= durable)
    && (Agrees(c) ==> c.version == durable)
  }

  /** The disk's copy of the block is, as far as the cache knows, the frame's. */
  predicate Agrees(c: Cell) {
    c.state == Clean || (c.state == InFlight && (c.job == Reading(Some(true)) || c.job == Writing(Some(true))))
  }

  ghost predicate RefsOk(c: Cell) {
    forall r :: r in c.refs ==> r.key == c.key && r.bytes == c.frame
  }

  ghost predicate CellInv(s: Sys, i: nat) {
    i < |s.cells| ==>
      CellOk(s.cells[i], DurableAt(s, s.cells[i].key), s.clock) && RefsOk(s.cells[i])
  }

  predicate Apart(s: Sys, i: nat, j: nat) {
    i < |s.cells| && j < |s.cells| && i != j && s.cells[i].state != Free && s.cells[j].state != Free ==>
      s.cells[i].key != s.cells[j].key
  }

  predicate DurablePast(s: Sys, k: Key) {
    DurableAt(s, k) <= s.clock
  }

  ghost predicate Inv(s: Sys) {
    && (forall i: nat {:trigger CellInv(s, i)} :: CellInv(s, i))
    && (forall i: nat, j: nat {:trigger Apart(s, i, j)} :: Apart(s, i, j))
    && (forall k {:trigger DurablePast(s, k)} :: DurablePast(s, k))
  }

  /** Where the cache believes the disk holds the frame's bytes, it does. */
  predicate DataOk(s: Sys, i: nat) {
    i < |s.cells| && Agrees(s.cells[i]) ==> DiskAt(s, s.cells[i].key) == s.cells[i].frame
  }

  ghost predicate DataInv(s: Sys) {
    forall i: nat {:trigger DataOk(s, i)} :: DataOk(s, i)
  }

  lemma InitialInv(n: nat, disk: map<Key, Block>)
    ensures Inv(Initial(n, disk)) && DataInv(Initial(n, disk))
  {
    var s := Initial(n, disk);
    forall i: nat ensures CellInv(s, i) && DataOk(s, i) {}
    forall i: nat, j: nat ensures Apart(s, i, j) {}
    forall k ensures DurablePast(s, k) {}
  }

  /** With no two slots holding one key, a lookup finds the slot that holds it. */
  lemma LookupFinds(s: Sys, i: nat)
    requires Inv(s) && i < |s.cells| && s.cells[i].state != Free
    ensures Lookup(s.cells, s.cells[i].key) == i
  {
    var j := Lookup(s.cells, s.cells[i].key);
    assert Apart(s, i, j);
  }

  /**
   Rewriting one slot keeps the rest: its new key is its old one or one no slot held, and
   only the block it held before can have become more durable.
   */
  lemma OneCell(s: Sys, s': Sys, i: nat)
    requires Inv(s)
    requires i < |s.cells| && |s'.cells| == |s.cells| && s'.cells == s.cells[i := s'.cells[i]]
    requires CellInv(s', i)
    requires s.clock <= s'.clock
    requires s'.durable == s.durable
             || (s.cells[i].state != Free && s'.durable == s.durable[s.cells[i].key := s.cells[i].version])
    requires s'.cells[i].state != Free ==>
               (s.cells[i].state != Free && s'.cells[i].key == s.cells[i].key)
               || Lookup(s.cells, s'.cells[i].key) == |s.cells|
    ensures Inv(s')
  {
    assert CellInv(s, i);
    forall j: nat ensures CellInv(s', j) {
      assert CellInv(s, j);
      assert Apart(s, i, j);
      if j != i && j < |s.cells| && s.cells[j].state != Free {
        assert s'.cells[j] == s.cells[j];
        assert DurableAt(s', s.cells[j].key) == DurableAt(s, s.cells[j].key);
      }
    }
    forall j: nat, k: nat ensures Apart(s', j, k) {
      assert Apart(s, j, k);
      assert j < |s.cells| ==> s'.cells[j] == if j == i then s'.cells[i] else s.cells[j];
      assert k < |s.cells| ==> s'.cells[k] == if k == i then s'.cells[i] else s.cells[k];
    }
    forall k ensures DurablePast(s', k) {
      assert DurablePast(s, k);
    }
  }

  /** The slot `ClaimFreeSlot` gives: free, or clean and unreferenced, and rewritten in place. */
  lemma RoomIs(s: Sys, key: Key)
    requires Inv(s) && Lookup(s.cells, key) == |s.cells|
    ensures !ClaimFreeSlot(s, key).Fault?
    ensures ClaimFreeSlot(s, key).Exhausted? <==> forall i :: 0 <= i < |s.cells| ==> !s.cells[i].Reusable()
    ensures ClaimFreeSlot(s, key).Room? ==>
              var (s', i) := (ClaimFreeSlot(s, key).s, ClaimFreeSlot(s, key).i);
              && i < |s.cells| && s.cells[i].Reusable()
              && s' == SetCell(s, i, s'.cells[i])
              && s'.cells[i] == s.cells[i].(key := key, state := InFlight, job := Reading(None))
              && (s.cells[i].state != Free ==> forall j :: 0 <= j < |s.cells| ==> s.cells[j].state != Free)
  {
    var i := FirstFree(s.cells);
    if i < |s.cells| {
      assert CellInv(s, i);
    } else {
      var v := FirstReusable(s.cells);
      if v < |s.cells| {
        assert CellInv(s, v);
        var c := s.cells[v].Evict().value.(failed := false);
        var s' := SetCell(s, v, c);
        assert forall j :: 0 <= j < |s.cells| && j != v ==> s'.cells[j] == s.cells[j];
        assert s'.cells[v].state == Free;
        assert FirstFree(s'.cells) == v;
        assert Lookup(s'.cells, key) == |s'.cells|;
        assert s'.cells[v := c.Claimed(key)] == s.cells[v := c.Claimed(key)];
      }
    }
  }

  // ---- Each step ----

  /** What a claim of an absent block leaves in the slot it was given. */
  lemma ClaimMissIs(s: Sys, key: Key)
    requires Inv(s) && Lookup(s.cells, key) == |s.cells|
    ensures ClaimStep(s, key) != Panic
    ensures ClaimStep(s, key).Next? ==>
              && ClaimFreeSlot(s, key).Room?
              && var i := ClaimFreeSlot(s, key).i;
              && i < |s.cells| && s.cells[i].Reusable()
              && var c := s.cells[i].(key := key, state := InFlight, job := Reading(None), filling := true);
              ClaimStep(s, key).s == SetCell(s, i, c)
  {
    RoomIs(s, key);
    if ClaimFreeSlot(s, key).Room? {
      assert CellInv(s, ClaimFreeSlot(s, key).i);
    }
  }

  lemma ClaimInv(s: Sys, key: Key)
    requires Inv(s) && CheckRead(key).Ok?
    ensures ClaimStep(s, key) != Panic
    ensures ClaimStep(s, key).Next? ==> Inv(ClaimStep(s, key).s)
  {
    var i := Lookup(s.cells, key);
    if i < |s.cells| {
      assert CellInv(s, i);
      if ClaimStep(s, key).Next? {
        OneCell(s, ClaimStep(s, key).s, i);
      }
    } else {
      RoomIs(s, key);
      if ClaimStep(s, key).Next? {
        var j := ClaimFreeSlot(s, key).i;
        assert CellInv(s, j);
        OneCell(s, ClaimStep(s, key).s, j);
      }
    }
  }

  lemma StoreHitInv(s: Sys, key: Key, data: Block)
    requires Inv(s) && CheckWrite(key, data).Ok? && Lookup(s.cells, key) < |s.cells|
    ensures StoreStep(s, key, data) != Panic
    ensures StoreStep(s, key, data).Next? ==> Inv(StoreStep(s, key, data).s)
  {
    var i := Lookup(s.cells, key);
    assert DurablePast(s, key);
    assert CellInv(s, i);
    if StoreStep(s, key, data).Next? {
      OneCell(s, StoreStep(s, key, data).s, i);
    }
  }

  /** What a store of an absent block leaves in the slot it was given. */
  lemma StoreMissIs(s: Sys, key: Key, data: Block)
    requires Inv(s) && Lookup(s.cells, key) == |s.cells|
    ensures StoreStep(s, key, data) != Panic
    ensures StoreStep(s, key, data).Next? ==>
              && ClaimFreeSlot(s, key).Room?
              && var i := ClaimFreeSlot(s, key).i;
              && i < |s.cells| && s.cells[i].Reusable()
              && var c := s.cells[i].(key := key, state := Dirty, job := NoJob, frame := data, version := s.clock + 1,
                  failed := false);
              StoreStep(s, key, data).s == SetCell(s, i, c).(clock := s.clock + 1)
  {
    RoomIs(s, key);
    if ClaimFreeSlot(s, key).Room? {
      assert CellInv(s, ClaimFreeSlot(s, key).i);
    }
  }

  lemma StoreMissInv(s: Sys, key: Key, data: Block)
    requires Inv(s) && CheckWrite(key, data).Ok? && Lookup(s.cells, key) == |s.cells|
    ensures StoreStep(s, key, data) != Panic
    ensures StoreStep(s, key, data).Next? ==> Inv(StoreStep(s, key, data).s)
  {
    StoreMissIs(s, key, data);
    assert DurablePast(s, key);
    if StoreStep(s, key, data).Next? {
      var j := ClaimFreeSlot(s, key).i;
      assert CellInv(s, j);
      OneCell(s, StoreStep(s, key, data).s, j);
    }
  }

  lemma ReadInv(s: Sys, step: Step)
    requires Inv(s) && Enabled(s, step)
    requires step.ReadProgress? || step.ReadDone?
    ensures Exec(s, step) != Panic
    ensures Exec(s, step).Next? ==> Inv(Exec(s, step).s)
  {
    assert CellInv(s, step.i);
    assert DurablePast(s, s.cells[step.i].key);
    if Exec(s, step).Next? {
      OneCell(s, Exec(s, step).s, step.i);
    }
  }

  lemma FillEndInv(s: Sys, step: Step)
    requires Inv(s) && Enabled(s, step)
    requires step.FinishFill? || step.DropFill?
    ensures Exec(s, step) != Panic
    ensures Exec(s, step).Next? ==> Inv(Exec(s, step).s)
  {
    assert CellInv(s, step.i);
    assert DurablePast(s, s.cells[step.i].key);
    if Exec(s, step).Next? {
      OneCell(s, Exec(s, step).s, step.i);
    }
  }

  lemma DropRefInv(s: Sys, step: Step)
    requires Inv(s) && Enabled(s, step)
    requires step.DropRef?
    ensures Exec(s, step) != Panic
    ensures Exec(s, step).Next? ==> Inv(Exec(s, step).s)
  {
    assert CellInv(s, step.i);
    assert DurablePast(s, s.cells[step.i].key);
    if Exec(s, step).Next? {
      OneCell(s, Exec(s, step).s, step.i);
    }
  }

  lemma BeginWritebackInv(s: Sys, step: Step)
    requires Inv(s) && Enabled(s, step)
    requires step.BeginWriteback?
    ensures Exec(s, step) != Panic
    ensures Exec(s, step).Next? ==> Inv(Exec(s, step).s)
  {
    assert CellInv(s, step.i);
    assert DurablePast(s, s.cells[step.i].key);
    if Exec(s, step).Next? {
      OneCell(s, Exec(s, step).s, step.i);
    }
  }

  lemma WriteProgressInv(s: Sys, step: Step)
    requires Inv(s) && Enabled(s, step)
    requires step.WriteProgress?
    ensures Exec(s, step) != Panic
    ensures Exec(s, step).Next? ==> Inv(Exec(s, step).s)
  {
    assert CellInv(s, step.i);
    assert DurablePast(s, s.cells[step.i].key);
    if Exec(s, step).Next? {
      OneCell(s, Exec(s, step).s, step.i);
    }
  }

  lemma WriteDoneInv(s: Sys, i: nat, ok: bool, junk: Block)
    requires Inv(s) && Enabled(s, WriteDone(i, ok, junk))
    ensures Exec(s, WriteDone(i, ok, junk)).Next? && Inv(Exec(s, WriteDone(i, ok, junk)).s)
  {
    assert CellInv(s, i) && DurablePast(s, s.cells[i].key);
    var s', c := Exec(s, WriteDone(i, ok, junk)).s, s.cells[i];
    assert s'.cells[i] == c.(job := Writing(Some(ok)));
    assert s'.durable == if ok then s.durable[c.key := c.version] else s.durable;
    OneCell(s, s', i);
  }

  lemma WritebackEndInv(s: Sys, step: Step)
    requires Inv(s) && Enabled(s, step)
    requires step.FinishWriteback? || step.DropWriteback?
    ensures Exec(s, step) != Panic
    ensures Exec(s, step).Next? ==> Inv(Exec(s, step).s)
  {
    assert CellInv(s, step.i);
    assert DurablePast(s, s.cells[step.i].key);
    if Exec(s, step).Next? {
      OneCell(s, Exec(s, step).s, step.i);
    }
  }

  lemma SameCells(s: Sys, s': Sys)
    requires Inv(s) && s'.cells == s.cells && s'.durable == s.durable && s'.clock == s.clock
    ensures Inv(s')
  {
    forall i: nat ensures CellInv(s', i) { assert CellInv(s, i); }
    forall i: nat, j: nat ensures Apart(s', i, j) { assert Apart(s, i, j); }
    forall k ensures DurablePast(s', k) { assert DurablePast(s, k); }
  }

  /** No step panics, and every step keeps the invariant. */
  lemma StepInv(s: Sys, step: Step)
    requires Inv(s) && Enabled(s, step)
    ensures Exec(s, step) != Panic
    ensures Exec(s, step).Next? ==> Inv(Exec(s, step).s)
  {
    match step
    case Claim(key) => ClaimInv(s, key);
    case Store(key, data) =>
      if Lookup(s.cells, key) < |s.cells| { StoreHitInv(s, key, data); } else { StoreMissInv(s, key, data); }
    case LateProgress(_, _, _) => SameCells(s, Exec(s, step).s);
    case LateLanding(_, _) => SameCells(s, Exec(s, step).s);
    case SyncStart(_) => SameCells(s, Exec(s, step).s);
    case SyncFail(_, _) => SameCells(s, Exec(s, step).s);
    case SyncReturn(_) => SameCells(s, Exec(s, step).s);
    case ReadProgress(_, _) => ReadInv(s, step);
    case ReadDone(_, _, _) => ReadInv(s, step);
    case FinishFill(_) => FillEndInv(s, step);
    case DropFill(_) => FillEndInv(s, step);
    case DropRef(_, _) => DropRefInv(s, step);
    case BeginWriteback(_) => BeginWritebackInv(s, step);
    case WriteProgress(_, _) => WriteProgressInv(s, step);
    case WriteDone(i, ok, junk) => WriteDoneInv(s, i, ok, junk);
    case FinishWriteback(_) => WritebackEndInv(s, step);
    case DropWriteback(_) => WritebackEndInv(s, step);
  }
}
