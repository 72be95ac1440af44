/** The cache as the kernel holds it: a table and three arrays beside it, updated in place under one lock. */
module BcacheKernel {
  import opened Wrappers
  import opened BcacheSpec
  import opened BcacheInv
  import opened BcacheTheorems

  datatype Slot = Slot(key: Key, state: SlotState, pins: nat, dirtied: bool)

  datatype ClaimOutcome = Wait | Hit(slot: nat) | Fill(slot: nat) | TableFull

  datatype StoreOutcome = Stored | Filling | WritingBack | Reader | NoRoom

  predicate Absent(cells: seq<Cell>, key: Key) {
    forall i :: 0 <= i < |cells| ==> !cells[i].Holds(key)
  }

  /** Every slot is pinned, dirty or busy. */
  predicate NoneReusable(cells: seq<Cell>) {
    forall i :: 0 <= i < |cells| ==> cells[i].pins != 0 || cells[i].state == Dirty || cells[i].state == InFlight
  }

  /** When a claim ends so; at most one slot holds a key, so no two of these go together. */
  predicate ClaimEnds(cells: seq<Cell>, key: Key, r: ClaimOutcome) {
    match r
    case Hit(i) => i < |cells| && cells[i].Holds(key) && !(cells[i].state == InFlight && cells[i].filling)
    case Wait => exists i :: 0 <= i < |cells| && cells[i].Holds(key) && cells[i].state == InFlight && cells[i].filling
    case Fill(i) =>
      && Absent(cells, key) && i < |cells|
      && cells[i].pins == 0 && (cells[i].state == Free || cells[i].state == Clean)
    case TableFull => Absent(cells, key) && NoneReusable(cells)
  }

  /** And a store. */
  predicate StoreEnds(cells: seq<Cell>, key: Key, r: StoreOutcome) {
    match r
    case Filling =>
      exists i :: 0 <= i < |cells| && cells[i].Holds(key) && cells[i].state == InFlight && cells[i].filling
    case WritingBack =>
      exists i :: 0 <= i < |cells| && cells[i].Holds(key) && cells[i].state == InFlight && !cells[i].filling
    case Reader =>
      exists i :: 0 <= i < |cells| && cells[i].Holds(key) && cells[i].state != InFlight && cells[i].pins != 0
    case NoRoom => Absent(cells, key) && NoneReusable(cells)
    case Stored =>
      if Absent(cells, key) then !NoneReusable(cells)
      else exists i :: 0 <= i < |cells| && cells[i].Holds(key) && cells[i].state != InFlight && cells[i].pins == 0
  }

  class Bcache {
    const slots: array<Slot>
    const frames: array<Block>
    const filling: array<bool>
    const writebackFailed: array<bool>
    ghost var model: Sys

    ghost predicate Shape()
      reads this
    {
      && slots.Length == frames.Length == filling.Length == writebackFailed.Length == |model.cells|
      && filling != writebackFailed
    }

    ghost predicate Matches(i: nat)
      requires Shape() && i < slots.Length
      reads this, slots, frames, filling, writebackFailed
    {
      var c := model.cells[i];
      && slots[i] == Slot(c.key, c.state, c.pins, c.dirtied)
      && frames[i] == c.frame && filling[i] == c.filling && writebackFailed[i] == c.failed
    }

    /** The arrays hold what the model says they hold. */
    ghost predicate Valid()
      reads this, slots, frames, filling, writebackFailed
    {
      && Shape() && Inv(model)
      && forall i: nat {:trigger Matches(i)} :: i < slots.Length ==> Matches(i)
    }

    /** Rewriting one slot of the arrays and of the model alike keeps them in step. */
    twostate lemma OneSlot(i: nat)
      requires old(Valid()) && Shape() && Inv(model) && i < slots.Length && Matches(i)
      requires model.cells == old(model).cells[i := model.cells[i]]
      requires forall j: nat :: j < slots.Length && j != i ==>
                 && slots[j] == old(slots[j]) && frames[j] == old(frames[j])
                 && filling[j] == old(filling[j]) && writebackFailed[j] == old(writebackFailed[j])
      ensures Valid()
    {
      forall j: nat | j < slots.Length ensures Matches(j) {
        assert old(Matches(j));
      }
    }

    constructor (n: nat, ghost disk: map<Key, Block>)
      ensures Valid() && model == Initial(n, disk)
      ensures fresh(slots) && fresh(frames) && fresh(filling) && fresh(writebackFailed)
    {
      slots := new Slot[n](i => Slot(Key(0, 0), Free, 0, false));
      frames := new Block[n](i => []);
      filling := new bool[n](i => false);
      writebackFailed := new bool[n](i => false);
      model := Initial(n, disk);
      InitialInv(n, disk);
      new;
    }

    method Find(key: Key) returns (i: nat)
      requires Valid()
      ensures i == Lookup(model.cells, key)
    {
      i := 0;
      while i < slots.Length && !(slots[i].state != Free && slots[i].key == key)
        invariant i <= slots.Length
        invariant forall j: nat :: j < i ==> !model.cells[j].Holds(key)
      {
        assert Matches(i);
        i := i + 1;
      }
      assert i < slots.Length ==> Matches(i);
    }

    method FindFree() returns (i: nat)
      requires Valid()
      ensures i == FirstFree(model.cells)
    {
      i := 0;
      while i < slots.Length && slots[i].state != Free
        invariant i <= slots.Length
        invariant forall j: nat :: j < i ==> model.cells[j].state != Free
      {
        assert Matches(i);
        i := i + 1;
      }
      assert i < slots.Length ==> Matches(i);
    }

    method FindReusable() returns (i: nat)
      requires Valid()
      ensures i == FirstReusable(model.cells)
    {
      i := 0;
      while i < slots.Length && !((slots[i].state == Free || slots[i].state == Clean) && slots[i].pins == 0)
        invariant i <= slots.Length
        invariant forall j: nat :: j < i ==> !model.cells[j].Reusable()
      {
        assert Matches(i);
        i := i + 1;
      }
      assert i < slots.Length ==> Matches(i);
    }

    /** The slots a `sync` owes: dirty, or under writeback. */
    method UnsyncedMask() returns (mask: set<nat>)
      requires Valid()
      ensures mask == UnsyncedSlots(model)
    {
      mask := {};
      for i := 0 to slots.Length
        invariant mask == set j | 0 <= j < i && model.cells[j].Unsynced()
      {
        assert Matches(i);
        if slots[i].state == Dirty || (slots[i].state == InFlight && !filling[i]) {
          mask := mask + {i};
        }
      }
    }

    /** A slot for an absent key: a free one, or the first clean and unpinned one, evicted. */
    method TakeSlot(key: Key) returns (i: nat)
      requires Valid() && Lookup(model.cells, key) == |model.cells|
      modifies slots, writebackFailed
      ensures i <= slots.Length
      ensures i == slots.Length <==> ClaimFreeSlot(model, key).Exhausted?
      ensures i == slots.Length ==> Valid()
      ensures i < slots.Length ==> ClaimFreeSlot(model, key).Room? && ClaimFreeSlot(model, key).i == i
      ensures i < slots.Length ==> slots[i] == Slot(key, InFlight, 0, false) && !writebackFailed[i]
      ensures forall j: nat :: j < slots.Length && j != i ==>
        slots[j] == old(slots[j]) && writebackFailed[j] == old(writebackFailed[j])
    {
      RoomIs(model, key);
      i := FindFree();
      if i == slots.Length {
        i := FindReusable();
        if i == slots.Length {
          return;
        }
        slots[i] := Slot(Key(0, 0), Free, 0, false);
        writebackFailed[i] := false;
      }
      assert CellInv(model, i);
      assert old(Matches(i));
      slots[i] := Slot(key, InFlight, 0, false);
    }

    method PinHit(i: nat, key: Key)
      requires Valid() && CheckRead(key).Ok? && i == Lookup(model.cells, key) < slots.Length
      requires !(slots[i].state == InFlight && filling[i])
      modifies this, slots
      ensures Valid() && Exec(old(model), Step.Claim(key)) == Next(model)
      ensures model == SetCell(old(model), i, old(model).cells[i].Pin().value)
    {
      assert Matches(i) && CellInv(model, i);
      ClaimInv(model, key);
      slots[i] := slots[i].(pins := slots[i].pins + 1);
      model := ClaimStep(model, key).s;
      OneSlot(i);
    }

    method BeginFill(key: Key) returns (i: nat)
      requires Valid() && CheckRead(key).Ok? && Lookup(model.cells, key) == |model.cells|
      modifies this, slots, filling, writebackFailed
      ensures Valid() && i <= slots.Length
      ensures i < slots.Length ==> Exec(old(model), Step.Claim(key)) == Next(model)
      ensures i < slots.Length ==> model.cells[i].Holds(key) && model.cells[i].job == Reading(None)
      ensures i == slots.Length ==> Exec(old(model), Step.Claim(key)) == Refused && model == old(model)
      ensures ClaimEnds(old(model).cells, key, if i < slots.Length then Fill(i) else TableFull)
    {
      ClaimInv(model, key);
      ClaimMissIs(model, key);
      RoomIs(model, key);
      i := TakeSlot(key);
      if i < slots.Length {
        assert old(Matches(i)) && CellInv(model, i);
        filling[i] := true;
        model := ClaimStep(model, key).s;
        OneSlot(i);
      }
    }

    method Claim(key: Key) returns (r: ClaimOutcome)
      requires Valid() && CheckRead(key).Ok?
      modifies this, slots, filling, writebackFailed
      ensures Valid() && model == Stepped(old(model), Step.Claim(key))
      ensures r.Hit? ==> r.slot < |model.cells| && Ref(key, View(old(model), key)) in model.cells[r.slot].refs
      ensures r.Fill? ==>
        r.slot < |model.cells| && model.cells[r.slot].Holds(key) && model.cells[r.slot].job == Reading(None)
      ensures r.Wait? || r.TableFull? ==> model == old(model)
      ensures ClaimEnds(old(model).cells, key, r)
    {
      var i := Find(key);
      if i < slots.Length {
        assert Matches(i) && CellInv(model, i);
        if slots[i].state == InFlight && filling[i] {
          return Wait;
        }
        PinHit(i, key);
        return Hit(i);
      }
      i := BeginFill(key);
      r := if i < slots.Length then Fill(i) else TableFull;
    }

    method StoreResident(i: nat, key: Key, data: Block)
      requires Valid() && CheckWrite(key, data).Ok? && i == Lookup(model.cells, key) < slots.Length
      requires slots[i].state != InFlight && slots[i].pins == 0
      modifies this, slots, frames, writebackFailed
      ensures Valid() && Exec(old(model), Step.Store(key, data)) == Next(model)
      ensures i < |model.cells| && model.cells[i].Holds(key) && model.cells[i].frame == data && !model.cells[i].filling
    {
      assert Matches(i) && CellInv(model, i);
      StoreHitInv(model, key, data);
      frames[i] := data;
      slots[i] := slots[i].(state := Dirty);
      writebackFailed[i] := false;
      model := StoreStep(model, key, data).s;
      OneSlot(i);
    }

    method StoreAbsent(key: Key, data: Block) returns (i: nat)
      requires Valid() && CheckWrite(key, data).Ok? && Lookup(model.cells, key) == |model.cells|
      modifies this, slots, frames, writebackFailed
      ensures Valid() && i <= slots.Length
      ensures i < slots.Length ==> Exec(old(model), Step.Store(key, data)) == Next(model)
      ensures i < slots.Length ==> model.cells[i].Holds(key) && model.cells[i].frame == data && !model.cells[i].filling
      ensures i == slots.Length ==> Exec(old(model), Step.Store(key, data)) == Refused && model == old(model)
      ensures StoreEnds(old(model).cells, key, if i < slots.Length then Stored else NoRoom)
    {
      StoreMissIs(model, key, data);
      StoreMissInv(model, key, data);
      RoomIs(model, key);
      i := TakeSlot(key);
      if i < slots.Length {
        assert old(Matches(i)) && CellInv(model, i);
        slots[i] := slots[i].(state := Clean);
        frames[i] := data;
        slots[i] := slots[i].(state := Dirty);
        writebackFailed[i] := false;
        model := StoreStep(model, key, data).s;
        OneSlot(i);
      }
    }

    method Store(key: Key, data: Block) returns (r: StoreOutcome)
      requires Valid() && CheckWrite(key, data).Ok?
      modifies this, slots, frames, writebackFailed
      ensures Valid() && model == Stepped(old(model), Step.Store(key, data))
      ensures !r.Stored? ==> model == old(model)
      ensures r.Stored? ==> View(model, key) == data
      ensures StoreEnds(old(model).cells, key, r)
    {
      var i := Find(key);
      if i < slots.Length {
        assert Matches(i) && CellInv(model, i);
        if slots[i].state == InFlight {
          return if filling[i] then Filling else WritingBack;
        }
        if slots[i].pins != 0 {
          return Reader;
        }
        StoreResident(i, key, data);
      } else {
        i := StoreAbsent(key, data);
        if i == slots.Length {
          return NoRoom;
        }
      }
      LookupFinds(model, i);
      r := Stored;
    }

    /** `ok` is the outcome the driver reported for the read. */
    method FinishFill(i: nat, ok: bool)
      requires Valid() && Enabled(model, Step.FinishFill(i)) && model.cells[i].job.done == Some(ok)
      modifies this, slots, filling
      ensures Valid() && Exec(old(model), Step.FinishFill(i)) == Next(model)
    {
      assert Matches(i) && CellInv(model, i);
      FillEndInv(model, Step.FinishFill(i));
      filling[i] := false;
      slots[i] := slots[i].(state := Clean);
      if ok {
        slots[i] := slots[i].(pins := slots[i].pins + 1);
      } else {
        slots[i] := Slot(Key(0, 0), Free, 0, false);
      }
      model := FinishFillStep(model, i).s;
      OneSlot(i);
    }

    /** A fill dropped before it finished frees its slot. */
    method DropFill(i: nat)
      requires Valid() && Enabled(model, Step.DropFill(i))
      modifies this, slots, filling
      ensures Valid() && Exec(old(model), Step.DropFill(i)) == Next(model)
    {
      assert Matches(i) && CellInv(model, i);
      FillEndInv(model, Step.DropFill(i));
      filling[i] := false;
      slots[i] := Slot(Key(0, 0), Free, 0, false);
      model := DropFillStep(model, i).s;
      OneSlot(i);
    }

    method BeginWriteback(i: nat) returns (begun: bool)
      requires Valid() && i < slots.Length
      modifies this, slots
      ensures Valid() && model == Stepped(old(model), Step.BeginWriteback(i))
      ensures begun <==> old(model).cells[i].state == Dirty
    {
      assert Matches(i) && CellInv(model, i);
      begun := slots[i].state == Dirty;
      if begun {
        BeginWritebackInv(model, Step.BeginWriteback(i));
        slots[i] := slots[i].(state := InFlight);
        model := BeginWritebackStep(model, i).s;
        OneSlot(i);
      }
    }

    /** `ok` is the outcome the driver reported for the write; a refused block stays dirty. */
    method FinishWriteback(i: nat, ok: bool)
      requires Valid() && Enabled(model, Step.FinishWriteback(i)) && model.cells[i].job.done == Some(ok)
      modifies this, slots, writebackFailed
      ensures Valid() && Exec(old(model), Step.FinishWriteback(i)) == Next(model)
    {
      assert Matches(i) && CellInv(model, i);
      WritebackEndInv(model, Step.FinishWriteback(i));
      slots[i] := slots[i].(state := if ok then Clean else Dirty);
      writebackFailed[i] := !ok;
      model := FinishWritebackStep(model, i).s;
      OneSlot(i);
    }

    /** A writeback dropped before it finished leaves its block dirty. */
    method DropWriteback(i: nat)
      requires Valid() && Enabled(model, Step.DropWriteback(i))
      modifies this, slots
      ensures Valid() && Exec(old(model), Step.DropWriteback(i)) == Next(model)
    {
      assert Matches(i) && CellInv(model, i);
      WritebackEndInv(model, Step.DropWriteback(i));
      slots[i] := slots[i].(state := Dirty);
      model := Exec(model, Step.DropWriteback(i)).s;
      OneSlot(i);
    }

    method DropRef(i: nat, ghost r: Ref)
      requires Valid() && Enabled(model, Step.DropRef(i, r))
      modifies this, slots
      ensures Valid() && Exec(old(model), Step.DropRef(i, r)) == Next(model)
    {
      assert Matches(i) && CellInv(model, i);
      DropRefInv(model, Step.DropRef(i, r));
      slots[i] := slots[i].(pins := slots[i].pins - 1);
      model := Exec(model, Step.DropRef(i, r)).s;
      OneSlot(i);
    }
  }
}
