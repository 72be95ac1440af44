/** Which blocks the cache takes, where they are on the disk, and what a slot remembers about its writebacks. */
module BcacheFlags {
  import opened Wrappers
  import opened BcacheSpec
  import opened BcacheInv
  import opened BcacheTheorems

  /** Blocks of 4096 bytes on the one device, in sectors of 512 numbered with 64 bits. */
  predicate OnDisk(key: Key) {
    key.dev == 0 && key.block * 8 <= 0xffff_ffff_ffff_ffff
  }

  /** A block is taken exactly if it is on the disk, and a store exactly if it also is a whole block. */
  lemma TakenExactly(key: Key, data: Block)
    ensures CheckRead(key).Ok? <==> OnDisk(key)
    ensures CheckRead(key).Err? ==> CheckRead(key).error == (if key.dev == 0 then OutOfRange else UnknownDevice)
    ensures CheckWrite(key, data).Ok? <==> OnDisk(key) && |data| == 4096
    ensures CheckWrite(key, data).Err? ==>
      CheckWrite(key, data).error ==
      (if key.dev != 0 then UnknownDevice else if |data| != 4096 then PartialBlock else OutOfRange)
  {
  }

  /** Its first sector is where its bytes begin, and no two blocks have a sector in common. */
  lemma SectorsApart(k: Key, l: Key)
    requires CheckRead(k).Ok? && CheckRead(l).Ok? && k != l
    ensures CheckRead(k).value * 512 == k.block * 4096
    ensures CheckRead(k).value + 8 <= CheckRead(l).value || CheckRead(l).value + 8 <= CheckRead(k).value
  {
    if k.block < l.block {
      assert (k.block + 1) * 8 <= l.block * 8;
    } else {
      assert (l.block + 1) * 8 <= k.block * 8;
    }
  }

  /** A slot dirtied while its I/O runs is dirty when that ends, however it ends; otherwise as the I/O left it. */
  lemma DirtiedStaysDirty(c: Cell, to: SlotState)
    requires c.state == InFlight && to != Free
    ensures c.MarkDirty().Some? && c.MarkDirty().value.state == InFlight
    ensures c.MarkDirty().value.EndIo(to).Some? && c.MarkDirty().value.EndIo(to).value.state == Dirty
    ensures !c.dirtied ==> c.EndIo(to).Some? && c.EndIo(to).value.state == to
    ensures !c.MarkDirty().value.EndIo(to).value.dirtied
  {
  }

  /** Slot `i` gets new bytes. */
  predicate StoresInto(s: Sys, step: Step, i: nat)
    requires Enabled(s, step)
  {
    && step.Store? && Exec(s, step).Next?
    && i < |Stepped(s, step).cells| && Stepped(s, step).cells[i].Holds(step.key)
  }

  lemma StoreForgets(s: Sys, key: Key, data: Block, i: nat)
    requires Inv(s) && Enabled(s, Store(key, data)) && i < |s.cells|
    ensures |Stepped(s, Store(key, data)).cells| == |s.cells|
    ensures Stepped(s, Store(key, data)).cells[i].failed <==> s.cells[i].failed && !StoresInto(s, Store(key, data), i)
  {
    var j := Lookup(s.cells, key);
    if j < |s.cells| {
      assert CellInv(s, j) && Apart(s, i, j);
    } else {
      StoreMissIs(s, key, data);
      RoomIs(s, key);
      assert CellInv(s, i);
    }
  }

  lemma ClaimForgets(s: Sys, key: Key, i: nat)
    requires Inv(s) && Enabled(s, Claim(key)) && i < |s.cells|
    ensures |Stepped(s, Claim(key)).cells| == |s.cells|
    ensures Stepped(s, Claim(key)).cells[i].failed <==> s.cells[i].failed
  {
    var j := Lookup(s.cells, key);
    if j == |s.cells| {
      ClaimMissIs(s, key);
      assert CellInv(s, i);
    }
  }

  predicate FlagRight(s: Sys, step: Step, i: nat)
    requires Enabled(s, step) && i < |s.cells|
  {
    && |Stepped(s, step).cells| == |s.cells|
    && (Stepped(s, step).cells[i].failed <==>
          if step == FinishWriteback(i) then s.cells[i].job.done == Some(false)
          else s.cells[i].failed && !StoresInto(s, step, i))
  }

  lemma EndsFlag(s: Sys, step: Step, i: nat)
    requires Inv(s) && Enabled(s, step) && i < |s.cells|
    requires step == FinishFill(i) || step == DropFill(i) || step == FinishWriteback(i) || step == DropWriteback(i)
    ensures FlagRight(s, step, i)
  {
    StepInv(s, step);
    assert CellInv(s, i);
  }

  lemma DeviceFlag(s: Sys, step: Step, i: nat)
    requires Inv(s) && Enabled(s, step) && i < |s.cells|
    requires step.ReadProgress? || step.ReadDone? || step.WriteProgress? || step.WriteDone? || step.BeginWriteback?
      || step.DropRef?
    ensures FlagRight(s, step, i)
  {
  }

  lemma AsideFlag(s: Sys, step: Step, i: nat)
    requires Inv(s) && Enabled(s, step) && i < |s.cells|
    requires step.LateProgress? || step.LateLanding? || step.SyncStart? || step.SyncFail? || step.SyncReturn?
    ensures FlagRight(s, step, i)
  {
  }

  lemma UntouchedFlag(s: Sys, step: Step, i: nat)
    requires Inv(s) && Enabled(s, step) && i < |s.cells|
    requires (step.FinishFill? || step.DropFill? || step.FinishWriteback? || step.DropWriteback?) && step.i != i
    ensures FlagRight(s, step, i)
  {
    StepFate(s, step, i);
  }

  /**
   A slot is marked as refused exactly from the end of a writeback the device refused to the
   next store into it or the next writeback that succeeds.
   */
  lemma RefusalRemembered(s: Sys, step: Step, i: nat)
    requires Inv(s) && Enabled(s, step) && i < |s.cells|
    ensures FlagRight(s, step, i)
  {
    match step
    case Store(key, data) => StoreForgets(s, key, data, i);
    case Claim(key) => ClaimForgets(s, key, i);
    case FinishFill(j) => if j == i { EndsFlag(s, step, i); } else { UntouchedFlag(s, step, i); }
    case DropFill(j) => if j == i { EndsFlag(s, step, i); } else { UntouchedFlag(s, step, i); }
    case FinishWriteback(j) => if j == i { EndsFlag(s, step, i); } else { UntouchedFlag(s, step, i); }
    case DropWriteback(j) => if j == i { EndsFlag(s, step, i); } else { UntouchedFlag(s, step, i); }
    case LateProgress(_, _, _) => AsideFlag(s, step, i);
    case LateLanding(_, _) => AsideFlag(s, step, i);
    case SyncStart(_) => AsideFlag(s, step, i);
    case SyncFail(_, _) => AsideFlag(s, step, i);
    case SyncReturn(_) => AsideFlag(s, step, i);
    case _ => DeviceFlag(s, step, i);
  }
}
