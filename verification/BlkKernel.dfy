/** The driver as the kernel holds it: a virtqueue, a table of slots, and memory shared with the device. */
module BlkKernel {
  import opened Seqs
  import opened VirtQueue
  import opened Wrappers
  import opened BlkSpec
  import opened BlkSafe

  /** Every pending completion consumed, one after the other. */
  function DrainAll(s: Blk): Blk
    decreases if s.pc.Draining? then s.pc.left + 1 else 0
  {
    if !s.pc.Draining? then s
    else
      var o := DrainStep(s);
      if o.Next? && (o.s.pc.Draining? ==> o.s.pc.left < s.pc.left) then DrainAll(o.s) else s
  }

  /** What consuming an entry leaves of the device's memory and the cursor. */
  predicate Advanced(s: Blk, s': Blk) {
    && s.rings.last < U16
    && s'.rings == s.rings.(last := NextIndex(s.rings.last), consumed := s.rings.consumed + 1)
    && s'.statusMem == s.statusMem && s'.bounce == s.bounce && s'.table == s.table
  }

  lemma DrainRefuses(s: Blk)
    requires SafeInv(s) && s.pc.Draining? && !Taking(s, s.rings.usedMem[RingPos(s.rings.last)].id)
    ensures var s' := DrainStep(s).s;
            && DrainStep(s).Next? && Advanced(s, s') && s'.woken == s.woken
            && s'.counts == s.counts.(faults := s.counts.faults + 1)
            && s'.slots == s.slots && s'.flights == s.flights && s'.free == s.free && s'.chains == s.chains
    ensures SafeInv(DrainStep(s).s)
  {
    DrainSafe(s);
  }

  /** Chain `h` freed, its slot gone, its entry passed over. */
  predicate Reclaimed(s: Blk, s': Blk, h: nat) {
    && h in s.chains && h in s.slots && h in s.flights && h < 64 && |s.chains[h]| == 3
    && Advanced(s, s') && s'.counts == s.counts.(reclaimed := s.counts.reclaimed + 1) && s'.woken == s.woken
    && s'.slots == s.slots - {h} && s'.flights == s.flights - {h}
    && s'.free == Reverse(s.chains[h]) + s.free && s'.chains == s.chains - {h}
  }

  lemma DrainReclaims(s: Blk, h: nat)
    requires SafeInv(s) && Taking(s, h) && h in s.slots && s.slots[h].abandoned
    ensures DrainStep(s).Next? && Reclaimed(s, DrainStep(s).s, h)
    ensures SafeInv(DrainStep(s).s)
  {
    DrainSafe(s);
    assert HeadOk(s, h);
  }

  lemma DrainWakes(s: Blk, h: nat)
    requires SafeInv(s) && Taking(s, h) && h in s.slots && !s.slots[h].abandoned
    ensures var s' := DrainStep(s).s;
            && DrainStep(s).Next? && Advanced(s, s') && s'.counts == s.counts
            && s'.woken == s.woken + [s.slots[h].thread]
            && s'.slots == s.slots[h := s.slots[h].(done := true, status := s.statusMem[h],
                len := s.rings.usedMem[RingPos(s.rings.last)].len)]
            && s'.flights == s.flights - {h} && s'.free == s.free && s'.chains == s.chains
    ensures SafeInv(DrainStep(s).s)
  {
    DrainSafe(s);
    assert HeadOk(s, h);
  }

  /** A slot as the driver keeps it: which request it belongs to is the model's. */
  datatype Entry = Entry(thread: nat, done: bool, status: nat, len: nat, abandoned: bool)

  function EntryOf(s: Slot): Entry { Entry(s.thread, s.done, s.status, s.len, s.abandoned) }

  class Driver {
    const queue: SplitQueue
    const slots: array<Option<Entry>>
    var lastUsed: nat
    var usedMem: seq<UsedElem>
    var usedIdx: nat
    var statusMem: seq<nat>
    var bounce: seq<Bytes>
    var table: seq<Descriptor>
    var availMem: seq<nat>
    var availIdx: nat
    var woken: seq<nat>
    var faults: nat
    var abandoned: nat
    var reclaimed: nat
    ghost var model: Blk

    ghost predicate SlotMatches(h: nat)
      requires h < slots.Length
      reads this, slots
    {
      slots[h] == if h in model.slots then Some(EntryOf(model.slots[h])) else None
    }

    ghost predicate FlightMatches(taken: set<nat>, h: nat)
      requires h < queue.inFlight.Length
      reads this, queue, queue.inFlight
    {
      queue.inFlight[h] <==> h in model.flights && h !in taken
    }

    /** The driver's own structures hold what the model says they hold, but for the marks of chains just taken. */
    ghost predicate Matches(taken: set<nat>)
      reads this, slots, queue, queue.desc, queue.inFlight
    {
      && slots.Length == 64 && queue.size == 64 && queue.Valid()
      && queue.freeList == model.free && queue.chains == model.chains
      && (forall h: nat {:trigger SlotMatches(h)} :: h < 64 ==> SlotMatches(h))
      && (forall h: nat {:trigger FlightMatches(taken, h)} :: h < 64 ==> FlightMatches(taken, h))
    }

    /** So do the cursors, the counters and the memory shared with the device. */
    ghost predicate MemoryMatches()
      reads this, queue
    {
      && lastUsed == model.rings.last && usedMem == model.rings.usedMem && usedIdx == model.rings.usedIdx
      && table == model.table && availMem == model.rings.availMem && availIdx == model.rings.availIdx
      && queue.availIdx == model.rings.availNext
      && statusMem == model.statusMem && bounce == model.bounce && woken == model.woken
      && model.counts == Counts(faults, abandoned, reclaimed)
    }

    ghost predicate ValidBut(taken: set<nat>)
      reads this, slots, queue, queue.desc, queue.inFlight
    {
      SafeInv(model) && Matches(taken) && MemoryMatches()
    }

    ghost predicate Valid()
      reads this, slots, queue, queue.desc, queue.inFlight
    {
      ValidBut({})
    }

    constructor ()
      ensures Valid() && model == Initial()
    {
      queue := new SplitQueue(64);
      slots := new Option<Entry>[64](i => None);
      lastUsed, usedIdx, availIdx, faults, abandoned, reclaimed := 0, 0, 0, 0, 0, 0;
      table := ZeroTable();
      availMem := ZeroWords();
      usedMem := ZeroUsed();
      statusMem := ZeroWords();
      bounce := ZeroBuffers();
      woken := [];
      model := Initial();
      InitialSafe();
      new;
    }

    /** Takes the next used entry off the ring, or refuses it. */
    method TakeEntry() returns (r: Option<(nat, nat)>)
      requires Valid() && model.pc.Draining?
      modifies queue.inFlight, queue.usedRing
      ensures r.Some? <==> Taking(model, usedMem[RingPos(lastUsed)].id)
      ensures r.Some? ==> r.value == (usedMem[RingPos(lastUsed)].id, usedMem[RingPos(lastUsed)].len)
      ensures ValidBut(if r.Some? then {r.value.0} else {})
    {
      var slot := RingPos(lastUsed);
      var elem := usedMem[slot];
      var ok := queue.IngestUsedSlot(slot, elem);
      assert queue.usedRing[..][slot] == elem;
      assert RingSlot(slot, 64) == slot;
      assert elem.id < 64 ==> FlightMatches({}, elem.id);
      ghost var marks := queue.inFlight[..];
      r := queue.TakeUsed(slot);
      ghost var taken: set<nat> := if r.Some? then {r.value.0} else {};
      forall h: nat | h < 64 ensures SlotMatches(h) && FlightMatches(taken, h) {
        assert old(SlotMatches(h)) && old(FlightMatches({}, h));
        assert queue.inFlight[..][h] == queue.inFlight[h] && marks[h] == old(queue.inFlight[h]);
      }
    }

    /** A refused entry is counted and passed over. */
    method Refuse()
      requires Valid() && model.pc.Draining? && !Taking(model, usedMem[RingPos(lastUsed)].id)
      modifies this
      ensures Valid() && DrainStep(old(model)) == Next(model)
    {
      DrainRefuses(model);
      faults := faults + 1;
      lastUsed := NextIndex(lastUsed);
      model := DrainStep(model).s;
      forall h: nat | h < 64 ensures SlotMatches(h) && FlightMatches({}, h) {
        assert old(SlotMatches(h)) && old(FlightMatches({}, h));
      }
    }

    /** Frees a chain whose completion was just taken, and passes over its entry. */
    method FreeTaken(head: nat, ghost next: Blk)
      requires ValidBut({head}) && Reclaimed(model, next, head) && SafeInv(next)
      modifies this, slots, queue, queue.desc, queue.inFlight
      ensures Valid() && model == next
    {
      queue.FreeChain(head);
      slots[head] := None;
      reclaimed := reclaimed + 1;
      lastUsed := NextIndex(lastUsed);
      model := next;
      forall h: nat | h < 64 ensures SlotMatches(h) && FlightMatches({}, h) {
        assert old(SlotMatches(h)) && old(FlightMatches({head}, h));
      }
    }

    /** The completion of a request its caller gave up on: the chain goes back to the free list. */
    method Reclaim(head: nat)
      requires ValidBut({head}) && Taking(model, head) && head in model.slots && model.slots[head].abandoned
      modifies this, slots, queue, queue.desc, queue.inFlight
      ensures Valid() && DrainStep(old(model)) == Next(model)
    {
      DrainReclaims(model, head);
      FreeTaken(head, DrainStep(model).s);
    }

    /** The completion of a request still waited for: its slot is done and its thread to be woken. */
    method Wake(head: nat, len: nat)
      requires ValidBut({head}) && Taking(model, head) && head in model.slots && !model.slots[head].abandoned
      requires len == usedMem[RingPos(lastUsed)].len
      modifies this, slots
      ensures Valid() && DrainStep(old(model)) == Next(model)
    {
      DrainWakes(model, head);
      assert SlotMatches(head);
      var entry := slots[head].value;
      slots[head] := Some(entry.(done := true, status := statusMem[head], len := len));
      woken := woken + [entry.thread];
      lastUsed := NextIndex(lastUsed);
      model := DrainStep(model).s;
      forall h: nat | h < 64 ensures SlotMatches(h) && FlightMatches({}, h) {
        assert old(SlotMatches(h)) && old(FlightMatches({head}, h));
      }
    }

    method DrainOne()
      requires Valid() && model.pc.Draining?
      modifies this, slots, queue, queue.desc, queue.inFlight, queue.usedRing
      ensures Valid() && DrainStep(old(model)) == Next(model)
    {
      var taken := TakeEntry();
      if taken.None? {
        Refuse();
      } else {
        var (head, len) := taken.value;
        assert HeadOk(model, head) && SlotMatches(head);
        if slots[head].value.abandoned {
          Reclaim(head);
        } else {
          Wake(head, len);
        }
      }
    }

    /** Reads the used index: how many entries to consume, or a fault if it claims more than a ring holds. */
    method ReadUsedIndex() returns (pending: nat)
      requires Valid() && model.pc == Idle
      modifies this
      ensures Valid() && InterruptStep(old(model)) == Next(model)
      ensures if pending == 0 then model.pc == Idle else model.pc.Draining? && model.pc.left == pending
    {
      InterruptIs(model);
      InterruptSafe(model);
      pending := WrapSub(usedIdx, lastUsed);
      model := InterruptStep(model).s;
      if pending > 64 {
        faults := faults + 1;
        pending := 0;
      }
      forall h: nat | h < 64 ensures SlotMatches(h) && FlightMatches({}, h) {
        assert old(SlotMatches(h)) && old(FlightMatches({}, h));
      }
    }

    /** Drains what the used index says is pending, in order. */
    method HandleCompletion()
      requires Valid() && model.pc == Idle
      modifies this, slots, queue, queue.desc, queue.inFlight, queue.usedRing
      ensures Valid() && model.pc == Idle
      ensures InterruptStep(old(model)).Next? && model == DrainAll(InterruptStep(old(model)).s)
    {
      var pending := ReadUsedIndex();
      ghost var all := DrainAll(model);
      for i := 0 to pending
        invariant Valid() && DrainAll(model) == all
        invariant if i < pending then model.pc.Draining? && model.pc.left == pending - i else model.pc == Idle
      {
        DrainSafe(model);
        DrainLeft(model);
        DrainOne();
      }
    }

    /** Describes a fresh three-chain: header, data, status. */
    method DescribeChain(head: nat, want: nat, read: bool)
      requires queue.Valid() && queue.size == 64 && head in queue.chains && |queue.chains[head]| == 3
      requires queue.chains[head][2] < 64 && queue.desc[queue.chains[head][2]].next == 0
      modifies queue.desc
      ensures queue.Valid()
      ensures Described(queue.desc[..], queue.chains[head], head, want, read)
    {
      ghost var chain := queue.chains[head];
      ThreeChain(queue.owner, queue.freeList, queue.chains, head);
      assert ChainLinked(queue.desc[..], chain);
      assert ChainLink(queue.desc[..], chain, 0) && ChainLink(queue.desc[..], chain, 1) &&
          ChainLink(queue.desc[..], chain, 2);
      var data := queue.NextInChain(head);
      assert data == Some(chain[1]);
      var status := queue.NextInChain(data.value);
      assert status == Some(chain[2]);
      queue.Describe(head, HeaderAt(head), HEADER_BYTES, false);
      queue.Describe(data.value, DataAt(head), want, read);
      queue.Describe(status.value, StatusAt(head), 1, true);
    }

    /** Copies a chain's descriptors into the table the device reads, walking the chain. */
    method WriteChain(head: nat, want: nat, read: bool)
      requires queue.Valid() && queue.size == 64 && head in queue.chains && |table| == 64
      requires Described(queue.desc[..], queue.chains[head], head, want, read)
      modifies this`table
      ensures table == Describing(old(table), queue.chains[head], head, want, read)
    {
      ghost var chain, t0 := queue.chains[head], table;
      ThreeChain(queue.owner, queue.freeList, queue.chains, head);
      var next := Some(head);
      ghost var k := 0;
      while next.Some?
        invariant k <= 3 && next == (if k < 3 then Some(chain[k]) else None)
        invariant |table| == 64 && table == Partly(t0, queue.desc[..], chain, k)
        decreases 3 - k
      {
        var index := next.value;
        table := table[index := queue.desc[index]];
        next := queue.NextInChain(index);
        k := k + 1;
      }
    }

    /** Fills in a request's slot, bounce buffer and descriptors, none of which the device looks at yet. */
    method Prepare(h: nat, thread: nat, want: nat, out: Option<Bytes>)
      requires queue.Valid() && queue.size == 64 && slots.Length == 64 && h < 64 && h in queue.chains
      requires |queue.chains[h]| == 3
      requires queue.chains[h][2] < 64 && queue.desc[queue.chains[h][2]].next == 0
      requires |statusMem| == 64 && |bounce| == 64
      modifies this`statusMem, this`bounce, slots, queue.desc
      ensures queue.Valid() && Described(queue.desc[..], queue.chains[h], h, want, out.None?)
      ensures forall k: nat :: k < 64 ==>
        slots[k] == if k == h then Some(Entry(thread, false, 0xff, 0, false)) else old(slots[k])
      ensures statusMem == old(statusMem)[h := 0xff]
      ensures bounce == if out.Some? then old(bounce)[h := Overwrite(old(bounce)[h], out.value)] else old(bounce)
    {
      statusMem := statusMem[h := 0xff];
      if out.Some? {
        bounce := bounce[h := Overwrite(bounce[h], out.value)];
      }
      DescribeChain(h, want, out.None?);
      slots[h] := Some(Entry(thread, false, 0xff, 0, false));
    }

    /** Publishes a described chain: the table, the ring, and last the index that covers them. */
    method Announce(h: nat, want: nat, read: bool)
      requires queue.Valid() && queue.size == 64 && h < 64 && h in queue.chains
      requires |table| == 64 && |availMem| == 64
      requires Described(queue.desc[..], queue.chains[h], h, want, read)
      modifies this`table, this`availMem, this`availIdx, queue`availIdx, queue.inFlight, queue.availRing
      ensures queue.Valid() && queue.availIdx == NextIndex(old(queue.availIdx)) == availIdx
      ensures forall k: nat :: k < 64 ==> queue.inFlight[k] == (k == h || old(queue.inFlight[k]))
      ensures table == Describing(old(table), queue.chains[h], h, want, read)
      ensures availMem == old(availMem)[RingPos(old(queue.availIdx)) := h]
    {
      var slot := RingPos(queue.availIdx);
      ghost var marks := queue.inFlight[..];
      var idx := queue.Publish(h);
      WriteChain(h, want, read);
      availMem := availMem[slot := h];
      availIdx := idx;
      forall k: nat | k < 64 ensures queue.inFlight[k] == (k == h || old(queue.inFlight[k])) {
        assert queue.inFlight[..][k] == queue.inFlight[k] && marks[k] == old(queue.inFlight[k]);
      }
    }

    /** Builds and publishes a request on a fresh chain; the index goes last, once all it covers is written. */
    method Build(h: nat, thread: nat, want: nat, out: Option<Bytes>)
      requires queue.Valid() && queue.size == 64 && slots.Length == 64 && h < 64 && h in queue.chains
      requires |queue.chains[h]| == 3
      requires queue.chains[h][2] < 64 && queue.desc[queue.chains[h][2]].next == 0
      requires |statusMem| == 64 && |bounce| == 64 && |table| == 64 && |availMem| == 64
      modifies this`statusMem, this`bounce, this`table, this`availMem, this`availIdx
      modifies slots, queue`availIdx, queue.desc, queue.inFlight, queue.availRing
      ensures queue.Valid() && queue.availIdx == NextIndex(old(queue.availIdx)) == availIdx
      ensures forall k: nat :: k < 64 ==> queue.inFlight[k] == (k == h || old(queue.inFlight[k]))
      ensures forall k: nat :: k < 64 ==>
        slots[k] == if k == h then Some(Entry(thread, false, 0xff, 0, false)) else old(slots[k])
      ensures statusMem == old(statusMem)[h := 0xff]
      ensures bounce == if out.Some? then old(bounce)[h := Overwrite(old(bounce)[h], out.value)] else old(bounce)
      ensures table == Describing(old(table), queue.chains[h], h, want, out.None?)
      ensures availMem == old(availMem)[RingPos(old(queue.availIdx)) := h]
    {
      Prepare(h, thread, want, out);
      Announce(h, want, out.None?);
    }

    /** A chain was just taken off the free list and nothing else has happened yet. */
    ghost predicate Allocated(h: nat)
      reads this, slots, queue, queue.desc, queue.inFlight
    {
      && SafeInv(model) && MemoryMatches() && |model.free| >= 3 && h == model.free[0]
      && slots.Length == 64 && queue.size == 64 && queue.Valid()
      && queue.freeList == model.free[3..] && queue.chains == model.chains[h := model.free[..3]]
      && model.free[2] < 64 && queue.desc[model.free[2]].next == 0
      && (forall k: nat {:trigger SlotMatches(k)} :: k < 64 ==> SlotMatches(k))
      && (forall k: nat {:trigger FlightMatches({}, k)} :: k < 64 ==> FlightMatches({}, k))
    }

    method PublishAs(h: nat, thread: nat, want: nat, out: Option<Bytes>, ghost next: Blk)
      requires Allocated(h) && Submits(model, next, thread, want, out) && SafeInv(next)
      modifies this, slots, queue`availIdx, queue.desc, queue.inFlight, queue.availRing
      ensures Valid() && model == next
    {
      Build(h, thread, want, out);
      model := next;
      forall k: nat | k < 64 ensures SlotMatches(k) && FlightMatches({}, k) {
        assert old(SlotMatches(k)) && old(FlightMatches({}, k));
        assert k in model.flights <==> k in model.flights.Keys;
      }
    }

    method PublishOn(h: nat, thread: nat, want: nat, out: Option<Bytes>)
      requires Allocated(h) && Enabled(model, Step.Submit(thread, want, out))
      modifies this, slots, queue`availIdx, queue.desc, queue.inFlight, queue.availRing
      ensures Valid() && SubmitStep(old(model), thread, want, out).Next?
      ensures model == Submitted(old(model), thread, want, out)
    {
      SubmittedIs(model, thread, want, out);
      PublishAs(h, thread, want, out, Submitted(model, thread, want, out));
    }

    /** Publishes a request, or refuses for want of three free descriptors. */
    method Submit(thread: nat, want: nat, out: Option<Bytes>) returns (head: Option<nat>)
      requires Valid() && Enabled(model, Step.Submit(thread, want, out))
      modifies this, slots, queue, queue.desc, queue.inFlight, queue.availRing
      ensures Valid()
      ensures head.None? ==> SubmitStep(old(model), thread, want, out) == Refused && model == old(model)
      ensures head.Some? ==>
        SubmitStep(old(model), thread, want, out).Next? && model == Submitted(old(model), thread, want, out)
    {
      head := queue.AllocChain(3);
      forall k: nat | k < 64 ensures SlotMatches(k) && FlightMatches({}, k) {
        assert old(SlotMatches(k)) && old(FlightMatches({}, k));
      }
      if head.Some? {
        PublishOn(head.value, thread, want, out);
      }
    }

    /** Marks a slot given up on; the device may still have its chain, so nothing is freed. */
    method Quarantine(head: nat, ghost r: nat, ghost next: Blk)
      requires Valid() && r in model.requests && model.requests[r].head == head && SafeInv(next)
      requires GivesUp(model, next, r)
      modifies this, slots
      ensures Valid() && model == next
    {
      assert ReqOk(model, r) && HeadOk(model, head) && SlotMatches(head);
      slots[head] := Some(slots[head].value.(abandoned := true));
      abandoned := abandoned + 1;
      model := next;
      forall h: nat | h < 64 ensures SlotMatches(h) && FlightMatches({}, h) {
        assert old(SlotMatches(h)) && old(FlightMatches({}, h));
      }
    }

    /** Frees the chain of a request the device has finished with. */
    method Release(head: nat, ghost r: nat, ghost next: Blk)
      requires Valid() && r in model.requests && model.requests[r].head == head && SafeInv(next)
      requires Frees(model, next, r)
      modifies this, slots, queue, queue.desc, queue.inFlight
      ensures Valid() && model == next
    {
      assert ReqOk(model, r) && HeadOk(model, head);
      queue.FreeChain(head);
      slots[head] := None;
      model := next;
      forall h: nat | h < 64 ensures SlotMatches(h) && FlightMatches({}, h) {
        assert old(SlotMatches(h)) && old(FlightMatches({}, h));
      }
    }

    method CountFault()
      requires Valid() && model.pc == Idle
      modifies this
      ensures Valid() && model == Faulted(old(model))
    {
      BuffersSized(model);
      QuietSafe(model, Faulted(model));
      faults := faults + 1;
      model := Faulted(model);
      forall h: nat | h < 64 ensures SlotMatches(h) && FlightMatches({}, h) {
        assert old(SlotMatches(h)) && old(FlightMatches({}, h));
      }
    }

    /** The same for a read that came back short, which is the device's fault. */
    method ReleaseShort(head: nat, ghost r: nat, ghost next: Blk)
      requires Valid() && model.pc == Idle && r in model.requests && model.requests[r].head == head && SafeInv(next)
      requires Frees(Faulted(model), next, r)
      modifies this, slots, queue, queue.desc, queue.inFlight
      ensures Valid() && model == next
    {
      CountFault();
      Release(head, r, next);
    }

    /**
     Answers a caller: from the chain's memory, which is then free, or as timed out, leaving the
     chain in quarantine.
     */
    method Finish(head: nat, status: nat, want: nat, read: bool, ghost r: nat) returns (reply: Reply)
      requires Valid() && model.pc == Idle && r in model.requests
      requires model.requests[r] == Request(head, want, read, Polled(status))
      modifies this, slots, queue, queue.desc, queue.inFlight
      ensures Valid() && FinishStep(old(model), r) == Next(model)
      ensures r in model.replies && model.replies[r] == reply
    {
      FinishSafe(model, r);
      ghost var next := FinishStep(model, r).s;
      assert ReqOk(model, r) && HeadOk(model, head) && SlotMatches(head);
      if status == STATUS_TIMED_OUT {
        Quarantine(head, r, next);
        return TimedOut;
      }
      if read && slots[head].value.len < want {
        ReleaseShort(head, r, next);
        return Short;
      }
      reply := if status != 0 then DeviceError(status) else if read then Transferred(bounce[head][..want]) else Written;
      Release(head, r, next);
    }

    /** A request dropped before its outcome was taken: freed if the device is done with it, else quarantined. */
    method DropRequest(head: nat, ghost r: nat)
      requires Valid() && Enabled(model, Drop(r)) && model.requests[r].head == head
      modifies this, slots, queue, queue.desc, queue.inFlight
      ensures Valid() && DropStep(old(model), r) == Next(model)
    {
      DropSafe(model, r);
      ghost var next := DropStep(model, r).s;
      assert ReqOk(model, r) && HeadOk(model, head) && SlotMatches(head);
      if slots[head].value.done {
        Release(head, r, next);
      } else {
        Quarantine(head, r, next);
      }
    }
  }

  // ---- A submission, every write of it, the lock held throughout ----

  function Do(s: Blk, step: Step): Blk {
    if Enabled(s, step) && Exec(s, step).Next? then Exec(s, step).s else s
  }

  function Submitted(s: Blk, thread: nat, want: nat, out: Option<Bytes>): Blk {
    Do(Do(Wrote(Do(s, Submit(thread, want, out))), WriteSlot), PublishIndex)
  }

  function Wrote(s: Blk): Blk {
    Do(Do(Do(s, WriteDesc), WriteDesc), WriteDesc)
  }

  /** The table with a chain's three descriptors written. */
  function Describing(table: seq<Descriptor>, chain: seq<nat>, h: nat, want: nat, read: bool): seq<Descriptor> {
    if |chain| == 3 && chain[0] < |table| && chain[1] < |table| && chain[2] < |table| then
      table[chain[0] := DescOf(chain, h, want, read, 0)]
           [chain[1] := DescOf(chain, h, want, read, 1)]
           [chain[2] := DescOf(chain, h, want, read, 2)]
    else table
  }

  lemma WritesOne(s: Blk, h: nat, k: nat)
    requires SafeInv(s) && s.pc == Writing(h, k) && k < 3
    ensures h in s.flights && h in s.chains && |s.chains[h]| == 3 && s.chains[h][k] < |s.table|
    ensures SafeInv(Do(s, WriteDesc))
    ensures Do(s, WriteDesc) == s.(
      table := s.table[s.chains[h][k] := DescOf(s.chains[h], h, s.flights[h].want, s.flights[h].read, k)],
      pc := Writing(h, k + 1))
  {
    WriteDescSafe(s);
    assert DescOk(s, h);
  }

  lemma WroteIs(s: Blk, h: nat)
    requires SafeInv(s) && s.pc == Writing(h, 0)
    ensures SafeInv(Wrote(s)) && h in s.flights && h in s.chains
    ensures Wrote(s) == s.(
      table := Describing(s.table, s.chains[h], h, s.flights[h].want, s.flights[h].read), pc := Writing(h, 3))
  {
    var s1 := Do(s, WriteDesc);
    var s2 := Do(s1, WriteDesc);
    WritesOne(s, h, 0);
    WritesOne(s1, h, 1);
    WritesOne(s2, h, 2);
  }

  lemma PublishedIs(s: Blk, h: nat)
    requires SafeInv(s) && s.pc == Writing(h, 3)
    ensures SafeInv(Do(Do(s, WriteSlot), PublishIndex))
    ensures Do(Do(s, WriteSlot), PublishIndex) == s.(pc := Idle, rings := s.rings.(
      availMem := s.rings.availMem[RingPos(PrevIndex(s.rings.availNext)) := h], availIdx := s.rings.availNext))
  {
    StepSafe(s, WriteSlot);
    StepSafe(Do(s, WriteSlot), PublishIndex);
  }

  lemma PrevOfNext(n: nat)
    requires n < U16
    ensures RingPos(PrevIndex(NextIndex(n))) == RingPos(n)
  {
  }

  /** What a whole submission leaves behind. */
  predicate Submits(s: Blk, s': Blk, thread: nat, want: nat, out: Option<Bytes>) {
    && |s.free| >= 3 && s.free[0] < 64 && |s.statusMem| == |s.bounce| == |s.table| == |s.rings.availMem| == 64
    && s.rings.availNext < U16 && s.free[1] < 64 && s.free[2] < 64
    && var h := s.free[0];
    && s'.free == s.free[3..] && s'.chains == s.chains[h := s.free[..3]] && s'.pc == Idle
    && s'.slots == s.slots[h := Slot(s.nextReq, thread, false, 0xff, 0, false)]
    && s'.flights.Keys == s.flights.Keys + {h}
    && s'.statusMem == s.statusMem[h := 0xff] && s'.woken == s.woken && s'.counts == s.counts
    && s'.bounce == (if out.Some? then s.bounce[h := Overwrite(s.bounce[h], out.value)] else s.bounce)
    && s'.table == Describing(s.table, s.free[..3], h, want, out.None?)
    && s'.rings.availMem == s.rings.availMem[RingPos(s.rings.availNext) := h]
    && s'.rings.availNext == NextIndex(s.rings.availNext) == s'.rings.availIdx
    && s'.rings.last == s.rings.last && s'.rings.usedMem == s.rings.usedMem
    && s'.rings.usedIdx == s.rings.usedIdx
  }

  lemma SubmittedIs(s: Blk, thread: nat, want: nat, out: Option<Bytes>)
    requires SafeInv(s) && Enabled(s, Submit(thread, want, out)) && |s.free| >= 3
    ensures SubmitStep(s, thread, want, out).Next? && SafeInv(Submitted(s, thread, want, out))
    ensures Submits(s, Submitted(s, thread, want, out), thread, want, out)
  {
    SubmitSafe(s, thread, want, out);
    FreeHeads(s, s.free[0]);
    PrevOfNext(s.rings.availNext);
    var s1 := SubmitStep(s, thread, want, out).s;
    WroteIs(s1, s.free[0]);
    PublishedIs(Wrote(s1), s.free[0]);
  }

  predicate Described(d: seq<Descriptor>, chain: seq<nat>, h: nat, want: nat, read: bool) {
    && |chain| == 3 && chain[0] < |d| && chain[1] < |d| && chain[2] < |d|
    && d[chain[0]] == Descriptor(HeaderAt(h), HEADER_BYTES, true, false, chain[1])
    && d[chain[1]] == Descriptor(DataAt(h), want, true, read, chain[2])
    && d[chain[2]] == Descriptor(StatusAt(h), 1, false, true, 0)
  }

  /** The first `k` descriptors of a three-chain copied. */
  function Partly(table: seq<Descriptor>, d: seq<Descriptor>, chain: seq<nat>, k: nat): (t: seq<Descriptor>)
    requires |chain| == 3 && forall i :: 0 <= i < 3 ==> chain[i] < |d| && chain[i] < |table|
    ensures |t| == |table|
  {
    if k == 0 then table
    else if k == 1 then table[chain[0] := d[chain[0]]]
    else if k == 2 then table[chain[0] := d[chain[0]]][chain[1] := d[chain[1]]]
    else table[chain[0] := d[chain[0]]][chain[1] := d[chain[1]]][chain[2] := d[chain[2]]]
  }

  lemma ThreeChain(owner: map<nat, nat>, list: seq<nat>, chains: map<nat, seq<nat>>, h: nat)
    requires Partition(64, owner, list, chains) && h in chains && |chains[h]| == 3
    ensures NoDup(chains[h]) && chains[h][0] == h
    ensures forall k :: 0 <= k < 3 ==> chains[h][k] < 64 && chains[h][k] !in list
  {
    var chain := chains[h];
    assert ChainOwned(64, owner, h, chain);
    forall k | 0 <= k < 3 ensures chain[k] < 64 && chain[k] !in list {
      assert Placed(64, owner, list, chains, chain[k]);
    }
  }

  /** Nothing but the slot's mark, the caller and its answer changed. */
  predicate GivesUp(s: Blk, s': Blk, r: nat)
    requires r in s.requests
  {
    s' == Abandon(s, s.requests[r].head).(requests := s'.requests, replies := s'.replies)
  }

  predicate Frees(s: Blk, s': Blk, r: nat)
    requires r in s.requests
  {
    && FreeIt(s, s.requests[r].head).Next?
    && s' == FreeIt(s, s.requests[r].head).s.(requests := s'.requests, replies := s'.replies)
  }

  lemma DrainPc(s: Blk)
    requires SafeInv(s) && s.pc.Draining? && DrainStep(s).Next?
    ensures var s' := DrainStep(s).s;
            if s.pc.left == 1 then s'.pc == Idle else s'.pc.Draining? && s'.pc.left == s.pc.left - 1
  {
    var h := s.rings.usedMem[RingPos(s.rings.last)].id;
    assert HeadOk(s, h);
    if Taking(s, h) {
      assert h in s.slots;
    } else {
      assert DrainStep(s) == Next(Advance(Faulted(s)));
    }
  }

  lemma DrainLeft(s: Blk)
    requires SafeInv(s) && s.pc.Draining? && DrainStep(s).Next?
    ensures var s' := DrainStep(s).s;
            if s.pc.left == 1 then s'.pc == Idle else s'.pc.Draining? && s'.pc.left == s.pc.left - 1
    ensures DrainAll(s) == DrainAll(DrainStep(s).s)
  {
    DrainPc(s);
  }
}
