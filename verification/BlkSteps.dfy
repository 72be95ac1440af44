/** An honest device, step by step. */
module BlkSteps {
  import opened Seqs
  import opened VirtQueue
  import opened Wrappers
  import opened BlkSpec
  import opened BlkSafe
  import opened BlkInv

  // ---- Submission ----

  lemma SubmitHonest(s: Blk, thread: nat, want: nat, out: Option<Bytes>, k: nat)
    requires Inv(s) && Enabled(s, Submit(thread, want, out)) && |s.free| >= 3 && SubmitStep(s, thread, want, out).Next?
    ensures StageOk(SubmitStep(s, thread, want, out).s, k) && ResultOk(SubmitStep(s, thread, want, out).s, k)
  {
    FreeHeads(s, s.free[0]);
    assert HeadOk(s, k) && CallerOk(s, k) && ResultOk(s, k) && StageOk(s, k);
  }

  lemma SubmitRings(s: Blk, thread: nat, want: nat, out: Option<Bytes>, p: nat)
    requires Inv(s) && Enabled(s, Submit(thread, want, out)) && |s.free| >= 3 && SubmitStep(s, thread, want, out).Next?
    ensures AvailOk(SubmitStep(s, thread, want, out).s, p) && UsedOk(SubmitStep(s, thread, want, out).s, p)
  {
    FreeHeads(s, s.free[0]);
    assert AvailOk(s, p) && UsedOk(s, p);
  }

  lemma SubmitInv(s: Blk, thread: nat, want: nat, out: Option<Bytes>)
    requires Inv(s) && Enabled(s, Submit(thread, want, out)) && |s.free| >= 3
    ensures SubmitStep(s, thread, want, out).Next? && Inv(SubmitStep(s, thread, want, out).s)
  {
    SubmitSafe(s, thread, want, out);
    var s' := SubmitStep(s, thread, want, out).s;
    WrapsNext(|s.rings.avail|);
    forall k: nat ensures StageOk(s', k) && ResultOk(s', k) {
      SubmitHonest(s, thread, want, out, k);
    }
    forall r: nat ensures ReplyOk(s', r) {
      assert ReplyOk(s, r);
    }
    forall p: nat ensures AvailOk(s', p) && UsedOk(s', p) {
      SubmitRings(s, thread, want, out, p);
    }
  }

  // ---- The writes the device can see ----

  lemma WriteDescInv(s: Blk)
    requires Inv(s) && Enabled(s, WriteDesc)
    ensures WriteDescStep(s).Next? && Inv(WriteDescStep(s).s)
  {
    WriteDescSafe(s);
    var s' := WriteDescStep(s).s;
    forall k: nat ensures StageOk(s', k) && ReplyOk(s', k) && AvailOk(s', k) && UsedOk(s', k) {
      assert StageOk(s, k) && ReplyOk(s, k) && AvailOk(s, k) && UsedOk(s, k);
    }
    forall k: nat ensures ResultOk(s', k) {
      assert ResultOk(s, k);
    }
  }

  lemma WrapsPrev(n: nat)
    requires n > 0
    ensures RingPos(PrevIndex(Idx16(n))) == RingPos(n - 1)
  {
    WrapsNext(n - 1);
    WrapsRing(n - 1);
  }

  /** The slot a submission writes is one the device has already fetched from. */
  lemma WriteSlotRings(s: Blk, p: nat)
    requires Inv(s) && Enabled(s, WriteSlot) && WriteSlotStep(s).Next?
    ensures AvailOk(WriteSlotStep(s).s, p) && UsedOk(WriteSlotStep(s).s, p)
  {
    var n := |s.rings.avail|;
    WrapsPrev(n);
    QueuedBound(s);
    assert AvailOk(s, p) && UsedOk(s, p);
    if s.rings.fetched <= p < n - 1 {
      SlotsApart(p, n - 1);
    }
  }

  lemma WriteSlotInv(s: Blk)
    requires Inv(s) && Enabled(s, WriteSlot)
    ensures WriteSlotStep(s).Next? && Inv(WriteSlotStep(s).s)
  {
    StepSafe(s, WriteSlot);
    var s' := WriteSlotStep(s).s;
    forall k: nat ensures StageOk(s', k) && ReplyOk(s', k) {
      assert StageOk(s, k) && ReplyOk(s, k);
    }
    forall k: nat ensures ResultOk(s', k) {
      assert ResultOk(s, k);
    }
    forall p: nat ensures AvailOk(s', p) && UsedOk(s', p) {
      WriteSlotRings(s, p);
    }
  }

  /** Only the lock's holder, the fault count, the published index and who waits for what changed. */
  lemma FrameInv(s: Blk, s': Blk)
    requires Inv(s) && SafeInv(s') && RingsOk(s') && !s.pc.Writing? && !s'.pc.Writing?
    requires s' == s.(pc := s'.pc, counts := s'.counts, rings := s.rings.(availIdx := s'.rings.availIdx),
        requests := s'.requests)
    requires forall r :: r in s'.requests ==>
      r in s.requests && s'.requests[r] == s.requests[r].(waiter := s'.requests[r].waiter)
    ensures Inv(s')
  {
    forall k: nat ensures StageOk(s', k) && ReplyOk(s', k) && AvailOk(s', k) && UsedOk(s', k) {
      assert StageOk(s, k) && ReplyOk(s, k) && AvailOk(s, k) && UsedOk(s, k);
    }
    forall k: nat ensures ResultOk(s', k) {
      assert ResultOk(s, k);
    }
  }

  // ---- The device ----

  /** The device reads an index and a slot, and gets the next head published. */
  lemma FetchReads(s: Blk)
    requires Inv(s) && Enabled(s, Fetch)
    ensures s.rings.fetched < Published(s) <= |s.rings.avail|
    ensures s.rings.availMem[RingPos(s.rings.fetched)] == s.rings.avail[s.rings.fetched]
    ensures s.rings.avail[s.rings.fetched] in s.flights
    ensures s.flights[s.rings.avail[s.rings.fetched]].stage == Queued(s.rings.fetched)
  {
    assert AvailOk(s, s.rings.fetched);
  }

  lemma FetchInv(s: Blk)
    requires Inv(s) && Enabled(s, Fetch)
    ensures FetchStep(s).Next? && Inv(FetchStep(s).s)
  {
    FetchReads(s);
    var s' := FetchStep(s).s;
    BuffersSized(s);
    QuietSafe(s, s');
    forall k: nat ensures StageOk(s', k) && ResultOk(s', k) && ReplyOk(s', k) {
      assert StageOk(s, k) && ResultOk(s, k) && ReplyOk(s, k);
    }
    forall p: nat ensures AvailOk(s', p) && UsedOk(s', p) {
      assert AvailOk(s, p) && UsedOk(s, p) && AvailOk(s, s.rings.fetched);
    }
  }

  lemma PostInv(s: Blk, h: nat, status: nat, data: Bytes)
    requires Inv(s) && Enabled(s, Post(h, status, data))
    ensures PostStep(s, h, status, data).Next? && Inv(PostStep(s, h, status, data).s)
  {
    assert HeadOk(s, h);
    PostSafe(s, h, status, data);
    var s' := PostStep(s, h, status, data).s;
    forall k: nat ensures StageOk(s', k) {
      assert StageOk(s, k);
    }
    forall k: nat ensures ResultOk(s', k) {
      PostResult(s, h, status, data, k);
    }
    forall r: nat ensures ReplyOk(s', r) {
      assert ReplyOk(s, r);
    }
    forall p: nat ensures AvailOk(s', p) && UsedOk(s', p) {
      PostRings(s, h, status, data, p);
    }
  }

  /** The used slot a completion goes into is one the handler has already consumed. */
  lemma PostRings(s: Blk, h: nat, status: nat, data: Bytes, p: nat)
    requires Inv(s) && Enabled(s, Post(h, status, data)) && PostStep(s, h, status, data).Next?
    ensures AvailOk(PostStep(s, h, status, data).s, p) && UsedOk(PostStep(s, h, status, data).s, p)
  {
    RoomToPost(s, h);
    assert AvailOk(s, p) && UsedOk(s, p);
    if s.rings.consumed <= p < |s.rings.used| {
      SlotsApart(p, |s.rings.used|);
    }
  }

  lemma PostResult(s: Blk, h: nat, status: nat, data: Bytes, k: nat)
    requires Inv(s) && Enabled(s, Post(h, status, data)) && PostStep(s, h, status, data).Next?
    ensures ResultOk(PostStep(s, h, status, data).s, k)
  {
    assert HeadOk(s, h) && HeadOk(s, k) && ReqsApart(s, h, k) && ResultOk(s, k) && StageOk(s, k);
    assert CallerOk(s, k) && CallerOk(s, h);
    OverwriteIs(s.bounce[h], data);
  }

  // ---- The interrupt handler ----

  /** The handler finds pending exactly what the device posted since, and never more than a ring. */
  lemma PendingIs(s: Blk)
    requires Inv(s)
    ensures WrapSub(s.rings.usedIdx, s.rings.last) == |s.rings.used| - s.rings.consumed <= 64
  {
    PostedBound(s);
    Distance(s.rings.consumed, |s.rings.used|);
  }

  lemma InterruptInv(s: Blk)
    requires Inv(s) && Enabled(s, Interrupt)
    ensures InterruptStep(s).Next? && Inv(InterruptStep(s).s) && InterruptStep(s).s.counts == s.counts
  {
    PendingIs(s);
    InterruptIs(s);
    InterruptSafe(s);
    FrameInv(s, InterruptStep(s).s);
  }

  /** The entry the handler reads is the oldest posted and not yet consumed, and names a chain in flight. */
  lemma DrainReads(s: Blk)
    requires Inv(s) && s.pc.Draining?
    ensures s.rings.consumed < |s.rings.used|
    ensures var e := s.rings.usedMem[RingPos(s.rings.last)];
            && e == s.rings.used[s.rings.consumed] && Taking(s, e.id)
            && e.id in s.slots && e.id in s.chains && !s.slots[e.id].done
            && s.flights[e.id].stage == Posted(s.rings.consumed)
  {
    WrapsRing(s.rings.consumed);
    assert UsedOk(s, s.rings.consumed);
    assert HeadOk(s, s.rings.used[s.rings.consumed].id);
  }

  lemma DrainRings(s: Blk, s': Blk, p: nat)
    requires Inv(s) && s.pc.Draining?
    requires s'.flights == s.flights - {s.rings.usedMem[RingPos(s.rings.last)].id}
    requires s'.rings == s.rings.(last := NextIndex(s.rings.last), consumed := s.rings.consumed + 1)
    ensures AvailOk(s', p) && UsedOk(s', p)
  {
    DrainReads(s);
    assert AvailOk(s, p) && UsedOk(s, p);
  }

  lemma DrainHonestWakes(s: Blk, h: nat, k: nat)
    requires Inv(s) && Taking(s, h) && h in s.slots && !s.slots[h].abandoned && DrainStep(s).Next?
    ensures StageOk(DrainStep(s).s, k) && ResultOk(DrainStep(s).s, k)
  {
    DrainReads(s);
    assert HeadOk(s, k) && CallerOk(s, k) && StageOk(s, k) && ResultOk(s, k);
  }

  lemma DrainHonestReclaims(s: Blk, h: nat, k: nat)
    requires Inv(s) && Taking(s, h) && h in s.slots && s.slots[h].abandoned && DrainStep(s).Next?
    ensures StageOk(DrainStep(s).s, k) && ResultOk(DrainStep(s).s, k)
  {
    DrainReads(s);
    assert HeadOk(s, k) && StageOk(s, k) && ResultOk(s, k);
  }

  lemma DrainShape(s: Blk, h: nat)
    requires SafeInv(s) && Taking(s, h) && DrainStep(s).Next?
    ensures var s' := DrainStep(s).s;
            && s'.flights == s.flights - {h} && s'.replies == s.replies && s'.verdicts == s.verdicts
            && s'.counts.faults == s.counts.faults
            && s'.rings == s.rings.(last := NextIndex(s.rings.last), consumed := s.rings.consumed + 1)
            && (if s.pc.left == 1 then s'.pc == Idle else s'.pc.Draining? && s'.pc.left == s.pc.left - 1)
  {
    assert HeadOk(s, h);
  }

  lemma DrainInv(s: Blk)
    requires Inv(s) && Enabled(s, Drain)
    ensures DrainStep(s).Next? && Inv(DrainStep(s).s) && DrainStep(s).s.counts.faults == s.counts.faults
  {
    DrainReads(s);
    DrainSafe(s);
    WrapsNext(s.rings.consumed);
    var s', h := DrainStep(s).s, s.rings.usedMem[RingPos(s.rings.last)].id;
    DrainShape(s, h);
    forall k: nat ensures StageOk(s', k) && ResultOk(s', k) {
      if s.slots[h].abandoned { DrainHonestReclaims(s, h, k); } else { DrainHonestWakes(s, h, k); }
    }
    forall r: nat ensures ReplyOk(s', r) {
      assert ReplyOk(s, r);
    }
    forall p: nat ensures AvailOk(s', p) && UsedOk(s', p) {
      DrainRings(s, s', p);
    }
  }

  // ---- The caller ----

  lemma PollInv(s: Blk, r: nat, expired: bool)
    requires Inv(s) && r in s.requests && s.pc == Idle
    ensures PollStep(s, r, expired).Next? && Inv(PollStep(s, r, expired).s)
  {
    PollSafe(s, r, expired);
    FrameInv(s, PollStep(s, r, expired).s);
  }

  /** A caller leaves, its chain freed or given up on. */
  lemma LeaveInv(s: Blk, r: nat, s': Blk)
    requires Inv(s) && SafeInv(s') && r in s.requests && ReplyOk(s', r)
    requires s'.rings == s.rings && s'.flights == s.flights && s'.pc == s.pc && s'.statusMem == s.statusMem
    requires s'.bounce == s.bounce && s'.verdicts == s.verdicts && s'.requests == s.requests - {r}
    requires forall k :: k in s'.slots && !s'.slots[k].abandoned ==> k in s.slots && s'.slots[k] == s.slots[k]
    requires forall q :: q in s'.replies && q != r ==> q in s.replies && s'.replies[q] == s.replies[q]
    ensures Inv(s')
  {
    forall k: nat ensures StageOk(s', k) && ReplyOk(s', k) && AvailOk(s', k) && UsedOk(s', k) {
      assert StageOk(s, k) && ReplyOk(s, k) && AvailOk(s, k) && UsedOk(s, k);
    }
    forall k: nat ensures ResultOk(s', k) {
      assert ResultOk(s, k);
    }
  }

  /** The only fault an honest device is counted is a short read, at the caller's answer. */
  predicate FaultsRight(s: Blk, step: Step, s': Blk) {
    s'.counts.faults == s.counts.faults +
      (if step.Finish? && step.r in s'.replies && s'.replies[step.r] == Short then 1 else 0)
  }

  lemma FinishFaults(s: Blk, r: nat)
    requires SafeInv(s) && Enabled(s, Finish(r))
    ensures FinishStep(s, r).Next? && FaultsRight(s, Finish(r), FinishStep(s, r).s)
  {
    FinishSafe(s, r);
    assert ReqOk(s, r);
  }

  lemma FinishLateInv(s: Blk, r: nat)
    requires Inv(s) && Enabled(s, Finish(r)) && s.requests[r].waiter.status == STATUS_TIMED_OUT
    ensures FinishStep(s, r).Next? && Inv(FinishStep(s, r).s)
  {
    assert ReqOk(s, r);
    FinishSafe(s, r);
    LeaveInv(s, r, FinishStep(s, r).s);
  }

  /** The answer given, checked against the verdict in the chain's memory. */
  lemma FinishReply(s: Blk, r: nat)
    requires Inv(s) && Enabled(s, Finish(r)) && s.requests[r].waiter.status != STATUS_TIMED_OUT
    ensures FinishStep(s, r).Next? && ReplyOk(FinishStep(s, r).s, r)
  {
    var h := s.requests[r].head;
    assert ReqOk(s, r) && HeadOk(s, h) && ResultOk(s, h) && CallerOk(s, h);
  }

  lemma FinishInv(s: Blk, r: nat)
    requires Inv(s) && Enabled(s, Finish(r)) && s.requests[r].waiter.status != STATUS_TIMED_OUT
    ensures FinishStep(s, r).Next? && Inv(FinishStep(s, r).s)
  {
    FinishReply(s, r);
    FinishSafe(s, r);
    LeaveInv(s, r, FinishStep(s, r).s);
  }

  lemma DropInv(s: Blk, r: nat)
    requires Inv(s) && Enabled(s, Drop(r))
    ensures DropStep(s, r).Next? && Inv(DropStep(s, r).s)
  {
    assert ReqOk(s, r) && ReplyOk(s, r);
    DropSafe(s, r);
    LeaveInv(s, r, DropStep(s, r).s);
  }

  /**
   A device that completes only what it fetched reads no ring slot that names no chain, is
   counted no fault but a short read, and every step keeps where each chain is.
   */
  lemma StepInv(s: Blk, step: Step)
    requires Inv(s) && Enabled(s, step) && !step.Scribble?
    ensures Exec(s, step) != Broken
    ensures Exec(s, step).Refused? ==> step.Submit? && |s.free| < 3
    ensures Exec(s, step).Next? ==> Inv(Exec(s, step).s) && FaultsRight(s, step, Exec(s, step).s)
  {
    match step
    case Submit(thread, want, out) => if |s.free| >= 3 { SubmitInv(s, thread, want, out); }
    case WriteDesc => WriteDescInv(s);
    case WriteSlot => WriteSlotInv(s);
    case PublishIndex => StepSafe(s, step); FrameInv(s, Exec(s, PublishIndex).s);
    case Fetch => FetchInv(s);
    case Post(h, status, data) => PostInv(s, h, status, data);
    case Interrupt => InterruptInv(s);
    case Drain => DrainInv(s);
    case Poll(r) => PollInv(s, r, false);
    case Expire(r) => PollInv(s, r, true);
    case Finish(r) =>
      FinishFaults(s, r);
      if s.requests[r].waiter.status == STATUS_TIMED_OUT { FinishLateInv(s, r); } else { FinishInv(s, r); }
    case Drop(r) => DropInv(s, r);
  }
}
