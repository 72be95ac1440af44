/** Runs of an honest device that reach the two places where the driver's promises give way. */
module BlkRuns {
  import opened Seqs
  import opened VirtQueue
  import opened Wrappers
  import opened BlkSpec
  import opened BlkSafe
  import opened BlkInv
  import opened BlkSteps
  import opened BlkTheorems

  ghost predicate Reachable(s: Blk) {
    exists steps :: IsRun(Initial(), steps) && Honest(steps) && After(Initial(), steps) == s
  }

  lemma {:induction false} RunAppend(s: Blk, steps: seq<Step>, step: Step)
    requires IsRun(s, steps) && Honest(steps) && Enabled(After(s, steps), step) && !step.Scribble?
    ensures IsRun(s, steps + [step]) && Honest(steps + [step])
    ensures After(s, steps + [step]) == Stepped(After(s, steps), step)
    decreases steps
  {
    if steps == [] {
      assert steps + [step] == [step];
    } else {
      assert (steps + [step])[1..] == steps[1..] + [step];
      RunAppend(Stepped(s, steps[0]), steps[1..], step);
    }
  }

  /** One more step of the run, which breaks nothing. */
  lemma Step1(s: Blk, step: Step) returns (s': Blk)
    requires Reachable(s) && Inv(s) && Enabled(s, step) && !step.Scribble? && !step.Submit?
    ensures Exec(s, step) == Next(s') && Reachable(s') && Inv(s')
  {
    StepInv(s, step);
    s' := Exec(s, step).s;
    var steps :| IsRun(Initial(), steps) && Honest(steps) && After(Initial(), steps) == s;
    RunAppend(Initial(), steps, step);
  }

  /** The first request of all, a one-sector read, where the device and its caller have got to. */
  predicate FirstRead(s: Blk, stage: Option<Stage>, waiter: Waiter, done: bool) {
    && 0 in s.slots && s.slots[0] == Slot(0, 0, done, s.slots[0].status, s.slots[0].len, false)
    && 0 in s.requests && s.requests[0] == Request(0, 512, true, waiter)
    && 0 in s.chains && 0 !in s.replies
    && (if stage.Some? then 0 in s.flights && s.flights[0] == Flight(0, 512, true, stage.value) else 0 !in s.flights)
  }

  /** The indices of both rings. */
  predicate At(s: Blk, queued: nat, fetched: nat, posted: nat, consumed: nat) {
    && |s.rings.avail| == queued && s.rings.fetched == fetched
    && |s.rings.used| == posted && s.rings.consumed == consumed
  }

  lemma Begins() returns (s: Blk)
    ensures Reachable(s) && Inv(s) && s.pc == Writing(0, 0)
    ensures FirstRead(s, Some(Queued(0)), Waiting, false) && At(s, 1, 0, 0, 0)
  {
    var s0 := Initial();
    InitialInv();
    assert IsRun(s0, []) && Honest([]) && After(s0, []) == s0;
    assert s0.free[0] == 0;
    StepInv(s0, Submit(0, 512, None));
    s := Exec(s0, Submit(0, 512, None)).s;
    RunAppend(s0, [], Submit(0, 512, None));
  }

  lemma Publishes() returns (s: Blk)
    ensures Reachable(s) && Inv(s) && s.pc == Idle
    ensures FirstRead(s, Some(Queued(0)), Waiting, false) && At(s, 1, 0, 0, 0)
  {
    s := Begins();
    s := Step1(s, WriteDesc);
    s := Step1(s, WriteDesc);
    s := Step1(s, WriteDesc);
    s := Step1(s, WriteSlot);
    s := Step1(s, PublishIndex);
  }

  /** The device takes the request and completes it with `data` and a good status. */
  lemma Serves(s0: Blk, waiter: Waiter, data: Bytes) returns (s: Blk)
    requires Reachable(s0) && Inv(s0) && s0.pc == Idle && |data| <= 512
    requires FirstRead(s0, Some(Queued(0)), waiter, false) && At(s0, 1, 0, 0, 0)
    ensures Reachable(s) && Inv(s) && s.pc == Idle
    ensures FirstRead(s, Some(Posted(0)), waiter, false) && At(s, 1, 1, 1, 0)
    ensures 0 in s.verdicts && s.verdicts[0] == Verdict(0, |data| + 1, data, 512)
  {
    assert RingsOk(s0) && AvailOk(s0, 0) && StageOk(s0, 0);
    s := Step1(s0, Fetch);
    s := Step1(s, Post(0, 0, data));
  }

  /** The interrupt handler consumes that completion. */
  lemma Completes(s0: Blk, waiter: Waiter) returns (s: Blk)
    requires Reachable(s0) && Inv(s0) && s0.pc == Idle
    requires FirstRead(s0, Some(Posted(0)), waiter, false) && At(s0, 1, 1, 1, 0) && 0 in s0.verdicts
    ensures Reachable(s) && Inv(s) && s.pc == Idle && s.verdicts == s0.verdicts
    ensures FirstRead(s, None, waiter, true) && At(s, 1, 1, 1, 1)
  {
    PendingIs(s0);
    InterruptIs(s0);
    s := Step1(s0, Interrupt);
    DrainReads(s);
    assert StageOk(s, 0) && UsedOk(s, 0);
    s := Step1(s, Drain);
  }

  /** A deadline that passes before the completion, and an answer given after it, strand the chain. */
  lemma StrandingIsReachable()
    ensures exists s :: Reachable(s) && Inv(s) && Stranded(s, 0)
  {
    var s := Publishes();
    s := Step1(s, Expire(0));
    s := Serves(s, Polled(STATUS_TIMED_OUT), []);
    s := Completes(s, Polled(STATUS_TIMED_OUT));
    s := Step1(s, Finish(0));
    assert Stranded(s, 0);
  }

  /** The caller polls, finds its request done, and is answered. */
  lemma Answers(s0: Blk, v: Verdict) returns (s: Blk)
    requires Reachable(s0) && Inv(s0) && s0.pc == Idle && FirstRead(s0, None, Waiting, true)
    requires 0 in s0.verdicts && s0.verdicts[0] == v && v.status == 0 && v.len >= 512
    ensures Reachable(s) && Inv(s) && s.verdicts == s0.verdicts
    ensures 0 in s.replies && s.replies[0].Transferred?
  {
    assert ResultOk(s0, 0) && HeadOk(s0, 0);
    s := Step1(s0, Poll(0));
    assert s.slots == s0.slots && s.verdicts == s0.verdicts;
    s := Step1(s, Finish(0));
  }

  /** A device that leaves out the last byte of a read is believed: the caller is handed a byte it never wrote. */
  lemma ShortReadIsReachable(data: Bytes)
    requires |data| == 511
    ensures exists s ::
      && Reachable(s) && Inv(s) && 0 in s.replies && s.replies[0].Transferred?
      && 0 in s.verdicts && s.verdicts[0] == Verdict(0, 512, data, 512) && s.replies[0].data != data
  {
    var s := Publishes();
    s := Serves(s, Waiting, data);
    s := Completes(s, Waiting);
    s := Answers(s, Verdict(0, 512, data, 512));
    WholeTransferExactly(s, 0);
  }
}
