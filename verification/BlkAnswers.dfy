/** What a caller is told, from its submission to its answer, over every run with an honest device. */
module BlkAnswers {
  import opened Seqs
  import opened VirtQueue
  import opened Wrappers
  import opened BlkSpec
  import opened BlkSafe
  import opened BlkInv
  import opened BlkSteps
  import opened BlkTheorems

  // ---- One answer, whatever the device ----

  /** The answer to a request whose wait ended with status `st`, `len` being what the device said it used. */
  predicate AnswerFor(reply: Reply, st: nat, len: nat, want: nat, read: bool) {
    && (reply == TimedOut <==> st == STATUS_TIMED_OUT)
    && (reply == Short <==> st != STATUS_TIMED_OUT && read && len < want)
    && (reply.DeviceError? <==> st != STATUS_TIMED_OUT && !(read && len < want) && st != 0)
    && (reply.DeviceError? ==> reply.status == st)
    && (reply.Transferred? <==> st == 0 && read && len >= want)
    && (reply.Transferred? ==> |reply.data| == want)
    && (reply == Written <==> st == 0 && !read)
  }

  /** A caller is answered once, and each answer in exactly its own case. */
  lemma FinishAnswers(s: Blk, r: nat)
    requires SafeInv(s) && Enabled(s, Finish(r))
    ensures var (q, s') := (s.requests[r], Stepped(s, Finish(r)));
      && r !in s.replies && r in s'.replies && r !in s'.requests && q.head in s.slots
      && AnswerFor(s'.replies[r], q.waiter.status, s.slots[q.head].len, q.want, q.read)
      && (s'.replies[r].Transferred? ==> q.head < |s.bounce| && s'.replies[r].data <= s.bounce[q.head])
  {
    FinishSafe(s, r);
    assert ReqOk(s, r) && HeadOk(s, s.requests[r].head);
  }

  /** A poll of a finished request hands over the device's status, at its deadline too. */
  lemma PollAnswers(s: Blk, r: nat, expired: bool)
    requires SafeInv(s) && s.pc == Idle && IsWaiting(s, r)
    ensures var (q, s') := (s.requests[r], Stepped(s, if expired then Expire(r) else Poll(r)));
      && q.head in s.slots && r in s'.requests
      && s'.requests[r] == q.(waiter :=
           if s.slots[q.head].done then Polled(s.slots[q.head].status)
           else if expired then Polled(STATUS_TIMED_OUT) else Waiting)
  {
    assert ReqOk(s, r);
  }

  // ---- A request's life ----

  datatype Asked = Asked(r: nat, head: nat, want: nat, read: bool)

  /** The deadline passes before the request's completion was consumed. */
  predicate TooLate(s: Blk, step: Step, r: nat) {
    step == Expire(r) && IsWaiting(s, r) && !IsDone(s, r)
  }

  predicate GaveUp(s: Blk, steps: seq<Step>, r: nat)
    requires IsRun(s, steps)
    decreases steps
  {
    steps != [] && (TooLate(s, steps[0], r) || GaveUp(Stepped(s, steps[0]), steps[1..], r))
  }

  predicate Waits(s: Blk, a: Asked, gaveUp: bool)
    requires a.r in s.requests
  {
    var q := s.requests[a.r];
    && q.head == a.head && q.want == a.want && q.read == a.read && a.r !in s.replies
    && if q.waiter.Waiting? then !gaveUp
       else if gaveUp then q.waiter == Polled(STATUS_TIMED_OUT)
       else q.head in s.slots && s.slots[q.head].done && s.slots[q.head].status == q.waiter.status
  }

  /** The answer is the one for what the device did, if it was not given up on. */
  predicate Told(s: Blk, a: Asked, gaveUp: bool)
    requires a.r in s.replies
  {
    if gaveUp then s.replies[a.r] == TimedOut
    else
      && a.r in s.verdicts
      && var v := s.verdicts[a.r];
      && AnswerFor(s.replies[a.r], v.status, v.len, a.want, a.read)
      && (s.replies[a.r].Transferred? ==> v.data <= s.replies[a.r].data)
  }

  /** The chain of a request answered as timed out by the device's own byte is done with. */
  predicate Spent(s: Blk, a: Asked) {
    a.head in s.slots && s.slots[a.head].req == a.r && s.slots[a.head].done && s.slots[a.head].abandoned
  }

  predicate Life(s: Blk, a: Asked, gaveUp: bool) {
    && a.r < s.nextReq
    && (a.r in s.requests ==> Waits(s, a, gaveUp))
    && (a.r in s.replies ==>
          Told(s, a, gaveUp) && (!gaveUp && s.replies[a.r] == TimedOut ==> Spent(s, a)))
  }

  // ---- Each step keeps it ----

  /** Nothing a request's life depends on changed. */
  predicate Aside(s: Blk, s': Blk, a: Asked) {
    && a.r < s'.nextReq
    && (a.r in s.requests <==> a.r in s'.requests) && (a.r in s.replies <==> a.r in s'.replies)
    && (a.r in s.requests ==> s'.requests[a.r] == s.requests[a.r])
    && (a.r in s.replies ==> s'.replies[a.r] == s.replies[a.r])
    && (a.r in s.replies && a.r in s.verdicts && s.replies[a.r] != TimedOut ==>
          a.r in s'.verdicts && s'.verdicts[a.r] == s.verdicts[a.r])
    && (a.head in s.slots && s.slots[a.head].req == a.r && s.slots[a.head].done ==>
          && a.head in s'.slots && s'.slots[a.head] == s.slots[a.head]
          && (a.r in s.verdicts ==> a.r in s'.verdicts && s'.verdicts[a.r] == s.verdicts[a.r]))
  }

  lemma AsideKeeps(s: Blk, s': Blk, a: Asked, gaveUp: bool)
    requires Inv(s) && Life(s, a, gaveUp) && Aside(s, s', a)
    ensures Life(s', a, gaveUp)
  {
    assert ReqOk(s, a.r);
  }

  lemma SubmitAside(s: Blk, thread: nat, want: nat, out: Option<Bytes>, a: Asked)
    requires Inv(s) && Enabled(s, Submit(thread, want, out)) && a.r < s.nextReq
    ensures Aside(s, Stepped(s, Submit(thread, want, out)), a)
  {
    if |s.free| >= 3 { FreeHeads(s, s.free[0]); }
    assert ReqOk(s, a.r) && ReqOk(s, s.nextReq);
  }

  lemma PostAside(s: Blk, h: nat, status: nat, data: Bytes, a: Asked)
    requires Inv(s) && Enabled(s, Post(h, status, data)) && a.r < s.nextReq
    ensures Aside(s, Stepped(s, Post(h, status, data)), a)
  {
    assert HeadOk(s, h) && HeadOk(s, a.head) && ReqsApart(s, h, a.head);
  }

  lemma DrainAside(s: Blk, a: Asked)
    requires Inv(s) && Enabled(s, Drain) && a.r < s.nextReq
    ensures Aside(s, Stepped(s, Drain), a)
  {
    DrainReads(s);
    DrainSafe(s);
    var h := s.rings.used[s.rings.consumed].id;
    DrainShape(s, h);
    assert HeadOk(s, a.head) && HeadOk(s, h);
  }

  /** Request `r` of chain `h` leaves, and nothing of any other is touched. */
  ghost predicate OneLeaves(s: Blk, s': Blk, r: nat, h: nat) {
    && s'.requests == s.requests - {r} && (forall q :: q != r ==> (q in s'.replies <==> q in s.replies))
    && (forall q :: q != r && q in s.replies ==> s'.replies[q] == s.replies[q])
    && (forall k :: k != h && k in s.slots ==> k in s'.slots && s'.slots[k] == s.slots[k])
    && s'.verdicts == s.verdicts && s'.bounce == s.bounce && s'.flights == s.flights && s'.nextReq == s.nextReq
  }

  /** The same before the request is struck off. */
  ghost predicate OnlySlot(s: Blk, s': Blk, h: nat) {
    && s'.requests == s.requests && s'.replies == s.replies && s'.verdicts == s.verdicts && s'.bounce == s.bounce
    && s'.flights == s.flights && s'.nextReq == s.nextReq
    && (forall k :: k != h && k in s.slots ==> k in s'.slots && s'.slots[k] == s.slots[k])
  }

  lemma AbandonIsOnly(s: Blk, h: nat)
    ensures OnlySlot(s, Abandon(s, h), h)
  {
  }

  lemma AnsweredLeaves(s: Blk, s1: Blk, r: nat, h: nat, reply: Reply)
    requires OnlySlot(s, s1, h)
    ensures OneLeaves(s, Answered(Next(s1), r, reply).s, r, h)
  {
  }

  lemma ForgetLeaves(s: Blk, s1: Blk, r: nat, h: nat)
    requires OnlySlot(s, s1, h)
    ensures OneLeaves(s, Forget(Next(s1), r).s, r, h)
  {
  }

  lemma AbandonLeaves(s: Blk, r: nat, h: nat)
    ensures OneLeaves(s, Answered(Next(Abandon(s, h)), r, TimedOut).s, r, h)
    ensures OneLeaves(s, Forget(Next(Abandon(s, h)), r).s, r, h)
  {
    AbandonIsOnly(s, h);
    AnsweredLeaves(s, Abandon(s, h), r, h, TimedOut);
    ForgetLeaves(s, Abandon(s, h), r, h);
  }

  lemma FreeLeaves(s: Blk, r: nat, h: nat, reply: Reply)
    requires FreeIt(s, h).Next?
    ensures OneLeaves(s, Answered(FreeIt(s, h), r, reply).s, r, h)
    ensures OneLeaves(s, Forget(FreeIt(s, h), r).s, r, h)
  {
  }

  lemma FinishIs(s: Blk, r: nat)
    requires SafeInv(s) && Enabled(s, Finish(r))
    ensures var q := s.requests[r];
      if q.waiter.status == STATUS_TIMED_OUT then FinishStep(s, r) == Answered(Next(Abandon(s, q.head)), r, TimedOut)
      else
        || (FreeIt(s, q.head).Next? && exists reply :: FinishStep(s, r) == Answered(FreeIt(s, q.head), r, reply))
        || (FreeIt(Faulted(s), q.head).Next? && FinishStep(s, r) == Answered(FreeIt(Faulted(s), q.head), r, Short))
  {
    FinishSafe(s, r);
  }

  lemma FinishLeaves(s: Blk, r: nat)
    requires SafeInv(s) && Enabled(s, Finish(r))
    ensures OneLeaves(s, Stepped(s, Finish(r)), r, s.requests[r].head)
  {
    FinishIs(s, r);
    var h := s.requests[r].head;
    if s.requests[r].waiter.status == STATUS_TIMED_OUT {
      AbandonLeaves(s, r, h);
    } else if FinishStep(s, r) == Answered(FreeIt(Faulted(s), h), r, Short) && FreeIt(Faulted(s), h).Next? {
      FreeLeaves(Faulted(s), r, h, Short);
    } else {
      var reply :| FinishStep(s, r) == Answered(FreeIt(s, h), r, reply);
      FreeLeaves(s, r, h, reply);
    }
  }

  lemma DropLeaves(s: Blk, r: nat)
    requires SafeInv(s) && Enabled(s, Drop(r))
    ensures OneLeaves(s, Stepped(s, Drop(r)), r, s.requests[r].head)
  {
    DropSafe(s, r);
    var h := s.requests[r].head;
    if IsDone(s, r) { FreeLeaves(s, r, h, Written); } else { AbandonLeaves(s, r, h); }
  }

  lemma LeavingAside(s: Blk, s': Blk, r: nat, a: Asked)
    requires Inv(s) && r in s.requests && OneLeaves(s, s', r, s.requests[r].head) && a.r < s.nextReq && r != a.r
    ensures Aside(s, s', a)
  {
    assert ReqOk(s, r) && ReqsApart(s, s.requests[r].head, a.head);
  }

  lemma PollAside(s: Blk, r: nat, expired: bool, a: Asked)
    requires s.pc == Idle && IsWaiting(s, r) && a.r < s.nextReq && r != a.r
    ensures Aside(s, PollStep(s, r, expired).s, a)
  {
  }

  /** Nothing of any request changed, except how far the device is with it. */
  predicate Quiet(s: Blk, s': Blk) {
    && s'.requests == s.requests && s'.replies == s.replies && s'.slots == s.slots && s'.verdicts == s.verdicts
    && s'.bounce == s.bounce && s'.nextReq == s.nextReq
    && (forall h :: h in s'.flights ==>
          h in s.flights && s'.flights[h].req == s.flights[h].req && s'.flights[h].read == s.flights[h].read)
  }

  lemma WritesQuiet(s: Blk, step: Step)
    requires Enabled(s, step) && (step.WriteDesc? || step.WriteSlot? || step.PublishIndex?)
    ensures Quiet(s, Stepped(s, step))
  {
  }

  lemma FetchQuiet(s: Blk)
    requires FetchStep(s).Next?
    ensures Quiet(s, FetchStep(s).s)
  {
  }

  lemma InterruptQuiet(s: Blk)
    requires SafeInv(s) && s.pc == Idle
    ensures InterruptStep(s).Next? && Quiet(s, InterruptStep(s).s)
  {
    InterruptIs(s);
  }

  lemma PollsLife(s: Blk, step: Step, a: Asked, gaveUp: bool)
    requires Inv(s) && Enabled(s, step) && Life(s, a, gaveUp) && (step == Poll(a.r) || step == Expire(a.r))
    ensures Life(Stepped(s, step), a, gaveUp || TooLate(s, step, a.r))
  {
    PollAnswers(s, a.r, step.Expire?);
    assert ReqOk(s, a.r);
  }

  lemma DropsLife(s: Blk, a: Asked, gaveUp: bool)
    requires Inv(s) && Enabled(s, Drop(a.r)) && Life(s, a, gaveUp)
    ensures Life(Stepped(s, Drop(a.r)), a, gaveUp)
  {
    DropSafe(s, a.r);
    assert ReqOk(s, a.r);
  }

  lemma FinishesLife(s: Blk, a: Asked, gaveUp: bool)
    requires Inv(s) && Enabled(s, Finish(a.r)) && Life(s, a, gaveUp)
    ensures Life(Stepped(s, Finish(a.r)), a, gaveUp)
  {
    FinishAnswers(s, a.r);
    assert ReqOk(s, a.r) && ResultOk(s, a.head) && HeadOk(s, a.head);
  }

  predicate IsQuiet(step: Step) {
    step.WriteDesc? || step.WriteSlot? || step.PublishIndex? || step.Fetch? || step.Interrupt?
  }

  lemma QuietSteps(s: Blk, step: Step)
    requires SafeInv(s) && Enabled(s, step) && IsQuiet(step)
    ensures Quiet(s, Stepped(s, step))
  {
    if step.Fetch? {
      if FetchStep(s).Next? { FetchQuiet(s); }
    } else if step.Interrupt? {
      InterruptQuiet(s);
    } else {
      WritesQuiet(s, step);
    }
  }

  predicate IsOwn(step: Step, r: nat) {
    step == Poll(r) || step == Expire(r) || step == Drop(r) || step == Finish(r)
  }

  lemma OthersAside(s: Blk, step: Step, a: Asked)
    requires Inv(s) && Enabled(s, step) && !step.Scribble? && a.r < s.nextReq && !IsOwn(step, a.r)
    ensures Aside(s, Stepped(s, step), a)
  {
    if IsQuiet(step) {
      QuietSteps(s, step);
    } else {
      match step
      case Submit(thread, want, out) => SubmitAside(s, thread, want, out, a);
      case Post(h, status, data) => PostAside(s, h, status, data, a);
      case Drain => DrainAside(s, a);
      case Finish(r) => FinishLeaves(s, r); LeavingAside(s, Stepped(s, step), r, a);
      case Drop(r) => DropLeaves(s, r); LeavingAside(s, Stepped(s, step), r, a);
      case Poll(r) => PollAside(s, r, false, a);
      case Expire(r) => PollAside(s, r, true, a);
    }
  }

  lemma LifeStep(s: Blk, step: Step, a: Asked, gaveUp: bool)
    requires Inv(s) && Enabled(s, step) && !step.Scribble? && Life(s, a, gaveUp)
    ensures Life(Stepped(s, step), a, gaveUp || TooLate(s, step, a.r))
  {
    if step == Poll(a.r) || step == Expire(a.r) {
      PollsLife(s, step, a, gaveUp);
    } else if step == Drop(a.r) {
      DropsLife(s, a, gaveUp);
    } else if step == Finish(a.r) {
      FinishesLife(s, a, gaveUp);
    } else {
      OthersAside(s, step, a);
      AsideKeeps(s, Stepped(s, step), a, gaveUp);
    }
  }

  lemma {:induction false} LifeRun(s: Blk, steps: seq<Step>, a: Asked, gaveUp: bool)
    requires Inv(s) && IsRun(s, steps) && Honest(steps) && Life(s, a, gaveUp)
    ensures Life(After(s, steps), a, gaveUp || GaveUp(s, steps, a.r))
    decreases steps
  {
    if steps != [] {
      StepInv(s, steps[0]);
      LifeStep(s, steps[0], a, gaveUp);
      LifeRun(Stepped(s, steps[0]), steps[1..], a, gaveUp || TooLate(s, steps[0], a.r));
    }
  }

  /**
   From submission to answer: a caller whose deadline passed before its completion was consumed
   is told so, and any other the answer for the verdict the device gave on its own request. So
   it is told it timed out only in the first case, or if the device's status byte is that marker.
   */
  lemma AnsweredExactly(s: Blk, thread: nat, want: nat, out: Option<Bytes>, steps: seq<Step>)
    requires Inv(s) && Enabled(s, Submit(thread, want, out)) && |s.free| >= 3
    requires IsRun(Stepped(s, Submit(thread, want, out)), steps) && Honest(steps)
    ensures var (r, s1) := (s.nextReq, Stepped(s, Submit(thread, want, out)));
      var s' := After(s1, steps);
      r in s'.replies ==>
        if GaveUp(s1, steps, r) then s'.replies[r] == TimedOut
        else
          && r in s'.verdicts
          && AnswerFor(s'.replies[r], s'.verdicts[r].status, s'.verdicts[r].len, want, out.None?)
          && (s'.replies[r].Transferred? ==> s'.verdicts[r].data <= s'.replies[r].data)
  {
    SubmitInv(s, thread, want, out);
    assert ReqOk(s, s.nextReq);
    LifeRun(Stepped(s, Submit(thread, want, out)), steps, Asked(s.nextReq, s.free[0], want, out.None?), false);
  }

  // ---- What a write carries ----

  /** While the chain is in flight for request `r`, its buffer holds `bytes`. */
  predicate Carries(s: Blk, h: nat, r: nat, bytes: Bytes) {
    h in s.flights && s.flights[h].req == r ==>
      && h < |s.bounce| && |bytes| <= |s.bounce[h]| && s.bounce[h][..|bytes|] == bytes
      && !s.flights[h].read
  }

  /** Until the device completes it, the chain's status byte is the one no device reports. */
  predicate Unreported(s: Blk, h: nat, r: nat) {
    h in s.flights && s.flights[h].req == r && !s.flights[h].stage.Posted? ==>
      h < |s.statusMem| && s.statusMem[h] == 0xff
  }

  /** Whoever waits for request `r` on chain `h` is `thread`. */
  predicate WaitedBy(s: Blk, h: nat, r: nat, thread: nat) {
    h in s.slots && s.slots[h].req == r ==> s.slots[h].thread == thread
  }

  predicate BufferAside(s: Blk, s': Blk, h: nat) {
    && s'.bounce == s.bounce && s'.nextReq == s.nextReq
    && (h in s'.flights ==>
          h in s.flights && s'.flights[h].req == s.flights[h].req && s'.flights[h].read == s.flights[h].read)
  }

  lemma DrainBuffers(s: Blk, h: nat)
    requires SafeInv(s) && s.pc.Draining? && DrainStep(s).Next?
    ensures BufferAside(s, DrainStep(s).s, h)
  {
    var e := s.rings.usedMem[RingPos(s.rings.last)];
    assert HeadOk(s, e.id);
  }

  lemma OthersLeaveBuffers(s: Blk, step: Step, h: nat)
    requires SafeInv(s) && Enabled(s, step) && !step.Scribble? && !step.Submit? && !step.Post?
    ensures BufferAside(s, Stepped(s, step), h)
  {
    if IsQuiet(step) {
      QuietSteps(s, step);
    } else {
      match step
      case Drain => if DrainStep(s).Next? { DrainBuffers(s, h); }
      case Finish(r) => FinishLeaves(s, r);
      case Drop(r) => DropLeaves(s, r);
      case Poll(r) => assert BufferAside(s, PollStep(s, r, false).s, h);
      case Expire(r) => assert BufferAside(s, PollStep(s, r, true).s, h);
    }
  }

  lemma SubmitCarries(s: Blk, thread: nat, want: nat, out: Option<Bytes>, h: nat, r: nat, bytes: Bytes)
    requires Inv(s) && Enabled(s, Submit(thread, want, out)) && r < s.nextReq && Carries(s, h, r, bytes)
    ensures var s' := Stepped(s, Submit(thread, want, out)); r < s'.nextReq && Carries(s', h, r, bytes)
  {
    if |s.free| >= 3 { FreeHeads(s, s.free[0]); }
  }

  lemma PostCarries(s: Blk, k: nat, status: nat, data: Bytes, h: nat, r: nat, bytes: Bytes)
    requires Inv(s) && Enabled(s, Post(k, status, data)) && Carries(s, h, r, bytes)
    ensures Carries(Stepped(s, Post(k, status, data)), h, r, bytes)
  {
    if k == h && !s.flights[h].read { assert data == []; }
  }

  lemma CarriesStep(s: Blk, step: Step, h: nat, r: nat, bytes: Bytes)
    requires Inv(s) && Enabled(s, step) && !step.Scribble? && r < s.nextReq && Carries(s, h, r, bytes)
    ensures r < Stepped(s, step).nextReq && Carries(Stepped(s, step), h, r, bytes)
  {
    if step.Submit? {
      SubmitCarries(s, step.thread, step.want, step.out, h, r, bytes);
    } else if step.Post? {
      PostCarries(s, step.h, step.status, step.data, h, r, bytes);
    } else {
      OthersLeaveBuffers(s, step, h);
    }
  }

  lemma {:induction false} CarriesRun(s: Blk, steps: seq<Step>, h: nat, r: nat, bytes: Bytes)
    requires Inv(s) && IsRun(s, steps) && Honest(steps) && r < s.nextReq && Carries(s, h, r, bytes)
    ensures Carries(After(s, steps), h, r, bytes)
    decreases steps
  {
    if steps != [] {
      StepInv(s, steps[0]);
      CarriesStep(s, steps[0], h, r, bytes);
      CarriesRun(Stepped(s, steps[0]), steps[1..], h, r, bytes);
    }
  }

  /** Until a write's completion is consumed, the buffer its chain describes holds exactly the caller's bytes. */
  lemma WriteCarriesItsBytes(s: Blk, thread: nat, bytes: Bytes, steps: seq<Step>)
    requires Inv(s) && Enabled(s, Submit(thread, |bytes|, Some(bytes))) && |s.free| >= 3
    requires IsRun(Stepped(s, Submit(thread, |bytes|, Some(bytes))), steps) && Honest(steps)
    ensures var (h, s') := (s.free[0], After(Stepped(s, Submit(thread, |bytes|, Some(bytes))), steps));
      h in s'.flights && s'.flights[h].req == s.nextReq ==>
        h < |s'.bounce| && |bytes| <= |s'.bounce[h]| && s'.bounce[h][..|bytes|] == bytes
  {
    SubmitInv(s, thread, |bytes|, Some(bytes));
    assert HeadOk(s, s.free[0]);
    FreeHeads(s, s.free[0]);
    OverwriteIs(s.bounce[s.free[0]], bytes);
    CarriesRun(Stepped(s, Submit(thread, |bytes|, Some(bytes))), steps, s.free[0], s.nextReq, bytes);
  }

  // ---- Whom a completion wakes, and what an unwritten status byte says ----

  predicate SlotAside(s: Blk, s': Blk, h: nat) {
    && s'.nextReq == s.nextReq && s'.statusMem == s.statusMem
    && (h in s'.slots ==> h in s.slots && s'.slots[h].req == s.slots[h].req && s'.slots[h].thread == s.slots[h].thread)
    && (h in s'.flights ==>
          && h in s.flights && s'.flights[h].req == s.flights[h].req
          && (s.flights[h].stage.Posted? ==> s'.flights[h].stage.Posted?))
  }

  lemma WritesSlotAside(s: Blk, step: Step, h: nat)
    requires Enabled(s, step) && (step.WriteDesc? || step.WriteSlot? || step.PublishIndex?)
    ensures SlotAside(s, Stepped(s, step), h)
  {
  }

  lemma FetchSlotAside(s: Blk, h: nat)
    requires Inv(s) && Enabled(s, Fetch)
    ensures FetchStep(s).Next? && SlotAside(s, FetchStep(s).s, h)
  {
    FetchReads(s);
    FetchInv(s);
    assert AvailOk(s, s.rings.fetched);
  }

  lemma InterruptSlotAside(s: Blk, h: nat)
    requires SafeInv(s) && s.pc == Idle
    ensures InterruptStep(s).Next? && SlotAside(s, InterruptStep(s).s, h)
  {
    InterruptIs(s);
  }

  lemma DrainSlotAside(s: Blk, h: nat)
    requires Inv(s) && s.pc.Draining? && DrainStep(s).Next?
    ensures SlotAside(s, DrainStep(s).s, h)
  {
    DrainReads(s);
    var k := s.rings.usedMem[RingPos(s.rings.last)].id;
    DrainShape(s, k);
    assert HeadOk(s, k);
  }

  lemma AbandonSlotAside(s: Blk, r: nat, h: nat, k: nat, reply: Reply)
    ensures SlotAside(s, Answered(Next(Abandon(s, k)), r, reply).s, h)
    ensures SlotAside(s, Forget(Next(Abandon(s, k)), r).s, h)
  {
    assert SlotAside(s, Abandon(s, k), h);
  }

  lemma FreeSlotAside(s: Blk, r: nat, h: nat, k: nat, reply: Reply)
    requires FreeIt(s, k).Next?
    ensures SlotAside(s, Answered(FreeIt(s, k), r, reply).s, h)
    ensures SlotAside(s, Forget(FreeIt(s, k), r).s, h)
  {
    assert SlotAside(s, FreeIt(s, k).s, h);
  }

  lemma FinishSlotAside(s: Blk, r: nat, h: nat)
    requires SafeInv(s) && Enabled(s, Finish(r))
    ensures SlotAside(s, Stepped(s, Finish(r)), h)
  {
    FinishIs(s, r);
    var k := s.requests[r].head;
    if s.requests[r].waiter.status == STATUS_TIMED_OUT {
      AbandonSlotAside(s, r, h, k, TimedOut);
    } else if FinishStep(s, r) == Answered(FreeIt(Faulted(s), k), r, Short) && FreeIt(Faulted(s), k).Next? {
      FreeSlotAside(Faulted(s), r, h, k, Short);
    } else {
      var reply :| FinishStep(s, r) == Answered(FreeIt(s, k), r, reply);
      FreeSlotAside(s, r, h, k, reply);
    }
  }

  lemma DropSlotAside(s: Blk, r: nat, h: nat)
    requires SafeInv(s) && Enabled(s, Drop(r))
    ensures SlotAside(s, Stepped(s, Drop(r)), h)
  {
    DropSafe(s, r);
    var k := s.requests[r].head;
    if IsDone(s, r) { FreeSlotAside(s, r, h, k, Written); } else { AbandonSlotAside(s, r, h, k, TimedOut); }
  }

  lemma PollSlotAside(s: Blk, r: nat, expired: bool, h: nat)
    requires r in s.requests
    ensures PollStep(s, r, expired).Next? && SlotAside(s, PollStep(s, r, expired).s, h)
  {
  }

  lemma OthersLeaveSlots(s: Blk, step: Step, h: nat)
    requires Inv(s) && Enabled(s, step) && !step.Scribble? && !step.Submit? && !step.Post?
    ensures SlotAside(s, Stepped(s, step), h)
  {
    match step
    case Drain => if DrainStep(s).Next? { DrainSlotAside(s, h); }
    case Finish(r) => FinishSlotAside(s, r, h);
    case Drop(r) => DropSlotAside(s, r, h);
    case Poll(r) => PollSlotAside(s, r, false, h);
    case Expire(r) => PollSlotAside(s, r, true, h);
    case Fetch => FetchSlotAside(s, h);
    case Interrupt => InterruptSlotAside(s, h);
    case _ => WritesSlotAside(s, step, h);
  }

  predicate OfCaller(s: Blk, h: nat, r: nat, thread: nat) {
    r < s.nextReq && Unreported(s, h, r) && WaitedBy(s, h, r, thread)
  }

  lemma SubmitOfCaller(s: Blk, thread: nat, want: nat, out: Option<Bytes>, h: nat, r: nat, caller: nat)
    requires Inv(s) && Enabled(s, Submit(thread, want, out)) && OfCaller(s, h, r, caller)
    ensures OfCaller(Stepped(s, Submit(thread, want, out)), h, r, caller)
  {
    if |s.free| >= 3 { FreeHeads(s, s.free[0]); }
  }

  lemma PostOfCaller(s: Blk, k: nat, status: nat, data: Bytes, h: nat, r: nat, caller: nat)
    requires Inv(s) && Enabled(s, Post(k, status, data)) && OfCaller(s, h, r, caller)
    ensures OfCaller(Stepped(s, Post(k, status, data)), h, r, caller)
  {
  }

  lemma {:induction false} OfCallerRun(s: Blk, steps: seq<Step>, h: nat, r: nat, caller: nat)
    requires Inv(s) && IsRun(s, steps) && Honest(steps) && OfCaller(s, h, r, caller)
    ensures Inv(After(s, steps)) && OfCaller(After(s, steps), h, r, caller)
    decreases steps
  {
    if steps != [] {
      var step := steps[0];
      StepInv(s, step);
      if step.Submit? {
        SubmitOfCaller(s, step.thread, step.want, step.out, h, r, caller);
      } else if step.Post? {
        PostOfCaller(s, step.h, step.status, step.data, h, r, caller);
      } else {
        OthersLeaveSlots(s, step, h);
      }
      OfCallerRun(Stepped(s, step), steps[1..], h, r, caller);
    }
  }

  lemma SubmitStarts(s: Blk, thread: nat, want: nat, out: Option<Bytes>)
    requires Inv(s) && Enabled(s, Submit(thread, want, out)) && |s.free| >= 3
    ensures var s1 := Stepped(s, Submit(thread, want, out)); Inv(s1) && OfCaller(s1, s.free[0], s.nextReq, thread)
  {
    SubmitInv(s, thread, want, out);
    FreeHeads(s, s.free[0]);
  }

  lemma WakesItsThread(s: Blk, h: nat)
    requires Inv(s) && Taking(s, h) && h in s.slots && !s.slots[h].abandoned
    ensures Stepped(s, Drain).woken == s.woken + [s.slots[h].thread]
  {
    DrainReads(s);
    CompletionIsCredited(s);
  }

  /**
   From submission on, over every run with an honest device: the completion of a request still
   waited for wakes the thread that submitted it, and nobody else; and until the device has
   completed it the status byte says so.
   */
  lemma SubmitterIsWoken(s: Blk, thread: nat, want: nat, out: Option<Bytes>, steps: seq<Step>)
    requires Inv(s) && Enabled(s, Submit(thread, want, out)) && |s.free| >= 3
    requires IsRun(Stepped(s, Submit(thread, want, out)), steps) && Honest(steps)
    ensures var (h, r, s') := (s.free[0], s.nextReq, After(Stepped(s, Submit(thread, want, out)), steps));
      && (h in s'.flights && s'.flights[h].req == r && !s'.flights[h].stage.Posted? ==>
            h < |s'.statusMem| && s'.statusMem[h] == 0xff)
      && (Taking(s', h) && h in s'.slots && s'.slots[h].req == r && !s'.slots[h].abandoned ==>
            Stepped(s', Drain).woken == s'.woken + [thread])
  {
    SubmitStarts(s, thread, want, out);
    var s1, h := Stepped(s, Submit(thread, want, out)), s.free[0];
    OfCallerRun(s1, steps, h, s.nextReq, thread);
    var s' := After(s1, steps);
    if Taking(s', h) && h in s'.slots && !s'.slots[h].abandoned { WakesItsThread(s', h); }
  }
}
