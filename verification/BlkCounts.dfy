/** What the driver's counters say, whatever the device does. */
module BlkCounts {
  import opened Seqs
  import opened VirtQueue
  import opened Wrappers
  import opened BlkSpec
  import opened BlkSafe
  import opened BlkInv
  import opened BlkSteps
  import opened BlkTheorems

  /** The head the next used entry names. */
  function NextHead(s: Blk): nat
    requires |s.rings.usedMem| == 64
  {
    s.rings.usedMem[RingPos(s.rings.last)].id
  }

  /** The device claims more than a ring of completions, completes what is not in flight, or read short. */
  predicate Faulty(s: Blk, step: Step)
    requires SizesOk(s) && Enabled(s, step)
  {
    match step
    case Interrupt => WrapSub(s.rings.usedIdx, s.rings.last) > 64
    case Drain => NextHead(s) !in s.flights
    case Finish(r) => r in Stepped(s, step).replies && Stepped(s, step).replies[r] == Short
    case _ => false
  }

  /** A request is given up on while its chain stays allocated. */
  predicate Quits(s: Blk, step: Step) {
    (step.Finish? || step.Drop?) && step.r in s.requests && GivesUp(s, step, s.requests[step.r].head)
  }

  /** The completion of a chain given up on arrives. */
  predicate Returns(s: Blk, step: Step)
    requires SizesOk(s)
  {
    step.Drain? && NextHead(s) in s.flights && NextHead(s) in s.slots && s.slots[NextHead(s)].abandoned
  }

  predicate CountedRight(s: Blk, step: Step)
    requires SizesOk(s) && Enabled(s, step)
  {
    Stepped(s, step).counts == Counts(
      s.counts.faults + (if Faulty(s, step) then 1 else 0),
      s.counts.abandoned + (if Quits(s, step) then 1 else 0),
      s.counts.reclaimed + (if Returns(s, step) then 1 else 0))
  }

  lemma LeavingCounts(s: Blk, step: Step)
    requires SafeInv(s) && Enabled(s, step) && (step.Finish? || step.Drop?)
    ensures CountedRight(s, step)
  {
    StepSafe(s, step);
    assert ReqOk(s, step.r) && HeadOk(s, s.requests[step.r].head);
  }

  lemma DrainCounts(s: Blk)
    requires SafeInv(s) && Enabled(s, Drain)
    ensures CountedRight(s, Drain)
  {
    StepSafe(s, Drain);
    assert HeadOk(s, NextHead(s));
  }

  lemma OtherCounts(s: Blk, step: Step)
    requires SafeInv(s) && Enabled(s, step) && !step.Finish? && !step.Drop? && !step.Drain?
    ensures CountedRight(s, step)
  {
    if step.Interrupt? { InterruptIs(s); }
  }

  /** Every counter counts exactly its own cases. */
  lemma CountsExactly(s: Blk, step: Step)
    requires SafeInv(s) && Enabled(s, step)
    ensures CountedRight(s, step)
  {
    if step.Finish? || step.Drop? {
      LeavingCounts(s, step);
    } else if step.Drain? {
      DrainCounts(s);
    } else {
      OtherCounts(s, step);
    }
  }

  // ---- The gap between the last two ----

  /** The chains given up on that have not come back. */
  function GivenUp(s: Blk): set<nat> {
    set h | h in s.slots && s.slots[h].abandoned
  }

  predicate Balanced(s: Blk) {
    s.counts.abandoned == s.counts.reclaimed + |GivenUp(s)|
  }

  predicate StaysGivenUp(s: Blk, step: Step, h: nat)
    requires SizesOk(s) && Enabled(s, step)
  {
    h in GivenUp(Stepped(s, step)) <==>
      (h in GivenUp(s) && !(Returns(s, step) && h == NextHead(s))) || (Ends(s, step, h) && GivesUp(s, step, h))
  }

  lemma GivenUpFate(s: Blk, step: Step, h: nat)
    requires SafeInv(s) && Enabled(s, step)
    ensures StaysGivenUp(s, step, h)
  {
    StepFate(s, step, h);
    assert HeadOk(s, h);
    assert step.Finish? || step.Drop? ==> ReqOk(s, step.r);
  }

  lemma QuitGrows(s: Blk, step: Step)
    requires SafeInv(s) && Enabled(s, step) && Quits(s, step)
    ensures var h := s.requests[step.r].head;
      h !in GivenUp(s) && GivenUp(Stepped(s, step)) == GivenUp(s) + {h}
  {
    var h, g, g' := s.requests[step.r].head, GivenUp(s), GivenUp(Stepped(s, step));
    assert ReqOk(s, step.r);
    forall k: nat ensures k in g' <==> k in g || k == h { GivenUpFate(s, step, k); }
    assert g' == g + {h};
  }

  lemma ReturnShrinks(s: Blk)
    requires SafeInv(s) && Enabled(s, Drain) && Returns(s, Drain)
    ensures NextHead(s) in GivenUp(s) && GivenUp(Stepped(s, Drain)) == GivenUp(s) - {NextHead(s)}
  {
    var g, g' := GivenUp(s), GivenUp(Stepped(s, Drain));
    forall k: nat ensures k in g' <==> k in g && k != NextHead(s) { GivenUpFate(s, Drain, k); }
    assert g' == g - {NextHead(s)};
  }

  lemma NeitherKeeps(s: Blk, step: Step)
    requires SafeInv(s) && Enabled(s, step) && !Quits(s, step) && !Returns(s, step)
    ensures GivenUp(Stepped(s, step)) == GivenUp(s)
  {
    var g, g' := GivenUp(s), GivenUp(Stepped(s, step));
    forall k: nat ensures k in g' <==> k in g { GivenUpFate(s, step, k); }
    assert g' == g;
  }

  lemma BalancedStep(s: Blk, step: Step)
    requires SafeInv(s) && Enabled(s, step) && Balanced(s)
    ensures Balanced(Stepped(s, step))
  {
    CountsExactly(s, step);
    if Quits(s, step) {
      QuitGrows(s, step);
    } else if Returns(s, step) {
      ReturnShrinks(s);
    } else {
      NeitherKeeps(s, step);
    }
  }

  /** The gap between chains given up on and chains that came back is the chains still held for the device. */
  lemma {:induction false} RunBalanced(s: Blk, steps: seq<Step>)
    requires IsRun(s, steps) && Balanced(s)
    requires (SafeInv(s) && Arbitrary(steps)) || (Inv(s) && Honest(steps))
    ensures Balanced(After(s, steps))
    decreases steps
  {
    if steps != [] {
      if SafeInv(s) && Arbitrary(steps) { StepSafe(s, steps[0]); } else { StepInv(s, steps[0]); }
      BalancedStep(s, steps[0]);
      RunBalanced(Stepped(s, steps[0]), steps[1..]);
    }
  }

  // ---- What may be submitted ----

  /** A transfer is accepted exactly if it is one to eight whole sectors. */
  lemma AcceptedExactly(len: nat)
    ensures CheckSubmit(len).Ok? <==> exists k :: 1 <= k <= 8 && len == Sectors(k)
    ensures CheckSubmit(len) == Err(TooLarge) <==> exists k :: k > 8 && len == Sectors(k)
  {
    if len % 512 == 0 { assert len == Sectors(len / 512); }
  }

  function Sectors(k: nat): nat { 512 * k }
}
