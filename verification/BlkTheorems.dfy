/** What the block driver promises over every run. */
module BlkTheorems {
  import opened Seqs
  import opened VirtQueue
  import opened Wrappers
  import opened BlkSpec
  import opened BlkSafe
  import opened BlkInv
  import opened BlkSteps

  function Stepped(s: Blk, step: Step): Blk
    requires Enabled(s, step)
  {
    if Exec(s, step).Next? then Exec(s, step).s else s
  }

  predicate IsRun(s: Blk, steps: seq<Step>)
    decreases steps
  {
    steps == [] || (Enabled(s, steps[0]) && IsRun(Stepped(s, steps[0]), steps[1..]))
  }

  function After(s: Blk, steps: seq<Step>): Blk
    requires IsRun(s, steps)
    decreases steps
  {
    if steps == [] then s else After(Stepped(s, steps[0]), steps[1..])
  }

  predicate NeverBroken(s: Blk, steps: seq<Step>)
    requires IsRun(s, steps)
    decreases steps
  {
    steps == [] || (Exec(s, steps[0]) != Broken && NeverBroken(Stepped(s, steps[0]), steps[1..]))
  }

  /** An arbitrary device only writes to shared memory; an honest one never writes at will. */
  predicate Arbitrary(steps: seq<Step>) {
    forall step :: step in steps ==> !step.Fetch?
  }

  predicate Honest(steps: seq<Step>) {
    forall step :: step in steps ==> !step.Scribble?
  }

  /** Whatever the device writes, the driver never breaks and its accounting holds on every run. */
  lemma {:induction false} RunSafe(s: Blk, steps: seq<Step>)
    requires SafeInv(s) && IsRun(s, steps) && Arbitrary(steps)
    ensures NeverBroken(s, steps) && SafeInv(After(s, steps))
    decreases steps
  {
    if steps != [] {
      StepSafe(s, steps[0]);
      RunSafe(Stepped(s, steps[0]), steps[1..]);
    }
  }

  /** How many callers were told that their read was short. */
  function ShortReads(s: Blk, steps: seq<Step>): nat
    requires IsRun(s, steps)
    decreases steps
  {
    if steps == [] then 0
    else
      var s' := Stepped(s, steps[0]);
      (if steps[0].Finish? && steps[0].r in s'.replies && s'.replies[steps[0].r] == Short then 1 else 0)
        + ShortReads(s', steps[1..])
  }

  /** An honest device is counted a fault for each short read and for nothing else, on every run. */
  lemma {:induction false} RunInv(s: Blk, steps: seq<Step>)
    requires Inv(s) && IsRun(s, steps) && Honest(steps)
    ensures NeverBroken(s, steps) && Inv(After(s, steps))
    ensures After(s, steps).counts.faults == s.counts.faults + ShortReads(s, steps)
    decreases steps
  {
    if steps != [] {
      StepInv(s, steps[0]);
      RunInv(Stepped(s, steps[0]), steps[1..]);
    }
  }

  // ---- What a step may do to a chain ----

  predicate Drained(s: Blk, step: Step, h: nat) {
    step.Drain? && Taking(s, h)
  }

  /** The step ends the wait of the caller whose request is headed here. */
  predicate Ends(s: Blk, step: Step, h: nat) {
    (step.Finish? || step.Drop?) && step.r in s.requests && s.requests[step.r].head == h
  }

  predicate GivesUp(s: Blk, step: Step, h: nat) {
    && Ends(s, step, h)
    && (if step.Finish? then s.requests[step.r].waiter == Polled(STATUS_TIMED_OUT) else !IsDone(s, step.r))
  }

  /** Freed by its completion if given up on, by its caller if not; otherwise its request's, until then. */
  predicate Fate(s: Blk, s': Blk, step: Step, h: nat) {
    if h !in s.slots then h in s'.slots ==> !s'.slots[h].done && !s'.slots[h].abandoned
    else if Drained(s, step, h) && s.slots[h].abandoned then h !in s'.slots
    else if Ends(s, step, h) && !GivesUp(s, step, h) then h !in s'.slots
    else
      && h in s'.slots && h in s'.chains && h in s.chains && s'.chains[h] == s.chains[h]
      && s'.slots[h].req == s.slots[h].req
      && s'.slots[h].done == (s.slots[h].done || Drained(s, step, h))
      && s'.slots[h].abandoned == (s.slots[h].abandoned || GivesUp(s, step, h))
      && (h in s.flights && !Drained(s, step, h) ==> h in s'.flights && s'.flights[h].req == s.flights[h].req)
  }

  lemma SubmitFate(s: Blk, thread: nat, want: nat, out: Option<Bytes>, h: nat)
    requires SafeInv(s) && Enabled(s, Submit(thread, want, out))
    ensures Fate(s, Stepped(s, Submit(thread, want, out)), Submit(thread, want, out), h)
  {
    assert HeadOk(s, h);
    if |s.free| >= 3 {
      FreeHeads(s, s.free[0]);
    }
  }

  lemma DrainWakesFate(s: Blk, h: nat, k: nat)
    requires HeadOk(s, h) && HeadOk(s, k) && SizesOk(s) && Taking(s, h) && !s.slots[h].abandoned
    ensures Fate(s, Stepped(s, Drain), Drain, k)
  {
  }

  lemma DrainReclaimsFate(s: Blk, h: nat, k: nat)
    requires HeadOk(s, h) && HeadOk(s, k) && SizesOk(s) && Taking(s, h) && s.slots[h].abandoned
    ensures Fate(s, Stepped(s, Drain), Drain, k)
  {
  }

  lemma DrainRefusesFate(s: Blk, h: nat, k: nat)
    requires HeadOk(s, k) && SizesOk(s) && s.pc.Draining?
    requires h == s.rings.usedMem[RingPos(s.rings.last)].id && !Taking(s, h)
    ensures Fate(s, Stepped(s, Drain), Drain, k)
  {
  }

  lemma DrainFate(s: Blk, k: nat)
    requires SafeInv(s) && Enabled(s, Drain)
    ensures Fate(s, Stepped(s, Drain), Drain, k)
  {
    var h := s.rings.usedMem[RingPos(s.rings.last)].id;
    assert HeadOk(s, h) && HeadOk(s, k);
    if !Taking(s, h) {
      DrainRefusesFate(s, h, k);
    } else if s.slots[h].abandoned {
      DrainReclaimsFate(s, h, k);
    } else {
      DrainWakesFate(s, h, k);
    }
  }

  lemma FinishFate(s: Blk, r: nat, h: nat)
    requires SafeInv(s) && Enabled(s, Finish(r))
    ensures Fate(s, Stepped(s, Finish(r)), Finish(r), h)
  {
    assert ReqOk(s, r) && HeadOk(s, h) && HeadOk(s, s.requests[r].head);
  }

  lemma DropFate(s: Blk, r: nat, h: nat)
    requires SafeInv(s) && Enabled(s, Drop(r))
    ensures Fate(s, Stepped(s, Drop(r)), Drop(r), h)
  {
    assert ReqOk(s, r) && HeadOk(s, h) && HeadOk(s, s.requests[r].head);
  }

  lemma UnmovedFate(s: Blk, s': Blk, step: Step, h: nat)
    requires HeadOk(s, h) && !step.Drain? && !step.Finish? && !step.Drop?
    requires s'.slots == s.slots && s'.chains == s.chains
    requires h in s.flights ==> h in s'.flights && s'.flights[h].req == s.flights[h].req
    ensures Fate(s, s', step, h)
  {
  }

  lemma DeviceFate(s: Blk, step: Step, h: nat)
    requires HeadOk(s, h) && Enabled(s, step) && (step.Fetch? || step.Post? || step.Scribble?)
    ensures Fate(s, Stepped(s, step), step, h)
  {
    UnmovedFate(s, Stepped(s, step), step, h);
  }

  lemma InterruptFate(s: Blk, h: nat)
    requires HeadOk(s, h) && Enabled(s, Interrupt)
    ensures Fate(s, Stepped(s, Interrupt), Interrupt, h)
  {
  }

  lemma PollFate(s: Blk, step: Step, h: nat)
    requires HeadOk(s, h) && Enabled(s, step) && (step.Poll? || step.Expire?)
    ensures Fate(s, Stepped(s, step), step, h)
  {
    var s' := PollStep(s, step.r, step.Expire?).s;
    assert Exec(s, step) == Next(s');
    UnmovedFate(s, s', step, h);
  }

  lemma StepFate(s: Blk, step: Step, h: nat)
    requires SafeInv(s) && Enabled(s, step)
    ensures Fate(s, Stepped(s, step), step, h)
  {
    assert HeadOk(s, h);
    match step
    case Submit(thread, want, out) => SubmitFate(s, thread, want, out, h);
    case Drain => DrainFate(s, h);
    case Finish(r) => FinishFate(s, r, h);
    case Drop(r) => DropFate(s, r, h);
    case Fetch => DeviceFate(s, step, h);
    case Post(_, _, _) => DeviceFate(s, step, h);
    case Scribble(_, _, _, _) => DeviceFate(s, step, h);
    case WriteDesc => UnmovedFate(s, Stepped(s, step), step, h);
    case WriteSlot => UnmovedFate(s, Stepped(s, step), step, h);
    case PublishIndex => UnmovedFate(s, Stepped(s, step), step, h);
    case Interrupt => InterruptFate(s, h);
    case Poll(_) => PollFate(s, step, h);
    case Expire(_) => PollFate(s, step, h);
  }

  // ---- Nobody shares a buffer ----

  datatype Range = Range(lo: nat, hi: nat) {
    predicate Apart(o: Range) { hi <= o.lo || o.hi <= lo }
  }

  /** A request's header and status byte, within the metadata frame. */
  function Meta(h: nat): Range { Range(HeaderAt(h), StatusAt(h) + 1) }

  /** A request's bounce buffer, within the bounce area. */
  function Bounce(h: nat): Range { Range(DataAt(h), DataAt(h) + SLOT_BYTES) }

  /**
   Two chains not yet freed, whether waited for, completed or given up on, have no
   descriptor, header, status byte or bounce byte in common.
   */
  lemma ExclusiveBuffers(s: Blk, g: nat, h: nat)
    requires SafeInv(s) && g in s.slots && h in s.slots && g != h
    ensures g in s.chains && h in s.chains && (forall d :: d in s.chains[g] ==> d !in s.chains[h])
    ensures Meta(g).Apart(Meta(h)) && Bounce(g).Apart(Bounce(h))
    ensures Meta(g).hi <= 4096 && Bounce(g).hi <= 64 * SLOT_BYTES
  {
    assert HeadOk(s, g) && HeadOk(s, h);
    assert ChainOwned(64, s.owner, g, s.chains[g]) && ChainOwned(64, s.owner, h, s.chains[h]);
    assert g < 64 && h < 64;
  }

  /** The device's writable memory for a chain in flight is that chain's alone, its caller gone or not. */
  lemma FlightsKeepToThemselves(s: Blk, h: nat, r: nat)
    requires SafeInv(s) && h in s.flights && r in s.requests && s.requests[r].head != h
    ensures Meta(h).Apart(Meta(s.requests[r].head)) && Bounce(h).Apart(Bounce(s.requests[r].head))
    ensures h in s.chains && forall d :: d in s.free ==> d !in s.chains[h]
  {
    assert HeadOk(s, h) && ReqOk(s, r);
    ExclusiveBuffers(s, h, s.requests[r].head);
    assert ChainOwned(64, s.owner, h, s.chains[h]);
    forall d | d in s.free ensures d !in s.chains[h] {
      assert Placed(64, s.owner, s.free, s.chains, d);
    }
  }

  /** A chain the device may be using stays allocated to its request until its completion is consumed. */
  lemma FlightHoldsStill(s: Blk, step: Step, h: nat)
    requires SafeInv(s) && Enabled(s, step) && h in s.flights
    requires !Drained(s, step, h)
    ensures var s' := Stepped(s, step);
            && h in s'.flights && s'.flights[h].req == s.flights[h].req
            && h in s'.chains && h in s.chains && s'.chains[h] == s.chains[h]
            && h in s'.slots && s'.slots[h].req == s.flights[h].req
  {
    assert HeadOk(s, h);
    StepFate(s, step, h);
    assert step.Finish? || step.Drop? ==> ReqOk(s, step.r);
  }

  /**
   A completion is credited to the request its chain was published for, with the status and
   length the device gave it.
   */
  lemma CompletionIsCredited(s: Blk)
    requires Inv(s) && s.pc.Draining?
    ensures DrainStep(s).Next? && s.rings.consumed < |s.rings.used| && s.rings.used[s.rings.consumed].id in s.slots
    ensures var (h, s') := (s.rings.used[s.rings.consumed].id, DrainStep(s).s);
            && s'.rings.consumed == s.rings.consumed + 1 && h in s.flights && h !in s'.flights
            && (if s.slots[h].abandoned
                then h !in s'.chains && h !in s'.slots && s'.woken == s.woken
                else && h in s'.slots && s'.slots[h].done && s'.slots[h].req == s.flights[h].req
                     && s.flights[h].req in s.verdicts
                     && s'.slots[h].status == s.verdicts[s.flights[h].req].status
                     && s'.slots[h].len == s.verdicts[s.flights[h].req].len
                     && s'.woken == s.woken + [s.slots[h].thread])
  {
    DrainReads(s);
    DrainSafe(s);
    assert HeadOk(s, s.rings.used[s.rings.consumed].id) && ResultOk(s, s.rings.used[s.rings.consumed].id);
  }

  /** The table holds the whole chain: header, data, status, linked in that order. */
  predicate DescribedWhole(s: Blk, h: nat) {
    && h in s.flights && h in s.chains && |s.chains[h]| == 3 && s.chains[h][0] == h
    && var (c, f) := (s.chains[h], s.flights[h]);
    && c[0] < |s.table| && c[1] < |s.table| && c[2] < |s.table|
    && s.table[c[0]] == Descriptor(HeaderAt(h), HEADER_BYTES, true, false, c[1])
    && s.table[c[1]] == Descriptor(DataAt(h), f.want, true, f.read, c[2])
    && s.table[c[2]] == Descriptor(StatusAt(h), 1, false, true, 0)
  }

  /**
   Whenever the device fetches, a submission half written included, it gets the next head
   published, and the table describes that chain whole for the request published there.
   */
  lemma FetchesDescribedChains(s: Blk)
    requires Inv(s) && Enabled(s, Fetch)
    ensures s.rings.fetched < |s.rings.avail|
    ensures var h := s.rings.availMem[RingPos(s.rings.fetched)];
            && h == s.rings.avail[s.rings.fetched] && DescribedWhole(s, h)
            && h in s.slots && s.slots[h].req == s.flights[h].req
  {
    FetchReads(s);
    assert DescOk(s, s.rings.avail[s.rings.fetched]) && HeadOk(s, s.rings.avail[s.rings.fetched]);
  }

  // ---- Answers ----

  /**
   A read that succeeded hands back the device's own bytes for that request exactly when the
   used length is one more than was asked for: it counts the status byte too, so the test
   against the length asked for lets a transfer one byte short through.
   */
  lemma WholeTransferExactly(s: Blk, r: nat)
    requires Inv(s) && r in s.replies && s.replies[r].Transferred?
    ensures r in s.verdicts && s.verdicts[r].status == 0
    ensures var (d, v) := (s.replies[r].data, s.verdicts[r]);
            && |d| == v.want && v.data <= d && v.want <= v.len <= v.want + 1
            && (d == v.data <==> v.len == v.want + 1)
            && (|v.data| % SECTOR_BYTES == 0 && v.want % SECTOR_BYTES == 0 && v.want > 0 ==> d == v.data)
  {
    assert ReplyOk(s, r);
  }

  /** The other answers: an error is the device's own, a write reported done was, a short read was short. */
  lemma AnswersAreTheDevices(s: Blk, r: nat)
    requires Inv(s) && r in s.replies && s.replies[r] != TimedOut
    ensures r in s.verdicts && r !in s.requests
    ensures s.replies[r].DeviceError? ==> s.verdicts[r].status == s.replies[r].status != 0
    ensures s.replies[r].Written? ==> s.verdicts[r].status == 0
    ensures s.replies[r].Short? ==> s.verdicts[r].len < s.verdicts[r].want
  {
    assert ReplyOk(s, r) && ReqOk(s, r);
  }

  // ---- Chains given up on ----

  /** A completed chain nobody will free: its completion is spent and its caller gone. */
  predicate Stranded(s: Blk, h: nat) {
    h in s.slots && s.slots[h].done && s.slots[h].abandoned
  }

  /** The request that finishes as timed out although its completion was already consumed. */
  predicate FinishesLate(s: Blk, step: Step, h: nat) {
    && step.Finish? && step.r in s.requests && s.requests[step.r].head == h
    && s.requests[step.r].waiter == Polled(STATUS_TIMED_OUT) && IsDone(s, step.r)
  }

  /** A chain becomes stranded in exactly one way. */
  lemma StrandsExactly(s: Blk, step: Step, h: nat)
    requires SafeInv(s) && Enabled(s, step) && !Stranded(s, h)
    ensures Stranded(Stepped(s, step), h) <==> FinishesLate(s, step, h)
  {
    StepFate(s, step, h);
    assert HeadOk(s, h);
    assert step.Finish? || step.Drop? ==> ReqOk(s, step.r);
  }

  lemma StrandedStep(s: Blk, step: Step, h: nat)
    requires SafeInv(s) && Enabled(s, step) && Stranded(s, h)
    ensures Stranded(Stepped(s, step), h)
  {
    StepFate(s, step, h);
    assert HeadOk(s, h);
    assert step.Finish? || step.Drop? ==> ReqOk(s, step.r);
  }

  lemma StrandedIsTaken(s: Blk, h: nat)
    requires SafeInv(s) && Stranded(s, h)
    ensures h in s.chains && forall d :: d in s.chains[h] ==> d !in s.free
  {
    assert HeadOk(s, h) && ChainOwned(64, s.owner, h, s.chains[h]);
    forall d | d in s.chains[h] ensures d !in s.free {
      assert Placed(64, s.owner, s.free, s.chains, d);
    }
  }

  /** A stranded chain never comes back: whatever runs next, its descriptors stay off the free list. */
  lemma {:induction false} StrandedForGood(s: Blk, steps: seq<Step>, h: nat)
    requires IsRun(s, steps) && Stranded(s, h)
    requires (SafeInv(s) && Arbitrary(steps)) || (Inv(s) && Honest(steps))
    ensures Stranded(After(s, steps), h)
    ensures h in After(s, steps).chains && forall d :: d in After(s, steps).chains[h] ==> d !in After(s, steps).free
    decreases steps
  {
    if steps == [] {
      StrandedIsTaken(s, h);
    } else {
      StrandedStep(s, steps[0], h);
      if SafeInv(s) && Arbitrary(steps) { StepSafe(s, steps[0]); } else { StepInv(s, steps[0]); }
      StrandedForGood(Stepped(s, steps[0]), steps[1..], h);
    }
  }

  // ---- Conservation ----

  lemma {:induction false} OwnerCount(owner: map<nat, nat>, list: seq<nat>, chains: map<nat, seq<nat>>)
    requires Partition(64, owner, list, chains) && forall h :: h in chains ==> |chains[h]| == 3
    ensures |owner.Keys| == 3 * |chains.Keys|
    decreases |chains.Keys|
  {
    if chains.Keys == {} {
      assert owner.Keys == {} by {
        forall d: nat ensures d !in owner { assert Placed(64, owner, list, chains, d); }
      }
    } else {
      var h :| h in chains.Keys;
      var chain, rest, owner' := chains[h], chains - {h}, FreedOwner(owner, chains[h]);
      FreedPartition(64, owner, list, chains, h);
      assert rest.Keys == chains.Keys - {h};
      OwnerCount(owner', Reverse(chain) + list, rest);
      assert ChainOwned(64, owner, h, chain);
      NoDupSize(chain);
      assert owner.Keys == owner'.Keys + ToSet(chain) && owner'.Keys !! ToSet(chain);
    }
  }

  function Numbers(n: nat): (s: set<nat>)
    ensures |s| == n && forall i: nat :: i in s <==> i < n
  {
    if n == 0 then {} else Numbers(n - 1) + {n - 1}
  }

  lemma OwnedBelow(size: nat, owner: map<nat, nat>, list: seq<nat>, chains: map<nat, seq<nat>>, d: nat)
    requires Partition(size, owner, list, chains)
    ensures d in list || d in owner <==> d < size
    ensures !(d in list && d in owner)
  {
    assert Placed(size, owner, list, chains, d);
    if d in owner {
      assert ChainOwned(size, owner, owner[d], chains[owner[d]]);
    }
  }

  lemma FreeOrOwned(size: nat, owner: map<nat, nat>, list: seq<nat>, chains: map<nat, seq<nat>>)
    requires Partition(size, owner, list, chains)
    ensures |list| + |owner.Keys| == size
  {
    var a, b := ToSet(list), owner.Keys;
    NoDupSize(list);
    forall d: nat ensures d in a + b <==> d in Numbers(size) {
      OwnedBelow(size, owner, list, chains, d);
    }
    forall d: nat ensures !(d in a && d in b) {
      OwnedBelow(size, owner, list, chains, d);
    }
    assert a + b == Numbers(size);
    assert |a + b| == |a| + |b|;
  }

  /** Every descriptor is free or in a three-descriptor chain with its slot record. */
  lemma Conserved(s: Blk)
    requires SafeInv(s)
    ensures |s.free| + 3 * |s.slots.Keys| == 64
  {
    forall h: nat ensures (h in s.chains <==> h in s.slots) && (h in s.chains ==> |s.chains[h]| == 3) {
      assert HeadOk(s, h);
    }
    assert s.chains.Keys == s.slots.Keys;
    OwnerCount(s.owner, s.free, s.chains);
    FreeOrOwned(64, s.owner, s.free, s.chains);
  }

  /** A submission is refused exactly when 21 chains are out, finished, in flight or quarantined. */
  lemma RefusedExactly(s: Blk, thread: nat, want: nat, out: Option<Bytes>)
    requires SafeInv(s) && Enabled(s, Submit(thread, want, out))
    ensures Exec(s, Submit(thread, want, out)) == Refused <==> |s.slots.Keys| == 21
    ensures |s.slots.Keys| <= 21
  {
    Conserved(s);
    if |s.free| >= 3 {
      SubmitSafe(s, thread, want, out);
    }
  }
}
