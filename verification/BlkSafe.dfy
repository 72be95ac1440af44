/**
 What the driver keeps whatever the device writes: descriptors accounted for, chains freed
 only after their completion was taken, every caller with its own chain.
 */
module BlkSafe {
  import opened Seqs
  import opened VirtQueue
  import opened Wrappers
  import opened BlkSpec

  /** A slot record exists just while its chain is allocated, and is done just when the device has let go. */
  predicate HeadOk(s: Blk, h: nat) {
    && (h in s.chains <==> h in s.slots)
    && (h in s.slots ==> h < 64 && |s.chains[h]| == 3 && s.slots[h].req < s.nextReq)
    && (h in s.slots ==> (s.slots[h].done <==> h !in s.flights))
    && (h in s.slots && s.slots[h].req in s.replies ==> s.replies[s.slots[h].req] == TimedOut)
    && (h in s.flights ==> h in s.slots && s.flights[h].req == s.slots[h].req && 0 < s.flights[h].want <= SLOT_BYTES)
    && (h < |s.bounce| ==> |s.bounce[h]| == SLOT_BYTES)
  }

  /** A slot nobody gave up on has its caller, and the flight is for what that caller asked. */
  predicate CallerOk(s: Blk, h: nat) {
    h in s.slots && !s.slots[h].abandoned ==>
      && s.slots[h].req in s.requests && s.requests[s.slots[h].req].head == h
      && (h in s.flights ==>
            && s.flights[h].want == s.requests[s.slots[h].req].want
            && s.flights[h].read == s.requests[s.slots[h].req].read)
  }

  predicate ReqsApart(s: Blk, h: nat, k: nat) {
    h in s.slots && k in s.slots && h != k ==> s.slots[h].req != s.slots[k].req
  }

  predicate ReqOk(s: Blk, r: nat) {
    && (r in s.replies ==> r < s.nextReq && r !in s.requests)
    && (r in s.requests ==>
          && var q := s.requests[r];
          && r < s.nextReq && q.head in s.slots && s.slots[q.head].req == r && !s.slots[q.head].abandoned
          && 0 < q.want <= SLOT_BYTES
          && (q.waiter.Polled? && q.waiter.status != STATUS_TIMED_OUT ==>
                s.slots[q.head].done && s.slots[q.head].status == q.waiter.status))
  }

  /** How many of a chain's descriptors are in the table. */
  function Written(s: Blk, h: nat): nat {
    if s.pc.Writing? && s.pc.h == h then s.pc.k else 3
  }

  predicate DescIs(s: Blk, h: nat, k: nat)
    requires h in s.flights && h in s.chains && |s.chains[h]| == 3 && k < 3
  {
    && s.chains[h][k] < |s.table|
    && (k < Written(s, h) ==>
          s.table[s.chains[h][k]] == DescOf(s.chains[h], h, s.flights[h].want, s.flights[h].read, k))
  }

  /** What a device walking a chain in flight meets: the header, data and status of the request it belongs to. */
  predicate DescOk(s: Blk, h: nat) {
    h in s.flights ==>
      && h in s.chains && |s.chains[h]| == 3 && s.chains[h][0] == h
      && DescIs(s, h, 0) && DescIs(s, h, 1) && DescIs(s, h, 2)
  }

  predicate SizesOk(s: Blk) {
    && |s.rings.availMem| == 64 && |s.rings.usedMem| == 64 && |s.statusMem| == 64 && |s.bounce| == 64
    && |s.table| == 64 && s.rings.availNext < U16 && s.rings.usedIdx < U16 && s.rings.last < U16
    && (s.pc.Draining? ==> 0 < s.pc.left && s.pc.count + s.pc.left <= 64)
    && (s.pc.Writing? ==> s.pc.k <= 3 && s.pc.h in s.flights)
  }

  ghost predicate SafeInv(s: Blk) {
    && SizesOk(s)
    && Partition(64, s.owner, s.free, s.chains)
    && (forall h: nat {:trigger HeadOk(s, h)} :: HeadOk(s, h))
    && (forall h: nat {:trigger CallerOk(s, h)} :: CallerOk(s, h))
    && (forall h: nat {:trigger DescOk(s, h)} :: DescOk(s, h))
    && (forall h: nat, k: nat {:trigger ReqsApart(s, h, k)} :: ReqsApart(s, h, k))
    && (forall r: nat {:trigger ReqOk(s, r)} :: ReqOk(s, r))
  }

  lemma InitialSafe()
    ensures SafeInv(Initial())
  {
    var s := Initial();
    AllFree(64);
    forall h: nat ensures HeadOk(s, h) && CallerOk(s, h) && DescOk(s, h) && ReqOk(s, h) {}
    forall h: nat, k: nat ensures ReqsApart(s, h, k) {}
  }

  lemma FreeHeads(s: Blk, d: nat)
    requires SafeInv(s) && d in s.free
    ensures d < 64 && d !in s.chains && d !in s.slots && d !in s.flights
  {
    assert Placed(64, s.owner, s.free, s.chains, d) && HeadOk(s, d);
    assert d in s.chains ==> ChainOwned(64, s.owner, d, s.chains[d]);
  }

  lemma OverwriteIs(buf: Bytes, data: Bytes)
    requires |data| <= |buf|
    ensures |Overwrite(buf, data)| == |buf| && Overwrite(buf, data)[..|data|] == data
  {
  }

  // ---- Submission ----

  lemma SubmitSafeHead(s: Blk, thread: nat, want: nat, out: Option<Bytes>, k: nat)
    requires SafeInv(s) && Enabled(s, Submit(thread, want, out)) && |s.free| >= 3
    requires SubmitStep(s, thread, want, out).Next?
    ensures HeadOk(SubmitStep(s, thread, want, out).s, k) && CallerOk(SubmitStep(s, thread, want, out).s, k)
  {
    var h := s.free[0];
    FreeHeads(s, h);
    assert HeadOk(s, h) && HeadOk(s, k) && CallerOk(s, k) && ReqOk(s, s.nextReq);
    if out.Some? {
      OverwriteIs(s.bounce[h], out.value);
    }
  }

  /** The new chain has its place in the table, and no chain's descriptors are touched yet. */
  lemma SubmitDesc(s: Blk, thread: nat, want: nat, out: Option<Bytes>, k: nat)
    requires SafeInv(s) && Enabled(s, Submit(thread, want, out)) && |s.free| >= 3
    requires SubmitStep(s, thread, want, out).Next?
    ensures DescOk(SubmitStep(s, thread, want, out).s, k)
  {
    FreeHeads(s, s.free[0]);
    FreeHeads(s, s.free[1]);
    FreeHeads(s, s.free[2]);
    assert DescOk(s, k);
  }

  lemma SubmitSafe(s: Blk, thread: nat, want: nat, out: Option<Bytes>)
    requires SafeInv(s) && Enabled(s, Submit(thread, want, out)) && |s.free| >= 3
    ensures SubmitStep(s, thread, want, out).Next? && SafeInv(SubmitStep(s, thread, want, out).s)
  {
    FreeHeads(s, s.free[0]);
    var s' := SubmitStep(s, thread, want, out).s;
    TakenPartition(64, s.owner, s.free, s.chains, 3);
    forall k: nat ensures HeadOk(s', k) && CallerOk(s', k) && DescOk(s', k) {
      SubmitSafeHead(s, thread, want, out, k);
      SubmitDesc(s, thread, want, out, k);
    }
    forall j: nat, k: nat ensures ReqsApart(s', j, k) {
      assert ReqsApart(s, j, k) && HeadOk(s, j) && HeadOk(s, k);
    }
    forall r: nat ensures ReqOk(s', r) {
      assert ReqOk(s, r);
    }
  }

  /** One more descriptor of the chain is written, and no other chain's is touched. */
  lemma WriteDescDesc(s: Blk, k: nat)
    requires SafeInv(s) && Enabled(s, WriteDesc) && WriteDescStep(s).Next?
    ensures DescOk(WriteDescStep(s).s, k)
  {
    var h := s.pc.h;
    assert DescOk(s, h) && DescOk(s, k);
    assert ChainOwned(64, s.owner, h, s.chains[h]);
    if k in s.flights && k != h { assert ChainOwned(64, s.owner, k, s.chains[k]); }
  }

  lemma WriteDescSafe(s: Blk)
    requires SafeInv(s) && Enabled(s, WriteDesc)
    ensures WriteDescStep(s).Next? && SafeInv(WriteDescStep(s).s)
  {
    assert DescOk(s, s.pc.h);
    var s' := WriteDescStep(s).s;
    forall k: nat ensures HeadOk(s', k) && CallerOk(s', k) && DescOk(s', k) && ReqOk(s', k) {
      assert HeadOk(s, k) && CallerOk(s, k) && ReqOk(s, k);
      WriteDescDesc(s, k);
    }
    forall j: nat, k: nat ensures ReqsApart(s', j, k) {
      assert ReqsApart(s, j, k);
    }
  }

  // ---- Steps that leave the chains and their callers alone ----

  lemma QuietSafe(s: Blk, s': Blk)
    requires SafeInv(s) && SizesOk(s') && forall h :: 0 <= h < |s'.bounce| ==> |s'.bounce[h]| == SLOT_BYTES
    requires s' == s.(rings := s'.rings, statusMem := s'.statusMem, bounce := s'.bounce, flights := s'.flights,
                      verdicts := s'.verdicts, counts := s'.counts, pc := s'.pc)
    requires s'.pc == s.pc || (!s'.pc.Writing? && (s.pc.Writing? ==> s.pc.k == 3))
    requires s'.flights.Keys == s.flights.Keys
    requires forall h :: h in s.flights ==> s'.flights[h] == s.flights[h].(stage := s'.flights[h].stage)
    ensures SafeInv(s')
  {
    forall k: nat ensures HeadOk(s', k) && CallerOk(s', k) && DescOk(s', k) && ReqOk(s', k) {
      assert HeadOk(s, k) && DescOk(s, k) && CallerOk(s, k) && ReqOk(s, k);
      assert k in s'.flights <==> k in s.flights.Keys;
    }
    forall j: nat, k: nat ensures ReqsApart(s', j, k) {
      assert ReqsApart(s, j, k);
    }
  }

  lemma BuffersSized(s: Blk)
    requires SafeInv(s)
    ensures forall h :: 0 <= h < |s.bounce| ==> |s.bounce[h]| == SLOT_BYTES
  {
    forall h: nat | h < |s.bounce| ensures |s.bounce[h]| == SLOT_BYTES {
      assert HeadOk(s, h);
    }
  }

  // ---- The interrupt handler, whatever the used ring says ----

  /** The entry about to be consumed names a chain in flight. */
  predicate Taking(s: Blk, h: nat) {
    s.pc.Draining? && s.rings.last < U16 && |s.rings.usedMem| == 64
    && s.rings.usedMem[RingPos(s.rings.last)].id == h && h < 64 && h in s.flights
  }

  lemma DrainWakesSafe(s: Blk, h: nat)
    requires SafeInv(s) && Taking(s, h) && h in s.slots && !s.slots[h].abandoned
    ensures DrainStep(s).Next? && SafeInv(DrainStep(s).s)
  {
    var s' := DrainStep(s).s;
    forall k: nat ensures HeadOk(s', k) && CallerOk(s', k) && DescOk(s', k) && ReqOk(s', k) {
      assert HeadOk(s, k) && DescOk(s, k) && CallerOk(s, k) && ReqOk(s, k) && HeadOk(s, h);
    }
    forall j: nat, k: nat ensures ReqsApart(s', j, k) {
      assert ReqsApart(s, j, k);
    }
  }

  lemma DrainReclaimsSafe(s: Blk, h: nat)
    requires SafeInv(s) && Taking(s, h) && h in s.slots && s.slots[h].abandoned
    ensures DrainStep(s).Next? && SafeInv(DrainStep(s).s)
  {
    assert HeadOk(s, h);
    var s' := DrainStep(s).s;
    FreedPartition(64, s.owner, s.free, s.chains, h);
    forall k: nat ensures HeadOk(s', k) && CallerOk(s', k) && DescOk(s', k) && ReqOk(s', k) {
      assert HeadOk(s, k) && DescOk(s, k) && CallerOk(s, k) && ReqOk(s, k);
    }
    forall j: nat, k: nat ensures ReqsApart(s', j, k) {
      assert ReqsApart(s, j, k);
    }
  }

  lemma DrainSafe(s: Blk)
    requires SafeInv(s) && Enabled(s, Drain)
    ensures DrainStep(s).Next? && SafeInv(DrainStep(s).s)
  {
    var h := s.rings.usedMem[RingPos(s.rings.last)].id;
    if Taking(s, h) {
      assert HeadOk(s, h);
      if s.slots[h].abandoned { DrainReclaimsSafe(s, h); } else { DrainWakesSafe(s, h); }
    } else {
      BuffersSized(s);
      QuietSafe(s, DrainStep(s).s);
    }
  }

  // ---- The caller ----

  /** A caller told what its slot says, or that its deadline passed. */
  lemma WaiterSafe(s: Blk, r: nat, w: Waiter)
    requires SafeInv(s) && r in s.requests
    requires w.Polled?
    requires w.status != STATUS_TIMED_OUT ==> IsDone(s, r) && s.slots[s.requests[r].head].status == w.status
    ensures SafeInv(s.(requests := s.requests[r := s.requests[r].(waiter := w)]))
  {
    var s' := s.(requests := s.requests[r := s.requests[r].(waiter := w)]);
    forall k: nat ensures HeadOk(s', k) && CallerOk(s', k) && DescOk(s', k) && ReqOk(s', k) {
      assert HeadOk(s, k) && DescOk(s, k) && CallerOk(s, k) && ReqOk(s, k);
    }
    forall j: nat, k: nat ensures ReqsApart(s', j, k) {
      assert ReqsApart(s, j, k);
    }
  }

  lemma PollSafe(s: Blk, r: nat, expired: bool)
    requires SafeInv(s) && r in s.requests
    ensures PollStep(s, r, expired).Next? && SafeInv(PollStep(s, r, expired).s)
  {
    if IsDone(s, r) {
      WaiterSafe(s, r, Polled(s.slots[s.requests[r].head].status));
    } else if expired {
      WaiterSafe(s, r, Polled(STATUS_TIMED_OUT));
    }
  }

  /** Giving up on a request, whether it is answered `TimedOut` or not at all. */
  lemma AbandonSafe(s: Blk, r: nat, s': Blk)
    requires SafeInv(s) && r in s.requests
    requires s' == Abandon(s, s.requests[r].head).(requests := s.requests - {r})
             || s' == Abandon(s, s.requests[r].head).(requests := s.requests - {r}, replies := s.replies[r := TimedOut])
    ensures SafeInv(s')
  {
    var h := s.requests[r].head;
    assert ReqOk(s, r) && HeadOk(s, h);
    forall k: nat ensures HeadOk(s', k) && CallerOk(s', k) && DescOk(s', k) && ReqOk(s', k) {
      assert HeadOk(s, k) && DescOk(s, k) && CallerOk(s, k) && ReqsApart(s, h, k) && ReqOk(s, k);
    }
    forall j: nat, k: nat ensures ReqsApart(s', j, k) {
      assert ReqsApart(s, j, k);
    }
  }

  /** Freeing the chain of a request whose completion was taken, together with its caller. */
  lemma FreeSafe(s: Blk, r: nat, s': Blk)
    requires SafeInv(s) && r in s.requests && IsDone(s, r)
    requires FreeIt(s, s.requests[r].head).Next? ==>
               s' == FreeIt(s, s.requests[r].head).s.(requests := s.requests - {r}, replies := s'.replies,
                 counts := s'.counts)
    requires s'.replies == s.replies || (r in s'.replies && s'.replies == s.replies[r := s'.replies[r]])
    ensures FreeIt(s, s.requests[r].head).Next? && SafeInv(s')
  {
    var h := s.requests[r].head;
    assert ReqOk(s, r) && HeadOk(s, h);
    FreedPartition(64, s.owner, s.free, s.chains, h);
    forall k: nat ensures HeadOk(s', k) && CallerOk(s', k) && DescOk(s', k) && ReqOk(s', k) {
      assert HeadOk(s, k) && DescOk(s, k) && CallerOk(s, k) && ReqsApart(s, h, k) && ReqOk(s, k);
    }
    forall j: nat, k: nat ensures ReqsApart(s', j, k) {
      assert ReqsApart(s, j, k);
    }
  }

  lemma FinishSafe(s: Blk, r: nat)
    requires SafeInv(s) && Enabled(s, Finish(r))
    ensures FinishStep(s, r).Next? && SafeInv(FinishStep(s, r).s)
  {
    assert ReqOk(s, r) && HeadOk(s, s.requests[r].head);
    if s.requests[r].waiter.status == STATUS_TIMED_OUT {
      AbandonSafe(s, r, FinishStep(s, r).s);
    } else {
      FreeSafe(s, r, FinishStep(s, r).s);
    }
  }

  lemma DropSafe(s: Blk, r: nat)
    requires SafeInv(s) && Enabled(s, Drop(r))
    ensures DropStep(s, r).Next? && SafeInv(DropStep(s, r).s)
  {
    assert ReqOk(s, r) && HeadOk(s, s.requests[r].head);
    if IsDone(s, r) {
      FreeSafe(s, r, DropStep(s, r).s);
    } else {
      AbandonSafe(s, r, DropStep(s, r).s);
    }
  }

  lemma InterruptIs(s: Blk)
    requires SizesOk(s) && s.pc == Idle
    ensures InterruptStep(s).Next? && SizesOk(InterruptStep(s).s)
    ensures InterruptStep(s).s == s.(counts := InterruptStep(s).s.counts, pc := InterruptStep(s).s.pc)
    ensures var pending := WrapSub(s.rings.usedIdx, s.rings.last);
            if pending > 64 then InterruptStep(s).s == Faulted(s) && InterruptStep(s).s.pc == Idle
            else && InterruptStep(s).s.counts == s.counts
                 && InterruptStep(s).s.pc == if pending == 0 then Idle else Draining(pending, 0)
  {
    var pending := WrapSub(s.rings.usedIdx, s.rings.last);
    if pending > 64 {
      assert InterruptStep(s) == Next(Faulted(s));
    } else {
      assert InterruptStep(s) == Next(s.(pc := if pending == 0 then Idle else Draining(pending, 0)));
    }
  }

  lemma InterruptSafe(s: Blk)
    requires SafeInv(s) && Enabled(s, Interrupt)
    ensures InterruptStep(s).Next? && SafeInv(InterruptStep(s).s)
  {
    InterruptIs(s);
    var s' := InterruptStep(s).s;
    BuffersSized(s);
    QuietSafe(s, s.(counts := s'.counts, pc := s'.pc));
  }

  /**
   Whatever the device writes into the rings, the status bytes and the buffers, no step
   frees a chain still in flight or overruns the wake array, and every step keeps the
   accounting.
   */
  lemma StepSafe(s: Blk, step: Step)
    requires SafeInv(s) && Enabled(s, step) && !step.Fetch?
    ensures Exec(s, step) != Broken
    ensures Exec(s, step).Refused? ==> step.Submit? && |s.free| < 3
    ensures Exec(s, step).Next? ==> SafeInv(Exec(s, step).s)
  {
    match step
    case Submit(thread, want, out) => if |s.free| >= 3 { SubmitSafe(s, thread, want, out); }
    case WriteDesc => WriteDescSafe(s);
    case WriteSlot => BuffersSized(s); QuietSafe(s, Exec(s, step).s);
    case PublishIndex => BuffersSized(s); QuietSafe(s, Exec(s, step).s);
    case Post(h, status, data) => PostSafe(s, h, status, data);
    case Scribble(_, _, _, _) => QuietSafe(s, Exec(s, step).s);
    case Interrupt => InterruptSafe(s);
    case Drain => DrainSafe(s);
    case Poll(r) => PollSafe(s, r, false);
    case Expire(r) => PollSafe(s, r, true);
    case Finish(r) => FinishSafe(s, r);
    case Drop(r) => DropSafe(s, r);
  }

  lemma PostSafe(s: Blk, h: nat, status: nat, data: Bytes)
    requires SafeInv(s) && Enabled(s, Post(h, status, data))
    ensures PostStep(s, h, status, data).Next? && SafeInv(PostStep(s, h, status, data).s)
  {
    assert HeadOk(s, h);
    BuffersSized(s);
    OverwriteIs(s.bounce[h], data);
    QuietSafe(s, PostStep(s, h, status, data).s);
  }
}
