/** What every step keeps while the device is honest: where each chain is, and whose result is in its memory. */
module BlkInv {
  import opened Seqs
  import opened VirtQueue
  import opened Wrappers
  import opened BlkSpec
  import opened BlkSafe

  predicate StageOk(s: Blk, h: nat) {
    h in s.flights ==>
      match s.flights[h].stage
      case Queued(p) => s.rings.fetched <= p < |s.rings.avail| && s.rings.avail[p] == h
      case Held => true
      case Posted(p) => s.rings.consumed <= p < |s.rings.used| && s.rings.used[p].id == h
  }

  /** The device's verdict on request `r` is in the chain's own memory. */
  predicate Landed(s: Blk, h: nat, r: nat, status: nat, len: nat) {
    && r in s.verdicts && h < |s.bounce|
    && var v := s.verdicts[r];
    && v.status == status && v.len == len == |v.data| + 1
    && |v.data| <= |s.bounce[h]| && s.bounce[h][..|v.data|] == v.data
  }

  predicate ResultOk(s: Blk, h: nat) {
    && (h in s.flights && s.flights[h].stage.Posted? ==>
          && s.flights[h].stage.pos < |s.rings.used| && h < |s.statusMem|
          && Landed(s, h, s.flights[h].req, s.statusMem[h], s.rings.used[s.flights[h].stage.pos].len)
          && s.verdicts[s.flights[h].req].want == s.flights[h].want
          && |s.verdicts[s.flights[h].req].data| <= s.flights[h].want)
    && (h in s.slots && s.slots[h].done && !s.slots[h].abandoned && s.slots[h].req in s.requests ==>
          && Landed(s, h, s.slots[h].req, s.slots[h].status, s.slots[h].len)
          && s.verdicts[s.slots[h].req].want == s.requests[s.slots[h].req].want
          && |s.verdicts[s.slots[h].req].data| <= s.verdicts[s.slots[h].req].want)
  }

  /** An answer agrees with what the device did for that very request. */
  predicate ReplyOk(s: Blk, r: nat) {
    r in s.replies ==>
      (s.replies[r] != TimedOut ==>
            && r in s.verdicts
            && var v := s.verdicts[r];
            match s.replies[r]
            case Transferred(data) =>
              && v.status == 0 && |data| == v.want && v.len == |v.data| + 1
              && v.want <= v.len && |v.data| <= v.want && v.data <= data
            case Written => v.status == 0
            case DeviceError(st) => v.status == st != 0
            case Short => v.len < v.want
            case TimedOut => true)
  }

  predicate AvailOk(s: Blk, p: nat) {
    s.rings.fetched <= p < |s.rings.avail| ==>
      && |s.rings.availMem| == 64
      && (p + 1 < |s.rings.avail| || !s.pc.Writing? ==> s.rings.availMem[RingPos(p)] == s.rings.avail[p])
      && s.rings.avail[p] in s.flights && s.flights[s.rings.avail[p]].stage == Queued(p)
  }

  predicate UsedOk(s: Blk, p: nat) {
    s.rings.consumed <= p < |s.rings.used| ==>
      && |s.rings.usedMem| == 64 && s.rings.usedMem[RingPos(p)] == s.rings.used[p]
      && s.rings.used[p].id in s.flights && s.flights[s.rings.used[p].id].stage == Posted(p)
  }

  /** Entries whose index the device may read. */
  function Published(s: Blk): int {
    |s.rings.avail| - (if s.pc.Publishing? || s.pc.Writing? then 1 else 0)
  }

  predicate RingsOk(s: Blk) {
    var g := s.rings;
    && g.fetched <= Published(s) && g.consumed <= |g.used|
    && g.availNext == Idx16(|g.avail|) && g.availIdx == Idx16(Published(s))
    && g.usedIdx == Idx16(|g.used|) && g.last == Idx16(g.consumed)
    && (s.pc.Draining? ==> s.pc.left <= |g.used| - g.consumed)
    && (s.pc.Writing? ==>
          |g.avail| > 0 && s.pc.h in s.flights && s.flights[s.pc.h].stage == Queued(|g.avail| - 1) &&
              g.avail[|g.avail| - 1] == s.pc.h)
  }

  ghost predicate Inv(s: Blk) {
    && SafeInv(s)
    && RingsOk(s)
    && (forall h: nat {:trigger StageOk(s, h)} :: StageOk(s, h))
    && (forall h: nat {:trigger ResultOk(s, h)} :: ResultOk(s, h))
    && (forall r: nat {:trigger ReplyOk(s, r)} :: ReplyOk(s, r))
    && (forall p: nat {:trigger AvailOk(s, p)} :: AvailOk(s, p))
    && (forall p: nat {:trigger UsedOk(s, p)} :: UsedOk(s, p))
  }

  lemma InitialInv()
    ensures Inv(Initial())
  {
    var s := Initial();
    InitialSafe();
    forall h: nat ensures StageOk(s, h) && ResultOk(s, h) && ReplyOk(s, h) && AvailOk(s, h) && UsedOk(s, h) {}
  }

  // ---- Index arithmetic ----

  lemma WrapsNext(n: nat)
    ensures Idx16(n + 1) == NextIndex(Idx16(n))
  {
  }

  lemma WrapsRing(n: nat)
    ensures RingPos(Idx16(n)) == RingPos(n)
  {
  }

  /** Positions less than a ring apart do not share a slot. */
  lemma SlotsApart(p: nat, q: nat)
    requires p < q < p + 64
    ensures RingPos(p) != RingPos(q)
  {
  }

  /** Wrapped indices at most a ring apart give back the true distance. */
  lemma Distance(a: nat, b: nat)
    requires a <= b <= a + 64
    ensures WrapSub(Idx16(b), Idx16(a)) == b - a
  {
  }

  // ---- The rings never hold more than a ring ----

  /** What is queued and not fetched fits the ring. */
  lemma QueuedBound(s: Blk)
    requires Inv(s)
    ensures |s.rings.avail| - s.rings.fetched <= 64
  {
    var w := s.rings.avail[s.rings.fetched..];
    forall i, j | 0 <= i < j < |w| ensures w[i] != w[j] {
      assert AvailOk(s, s.rings.fetched + i) && AvailOk(s, s.rings.fetched + j);
    }
    forall x | x in w ensures x < 64 {
      var i :| 0 <= i < |w| && w[i] == x;
      assert AvailOk(s, s.rings.fetched + i) && HeadOk(s, x);
    }
    Pigeonhole(w, 64);
  }

  function Ids(es: seq<UsedElem>): (ids: seq<nat>)
    ensures |ids| == |es| && forall i :: 0 <= i < |es| ==> ids[i] == es[i].id
  {
    if es == [] then [] else [es[0].id] + Ids(es[1..])
  }

  lemma PostedBound(s: Blk)
    requires Inv(s)
    ensures |s.rings.used| - s.rings.consumed <= 64
  {
    var w := Ids(s.rings.used[s.rings.consumed..]);
    forall i, j | 0 <= i < j < |w| ensures w[i] != w[j] {
      assert UsedOk(s, s.rings.consumed + i) && UsedOk(s, s.rings.consumed + j);
    }
    forall x | x in w ensures x < 64 {
      var i :| 0 <= i < |w| && w[i] == x;
      assert UsedOk(s, s.rings.consumed + i) && HeadOk(s, x);
    }
    Pigeonhole(w, 64);
  }

  /** A chain still in the device's hands has not been posted, so its completion still fits. */
  lemma RoomToPost(s: Blk, h: nat)
    requires Inv(s) && h in s.flights && !s.flights[h].stage.Posted?
    ensures |s.rings.used| - s.rings.consumed < 64
  {
    var w := Ids(s.rings.used[s.rings.consumed..]) + [h];
    forall i, j | 0 <= i < j < |w| ensures w[i] != w[j] {
      assert UsedOk(s, s.rings.consumed + i) && UsedOk(s, s.rings.consumed + j);
    }
    forall x | x in w ensures x < 64 {
      var i :| 0 <= i < |w| && w[i] == x;
      assert UsedOk(s, s.rings.consumed + i) && HeadOk(s, x);
    }
    Pigeonhole(w, 64);
  }
}
