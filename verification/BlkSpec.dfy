/**
 The virtio block driver and its device. One step per section run under the driver's lock
 and one per thing the device does, so that a run is any interleaving of submissions,
 completions, deadlines and dropped requests. An arbitrary device writes what it likes into
 the memory it shares (`Scribble`); an honest one fetches published chains and completes
 those it fetched, in any order and however late (`Fetch`, `Post`).
 */
module BlkSpec {
  import opened Seqs
  import opened VirtQueue
  import opened Wrappers

  const SECTOR_BYTES: nat := 512
  const SLOT_BYTES: nat := 4096
  const META_STRIDE: nat := 32
  const HEADER_BYTES: nat := 16
  const STATUS_TIMED_OUT: nat := 0xfe

  type Bytes = seq<nat>

  // ---- Free-running indices: 16 bits on a 64-entry ring ----

  function Idx16(n: nat): (r: nat) ensures r < U16 { n % 0x1_0000 }

  function RingPos(n: nat): (r: nat) ensures r < 64 { n % 64 }

  function WrapSub(a: nat, b: nat): (r: nat)
    requires a < U16 && b < U16
    ensures r < U16
  {
    if a >= b then a - b else a + U16 - b
  }

  datatype BlockError = Unaligned | TooLarge

  function CheckSubmit(len: nat): Result<(), BlockError> {
    if len == 0 || len % SECTOR_BYTES != 0 then Err(Unaligned)
    else if len > SLOT_BYTES then Err(TooLarge)
    else Ok(())
  }

  datatype Slot = Slot(req: nat, thread: nat, done: bool, status: nat, len: nat, abandoned: bool)

  /** Where a chain in flight is: published, in the device's hands, or in the used ring. */
  datatype Stage = Queued(pos: nat) | Held | Posted(pos: nat)

  datatype Flight = Flight(req: nat, want: nat, read: bool, stage: Stage)

  datatype Waiter = Waiting | Polled(status: nat)

  /** A caller suspended in `read_at` or `write_at`. */
  datatype Request = Request(head: nat, want: nat, read: bool, waiter: Waiter)

  /** What the device did for a request. */
  datatype Verdict = Verdict(status: nat, len: nat, data: Bytes, want: nat)

  datatype Reply = Transferred(data: Bytes) | Written | DeviceError(status: nat) | Short | TimedOut

  /** The driver's counters: faults of the device, chains given up on, and those of them that came back. */
  datatype Counts = Counts(faults: nat, abandoned: nat, reclaimed: nat)

  /** What the lock's holder is in the middle of; `Writing`: `k` descriptors of chain `h` are in the table. */
  datatype Pc = Idle | Writing(h: nat, k: nat) | Publishing | Draining(left: nat, count: nat)

  /** The two rings: their memory, the indices both sides keep, and all that ever went through them. */
  datatype Rings = Rings(
    avail: seq<nat>, availMem: seq<nat>, availNext: nat, availIdx: nat, fetched: nat,
    used: seq<UsedElem>, usedMem: seq<UsedElem>, usedIdx: nat, last: nat, consumed: nat)

  /**
   `flights` is the queue's in-flight marks, with where each chain is; `table` is
   what is in the descriptors' shared memory; `verdicts` and `replies` are history, by request.
   */
  datatype Blk = Blk(
    free: seq<nat>, owner: map<nat, nat>, chains: map<nat, seq<nat>>,
    flights: map<nat, Flight>,
    slots: map<nat, Slot>,
    requests: map<nat, Request>,
    rings: Rings,
    table: seq<Descriptor>,
    statusMem: seq<nat>,
    bounce: seq<Bytes>,
    verdicts: map<nat, Verdict>,
    replies: map<nat, Reply>,
    woken: seq<nat>,
    nextReq: nat,
    counts: Counts,
    pc: Pc)

  // Memory as it is handed out: zeroed.

  function ZeroWords(): (s: seq<nat>) ensures |s| == 64 { seq(64, i => 0) }

  function ZeroUsed(): (s: seq<UsedElem>) ensures |s| == 64 { seq(64, i => UsedElem(0, 0)) }

  function ZeroTable(): (s: seq<Descriptor>) ensures |s| == 64 { seq(64, i => Blank(0)) }

  function ZeroBuffers(): (s: seq<Bytes>)
    ensures |s| == 64 && forall h :: 0 <= h < 64 ==> |s[h]| == SLOT_BYTES
  {
    seq(64, i => seq(SLOT_BYTES, j => 0))
  }

  function Initial(): Blk {
    Blk(seq(64, (i: nat) => i), map[], map[], map[], map[], map[],
        Rings([], ZeroWords(), 0, 0, 0, [], ZeroUsed(), 0, 0, 0),
        ZeroTable(), ZeroWords(), ZeroBuffers(), map[], map[], [], 0, Counts(0, 0, 0), Idle)
  }

  /** `Broken`: a chain freed while the device has it, a ring entry naming none, or a write past the wake array. */
  datatype Outcome = Broken | Refused | Next(s: Blk)

  datatype Step =
    | Submit(thread: nat, want: nat, out: Option<Bytes>)
    | WriteDesc
    | WriteSlot
    | PublishIndex
    | Fetch
    | Post(h: nat, status: nat, data: Bytes)
    | Scribble(used: seq<UsedElem>, idx: nat, statuses: seq<nat>, buffers: seq<Bytes>)
    | Interrupt
    | Drain
    | Poll(r: nat)
    | Expire(r: nat)
    | Finish(r: nat)
    | Drop(r: nat)

  predicate IsWaiting(s: Blk, r: nat) {
    r in s.requests && s.requests[r].waiter == Waiting
  }

  predicate Enabled(s: Blk, step: Step) {
    match step
    case Submit(_, want, out) => s.pc == Idle && CheckSubmit(want).Ok? && (out.Some? ==> |out.value| == want)
    case WriteDesc => s.pc.Writing? && s.pc.k < 3
    case WriteSlot => s.pc.Writing? && s.pc.k == 3
    case PublishIndex => s.pc == Publishing
    case Fetch => s.rings.availIdx != Idx16(s.rings.fetched)
    case Post(h, status, data) =>
      && h in s.flights && s.flights[h].stage == Held && status <= 0xff
      && |data| <= (if s.flights[h].read then s.flights[h].want else 0)
    case Scribble(used, idx, statuses, buffers) =>
      && |used| == 64 && idx < U16 && |statuses| == 64
      && |buffers| == 64 && forall h :: 0 <= h < 64 ==> |buffers[h]| == SLOT_BYTES
    case Interrupt => s.pc == Idle
    case Drain => s.pc.Draining?
    case Poll(r) => s.pc == Idle && IsWaiting(s, r)
    case Expire(r) => s.pc == Idle && IsWaiting(s, r)
    case Finish(r) => s.pc == Idle && r in s.requests && s.requests[r].waiter.Polled?
    case Drop(r) => s.pc == Idle && IsWaiting(s, r)
  }

  /** The first bytes of a buffer overwritten. */
  function Overwrite(buf: Bytes, data: Bytes): Bytes {
    if |data| <= |buf| then data + buf[|data|..] else data
  }

  /** Where a request's header, status byte and bounce buffer are, relative to their areas. */
  function HeaderAt(h: nat): nat { h * META_STRIDE }
  function StatusAt(h: nat): nat { h * META_STRIDE + HEADER_BYTES }
  function DataAt(h: nat): nat { h * SLOT_BYTES }

  /** The three descriptors of a request: its header, its data, its status byte. */
  function DescOf(chain: seq<nat>, h: nat, want: nat, read: bool, k: nat): Descriptor
    requires |chain| == 3 && k < 3
  {
    if k == 0 then Descriptor(HeaderAt(h), HEADER_BYTES, true, false, chain[1])
    else if k == 1 then Descriptor(DataAt(h), want, true, read, chain[2])
    else Descriptor(StatusAt(h), 1, false, true, 0)
  }

  /** Everything the driver keeps for a request, up to the first write the device can see through the ring. */
  function SubmitStep(s: Blk, thread: nat, want: nat, out: Option<Bytes>): Outcome {
    if |s.free| < 3 then Refused
    else
      var h, req, g := s.free[0], s.nextReq, s.rings;
      if h >= |s.bounce| || h >= |s.statusMem| || |g.availMem| != 64 || g.availNext >= U16 then Broken
      else
        Next(s.(free := s.free[3..], owner := TakenOwner(s.owner, s.free[..3], h), chains := s.chains[h := s.free[..3]],
                flights := s.flights[h := Flight(req, want, out.None?, Queued(|g.avail|))],
                slots := s.slots[h := Slot(req, thread, false, 0xff, 0, false)],
                requests := s.requests[req := Request(h, want, out.None?, Waiting)],
                rings := g.(avail := g.avail + [h], availNext := NextIndex(g.availNext)),
                statusMem := s.statusMem[h := 0xff],
                bounce := if out.Some? then s.bounce[h := Overwrite(s.bounce[h], out.value)] else s.bounce,
                nextReq := req + 1, pc := Writing(h, 0)))
  }

  function WriteDescStep(s: Blk): Outcome
    requires s.pc.Writing?
  {
    var Writing(h, k) := s.pc;
    if h !in s.flights || h !in s.chains || |s.chains[h]| != 3 || k >= 3 || s.chains[h][k] >= |s.table| then Broken
    else
      var f, c := s.flights[h], s.chains[h];
      Next(s.(table := s.table[c[k] := DescOf(c, h, f.want, f.read, k)], pc := Writing(h, k + 1)))
  }

  function PrevIndex(n: nat): nat {
    if n == 0 then U16 - 1 else n - 1
  }

  function WriteSlotStep(s: Blk): Outcome
    requires s.pc.Writing?
  {
    var g := s.rings;
    if |g.availMem| != 64 then Broken
    else Next(s.(rings := g.(availMem := g.availMem[RingPos(PrevIndex(g.availNext)) := s.pc.h]), pc := Publishing))
  }

  function FetchStep(s: Blk): Outcome {
    var g := s.rings;
    if |g.availMem| != 64 || g.availMem[RingPos(g.fetched)] !in s.flights then Broken
    else
      var h := g.availMem[RingPos(g.fetched)];
      Next(s.(flights := s.flights[h := s.flights[h].(stage := Held)], rings := g.(fetched := g.fetched + 1)))
  }

  /** The device completes a chain: its data, its status byte, its used entry, then the used index. */
  function PostStep(s: Blk, h: nat, status: nat, data: Bytes): Outcome {
    var g := s.rings;
    if h !in s.flights || h >= |s.statusMem| || h >= |s.bounce| || |g.usedMem| != 64 then Broken
    else
      var f, e := s.flights[h], UsedElem(h, |data| + 1);
      Next(s.(flights := s.flights[h := f.(stage := Posted(|g.used|))],
              statusMem := s.statusMem[h := status],
              bounce := s.bounce[h := Overwrite(s.bounce[h], data)],
              verdicts := s.verdicts[f.req := Verdict(status, |data| + 1, data, f.want)],
              rings := g.(used := g.used + [e], usedMem := g.usedMem[RingPos(|g.used|) := e],
                  usedIdx := Idx16(|g.used| + 1))))
  }

  function Faulted(s: Blk): Blk {
    s.(counts := s.counts.(faults := s.counts.faults + 1))
  }

  function InterruptStep(s: Blk): Outcome {
    var g := s.rings;
    if g.usedIdx >= U16 || g.last >= U16 then Broken
    else
      var pending := WrapSub(g.usedIdx, g.last);
      if pending > 64 then Next(Faulted(s))
      else Next(s.(pc := if pending == 0 then Idle else Draining(pending, 0)))
  }

  /** Gives a chain back to the free list. */
  function FreeIt(s: Blk, h: nat): Outcome {
    if h !in s.chains || h in s.flights then Broken
    else
      Next(s.(free := Reverse(s.chains[h]) + s.free, owner := FreedOwner(s.owner, s.chains[h]),
              chains := s.chains - {h}, slots := s.slots - {h}))
  }

  function Advance(s: Blk): Blk
    requires s.pc.Draining? && s.rings.last < U16
  {
    s.(rings := s.rings.(last := NextIndex(s.rings.last), consumed := s.rings.consumed + 1),
       pc := if s.pc.left <= 1 then Idle else Draining(s.pc.left - 1, s.pc.count))
  }

  function DrainStep(s: Blk): Outcome
    requires s.pc.Draining?
  {
    var g := s.rings;
    if |g.usedMem| != 64 || g.last >= U16 then Broken
    else
      var e := g.usedMem[RingPos(g.last)];
      if e.id >= 64 || e.id !in s.flights then Next(Advance(Faulted(s)))
      else
        var h, s' := e.id, s.(flights := s.flights - {e.id});
        if h !in s.slots then Next(Advance(s'))
        else if s.slots[h].abandoned then
          var freed := FreeIt(s', h);
          if freed.Next? then
            Next(Advance(freed.s.(counts := s.counts.(reclaimed := s.counts.reclaimed + 1))))
          else freed
        else if h >= |s.statusMem| || s.pc.count >= 64 then Broken
        else
          Next(Advance(s'.(slots := s.slots[h := s.slots[h].(done := true, status := s.statusMem[h], len := e.len)],
                           woken := s.woken + [s.slots[h].thread],
                           pc := s.pc.(count := s.pc.count + 1))))
  }

  predicate IsDone(s: Blk, r: nat)
    requires r in s.requests
  {
    s.requests[r].head in s.slots && s.slots[s.requests[r].head].done
  }

  function PollStep(s: Blk, r: nat, expired: bool): Outcome
    requires r in s.requests
  {
    var q := s.requests[r];
    if IsDone(s, r) then Next(s.(requests := s.requests[r := q.(waiter := Polled(s.slots[q.head].status))]))
    else if expired then Next(s.(requests := s.requests[r := q.(waiter := Polled(STATUS_TIMED_OUT))]))
    else Next(s)
  }

  function Abandon(s: Blk, h: nat): Blk {
    if h in s.slots then
      s.(slots := s.slots[h := s.slots[h].(abandoned := true)],
         counts := s.counts.(abandoned := s.counts.abandoned + 1))
    else s
  }

  function Answered(o: Outcome, r: nat, reply: Reply): Outcome {
    if o.Next? then Next(o.s.(requests := o.s.requests - {r}, replies := o.s.replies[r := reply])) else o
  }

  function FinishStep(s: Blk, r: nat): Outcome
    requires r in s.requests && s.requests[r].waiter.Polled?
  {
    var q := s.requests[r];
    var st, h := q.waiter.status, q.head;
    if st == STATUS_TIMED_OUT then Answered(Next(Abandon(s, h)), r, TimedOut)
    else if q.read && (if h in s.slots then s.slots[h].len else 0) < q.want then
      Answered(FreeIt(Faulted(s), h), r, Short)
    else if h >= |s.bounce| || |s.bounce[h]| < q.want then Broken
    else
      var reply := if st != 0 then DeviceError(st) else if q.read then Transferred(s.bounce[h][..q.want]) else Written;
      Answered(FreeIt(s, h), r, reply)
  }

  function Forget(o: Outcome, r: nat): Outcome {
    if o.Next? then Next(o.s.(requests := o.s.requests - {r})) else o
  }

  function DropStep(s: Blk, r: nat): Outcome
    requires r in s.requests
  {
    var h := s.requests[r].head;
    Forget(if IsDone(s, r) then FreeIt(s, h) else Next(Abandon(s, h)), r)
  }

  function Exec(s: Blk, step: Step): Outcome
    requires Enabled(s, step)
  {
    match step
    case Submit(thread, want, out) => SubmitStep(s, thread, want, out)
    case WriteDesc => WriteDescStep(s)
    case WriteSlot => WriteSlotStep(s)
    case PublishIndex => Next(s.(rings := s.rings.(availIdx := s.rings.availNext), pc := Idle))
    case Fetch => FetchStep(s)
    case Post(h, status, data) => PostStep(s, h, status, data)
    case Scribble(used, idx, statuses, buffers) =>
      Next(s.(rings := s.rings.(usedMem := used, usedIdx := idx), statusMem := statuses, bounce := buffers))
    case Interrupt => InterruptStep(s)
    case Drain => DrainStep(s)
    case Poll(r) => PollStep(s, r, false)
    case Expire(r) => PollStep(s, r, true)
    case Finish(r) => FinishStep(s, r)
    case Drop(r) => DropStep(s, r)
  }
}
