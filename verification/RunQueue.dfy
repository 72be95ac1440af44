/**
 One processor's run queue: three bands of thread ids. Its owner and a thief are both served
 from the best band that has anything, the owner at the front and the thief at the back.
 */
module RunQueues {
  import opened Seqs
  import opened Wrappers

  type ThreadId = nat

  datatype Priority = Idle | Normal | High {
    /** The byte a handoff slot carries in place of the priority. */
    function Raw(): nat {
      match this
      case Idle => 0
      case Normal => 1
      case High => 2
    }
  }

  function PriorityFromRaw(raw: nat): Priority {
    if raw == 0 then Idle else if raw == 2 then High else Normal
  }

  /** The handoff byte loses nothing, and only the idle byte decodes to the idle band. */
  lemma RawRoundTrips(p: Priority, raw: nat)
    ensures PriorityFromRaw(p.Raw()) == p
    ensures PriorityFromRaw(raw) == Idle <==> raw == Idle.Raw()
  {
  }

  datatype Bands = Bands(idle: seq<ThreadId>, normal: seq<ThreadId>, high: seq<ThreadId>) {

    function Band(p: Priority): seq<ThreadId> {
      match p
      case Idle => idle
      case Normal => normal
      case High => high
    }

    function WithBand(p: Priority, band: seq<ThreadId>): Bands {
      match p
      case Idle => this.(idle := band)
      case Normal => this.(normal := band)
      case High => this.(high := band)
    }

    predicate Contains(id: ThreadId) {
      id in idle || id in normal || id in high
    }

    /** Every thread is queued at most once, over all three bands. */
    predicate Distinct() {
      && NoDup(idle) && NoDup(normal) && NoDup(high)
      && (forall id :: id in high ==> id !in normal && id !in idle)
      && (forall id :: id in normal ==> id !in idle)
    }

    function RunnableLen(): nat {
      |high| + |normal|
    }

    /** The band a pop or a steal serves. */
    function Serving(): Option<Priority> {
      if high != [] then Some(High)
      else if normal != [] then Some(Normal)
      else if idle != [] then Some(Idle)
      else None
    }
  }

  type RunQueue = q: Bands | q.Distinct() witness Bands([], [], [])

  /** Queueing a thread again changes nothing. */
  function Push(q: RunQueue, id: ThreadId, p: Priority): RunQueue {
    if q.Contains(id) then q else q.WithBand(p, q.Band(p) + [id])
  }

  function Pop(q: RunQueue): (Option<ThreadId>, RunQueue) {
    match q.Serving()
    case None => (None, q)
    case Some(p) => (Some(q.Band(p)[0]), q.WithBand(p, q.Band(p)[1..]))
  }

  function Steal(q: RunQueue): (Option<ThreadId>, RunQueue) {
    match q.Serving()
    case None => (None, q)
    case Some(p) =>
      var band := q.Band(p);
      (Some(band[|band| - 1]), q.WithBand(p, band[..|band| - 1]))
  }

  lemma PushEffect(q: RunQueue, id: ThreadId, p: Priority)
    requires !q.Contains(id)
    ensures forall x :: Push(q, id, p).Contains(x) <==> q.Contains(x) || x == id
    ensures forall x, b :: x in q.Band(b) ==> x in Push(q, id, p).Band(b)
    ensures id in Push(q, id, p).Band(p)
  {
  }

  /** What a removal promises: exactly `id` left, from the band served, and nothing else moved. */
  ghost predicate Took(q: RunQueue, id: ThreadId, rest: RunQueue) {
    && q.Contains(id) && q.Serving().Some? && id in q.Band(q.Serving().value)
    && (forall x :: rest.Contains(x) <==> q.Contains(x) && x != id)
    && (forall x, b :: x in q.Band(b) && x != id ==> x in rest.Band(b))
  }

  lemma FrontOff(band: seq<ThreadId>)
    requires NoDup(band) && band != []
    ensures band[0] !in band[1..] && forall x :: x in band <==> x == band[0] || x in band[1..]
  {
    assert band == [band[0]] + band[1..];
  }

  lemma BackOff(band: seq<ThreadId>)
    requires NoDup(band) && band != []
    ensures band[|band| - 1] !in band[..|band| - 1]
    ensures forall x :: x in band <==> x == band[|band| - 1] || x in band[..|band| - 1]
  {
    assert band == band[..|band| - 1] + [band[|band| - 1]];
  }

  /** A pop removes one thread of the best band, and nothing if and only if the queue is empty. */
  lemma PopTakes(q: RunQueue)
    ensures Pop(q).0.None? <==> forall x :: !q.Contains(x)
    ensures Pop(q).0.Some? ==> Took(q, Pop(q).0.value, Pop(q).1)
  {
    match q.Serving()
    case None =>
    case Some(p) =>
      var band := q.Band(p);
      FrontOff(band);
      assert q.Contains(band[0]);
  }

  /** A steal takes from the other end of the same band. */
  lemma StealTakes(q: RunQueue)
    ensures Steal(q).0.None? <==> forall x :: !q.Contains(x)
    ensures Steal(q).0.Some? ==> Took(q, Steal(q).0.value, Steal(q).1)
  {
    match q.Serving()
    case None =>
    case Some(p) =>
      var band := q.Band(p);
      BackOff(band);
      assert q.Contains(band[|band| - 1]);
  }

  /** No band above `p` has anything queued. */
  predicate BestIs(q: RunQueue, p: Priority) {
    forall b: Priority :: b.Raw() > p.Raw() ==> q.Band(b) == []
  }

  /**
   A newly queued thread waits behind its band for the owner and is first in line for a
   thief; one queued above everything else is served at once, one below waits for the rest.
   */
  lemma ServedInOrder(q: RunQueue, id: ThreadId, p: Priority)
    requires !q.Contains(id)
    ensures BestIs(q, p) && q.Band(p) != [] ==> Pop(Push(q, id, p)).0 == Pop(q).0 && Steal(Push(q, id, p)).0 == Some(id)
    ensures BestIs(q, p) && q.Band(p) == [] ==> Pop(Push(q, id, p)).0 == Some(id) && Steal(Push(q, id, p)).0 == Some(id)
    ensures !BestIs(q, p) ==> Pop(Push(q, id, p)).0 == Pop(q).0 && Steal(Push(q, id, p)).0 == Steal(q).0
  {
    assert p.Raw() < 1 ==> Normal.Raw() > p.Raw();
    assert p.Raw() < 2 ==> High.Raw() > p.Raw();
    var q' := Push(q, id, p);
    assert q'.Band(p) == q.Band(p) + [id];
    assert BestIs(q, p) ==> q'.Serving() == Some(p);
    assert !BestIs(q, p) ==> q'.Serving() == q.Serving() && q.Serving().Some? && q.Serving().value != p;
  }

  /** While there is runnable work, neither end of the queue gives up an idle-band thread. */
  lemma RunnableWorkIsNotIdle(q: RunQueue)
    requires q.RunnableLen() > 0
    ensures Pop(q).0.Some? && Pop(q).0.value !in q.idle
    ensures Steal(q).0.Some? && Steal(q).0.value !in q.idle
  {
    var band := q.Band(q.Serving().value);
    assert band[0] in band && band[|band| - 1] in band;
  }
}
