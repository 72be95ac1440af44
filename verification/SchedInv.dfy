/**
 What every step of the scheduler keeps: each thread is found exactly where its history
 says it was last put, and what every place promises about the thread found there holds.
 */
module SchedInv {
  import opened Wrappers
  import opened RunQueues
  import opened SchedSpec

  predicate Live(th: Thread) { th.state != Exited }

  type Table = map<ThreadId, Thread>

  predicate IsAt(threads: Table, t: ThreadId, p: Place) {
    t in threads && threads[t].place == p && Live(threads[t])
  }

  /** The part of the invariant that one processor's record answers for. */
  ghost predicate CpuOk(threads: Table, n: nat, c: nat, k: Cpu) {
    && (k.current.Some? ==> IsAt(threads, k.current.value, OnCpu(c)))
    && HandoffOk(threads, c, k)
    && QueueOk(threads, c, k.queue)
    && PcOk(threads, n, c, k)
  }

  predicate HandoffOk(threads: Table, c: nat, k: Cpu) {
    k.handoff.Empty? || (
      && IsAt(threads, k.handoff.id, HandedOff(c))
      && (k.handoff.Tagged? <==> threads[k.handoff.id].park.parked)
      && k.handoffPriority == threads[k.handoff.id].priority.Raw())
  }

  ghost predicate QueueOk(threads: Table, c: nat, q: RunQueue) {
    forall t :: q.Contains(t) ==> IsAt(threads, t, Queued(c)) && t in q.Band(threads[t].priority)
  }

  /** The current thread executes on its own stack and its stored context is stale. */
  predicate Settled(threads: Table, k: Cpu) {
    k.current.Some? && k.stack == k.current && k.current.value in threads && !threads[k.current.value].saved
  }

  predicate Dispatching(threads: Table, k: Cpu, exiting: bool) {
    Settled(threads, k) && k.handoff == Empty && (exiting ==> threads[k.current.value].point.Dying?)
  }

  predicate PcOk(threads: Table, n: nat, c: nat, k: Cpu) {
    match k.pc
    case Boot => k.current == None && k.stack == None && k.handoff == Empty
    case Adopting(t) =>
      && k.current == None && k.stack == Some(t) && k.handoff == Empty
      && IsAt(threads, t, Booting(c)) && !threads[t].saved
    case Run => Dispatching(threads, k, false)
    case Local(exiting) => Dispatching(threads, k, exiting)
    case Remote(exiting, v) => Dispatching(threads, k, exiting) && v < n
    case Last(exiting) => Dispatching(threads, k, exiting)
    case Chosen(exiting, next) => Dispatching(threads, k, exiting) && IsAt(threads, next, Taken(c))
    case Window(out, next) =>
      && k.current == Some(next) && k.stack == Some(out) && out != next
      && next in threads && threads[next].saved
      && (if out in threads && Live(threads[out]) then k.handoff.Names(out) && !threads[out].saved
          else k.handoff == Empty)
    case Switched =>
      Settled(threads, k) && (k.handoff.Empty? || (k.handoff.id in threads && threads[k.handoff.id].saved))
    case Publishing(t, priority) =>
      Dispatching(threads, k, false) && IsAt(threads, t, Leaving(c)) && threads[t].priority == priority
  }

  /** Processor record `k` holds `t` in the way a place of `p`'s kind says. */
  predicate Holds(k: Cpu, t: ThreadId, p: Place) {
    match p
    case OnCpu(_) => k.current == Some(t)
    case Booting(_) => k.pc == Adopting(t)
    case Taken(_) => k.pc.Chosen? && k.pc.next == t
    case Queued(_) => k.queue.Contains(t)
    case HandedOff(_) => k.handoff.Names(t)
    case Leaving(_) => k.pc.Publishing? && k.pc.id == t
    case _ => false
  }

  predicate Found(cpus: seq<Cpu>, transit: map<ThreadId, Wakeup>, t: ThreadId, p: Place) {
    match p
    case Nowhere => true
    case InTransit => t in transit
    case _ => p.c < |cpus| && Holds(cpus[p.c], t, p)
  }

  /** The part of the invariant that one thread answers for. */
  predicate ThreadOk(th: Thread, n: nat) {
    && !(th.park.parked && th.park.pending)
    && (th.point == Outside || th.point == Entering || th.point.Ending() ==> !th.park.parked)
    && (th.home.Some? ==> th.priority == Idle && th.home.value < n)
    && (th.place.Taken? || th.place.Queued? || th.place.Leaving? || th.place.InTransit? ==>
          th.saved && !th.park.parked)
    && (th.place.Booting? ==> !th.park.parked)
    && (th.home.Some? && !th.place.Nowhere? && !th.place.InTransit? ==> th.place.c == th.home.value)
    && (if Live(th) then th.place == Nowhere ==> th.park.parked && th.saved
        else th.place == Nowhere && !th.park.parked)
  }

  // The invariant, one processor, one thread and one pending push at a time.

  ghost predicate CpuInv(s: Sys, c: nat) {
    c < |s.cpus| ==>
      CpuOk(s.threads, |s.cpus|, c, s.cpus[c]) && (s.cpus[c].pc.Window? ==> s.cpus[c].pc.out < s.nextId)
  }

  predicate ThreadInv(s: Sys, t: ThreadId) {
    t in s.threads ==>
      t < s.nextId && ThreadOk(s.threads[t], |s.cpus|) && Found(s.cpus, s.transit, t, s.threads[t].place)
  }

  predicate TransitInv(s: Sys, t: ThreadId) {
    t in s.transit ==>
      IsAt(s.threads, t, InTransit) && s.transit[t] == Wakeup(s.threads[t].priority, s.threads[t].home)
  }

  predicate ReapInv(s: Sys, t: ThreadId) {
    t in s.reapable ==> t < s.nextId && (t in s.threads ==> !Live(s.threads[t]))
  }

  ghost predicate Inv(s: Sys) {
    && (forall c {:trigger CpuInv(s, c)} :: CpuInv(s, c))
    && (forall t {:trigger ThreadInv(s, t)} :: ThreadInv(s, t))
    && (forall t {:trigger TransitInv(s, t)} :: TransitInv(s, t))
    && (forall t {:trigger ReapInv(s, t)} :: ReapInv(s, t))
  }

  lemma InitialInv(n: nat)
    ensures Inv(Initial(n))
  {
  }

  // ---- Framing ----

  predicate AtCpu(p: Place, c: nat) {
    !p.Nowhere? && !p.InTransit? && p.c == c
  }

  /** `threads'` has left alone the threads placed at `c`, and revived no exited one. */
  predicate LeftAlone(threads: Table, threads': Table, c: nat, k: Cpu) {
    && (forall t :: t in threads && AtCpu(threads[t].place, c) ==> t in threads' && threads'[t] == threads[t])
    && (forall t :: t in threads && !Live(threads[t]) && t in threads' ==> !Live(threads'[t]))
    && (k.pc.Window? && k.pc.out !in threads ==> k.pc.out !in threads')
  }

  /** A processor's record stays consistent while the threads placed there are left alone. */
  lemma CpuKept(threads: Table, threads': Table, n: nat, c: nat, k: Cpu)
    requires CpuOk(threads, n, c, k) && LeftAlone(threads, threads', c, k)
    ensures CpuOk(threads', n, c, k)
  {
  }

  /** A step of processor `c` alone: other records stay, and only live threads placed at `c` change. */
  predicate LocalTo(s: Sys, s': Sys, c: nat) {
    && |s'.cpus| == |s.cpus| && s'.nextId == s.nextId && s'.threads.Keys == s.threads.Keys
    && (forall d :: 0 <= d < |s.cpus| && d != c ==> s'.cpus[d] == s.cpus[d])
    && (forall t :: t in s.threads && s'.threads[t] != s.threads[t] ==>
          && (AtCpu(s.threads[t].place, c) || s.threads[t].place == Nowhere)
          && (!Live(s.threads[t]) ==> !Live(s'.threads[t])))
  }

  lemma OtherCpus(s: Sys, s': Sys, c: nat, d: nat)
    requires Inv(s) && LocalTo(s, s', c) && d != c
    ensures CpuInv(s', d)
  {
    assert CpuInv(s, d);
    if d < |s.cpus| { CpuKept(s.threads, s'.threads, |s.cpus|, d, s.cpus[d]); }
  }

  // ---- Each step keeps it ----

  lemma AdoptInv(s: Sys, c: nat)
    requires Inv(s) && Enabled(s, Adopt(c))
    ensures Inv(AdoptStep(s, c))
  {
    var s' := AdoptStep(s, c);
    assert ThreadInv(s, s.nextId);
    forall d: nat ensures CpuInv(s', d) {
      assert CpuInv(s, d);
      if d < |s.cpus| { CpuKept(s.threads, s'.threads, |s.cpus|, d, s.cpus[d]); }
    }
    forall t: ThreadId ensures ThreadInv(s', t) && TransitInv(s', t) && ReapInv(s', t) {
      assert ThreadInv(s, t) && TransitInv(s, t) && ReapInv(s, t) && CpuInv(s, c);
    }
  }

  lemma InstallInv(s: Sys, c: nat)
    requires Inv(s) && Enabled(s, Install(c))
    ensures Inv(InstallStep(s, c))
  {
    var s' := InstallStep(s, c);
    assert CpuInv(s, c);
    forall d: nat ensures CpuInv(s', d) {
      assert CpuInv(s, d);
      if d < |s.cpus| && d != c { CpuKept(s.threads, s'.threads, |s.cpus|, d, s.cpus[d]); }
    }
    forall t: ThreadId ensures ThreadInv(s', t) && TransitInv(s', t) && ReapInv(s', t) {
      assert ThreadInv(s, t) && TransitInv(s, t) && ReapInv(s, t);
    }
  }

  lemma SpawnInv(s: Sys, c: nat, priority: Priority)
    requires Inv(s) && Enabled(s, Spawn(c, priority))
    ensures Inv(SpawnStep(s, priority))
  {
    var s' := SpawnStep(s, priority);
    assert ThreadInv(s, s.nextId);
    forall d: nat ensures CpuInv(s', d) {
      assert CpuInv(s, d);
      if d < |s.cpus| { CpuKept(s.threads, s'.threads, |s.cpus|, d, s.cpus[d]); }
    }
    forall t: ThreadId ensures ThreadInv(s', t) && TransitInv(s', t) && ReapInv(s', t) {
      assert ThreadInv(s, t) && TransitInv(s, t) && ReapInv(s, t);
    }
  }

  /** A thread joins a queue it is not in. */
  lemma QueueJoined(threads: Table, threads': Table, c: nat, q: RunQueue, t: ThreadId)
    requires QueueOk(threads, c, q) && t in threads && threads[t].place != Queued(c) && Live(threads[t])
    requires threads' == Put(threads, t, Queued(c))
    ensures QueueOk(threads', c, Push(q, t, threads[t].priority))
    ensures forall x :: Push(q, t, threads[t].priority).Contains(x) <==> q.Contains(x) || x == t
  {
    PushEffect(q, t, threads[t].priority);
  }

  /** A thread in transit, or leaving the handoff, joins processor `c`'s queue. */
  ghost predicate Joins(s: Sys, s': Sys, c: nat, t: ThreadId, pc: Pc, q: RunQueue) {
    && c < |s.cpus| && t in s.threads && Live(s.threads[t])
    && (s.threads[t].home.Some? ==> s.threads[t].home.value == c)
    && (if pc == s.cpus[c].pc then s.threads[t].place == InTransit
        else pc == Run && s.cpus[c].pc.Publishing? && s.cpus[c].pc.id == t)
    && s' == SetCpu(s, c, s.cpus[c].(queue := q, pc := pc))
               .(transit := s.transit - {t}, threads := Put(s.threads, t, Queued(c)))
    && QueueOk(s'.threads, c, q)
    && (forall x :: q.Contains(x) <==> s.cpus[c].queue.Contains(x) || x == t)
  }

  lemma EnqueuedCpu(s: Sys, s': Sys, c: nat, t: ThreadId, pc: Pc, q: RunQueue, d: nat)
    requires Inv(s) && Joins(s, s', c, t, pc, q)
    ensures CpuInv(s', d)
  {
    assert CpuInv(s, c) && CpuInv(s, d);
    if d < |s.cpus| && d != c { CpuKept(s.threads, s'.threads, |s.cpus|, d, s.cpus[d]); }
  }

  lemma Enqueued(s: Sys, s': Sys, c: nat, t: ThreadId, pc: Pc, q: RunQueue)
    requires Inv(s) && Joins(s, s', c, t, pc, q)
    ensures Inv(s')
  {
    assert CpuInv(s, c) && ThreadInv(s, t);
    forall d: nat ensures CpuInv(s', d) {
      EnqueuedCpu(s, s', c, t, pc, q, d);
    }
    forall u: ThreadId ensures ThreadInv(s', u) && TransitInv(s', u) && ReapInv(s', u) {
      assert ThreadInv(s, u) && TransitInv(s, u) && ReapInv(s, u);
    }
  }

  lemma PushTransitInv(s: Sys, c: nat, t: ThreadId)
    requires Inv(s) && Enabled(s, PushTransit(c, t))
    ensures Inv(PushTransitStep(s, c, t))
  {
    var s' := PushTransitStep(s, c, t);
    assert TransitInv(s, t) && ThreadInv(s, t);
    var home := s.threads[t].home;
    var target := if home.Some? then home.value else c;
    assert CpuInv(s, target);
    QueueJoined(s.threads, s'.threads, target, s.cpus[target].queue, t);
    Enqueued(s, s', target, t, s.cpus[target].pc, s'.cpus[target].queue);
  }

  lemma PublishPushInv(s: Sys, c: nat)
    requires Inv(s) && Enabled(s, PublishPush(c))
    ensures Inv(PublishPushStep(s, c))
  {
    var s' := PublishPushStep(s, c);
    var t := s.cpus[c].pc.id;
    assert CpuInv(s, c) && ThreadInv(s, t) && TransitInv(s, t);
    QueueJoined(s.threads, s'.threads, c, s.cpus[c].queue, t);
    assert s.transit - {t} == s.transit;
    Enqueued(s, s', c, t, Run, s'.cpus[c].queue);
  }

  /** The running thread changes its own park state, point or state; its processor may start to dispatch. */
  lemma OwnStep(s: Sys, s': Sys, c: nat, th: Thread, pc: Pc)
    requires Inv(s) && RunsThread(s, c)
    requires ThreadOk(th, |s.cpus|) && Live(th)
    requires th == Me(s, c).(park := th.park, point := th.point, state := th.state)
    requires pc == Run || pc == Pc.Local(false) || (pc == Pc.Local(true) && th.point.Dying?)
    requires s' == SetThread(SetPc(s, c, pc), s.cpus[c].current.value, th)
    ensures Inv(s')
  {
    var me := s.cpus[c].current.value;
    assert ThreadInv(s, me) && CpuInv(s, c);
    forall d: nat ensures CpuInv(s', d) {
      assert CpuInv(s, d);
      if d < |s.cpus| && d != c { CpuKept(s.threads, s'.threads, |s.cpus|, d, s.cpus[d]); }
    }
    forall u: ThreadId ensures ThreadInv(s', u) && TransitInv(s', u) && ReapInv(s', u) {
      assert ThreadInv(s, u) && TransitInv(s, u) && ReapInv(s, u);
    }
  }

  predicate IsOwnStep(step: Step) {
    || step.ParkEnter? || step.ParkLock? || step.ParkSchedule? || step.CheckReturned? || step.CheckHalted?
    || step.Yield? || step.Exit? || step.CheckAlive? || step.CheckDeadline? || step.ExitAgain?
  }

  /** An exiter that found nothing to run gives up: it is the last thread, or it has waited too long. */
  function GivesUp(s: Sys, step: Step): Option<Reason>
    requires Enabled(s, step)
  {
    if step.CheckAlive? && OnlyThread(s, s.cpus[step.c].current.value) then Some(NothingLeft)
    else if step.CheckDeadline? && s.ticks >= Me(s, step.c).point.deadline then Some(WaitedTooLong)
    else None
  }

  /** What an own step makes of the running thread and of its processor. */
  lemma OwnStepIs(s: Sys, step: Step)
    requires IsOwnStep(step) && Enabled(s, step) && GivesUp(s, step).None?
    ensures Exec(s, step).Next?
    ensures var s', me := Exec(s, step).s, s.cpus[step.c].current.value;
      && |s'.cpus| == |s.cpus| && me in s'.threads
      && s' == SetThread(SetPc(s, step.c, s'.cpus[step.c].pc), me, s'.threads[me])
  {
    assert SetPc(s, step.c, Run) == s;
    assert SetThread(s, s.cpus[step.c].current.value, Me(s, step.c)) == s;
  }

  /** The running thread after an own step is fit to be there. */
  predicate OwnFits(s: Sys, c: nat, s': Sys)
    requires RunsThread(s, c)
  {
    var me := s.cpus[c].current.value;
    && |s'.cpus| == |s.cpus| && me in s'.threads
    && var th, pc := s'.threads[me], s'.cpus[c].pc;
    && ThreadOk(th, |s.cpus|) && Live(th)
    && th == Me(s, c).(park := th.park, point := th.point, state := th.state)
    && (pc == Run || pc == Pc.Local(false) || (pc == Pc.Local(true) && th.point.Dying?))
  }

  lemma ParkStepFits(s: Sys, step: Step)
    requires step.ParkEnter? || step.ParkLock? || step.ParkSchedule? || step.CheckReturned? || step.CheckHalted?
    requires Enabled(s, step)
    requires ThreadOk(Me(s, step.c), |s.cpus|) && Live(Me(s, step.c)) && Me(s, step.c).place.OnCpu?
    ensures Exec(s, step).Next? && OwnFits(s, step.c, Exec(s, step).s)
  {
  }

  lemma ExitStepFits(s: Sys, step: Step)
    requires step.Yield? || step.Exit? || step.CheckAlive? || step.CheckDeadline? || step.ExitAgain?
    requires Enabled(s, step) && Exec(s, step).Next?
    requires ThreadOk(Me(s, step.c), |s.cpus|) && Live(Me(s, step.c)) && Me(s, step.c).place.OnCpu?
    ensures OwnFits(s, step.c, Exec(s, step).s)
  {
  }

  lemma OwnStepInv(s: Sys, step: Step)
    requires Inv(s) && IsOwnStep(step) && Enabled(s, step) && GivesUp(s, step).None?
    ensures Exec(s, step).Next? && Inv(Exec(s, step).s)
  {
    var c := step.c;
    var me := s.cpus[c].current.value;
    assert ThreadInv(s, me) && CpuInv(s, c);
    OwnStepIs(s, step);
    var s' := Exec(s, step).s;
    if step.Yield? || step.Exit? || step.CheckAlive? || step.CheckDeadline? || step.ExitAgain? {
      ExitStepFits(s, step);
    } else {
      ParkStepFits(s, step);
    }
    OwnStep(s, s', c, s'.threads[me], s'.cpus[c].pc);
  }

  lemma MarkOnlineInv(s: Sys, c: nat)
    requires Inv(s) && Enabled(s, MarkOnline(c))
    ensures Inv(SetCpu(s, c, s.cpus[c].(online := true)))
  {
    var s' := SetCpu(s, c, s.cpus[c].(online := true));
    forall d: nat ensures CpuInv(s', d) {
      assert CpuInv(s, d);
    }
    forall u: ThreadId ensures ThreadInv(s', u) && TransitInv(s', u) && ReapInv(s', u) {
      assert ThreadInv(s, u) && TransitInv(s, u) && ReapInv(s, u);
    }
  }

  lemma TickInv(s: Sys)
    requires Inv(s)
    ensures Inv(s.(ticks := s.ticks + 1))
  {
    var s' := s.(ticks := s.ticks + 1);
    forall d: nat ensures CpuInv(s', d) {
      assert CpuInv(s, d);
    }
    forall u: ThreadId ensures ThreadInv(s', u) && TransitInv(s', u) && ReapInv(s', u) {
      assert ThreadInv(s, u) && TransitInv(s, u) && ReapInv(s, u);
    }
  }

  // ---- Wakes ----

  /** A parked thread is current, in a tagged handoff slot, or nowhere at all. */
  lemma ParkedPlaces(s: Sys, t: ThreadId)
    requires Inv(s) && t in s.threads && s.threads[t].park.parked
    ensures Live(s.threads[t])
    ensures s.threads[t].place.OnCpu? || s.threads[t].place.HandedOff? || s.threads[t].place.Nowhere?
    ensures CurrentAnywhere(s, t) <==> s.threads[t].place.OnCpu?
    ensures forall c :: 0 <= c < |s.cpus| ==> (s.cpus[c].handoff == Tagged(t) <==> s.threads[t].place == HandedOff(c))
  {
    assert ThreadInv(s, t);
    forall c | 0 <= c < |s.cpus|
      ensures s.cpus[c].handoff == Tagged(t) <==> s.threads[t].place == HandedOff(c)
      ensures s.cpus[c].current == Some(t) ==> s.threads[t].place == OnCpu(c)
    {
      assert CpuInv(s, c);
    }
  }

  /** Only `t`'s wakeup mark changed. */
  lemma NotedInv(s: Sys, t: ThreadId, th: Thread)
    requires Inv(s) && t in s.threads
    requires !s.threads[t].park.parked && th == s.threads[t].(park := s.threads[t].park.(pending := true))
    ensures Inv(SetThread(s, t, th))
  {
    var s' := SetThread(s, t, th);
    forall d: nat ensures CpuInv(s', d) {
      assert CpuInv(s, d);
    }
    forall u: ThreadId ensures ThreadInv(s', u) && TransitInv(s', u) && ReapInv(s', u) {
      assert ThreadInv(s, u) && TransitInv(s, u) && ReapInv(s, u);
    }
  }

  lemma WokenCurrentInv(s: Sys, t: ThreadId, th: Thread)
    requires Inv(s) && t in s.threads && s.threads[t].place.OnCpu? && s.threads[t].park.parked
    requires th == s.threads[t].(park := s.threads[t].park.(parked := false), state := Ready)
    ensures Inv(SetThread(s, t, th))
  {
    var s' := SetThread(s, t, th);
    assert ThreadInv(s, t);
    forall d: nat ensures CpuInv(s', d) {
      assert CpuInv(s, d);
    }
    forall u: ThreadId ensures ThreadInv(s', u) && TransitInv(s', u) && ReapInv(s', u) {
      assert ThreadInv(s, u) && TransitInv(s, u) && ReapInv(s, u);
    }
  }

  lemma WokenTaggedInv(s: Sys, t: ThreadId, th: Thread)
    requires Inv(s) && t in s.threads && s.threads[t].place.HandedOff? && s.threads[t].park.parked
    requires th == s.threads[t].(park := s.threads[t].park.(parked := false), state := Ready)
    ensures Inv(Untag(SetThread(s, t, th), t))
  {
    var s' := Untag(SetThread(s, t, th), t);
    var c := s.threads[t].place.c;
    assert ThreadInv(s, t);
    ParkedPlaces(s, t);
    forall d: nat ensures CpuInv(s', d) {
      assert CpuInv(s, d);
      if d < |s.cpus| && d != c {
        assert s'.cpus[d] == s.cpus[d];
        CpuKept(s.threads, s'.threads, |s.cpus|, d, s.cpus[d]);
      }
    }
    forall u: ThreadId ensures ThreadInv(s', u) && TransitInv(s', u) && ReapInv(s', u) {
      assert ThreadInv(s, u) && TransitInv(s, u) && ReapInv(s, u);
    }
  }

  lemma WokenDetachedInv(s: Sys, s': Sys, t: ThreadId)
    requires Inv(s) && t in s.threads && s.threads[t].place.Nowhere? && s.threads[t].park.parked
    requires s' == s.(
      threads := s.threads[t := s.threads[t].(
        park := s.threads[t].park.(parked := false), state := Ready, place := InTransit)],
      transit := s.transit[t := Wakeup(s.threads[t].priority, s.threads[t].home)])
    ensures Inv(s')
  {
    assert ThreadInv(s, t);
    forall d: nat ensures CpuInv(s', d) {
      assert CpuInv(s, d);
      if d < |s.cpus| { CpuKept(s.threads, s'.threads, |s.cpus|, d, s.cpus[d]); }
    }
    forall u: ThreadId ensures ThreadInv(s', u) && TransitInv(s', u) && ReapInv(s', u) {
      assert ThreadInv(s, u) && TransitInv(s, u) && ReapInv(s, u);
    }
  }

  lemma UnparkInv(s: Sys, t: ThreadId)
    requires Inv(s)
    ensures Inv(UnparkStep(s, t))
  {
    if t in s.threads {
      var th := s.threads[t];
      if !th.park.parked {
        NotedInv(s, t, th.(park := th.park.Wake().1));
      } else {
        ParkedPlaces(s, t);
        assert ThreadInv(s, t);
        var th' := th.(park := th.park.Wake().1, state := Ready);
        if th.place.OnCpu? {
          WokenCurrentInv(s, t, th');
        } else if th.place.HandedOff? {
          assert s.cpus[th.place.c].handoff == Tagged(t);
          WokenTaggedInv(s, t, th');
        } else {
          WokenDetachedInv(s, UnparkStep(s, t), t);
        }
      }
    }
  }

  // ---- Dispatch ----

  lemma PcOnlyInv(s: Sys, c: nat, pc: Pc)
    requires Inv(s) && c < |s.cpus|
    requires s.cpus[c].pc.Local? || s.cpus[c].pc.Remote? || s.cpus[c].pc.Last?
    requires
      || pc == Run
      || pc == Last(s.cpus[c].pc.exiting)
      || (pc.Remote? && pc.exiting == s.cpus[c].pc.exiting && pc.victim < |s.cpus|)
    ensures Inv(SetPc(s, c, pc))
  {
    var s' := SetPc(s, c, pc);
    forall d: nat ensures CpuInv(s', d) {
      assert CpuInv(s, d);
    }
    forall u: ThreadId ensures ThreadInv(s', u) && TransitInv(s', u) && ReapInv(s', u) {
      assert ThreadInv(s, u) && TransitInv(s, u) && ReapInv(s, u);
    }
  }

  /** Processor `c` takes `t` out of processor `v`'s queue, which is left as `rest`. */
  ghost predicate Takes(s: Sys, s': Sys, c: nat, v: nat, t: ThreadId, rest: RunQueue) {
    && c < |s.cpus| && v < |s.cpus|
    && (s.cpus[c].pc.Local? || s.cpus[c].pc.Remote? || s.cpus[c].pc.Last?)
    && Took(s.cpus[v].queue, t, rest)
    && (v == c || t !in s.cpus[v].queue.idle)
    && s' == SetPc(SetCpu(s, v, s.cpus[v].(queue := rest)), c, Chosen(s.cpus[c].pc.exiting, t))
               .(threads := Put(s.threads, t, Taken(c)))
  }

  lemma TakerCpu(s: Sys, s': Sys, c: nat, v: nat, t: ThreadId, rest: RunQueue)
    requires Inv(s) && Takes(s, s', c, v, t, rest)
    ensures CpuInv(s', c)
  {
    assert CpuInv(s, c) && CpuInv(s, v) && ThreadInv(s, t);
  }

  lemma VictimCpu(s: Sys, s': Sys, c: nat, v: nat, t: ThreadId, rest: RunQueue)
    requires Inv(s) && Takes(s, s', c, v, t, rest) && c != v
    ensures CpuInv(s', v)
  {
    assert CpuInv(s, v) && ThreadInv(s, t);
  }

  lemma TakenThread(s: Sys, s': Sys, c: nat, v: nat, t: ThreadId, rest: RunQueue, u: ThreadId)
    requires Inv(s) && Takes(s, s', c, v, t, rest)
    ensures ThreadInv(s', u) && TransitInv(s', u) && ReapInv(s', u)
  {
    assert CpuInv(s, v) && ThreadInv(s, t);
    assert ThreadInv(s, u) && TransitInv(s, u) && ReapInv(s, u);
    if u == t {
      assert s'.cpus[c].pc.next == t;
    } else if u in s.threads && AtCpu(s.threads[u].place, c) {
      assert CpuInv(s, c);
    }
  }

  lemma Dequeued(s: Sys, s': Sys, c: nat, v: nat, t: ThreadId, rest: RunQueue)
    requires Inv(s) && Takes(s, s', c, v, t, rest)
    ensures Inv(s')
  {
    assert CpuInv(s, c) && CpuInv(s, v) && ThreadInv(s, t);
    forall d: nat ensures CpuInv(s', d) {
      assert CpuInv(s, d);
      if d == c { TakerCpu(s, s', c, v, t, rest); }
      else if d == v { VictimCpu(s, s', c, v, t, rest); }
      else if d < |s.cpus| { CpuKept(s.threads, s'.threads, |s.cpus|, d, s.cpus[d]); }
    }
    forall u: ThreadId ensures ThreadInv(s', u) && TransitInv(s', u) && ReapInv(s', u) {
      TakenThread(s, s', c, v, t, rest, u);
    }
  }

  lemma TakeLocalInv(s: Sys, c: nat)
    requires Inv(s) && Enabled(s, TakeLocal(c))
    ensures Inv(TakeLocalStep(s, c))
  {
    var q := s.cpus[c].queue;
    PopTakes(q);
    if q.RunnableLen() > 0 {
      RunnableWorkIsNotIdle(q);
      Dequeued(s, TakeLocalStep(s, c), c, c, Pop(q).0.value, Pop(q).1);
    } else {
      PcOnlyInv(s, c, Remote(s.cpus[c].pc.exiting, 0));
    }
  }

  lemma TakeRemoteInv(s: Sys, c: nat, contended: bool)
    requires Inv(s) && Enabled(s, TakeRemote(c, contended))
    ensures Inv(TakeRemoteStep(s, c, contended))
  {
    var v := s.cpus[c].pc.victim;
    var q := s.cpus[v].queue;
    if v == c || !s.cpus[v].online || contended || q.RunnableLen() == 0 {
      PcOnlyInv(s, c, TakeRemoteStep(s, c, contended).cpus[c].pc);
    } else {
      RunnableWorkIsNotIdle(q);
      StealTakes(q);
      Dequeued(s, TakeRemoteStep(s, c, contended), c, v, Steal(q).0.value, Steal(q).1);
    }
  }

  lemma TakeLastInv(s: Sys, c: nat)
    requires Inv(s) && Enabled(s, TakeLast(c))
    ensures Inv(TakeLastStep(s, c))
  {
    var q := s.cpus[c].queue;
    PopTakes(q);
    if Pop(q).0.Some? {
      Dequeued(s, TakeLastStep(s, c), c, c, Pop(q).0.value, Pop(q).1);
    } else {
      PcOnlyInv(s, c, Run);
    }
  }

  lemma CommitRuns(s: Sys, c: nat)
    requires Inv(s) && Enabled(s, Commit(c))
    ensures CommitStep(s, c).Next? && s.cpus[c].current.value != s.cpus[c].pc.next
  {
    assert CpuInv(s, c);
    assert ThreadInv(s, s.cpus[c].pc.next);
  }

  lemma CommitHandoff(s: Sys, c: nat)
    requires Inv(s) && Enabled(s, Commit(c)) && CommitStep(s, c).Next?
    ensures HandoffOk(CommitStep(s, c).s.threads, c, CommitStep(s, c).s.cpus[c])
  {
    CommitRuns(s, c);
    assert CpuInv(s, c);
  }

  lemma CommitQueue(s: Sys, c: nat)
    requires Inv(s) && Enabled(s, Commit(c)) && CommitStep(s, c).Next?
    ensures QueueOk(CommitStep(s, c).s.threads, c, CommitStep(s, c).s.cpus[c].queue)
  {
    assert CpuInv(s, c);
  }

  lemma CommitPc(s: Sys, c: nat)
    requires Inv(s) && Enabled(s, Commit(c)) && CommitStep(s, c).Next?
    ensures PcOk(CommitStep(s, c).s.threads, |s.cpus|, c, CommitStep(s, c).s.cpus[c])
    ensures IsAt(CommitStep(s, c).s.threads, s.cpus[c].pc.next, OnCpu(c))
  {
    CommitRuns(s, c);
    assert CpuInv(s, c);
    assert ThreadInv(s, s.cpus[c].current.value) && ThreadInv(s, s.cpus[c].pc.next);
  }

  lemma CommitCpu(s: Sys, c: nat)
    requires Inv(s) && Enabled(s, Commit(c))
    ensures CommitStep(s, c).Next? && CpuInv(CommitStep(s, c).s, c)
  {
    CommitRuns(s, c);
    CommitHandoff(s, c);
    CommitQueue(s, c);
    CommitPc(s, c);
    assert CpuInv(s, c) && ThreadInv(s, s.cpus[c].current.value);
  }

  lemma CommitThread(s: Sys, c: nat, u: ThreadId)
    requires Inv(s) && Enabled(s, Commit(c)) && CommitStep(s, c).Next?
    ensures ThreadInv(CommitStep(s, c).s, u) && TransitInv(CommitStep(s, c).s, u) && ReapInv(CommitStep(s, c).s, u)
  {
    assert CpuInv(s, c);
    assert ThreadInv(s, s.cpus[c].current.value) && ThreadInv(s, s.cpus[c].pc.next);
    assert ThreadInv(s, u) && TransitInv(s, u) && ReapInv(s, u);
  }

  lemma CommitLocal(s: Sys, c: nat)
    requires Inv(s) && Enabled(s, Commit(c)) && CommitStep(s, c).Next?
    ensures LocalTo(s, CommitStep(s, c).s, c)
  {
    assert CpuInv(s, c);
  }

  lemma CommitInv(s: Sys, c: nat)
    requires Inv(s) && Enabled(s, Commit(c))
    ensures CommitStep(s, c).Next? && Inv(CommitStep(s, c).s)
  {
    CommitCpu(s, c);
    CommitLocal(s, c);
    var s' := CommitStep(s, c).s;
    forall d: nat ensures CpuInv(s', d) {
      if d != c { OtherCpus(s, s', c, d); }
    }
    forall u: ThreadId ensures ThreadInv(s', u) && TransitInv(s', u) && ReapInv(s', u) {
      CommitThread(s, c, u);
    }
  }

  lemma SwitchCpu(s: Sys, c: nat)
    requires Inv(s) && Enabled(s, Switch(c))
    ensures CpuInv(SwitchStep(s, c), c)
  {
    assert CpuInv(s, c);
    assert ThreadInv(s, s.cpus[c].pc.out) && ThreadInv(s, s.cpus[c].pc.next);
  }

  lemma SwitchThread(s: Sys, c: nat, u: ThreadId)
    requires Inv(s) && Enabled(s, Switch(c))
    ensures ThreadInv(SwitchStep(s, c), u) && TransitInv(SwitchStep(s, c), u) && ReapInv(SwitchStep(s, c), u)
  {
    assert CpuInv(s, c);
    assert ThreadInv(s, u) && TransitInv(s, u) && ReapInv(s, u);
  }

  lemma SwitchInv(s: Sys, c: nat)
    requires Inv(s) && Enabled(s, Switch(c))
    ensures Inv(SwitchStep(s, c))
  {
    var s' := SwitchStep(s, c);
    assert CpuInv(s, c);
    assert ThreadInv(s, s.cpus[c].pc.out) && ThreadInv(s, s.cpus[c].pc.next);
    forall d: nat ensures CpuInv(s', d) {
      if d == c { SwitchCpu(s, c); } else { OtherCpus(s, s', c, d); }
    }
    forall u: ThreadId ensures ThreadInv(s', u) && TransitInv(s', u) && ReapInv(s', u) {
      SwitchThread(s, c, u);
    }
  }

  lemma PublishSwapCpu(s: Sys, c: nat)
    requires Inv(s) && Enabled(s, PublishSwap(c))
    ensures CpuInv(PublishSwapStep(s, c), c)
  {
    assert CpuInv(s, c);
    if !s.cpus[c].handoff.Empty? {
      var t := s.cpus[c].handoff.id;
      assert ThreadInv(s, t);
      RawRoundTrips(s.threads[t].priority, 0);
    }
  }

  lemma PublishSwapThread(s: Sys, c: nat, u: ThreadId)
    requires Inv(s) && Enabled(s, PublishSwap(c))
    ensures ThreadInv(PublishSwapStep(s, c), u) && TransitInv(PublishSwapStep(s, c), u)
    ensures ReapInv(PublishSwapStep(s, c), u)
  {
    assert CpuInv(s, c);
    assert ThreadInv(s, u) && TransitInv(s, u) && ReapInv(s, u);
  }

  lemma PublishSwapLocal(s: Sys, c: nat)
    requires Inv(s) && Enabled(s, PublishSwap(c))
    ensures LocalTo(s, PublishSwapStep(s, c), c)
  {
    assert CpuInv(s, c);
  }

  lemma PublishSwapInv(s: Sys, c: nat)
    requires Inv(s) && Enabled(s, PublishSwap(c))
    ensures Inv(PublishSwapStep(s, c))
  {
    var s' := PublishSwapStep(s, c);
    PublishSwapLocal(s, c);
    forall d: nat ensures CpuInv(s', d) {
      if d == c { PublishSwapCpu(s, c); } else { OtherCpus(s, s', c, d); }
    }
    forall u: ThreadId ensures ThreadInv(s', u) && TransitInv(s', u) && ReapInv(s', u) {
      PublishSwapThread(s, c, u);
    }
  }

  lemma StillCurrentShrinks(s: Sys, ids: seq<ThreadId>)
    ensures forall t :: t in StillCurrent(s, ids) ==> t in ids
  {
  }

  lemma ReapInvKept(s: Sys)
    requires Inv(s)
    ensures Inv(ReapStep(s))
  {
    var s' := ReapStep(s);
    StillCurrentShrinks(s, s.reapable);
    forall d: nat ensures CpuInv(s', d) {
      assert CpuInv(s, d);
      forall t | t in s.threads && Live(s.threads[t]) ensures t in s'.threads { assert ReapInv(s, t); }
      if d < |s.cpus| {
        assert forall t :: t in s.threads && AtCpu(s.threads[t].place, d) ==> Live(s.threads[t]) by {
          forall t | t in s.threads ensures ThreadOk(s.threads[t], |s.cpus|) { assert ThreadInv(s, t); }
        }
        CpuKept(s.threads, s'.threads, |s.cpus|, d, s.cpus[d]);
      }
    }
    forall u: ThreadId ensures ThreadInv(s', u) && TransitInv(s', u) && ReapInv(s', u) {
      assert ThreadInv(s, u) && TransitInv(s, u) && ReapInv(s, u);
    }
  }

  /** A step panics exactly when an exiter gives up, for that reason, and otherwise keeps the invariant. */
  lemma StepInv(s: Sys, step: Step)
    requires Inv(s) && Enabled(s, step)
    ensures GivesUp(s, step).Some? ==> Exec(s, step) == Panic(GivesUp(s, step).value)
    ensures GivesUp(s, step).None? ==> Exec(s, step).Next? && Inv(Exec(s, step).s)
  {
    if IsOwnStep(step) {
      if GivesUp(s, step).None? { OwnStepInv(s, step); }
    } else {
      match step
      case Adopt(c) => AdoptInv(s, c);
      case Install(c) => InstallInv(s, c);
      case MarkOnline(c) => MarkOnlineInv(s, c);
      case Spawn(c, priority) => SpawnInv(s, c, priority);
      case PushTransit(c, id) => PushTransitInv(s, c, id);
      case Unpark(id) => UnparkInv(s, id);
      case Tick => TickInv(s);
      case TakeLocal(c) => TakeLocalInv(s, c);
      case TakeRemote(c, contended) => TakeRemoteInv(s, c, contended);
      case TakeLast(c) => TakeLastInv(s, c);
      case Commit(c) => CommitInv(s, c);
      case Switch(c) => SwitchInv(s, c);
      case PublishSwap(c) => PublishSwapInv(s, c);
      case PublishPush(c) => PublishPushInv(s, c);
      case Reap(_) => ReapInvKept(s);
      case _ =>
    }
  }

  /** Where in a run an exiter first gives up, if one does. */
  ghost function RunGivesUp(s: Sys, steps: seq<Step>): Option<Reason>
    requires IsRun(s, steps)
    decreases |steps|
  {
    if steps == [] then None
    else if GivesUp(s, steps[0]).Some? then GivesUp(s, steps[0])
    else if Exec(s, steps[0]).Panic? then None
    else RunGivesUp(Exec(s, steps[0]).s, steps[1..])
  }

  lemma {:induction false} RunInv(s: Sys, steps: seq<Step>)
    requires Inv(s) && IsRun(s, steps)
    ensures RunGivesUp(s, steps).Some? ==> After(s, steps) == Panic(RunGivesUp(s, steps).value)
    ensures RunGivesUp(s, steps).None? ==> After(s, steps).Next? && Inv(After(s, steps).s)
    decreases |steps|
  {
    if steps != [] {
      StepInv(s, steps[0]);
      if GivesUp(s, steps[0]).None? { RunInv(Exec(s, steps[0]).s, steps[1..]); }
    }
  }
}
