/**
 Threads blocked in `block_on` on a timer: the scheduler, the timer table and the tick
 counter interleaved. Reading the tick counter, registering, polling, parking, ticking,
 expiring and each unpark a tick owes are separate steps.
 */
module BlockOn {
  import opened Wrappers
  import opened RunQueues
  import opened SchedSpec
  import opened SchedInv
  import opened SchedTheorems
  import opened SchedExits
  import Timers

  /** Where a thread stands in `block_on(sleep_ticks(n))`. */
  datatype Phase =
    | Off
    | Computed(deadline: nat)                          // tick counter read, table not locked yet
    | Sleeping(sleep: Timers.Sleep, polled: bool)      // `polled`: the last poll said pending

  datatype World = World(
    sys: Sys,
    due: multiset<nat>,            // ticks counted whose expiry pass has not run yet
    table: Timers.Table,
    phase: map<ThreadId, Phase>,
    calls: multiset<ThreadId>)     // unparks an expiry pass has collected and still owes

  datatype WStep =
    | Sched(step: Step)
    | BeginSleep(c: nat, n: nat)
    | RegisterSleep(c: nat)
    | Poll(c: nat)
    | Abandon(c: nat)
    | TimerTick
    | ExpireTimers(now: nat)
    | Deliver(t: ThreadId)

  function InitialWorld(n: nat): World {
    World(Initial(n), multiset{}, Timers.EmptyTable(Timers.CAPACITY), map[], multiset{})
  }

  function PhaseOf(w: World, t: ThreadId): Phase {
    if t in w.phase then w.phase[t] else Off
  }

  function Mine(w: World, c: nat): Phase
    requires RunsThread(w.sys, c)
  {
    PhaseOf(w, w.sys.cpus[c].current.value)
  }

  /** A panic ends the machine, so no step that panics is one of these. */
  predicate WEnabled(w: World, step: WStep) {
    match step
    case Sched(step) =>
      && Enabled(w.sys, step) && Exec(w.sys, step).Next? && !step.Tick?
      && (step.ParkEnter? ==> Mine(w, step.c).Off? || (Mine(w, step.c).Sleeping? && Mine(w, step.c).polled))
      && (step.Exit? ==> Mine(w, step.c).Off?)
    case BeginSleep(c, _) => PointIs(w.sys, c, {Outside}) && Mine(w, c).Off?
    case RegisterSleep(c) => PointIs(w.sys, c, {Outside}) && Mine(w, c).Computed?
    case Poll(c) => PointIs(w.sys, c, {Outside}) && Mine(w, c).Sleeping? && !Mine(w, c).polled
    case Abandon(c) => PointIs(w.sys, c, {Outside}) && Mine(w, c).Sleeping? && !Mine(w, c).polled
    case TimerTick => true
    case ExpireTimers(now) => now in w.due
    case Deliver(t) => t in w.calls
  }

  function SetMine(w: World, c: nat, phase: Phase): World
    requires RunsThread(w.sys, c)
  {
    w.(phase := w.phase[w.sys.cpus[c].current.value := phase])
  }

  /** Coming back from `park` sends a sleeper to its next poll. */
  function Repolled(phase: map<ThreadId, Phase>, s: Sys, s': Sys): map<ThreadId, Phase> {
    map t | t in phase ::
      if Returns(s, s', t) && phase[t].Sleeping? then phase[t].(polled := false) else phase[t]
  }

  /** `try_sleep_ticks`, up to the lock: no slot is wanted for a deadline that is past. */
  function Begun(ticks: nat, n: nat): Phase {
    var deadline := if ticks + n > Timers.U64_MAX then Timers.U64_MAX else ticks + n;
    if deadline <= ticks then Sleeping(Timers.Sleep(deadline, None, 0), false) else Computed(deadline)
  }

  function WExec(w: World, step: WStep): World
    requires WEnabled(w, step)
  {
    match step
    case Sched(step) =>
      var s' := Exec(w.sys, step).s;
      w.(sys := s', phase := Repolled(w.phase, w.sys, s'))
    case BeginSleep(c, n) => SetMine(w, c, Begun(w.sys.ticks, n))
    case RegisterSleep(c) =>
      var (r, table) := Timers.Registered(w.table, Mine(w, c).deadline, w.sys.cpus[c].current.value);
      SetMine(w, c, if r.Ok? then Sleeping(r.value, false) else Off).(table := table)
    case Poll(c) =>
      var sleep := Mine(w, c).sleep;
      if w.sys.ticks >= sleep.deadline then SetMine(w, c, Off).(table := Timers.Dropped(w.table, sleep))
      else SetMine(w, c, Sleeping(sleep, true))
    case Abandon(c) => SetMine(w, c, Off).(table := Timers.Dropped(w.table, Mine(w, c).sleep))
    case TimerTick => w.(sys := w.sys.(ticks := w.sys.ticks + 1), due := w.due + multiset{w.sys.ticks + 1})
    case ExpireTimers(now) =>
      w.(due := w.due - multiset{now},
         table := w.table.(slots := Timers.Expired(w.table.slots, now)),
         calls := w.calls + multiset(Timers.Woken(w.table.slots, now)))
    case Deliver(t) => w.(sys := UnparkStep(w.sys, t), calls := w.calls - multiset{t})
  }

  // ---- The invariant ----

  /** `t`'s sleep still has its entry in the table. */
  predicate Entered(w: World, sleep: Timers.Sleep) {
    sleep.slot.Some? && sleep.generation in w.table.live && Timers.Holds(w.table, sleep.generation)
  }

  /** Something will still bring `t` back to its poll. */
  predicate Covered(w: World, t: ThreadId, sleep: Timers.Sleep) {
    Entered(w, sleep) || t in w.calls || (t in w.sys.threads ==> Heeded(w.sys.threads[t]))
  }

  predicate SleeperOk(w: World, t: ThreadId, sleep: Timers.Sleep) {
    && t < w.sys.nextId
    && (sleep.slot.Some? ==> sleep.generation in w.table.live && w.table.live[sleep.generation] == (sleep, t))
    && (Entered(w, sleep) || w.sys.ticks >= sleep.deadline)
  }

  predicate PhaseInv(w: World, t: ThreadId) {
    PhaseOf(w, t).Sleeping? ==> SleeperOk(w, t, PhaseOf(w, t).sleep)
  }

  /** A live sleep is the one its thread is in. */
  predicate LiveInv(w: World, g: nat) {
    g in w.table.live ==>
      PhaseOf(w, w.table.live[g].1).Sleeping? && PhaseOf(w, w.table.live[g].1).sleep == w.table.live[g].0
  }

  predicate CoverInv(w: World, t: ThreadId) {
    PhaseOf(w, t).Sleeping? && PhaseOf(w, t).polled ==> Covered(w, t, PhaseOf(w, t).sleep)
  }

  /** What every step keeps, one that loses a wake included. */
  ghost predicate WBase(w: World) {
    && Inv(w.sys)
    && Timers.Owned(w.table)
    && (forall now :: now in w.due ==> now <= w.sys.ticks)
    && (forall t {:trigger PhaseInv(w, t)} :: PhaseInv(w, t))
    && (forall g {:trigger LiveInv(w, g)} :: LiveInv(w, g))
  }

  ghost predicate WInv(w: World) {
    WBase(w) && forall t {:trigger CoverInv(w, t)} :: CoverInv(w, t)
  }

  /**
   The delivery that loses a wake: the last one owed to a sleeper whose entry is gone,
   landing in the scheduler's re-park window.
   */
  predicate LosesWake(w: World, step: WStep) {
    && step.Deliver? && step.t in w.sys.threads && InReparkWindow(w.sys.threads[step.t])
    && PhaseOf(w, step.t).Sleeping? && PhaseOf(w, step.t).polled
    && !Entered(w, PhaseOf(w, step.t).sleep) && w.calls[step.t] == 1
  }

  // ---- Each step keeps it ----

  lemma IdsGrow(s: Sys, step: Step)
    requires Inv(s) && Enabled(s, step) && Exec(s, step).Next?
    ensures s.nextId <= Exec(s, step).s.nextId
    ensures !step.Tick? ==> Exec(s, step).s.ticks == s.ticks
  {
  }

  lemma SchedBase(w: World, step: Step)
    requires WBase(w) && WEnabled(w, Sched(step))
    ensures WBase(WExec(w, Sched(step)))
  {
    StepInv(w.sys, step);
    IdsGrow(w.sys, step);
    var w' := WExec(w, Sched(step));
    forall t: ThreadId ensures PhaseInv(w', t) {
      assert PhaseInv(w, t);
    }
    forall g: nat ensures LiveInv(w', g) {
      assert LiveInv(w, g);
    }
  }

  lemma SchedCover(w: World, step: Step, t: ThreadId)
    requires WInv(w) && WEnabled(w, Sched(step))
    ensures CoverInv(WExec(w, Sched(step)), t)
  {
    assert PhaseInv(w, t) && CoverInv(w, t);
    if PhaseOf(w, t).Sleeping? && (t in w.sys.threads ==> Heeded(w.sys.threads[t])) {
      HeededStep(w.sys, step, t);
    }
    if PhaseOf(w, t).Sleeping? && t !in w.sys.threads { GoneStep(w.sys, step, t); }
  }

  /** One thread's phase changed, and no other thread's sleep was touched in the table. */
  ghost predicate OneChanged(w: World, w': World, me: ThreadId) {
    && w'.sys == w.sys && w'.due == w.due && w'.calls == w.calls
    && (forall t :: t != me ==> PhaseOf(w', t) == PhaseOf(w, t))
    && (forall g :: g in w.table.live && w.table.live[g].1 != me ==>
          && g in w'.table.live && w'.table.live[g] == w.table.live[g]
          && (Timers.Holds(w'.table, g) <==> Timers.Holds(w.table, g)))
    && (forall g :: g in w'.table.live && w'.table.live[g].1 != me ==>
          g in w.table.live && w.table.live[g] == w'.table.live[g])
  }

  lemma OneSleeperChanged(w: World, w': World, me: ThreadId)
    requires WBase(w) && OneChanged(w, w', me)
    requires Timers.Owned(w'.table) && PhaseInv(w', me)
    requires forall g :: g in w'.table.live && w'.table.live[g].1 == me ==> LiveInv(w', g)
    ensures WBase(w')
  {
    forall t: ThreadId ensures PhaseInv(w', t) {
      assert PhaseInv(w, t);
    }
    forall g: nat ensures LiveInv(w', g) {
      assert LiveInv(w, g);
    }
  }

  lemma OthersCovered(w: World, w': World, me: ThreadId, t: ThreadId)
    requires WInv(w) && OneChanged(w, w', me) && t != me
    ensures CoverInv(w', t)
  {
    assert PhaseInv(w, t) && CoverInv(w, t);
  }

  /** A thread that is not asleep has no live sleep. */
  lemma AwakeOwnsNone(w: World, t: ThreadId, g: nat)
    requires WBase(w) && !PhaseOf(w, t).Sleeping? && g in w.table.live
    ensures w.table.live[g].1 != t
  {
    assert LiveInv(w, g);
  }

  lemma BeginBase(w: World, c: nat, n: nat)
    requires WBase(w) && WEnabled(w, BeginSleep(c, n))
    ensures WBase(WExec(w, BeginSleep(c, n)))
    ensures OneChanged(w, WExec(w, BeginSleep(c, n)), w.sys.cpus[c].current.value)
  {
    var me := w.sys.cpus[c].current.value;
    assert ThreadInv(w.sys, me);
    forall g | g in w.table.live ensures w.table.live[g].1 != me { AwakeOwnsNone(w, me, g); }
    OneSleeperChanged(w, WExec(w, BeginSleep(c, n)), me);
  }

  lemma RegisterBase(w: World, c: nat)
    requires WBase(w) && WEnabled(w, RegisterSleep(c))
    ensures WBase(WExec(w, RegisterSleep(c)))
    ensures OneChanged(w, WExec(w, RegisterSleep(c)), w.sys.cpus[c].current.value)
  {
    var me := w.sys.cpus[c].current.value;
    assert ThreadInv(w.sys, me);
    Timers.RegisteredOwned(w.table, Mine(w, c).deadline, me);
    forall g | g in w.table.live ensures w.table.live[g].1 != me { AwakeOwnsNone(w, me, g); }
    OneSleeperChanged(w, WExec(w, RegisterSleep(c)), me);
  }

  /** The table after a sleep of `me` is dropped holds nothing of `me`. */
  lemma DropLeavesNone(w: World, me: ThreadId, sleep: Timers.Sleep)
    requires WBase(w) && PhaseOf(w, me).Sleeping? && PhaseOf(w, me).sleep == sleep
    ensures var T' := Timers.Dropped(w.table, sleep);
      && Timers.Owned(T') && (forall g :: g in T'.live ==> T'.live[g].1 != me)
      && (forall g :: g in w.table.live && w.table.live[g].1 != me ==>
            g in T'.live && T'.live[g] == w.table.live[g] && (Timers.Holds(T', g) <==> Timers.Holds(w.table, g)))
      && (forall g :: g in T'.live ==> g in w.table.live && w.table.live[g] == T'.live[g])
  {
    assert PhaseInv(w, me);
    if sleep.slot.Some? { Timers.DroppedOwned(w.table, sleep.generation); }
    var T' := Timers.Dropped(w.table, sleep);
    forall g | g in T'.live ensures T'.live[g].1 != me { assert LiveInv(w, g); }
  }

  lemma DropBase(w: World, step: WStep)
    requires WBase(w) && WEnabled(w, step) && (step.Poll? || step.Abandon?)
    ensures WBase(WExec(w, step)) && OneChanged(w, WExec(w, step), w.sys.cpus[step.c].current.value)
  {
    var me := w.sys.cpus[step.c].current.value;
    var w' := WExec(w, step);
    assert PhaseInv(w, me);
    if PhaseOf(w', me) == Off {
      DropLeavesNone(w, me, Mine(w, step.c).sleep);
    } else {
      forall g | g in w'.table.live && w'.table.live[g].1 == me ensures LiveInv(w', g) { assert LiveInv(w, g); }
    }
    OneSleeperChanged(w, w', me);
  }

  /** A poll that says pending found its entry in the table. */
  lemma PolledIsCovered(w: World, step: WStep)
    requires WBase(w) && WEnabled(w, step) && (step.Poll? || step.Abandon?)
    ensures CoverInv(WExec(w, step), w.sys.cpus[step.c].current.value)
  {
    assert PhaseInv(w, w.sys.cpus[step.c].current.value);
  }

  lemma TickBase(w: World)
    requires WBase(w)
    ensures WBase(WExec(w, TimerTick))
  {
    var w' := WExec(w, TimerTick);
    TickInv(w.sys);
    forall t: ThreadId ensures PhaseInv(w', t) {
      assert PhaseInv(w, t);
    }
    forall g: nat ensures LiveInv(w', g) {
      assert LiveInv(w, g);
    }
  }

  lemma ExpireBase(w: World, now: nat)
    requires WBase(w) && WEnabled(w, ExpireTimers(now))
    ensures WBase(WExec(w, ExpireTimers(now)))
  {
    var w' := WExec(w, ExpireTimers(now));
    Timers.ExpiredOwned(w.table, now);
    forall t: ThreadId ensures PhaseInv(w', t) {
      assert PhaseInv(w, t);
    }
    forall g: nat ensures LiveInv(w', g) {
      assert LiveInv(w, g);
    }
  }

  lemma ExpireCover(w: World, now: nat, t: ThreadId)
    requires WInv(w) && WEnabled(w, ExpireTimers(now))
    ensures CoverInv(WExec(w, ExpireTimers(now)), t)
  {
    Timers.ExpiredOwned(w.table, now);
    assert PhaseInv(w, t) && CoverInv(w, t);
  }

  lemma DeliverBase(w: World, t: ThreadId)
    requires WBase(w) && WEnabled(w, Deliver(t))
    ensures WBase(WExec(w, Deliver(t)))
  {
    var w' := WExec(w, Deliver(t));
    UnparkInv(w.sys, t);
    forall u: ThreadId ensures PhaseInv(w', u) {
      assert PhaseInv(w, u);
    }
    forall g: nat ensures LiveInv(w', g) {
      assert LiveInv(w, g);
    }
  }

  lemma DeliverCover(w: World, t: ThreadId, u: ThreadId)
    requires WInv(w) && WEnabled(w, Deliver(t)) && !LosesWake(w, Deliver(t))
    ensures CoverInv(WExec(w, Deliver(t)), u)
  {
    assert PhaseInv(w, u) && CoverInv(w, u);
    if u == t && t in w.sys.threads { WakeHeededExactly(w.sys, t); }
  }

  lemma WStepBase(w: World, step: WStep)
    requires WBase(w) && WEnabled(w, step)
    ensures WBase(WExec(w, step))
  {
    match step
    case Sched(step) => SchedBase(w, step);
    case TimerTick => TickBase(w);
    case ExpireTimers(now) => ExpireBase(w, now);
    case Deliver(t) => DeliverBase(w, t);
    case BeginSleep(c, n) => BeginBase(w, c, n);
    case RegisterSleep(c) => RegisterBase(w, c);
    case _ => DropBase(w, step);
  }

  /** A step of a running thread leaves every sleeper covered. */
  lemma OwnCover(w: World, step: WStep, t: ThreadId)
    requires WInv(w) && WEnabled(w, step)
    requires step.BeginSleep? || step.RegisterSleep? || step.Poll? || step.Abandon?
    ensures CoverInv(WExec(w, step), t)
  {
    var me := w.sys.cpus[step.c].current.value;
    match step {
      case BeginSleep(c, n) => BeginBase(w, c, n);
      case RegisterSleep(c) => RegisterBase(w, c);
      case _ => DropBase(w, step); PolledIsCovered(w, step);
    }
    if t != me { OthersCovered(w, WExec(w, step), me, t); }
  }

  /** Every step that does not lose a wake keeps the invariant. */
  lemma WStepInv(w: World, step: WStep)
    requires WInv(w) && WEnabled(w, step) && !LosesWake(w, step)
    ensures WInv(WExec(w, step))
  {
    WStepBase(w, step);
    forall t: ThreadId ensures CoverInv(WExec(w, step), t) {
      match step
      case Sched(step) => SchedCover(w, step, t);
      case TimerTick => assert CoverInv(w, t);
      case ExpireTimers(now) => ExpireCover(w, now, t);
      case Deliver(u) => DeliverCover(w, u, t);
      case _ => OwnCover(w, step, t);
    }
  }

  /** The condition is exact: a step that loses a wake leaves its sleeper covered by nothing. */
  lemma LostWakeUncovers(w: World, t: ThreadId)
    requires WInv(w) && WEnabled(w, Deliver(t)) && LosesWake(w, Deliver(t))
    ensures !Covered(WExec(w, Deliver(t)), t, PhaseOf(w, t).sleep)
  {
    WakeHeededExactly(w.sys, t);
  }

  // ---- Runs ----

  ghost predicate WRun(w: World, steps: seq<WStep>)
    decreases |steps|
  {
    steps == [] || (WEnabled(w, steps[0]) && WRun(WExec(w, steps[0]), steps[1..]))
  }

  ghost function WAfter(w: World, steps: seq<WStep>): World
    requires WRun(w, steps)
    decreases |steps|
  {
    if steps == [] then w else WAfter(WExec(w, steps[0]), steps[1..])
  }

  ghost predicate LosesNone(w: World, steps: seq<WStep>)
    requires WRun(w, steps)
    decreases |steps|
  {
    steps == [] || (!LosesWake(w, steps[0]) && LosesNone(WExec(w, steps[0]), steps[1..]))
  }

  lemma {:induction false} WRunBase(w: World, steps: seq<WStep>)
    requires WBase(w) && WRun(w, steps)
    ensures WBase(WAfter(w, steps))
    decreases |steps|
  {
    if steps != [] {
      WStepBase(w, steps[0]);
      WRunBase(WExec(w, steps[0]), steps[1..]);
    }
  }

  lemma {:induction false} WRunInv(w: World, steps: seq<WStep>)
    requires WInv(w) && WRun(w, steps) && LosesNone(w, steps)
    ensures WInv(WAfter(w, steps))
    decreases |steps|
  {
    if steps != [] {
      WStepInv(w, steps[0]);
      WRunInv(WExec(w, steps[0]), steps[1..]);
    }
  }

  lemma InitialWInv(n: nat)
    ensures WInv(InitialWorld(n))
  {
    InitialInv(n);
    Timers.EmptyOwned(Timers.CAPACITY);
  }

  /**
   In every run that loses no wake, a sleeper found parked still has its timer in the table,
   or a tick has collected it and is about to unpark it.
   */
  lemma ParkedSleeperIsCovered(n: nat, steps: seq<WStep>, t: ThreadId)
    requires WRun(InitialWorld(n), steps) && LosesNone(InitialWorld(n), steps)
    ensures var w := WAfter(InitialWorld(n), steps);
      PhaseOf(w, t).Sleeping? && PhaseOf(w, t).polled && t in w.sys.threads && w.sys.threads[t].park.parked ==>
        Entered(w, PhaseOf(w, t).sleep) || t in w.calls
  {
    InitialWInv(n);
    WRunInv(InitialWorld(n), steps);
    assert CoverInv(WAfter(InitialWorld(n), steps), t);
  }

  /** In every run, once its timer has fired a sleeper's next poll is ready, and ends the sleep. */
  lemma FiredSleeperPollsReady(n: nat, steps: seq<WStep>, c: nat)
    requires WRun(InitialWorld(n), steps)
    requires WEnabled(WAfter(InitialWorld(n), steps), Poll(c))
    requires !Entered(WAfter(InitialWorld(n), steps), Mine(WAfter(InitialWorld(n), steps), c).sleep)
    ensures var w := WAfter(InitialWorld(n), steps); Mine(WExec(w, Poll(c)), c) == Off
  {
    InitialWInv(n);
    WRunBase(InitialWorld(n), steps);
    var w := WAfter(InitialWorld(n), steps);
    assert PhaseInv(w, w.sys.cpus[c].current.value);
  }

  // ---- What a lost wake leaves behind ----

  predicate NoEntry(table: Timers.Table, t: ThreadId) {
    forall i :: 0 <= i < |table.slots| && table.slots[i].Some? ==> table.slots[i].value.thread != t
  }

  /** `th` goes round in `park` with no wake remembered, and every re-check finds it parked. */
  predicate GoesRound(th: Thread) {
    && !th.park.pending
    && (th.point == Reparking ||
        (th.park.parked && (th.point == Committed || th.point == Returned || th.point == Halted)))
  }

  /** `t` sleeps on, parked, and nothing in the timer table or on its way will wake it. */
  predicate Forsaken(w: World, t: ThreadId) {
    && Stays(w.sys, t) && GoesRound(w.sys.threads[t])
    && PhaseOf(w, t).Sleeping? && PhaseOf(w, t).polled
    && t !in w.calls && NoEntry(w.table, t)
  }

  lemma LostWakeForsakes(w: World, t: ThreadId)
    requires WBase(w) && WEnabled(w, Deliver(t)) && LosesWake(w, Deliver(t))
    ensures WBase(WExec(w, Deliver(t))) && Forsaken(WExec(w, Deliver(t)), t)
  {
    DeliverBase(w, t);
    assert ThreadInv(w.sys, t);
    forall i | 0 <= i < |w.table.slots| && w.table.slots[i].Some? ensures w.table.slots[i].value.thread != t {
      var g := w.table.slots[i].value.generation;
      assert Timers.Holds(w.table, g);
      assert LiveInv(w, g);
    }
  }

  lemma RoundStep(s: Sys, step: Step, t: ThreadId)
    requires Inv(s) && Enabled(s, step) && Exec(s, step).Next? && step != Unpark(t)
    requires Stays(s, t) && GoesRound(s.threads[t])
    ensures Stays(Exec(s, step).s, t) && GoesRound(Exec(s, step).s.threads[t])
  {
    StaysStep(s, step, t);
    assert ThreadInv(s, t);
    if !OwnParkStep(s, step, t) { OthersLeaveParkAlone(s, step, t); }
  }

  lemma RoundDelivery(s: Sys, u: ThreadId, t: ThreadId)
    requires Inv(s) && u != t && Stays(s, t) && GoesRound(s.threads[t])
    ensures Stays(UnparkStep(s, u), t) && GoesRound(UnparkStep(s, u).threads[t])
  {
    assert Enabled(s, Unpark(u));
    RoundStep(s, Unpark(u), t);
  }

  lemma NoEntryExpires(slots: Timers.Slots, now: nat, t: ThreadId)
    requires forall i :: 0 <= i < |slots| && slots[i].Some? ==> slots[i].value.thread != t
    ensures t !in Timers.Woken(slots, now)
  {
    Timers.WokenExactly(slots, now);
  }

  /** A running thread's own step takes no slot for, and polls for, nobody but itself. */
  lemma ForsakenOwn(w: World, step: WStep, t: ThreadId)
    requires WEnabled(w, step) && Forsaken(w, t)
    requires step.BeginSleep? || step.RegisterSleep? || step.Poll? || step.Abandon?
    ensures Forsaken(WExec(w, step), t) && PhaseOf(WExec(w, step), t) == PhaseOf(w, t)
  {
  }

  lemma ForsakenSched(w: World, step: Step, t: ThreadId)
    requires WBase(w) && WEnabled(w, Sched(step)) && step != Unpark(t) && Forsaken(w, t)
    ensures Forsaken(WExec(w, Sched(step)), t) && PhaseOf(WExec(w, Sched(step)), t) == PhaseOf(w, t)
  {
    RoundStep(w.sys, step, t);
  }

  lemma ForsakenTimer(w: World, step: WStep, t: ThreadId)
    requires WBase(w) && WEnabled(w, step) && Forsaken(w, t)
    requires step.TimerTick? || step.ExpireTimers? || step.Deliver?
    ensures Forsaken(WExec(w, step), t) && PhaseOf(WExec(w, step), t) == PhaseOf(w, t)
  {
    if step.ExpireTimers? { NoEntryExpires(w.table.slots, step.now, t); }
    if step.Deliver? { RoundDelivery(w.sys, step.t, t); }
  }

  lemma ForsakenStep(w: World, step: WStep, t: ThreadId)
    requires WBase(w) && WEnabled(w, step) && step != Sched(Unpark(t)) && Forsaken(w, t)
    ensures WBase(WExec(w, step)) && Forsaken(WExec(w, step), t)
    ensures PhaseOf(WExec(w, step), t) == PhaseOf(w, t)
  {
    WStepBase(w, step);
    if step.Sched? { ForsakenSched(w, step.step, t); }
    else if step.TimerTick? || step.ExpireTimers? || step.Deliver? { ForsakenTimer(w, step, t); }
    else { ForsakenOwn(w, step, t); }
  }

  lemma {:induction false} ForsakenRun(w: World, steps: seq<WStep>, t: ThreadId)
    requires WBase(w) && Forsaken(w, t) && WRun(w, steps) && Sched(Unpark(t)) !in steps
    ensures Forsaken(WAfter(w, steps), t) && PhaseOf(WAfter(w, steps), t) == PhaseOf(w, t)
    decreases |steps|
  {
    if steps != [] {
      ForsakenStep(w, steps[0], t);
      ForsakenRun(WExec(w, steps[0]), steps[1..], t);
    }
  }

  /** `t` is in the table, parked at each re-check, nowhere at its poll, and owed nothing by the timer. */
  predicate SleepsOn(w: World, t: ThreadId, c: nat) {
    && t in w.sys.threads
    && (w.sys.threads[t].point == Returned || w.sys.threads[t].point == Halted ==> w.sys.threads[t].park.parked)
    && (WEnabled(w, Poll(c)) || WEnabled(w, Abandon(c)) ==> w.sys.cpus[c].current != Some(t))
    && !WEnabled(w, Deliver(t))
  }

  lemma ForsakenSleepsOn(w: World, t: ThreadId, c: nat)
    requires Forsaken(w, t)
    ensures SleepsOn(w, t, c)
  {
  }

  /**
   A sleep that has lost its wake never ends: whatever runs next, short of a wake for that
   thread from somewhere else, the thread is still in the same sleep and sleeps on.
   */
  lemma LostSleepNeverEnds(w: World, t: ThreadId, steps: seq<WStep>, c: nat)
    requires WBase(w) && WEnabled(w, Deliver(t)) && LosesWake(w, Deliver(t))
    requires WRun(WExec(w, Deliver(t)), steps) && Sched(Unpark(t)) !in steps
    ensures SleepsOn(WAfter(WExec(w, Deliver(t)), steps), t, c)
    ensures PhaseOf(WAfter(WExec(w, Deliver(t)), steps), t) == PhaseOf(w, t)
  {
    LostWakeForsakes(w, t);
    var w' := WExec(w, Deliver(t));
    assert PhaseOf(w', t) == PhaseOf(w, t);
    ForsakenRun(w', steps, t);
    ForsakenSleepsOn(WAfter(w', steps), t, c);
  }

  // ---- A run that loses a wake ----

  ghost predicate WReachable(n: nat, w: World) {
    exists steps :: WRun(InitialWorld(n), steps) && WAfter(InitialWorld(n), steps) == w
  }

  lemma {:induction false} WRunAppend(w: World, steps: seq<WStep>, step: WStep)
    requires WRun(w, steps) && WEnabled(WAfter(w, steps), step)
    ensures WRun(w, steps + [step]) && WAfter(w, steps + [step]) == WExec(WAfter(w, steps), step)
    decreases |steps|
  {
    if steps == [] {
      assert steps + [step] == [step];
    } else {
      assert (steps + [step])[1..] == steps[1..] + [step];
      WRunAppend(WExec(w, steps[0]), steps[1..], step);
    }
  }

  lemma SoThen(w: World, step: WStep, w': World)
    requires WReachable(1, w) && WEnabled(w, step) && WExec(w, step) == w'
    ensures WReachable(1, w')
  {
    var steps :| WRun(InitialWorld(1), steps) && WAfter(InitialWorld(1), steps) == w;
    WRunAppend(InitialWorld(1), steps, step);
  }

  lemma SchedThen(w: World, step: Step, w': World)
    requires WReachable(1, w) && WEnabled(w, Sched(step)) && WExec(w, Sched(step)) == w'
    ensures WReachable(1, w')
  {
    SoThen(w, Sched(step), w');
  }

  const FirstSleep := Timers.Sleep(1, Some(0), 0)

  function NoneTaken(): Timers.Slots { Timers.EmptyTable(Timers.CAPACITY).slots }

  function FirstTaken(): Timers.Slots { NoneTaken()[0 := Some(Timers.Timer(1, 0, 0))] }

  /** The lone thread has slept for one tick: its entry is in slot 0 until that tick expires it. */
  function Napping(s: Sys, fired: bool): World {
    World(s, multiset{}, Timers.Table(if fired then NoneTaken() else FirstTaken(), 1, map[0 := (FirstSleep, 0)]),
          map[0 := Sleeping(FirstSleep, true)], if fired then multiset{0} else multiset{})
  }

  /** A scheduler step that neither starts nor ends a park leaves the nap as it is. */
  lemma NapStep(s: Sys, step: Step, s': Sys, fired: bool)
    requires WReachable(1, Napping(s, fired)) && Leads(s, step, s') && !step.Exit? && !step.Tick?
    requires step.ParkEnter? ==> s.cpus[step.c].current == Some(0)
    requires !Returns(s, s', 0)
    ensures WReachable(1, Napping(s', fired))
  {
    var w, w' := Napping(s, fired), Napping(s', fired);
    assert Repolled(w.phase, s, s') == w.phase;
    SchedThen(w, step, w');
  }

  lemma Adopts()
    ensures WReachable(1, InitialWorld(1).(sys := AdoptStep(InitialWorld(1).sys, 0)))
  {
    var w := InitialWorld(1);
    assert WRun(w, []) && WAfter(w, []) == w;
    var s1 := AdoptStep(w.sys, 0);
    assert Repolled(w.phase, w.sys, s1) == w.phase;
    SoThen(w, Sched(Adopt(0)), w.(sys := s1));
  }

  lemma Boots()
    ensures WReachable(1, Awake(map[]))
  {
    Adopts();
    var w := InitialWorld(1);
    var s1 := AdoptStep(w.sys, 0);
    var s2 := InstallStep(s1, 0);
    assert s2 == Alone(Run, false, Outside, Running);
    assert Repolled(w.phase, s1, s2) == w.phase;
    SoThen(w.(sys := s1), Sched(Install(0)), w.(sys := s2));
  }

  /** The lone thread before its sleep is in the table. */
  function Awake(phase: map<ThreadId, Phase>): World {
    World(Alone(Run, false, Outside, Running), multiset{}, Timers.EmptyTable(Timers.CAPACITY), phase, multiset{})
  }

  lemma Begins()
    ensures WReachable(1, Awake(map[0 := Computed(1)]))
  {
    Boots();
    SoThen(Awake(map[]), BeginSleep(0, 1), Awake(map[0 := Computed(1)]));
  }

  lemma FallsAsleep()
    ensures WReachable(1, Napping(Alone(Run, false, Outside, Running), false))
  {
    Begins();
    Timers.FirstFreeIs(NoneTaken(), 0);
    var w := Napping(Alone(Run, false, Outside, Running), false);
    SoThen(Awake(map[0 := Computed(1)]), RegisterSleep(0), w.(phase := map[0 := Sleeping(FirstSleep, false)]));
    SoThen(w.(phase := map[0 := Sleeping(FirstSleep, false)]), Poll(0), w);
  }

  lemma FallsAsleepParked()
    ensures WReachable(1, Napping(Alone(Run, true, Halted, Blocked), false))
  {
    FallsAsleep();
    AloneParks();
    NapStep(Alone(Run, false, Outside, Running), ParkEnter(0), Alone(Run, false, Entering, Running), false);
    NapStep(Alone(Run, false, Entering, Running), ParkLock(0), Alone(Run, true, Committed, Blocked), false);
    NapStep(Alone(Run, true, Committed, Blocked), ParkSchedule(0), Alone(Pc.Local(false), true, Returned, Blocked),
        false);
    AloneFindsNothing();
    NapStep(Alone(Pc.Local(false), true, Returned, Blocked), TakeLocal(0),
        Alone(Remote(false, 0), true, Returned, Blocked), false);
    NapStep(Alone(Remote(false, 0), true, Returned, Blocked), TakeRemote(0, false),
        Alone(Last(false), true, Returned, Blocked), false);
    NapStep(Alone(Last(false), true, Returned, Blocked), TakeLast(0), Alone(Run, true, Returned, Blocked), false);
    AloneHalts();
    NapStep(Alone(Run, true, Returned, Blocked), CheckReturned(0), Alone(Run, true, Halted, Blocked), false);
  }

  /** `s` one tick later. */
  function Later(s: Sys): Sys {
    s.(ticks := 1)
  }

  /** The thread is on its way to park again when the timer interrupt comes. */
  function Ticked(): World {
    Napping(Later(Alone(Run, true, Reparking, Blocked)), false).(due := multiset{1})
  }

  lemma TimerTicks()
    ensures WReachable(1, Ticked())
  {
    FallsAsleepParked();
    AloneHalts();
    NapStep(Alone(Run, true, Halted, Blocked), CheckHalted(0), Alone(Run, true, Reparking, Blocked), false);
    SoThen(Napping(Alone(Run, true, Reparking, Blocked), false), TimerTick, Ticked());
  }

  lemma NoneDue(slots: Timers.Slots)
    requires forall i :: 0 <= i < |slots| ==> slots[i] == None
    ensures Timers.Woken(slots, 1) == []
  {
  }

  /** The one entry is due, its thread is woken and the table is left empty. */
  lemma OneDue()
    ensures Timers.Woken(FirstTaken(), 1) == [0] && Timers.Expired(FirstTaken(), 1) == NoneTaken()
  {
    NoneDue(FirstTaken()[1..]);
    assert Timers.Expired(FirstTaken(), 1) == NoneTaken();
  }

  /** What the expiry pass leaves, from the two things it computes. */
  lemma Fires(w: World, slots: Timers.Slots, woken: seq<ThreadId>)
    requires WEnabled(w, ExpireTimers(1)) && w.due == multiset{1} && w.calls == multiset{}
    requires Timers.Expired(w.table.slots, 1) == slots && Timers.Woken(w.table.slots, 1) == woken
    ensures WExec(w, ExpireTimers(1)) == w.(due := multiset{}, table := w.table.(slots := slots),
        calls := multiset(woken))
  {
  }

  /** That interrupt's expiry pass collects the thread; delivering the wake is all it has left to do. */
  lemma TimerFires()
    ensures WReachable(1, Napping(Later(Alone(Run, true, Reparking, Blocked)), true))
  {
    TimerTicks();
    OneDue();
    Fires(Ticked(), NoneTaken(), [0]);
    SoThen(Ticked(), ExpireTimers(1), Napping(Later(Alone(Run, true, Reparking, Blocked)), true));
  }

  /** A sleeper can be left so: the only wake its timer owed it lands in the re-park window. */
  lemma LostSleepIsReachable()
    ensures exists w :: WReachable(1, w) && WBase(w) && WEnabled(w, Deliver(0)) && LosesWake(w, Deliver(0))
  {
    TimerFires();
    var w := Napping(Later(Alone(Run, true, Reparking, Blocked)), true);
    var steps :| WRun(InitialWorld(1), steps) && WAfter(InitialWorld(1), steps) == w;
    InitialWInv(1);
    WRunBase(InitialWorld(1), steps);
    assert WEnabled(w, Deliver(0)) && LosesWake(w, Deliver(0));
  }
}
