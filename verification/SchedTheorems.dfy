/**
 What the scheduler promises over every run: one processor per stack, one place per
 thread, nobody stranded, wakes that are not lost, idle threads that stay home; and the
 two places where the code promises less, each with the exact condition.
 */
module SchedTheorems {
  import opened Wrappers
  import opened RunQueues
  import opened SchedSpec
  import opened SchedInv

  ghost predicate Reachable(n: nat, s: Sys) {
    exists steps :: IsRun(Initial(n), steps) && After(Initial(n), steps) == Next(s)
  }

  lemma ReachableInv(n: nat, s: Sys)
    requires Reachable(n, s)
    ensures Inv(s)
  {
    var steps :| IsRun(Initial(n), steps) && After(Initial(n), steps) == Next(s);
    InitialInv(n);
    RunInv(Initial(n), steps);
  }

  /** A run panics exactly when an exiter gives up in it, and for that reason; never for a broken table. */
  lemma RunPanicsExactly(n: nat, steps: seq<Step>)
    requires IsRun(Initial(n), steps)
    ensures After(Initial(n), steps).Panic? <==> RunGivesUp(Initial(n), steps).Some?
    ensures After(Initial(n), steps).Panic? ==> After(Initial(n), steps) == Panic(RunGivesUp(Initial(n), steps).value)
    ensures After(Initial(n), steps) != Panic(Broken)
  {
    InitialInv(n);
    RunInv(Initial(n), steps);
    NeverBroken(Initial(n), steps);
  }

  lemma {:induction false} NeverBroken(s: Sys, steps: seq<Step>)
    requires IsRun(s, steps)
    ensures RunGivesUp(s, steps) != Some(Broken)
    decreases |steps|
  {
    if steps != [] && Exec(s, steps[0]).Next? { NeverBroken(Exec(s, steps[0]).s, steps[1..]); }
  }

  /** A processor that runs code runs a live thread of the table, so no step is refused for want of one. */
  lemma RunningIsInTable(n: nat, s: Sys, c: nat)
    requires Reachable(n, s) && c < |s.cpus| && s.cpus[c].pc == Run
    ensures RunsThread(s, c) && Me(s, c).state != Exited
  {
    ReachableInv(n, s);
    assert CpuInv(s, c);
  }

  /** Where a thread is found, read off the state alone. */
  ghost predicate At(s: Sys, t: ThreadId, p: Place) {
    p != Nowhere && Found(s.cpus, s.transit, t, p)
  }

  /** The state alone agrees with the history about where every thread is. */
  lemma PlaceIsWhereItWasPut(s: Sys, t: ThreadId, p: Place)
    requires Inv(s)
    ensures At(s, t, p) <==> t in s.threads && s.threads[t].place == p != Nowhere
  {
    assert ThreadInv(s, t) && TransitInv(s, t);
    if !p.Nowhere? && !p.InTransit? { assert CpuInv(s, p.c); }
  }

  /**
   Every live thread is in exactly one place, or in none and then parked with its context
   saved; a thread that is queued, taken, in transit or leaving a handoff is not parked
   and its context is saved; an exited thread is nowhere.
   */
  lemma OnePlaceEach(n: nat, s: Sys, t: ThreadId, p: Place, q: Place)
    requires Reachable(n, s)
    ensures At(s, t, p) && At(s, t, q) ==> p == q
    ensures At(s, t, p) ==> t in s.threads && s.threads[t].state != Exited
    ensures t in s.threads && s.threads[t].state != Exited && (forall r :: !At(s, t, r)) ==>
      s.threads[t].park.parked && s.threads[t].saved
    ensures At(s, t, p) && (p.Queued? || p.Taken? || p.InTransit? || p.Leaving?) ==>
      !s.threads[t].park.parked && s.threads[t].saved
  {
    ReachableInv(n, s);
    assert ThreadInv(s, t);
    PlaceIsWhereItWasPut(s, t, p);
    PlaceIsWhereItWasPut(s, t, q);
    if t in s.threads { PlaceIsWhereItWasPut(s, t, s.threads[t].place); }
  }

  /** No two processors execute on one live thread's stack. */
  lemma OneProcessorPerStack(n: nat, s: Sys, c: nat, d: nat, t: ThreadId)
    requires Reachable(n, s)
    requires c < |s.cpus| && d < |s.cpus| && s.cpus[c].stack == s.cpus[d].stack == Some(t)
    requires t in s.threads && s.threads[t].state != Exited
    ensures c == d
  {
    ReachableInv(n, s);
    assert CpuInv(s, c) && CpuInv(s, d);
  }

  /** A pinned thread is queued, handed off, taken and run on its own processor only. */
  lemma IdleThreadsStayHome(n: nat, s: Sys, t: ThreadId, p: Place)
    requires Reachable(n, s) && t in s.threads && s.threads[t].home.Some? && At(s, t, p) && p != InTransit
    ensures p.c == s.threads[t].home.value
    ensures p.Queued? ==> t in s.cpus[p.c].queue.idle
  {
    ReachableInv(n, s);
    assert ThreadInv(s, t);
    PlaceIsWhereItWasPut(s, t, p);
    assert CpuInv(s, p.c);
  }

  // ---- Wakes ----

  /**
   A wake has reached this thread and has not been consumed: it is not parked, and either
   the wake is remembered or the next re-check of the park it interrupts will see it.
   */
  predicate Heeded(th: Thread) {
    !th.park.parked && (th.park.pending || th.point == Committed || th.point == Returned || th.point == Halted)
  }

  /** `t` arrives back from `park` in the step from `s` to `s'`. */
  predicate Returns(s: Sys, s': Sys, t: ThreadId) {
    t in s.threads && t in s'.threads && s.threads[t].point != Outside && s'.threads[t].point == Outside
  }

  predicate MovesPoint(step: Step) {
    || step.ParkEnter? || step.ParkLock? || step.ParkSchedule? || step.CheckReturned? || step.CheckHalted?
    || step.Exit? || step.CheckAlive? || step.CheckDeadline? || step.ExitAgain?
  }

  /** A step made by `t`'s own code in `park` or `exit_current`. */
  predicate OwnParkStep(s: Sys, step: Step, t: ThreadId) {
    && MovesPoint(step)
    && step.c < |s.cpus| && s.cpus[step.c].current == Some(t)
  }

  /** `t`, if it is still there, was there before, and its park state and point are as they were. */
  predicate ParkAlone(s: Sys, s': Sys, t: ThreadId) {
    && (t in s'.threads ==>
          t in s.threads && s'.threads[t].park == s.threads[t].park && s'.threads[t].point == s.threads[t].point)
    && (t < s.nextId ==> t < s'.nextId)
  }

  lemma ParksLeaveAlone(s: Sys, step: Step, t: ThreadId)
    requires Inv(s) && Enabled(s, step) && t < s.nextId && !OwnParkStep(s, step, t)
    requires MovesPoint(step) && Exec(s, step).Next?
    ensures ParkAlone(s, Exec(s, step).s, t)
  {
  }

  predicate TakesOrWaits(step: Step) {
    || step.TakeLocal? || step.TakeRemote? || step.TakeLast? || step.Yield? || step.Reap?
    || step.MarkOnline? || step.Tick?
  }

  lemma TakesLeaveAlone(s: Sys, step: Step, t: ThreadId)
    requires Inv(s) && Enabled(s, step) && t < s.nextId
    requires TakesOrWaits(step)
    ensures Exec(s, step).Next? && ParkAlone(s, Exec(s, step).s, t)
  {
  }

  lemma SwitchesLeaveAlone(s: Sys, step: Step, t: ThreadId)
    requires Inv(s) && Enabled(s, step) && t < s.nextId && Exec(s, step).Next?
    requires step.Commit? || step.Switch? || step.PublishSwap? || step.PublishPush?
    ensures ParkAlone(s, Exec(s, step).s, t)
  {
  }

  lemma ArrivalsLeaveAlone(s: Sys, step: Step, t: ThreadId)
    requires Inv(s) && Enabled(s, step) && t < s.nextId
    requires step.Adopt? || step.Install? || step.Spawn? || step.PushTransit? || (step.Unpark? && step.id != t)
    ensures Exec(s, step).Next? && ParkAlone(s, Exec(s, step).s, t)
  {
  }

  /** Only a thread's own steps and wakes that name it touch its park state or its point. */
  lemma OthersLeaveParkAlone(s: Sys, step: Step, t: ThreadId)
    requires Inv(s) && Enabled(s, step) && Exec(s, step).Next?
    requires !OwnParkStep(s, step, t) && step != Unpark(t) && t < s.nextId
    ensures ParkAlone(s, Exec(s, step).s, t)
  {
    if MovesPoint(step) {
      ParksLeaveAlone(s, step, t);
    } else if TakesOrWaits(step) {
      TakesLeaveAlone(s, step, t);
    } else if step.Commit? || step.Switch? || step.PublishSwap? || step.PublishPush? {
      SwitchesLeaveAlone(s, step, t);
    } else {
      ArrivalsLeaveAlone(s, step, t);
    }
  }

  /** The one place where a wake can land without being heeded: between the second re-check and the re-park. */
  predicate InReparkWindow(th: Thread) {
    th.park.parked && th.point == Reparking
  }

  /** A wake is heeded if and only if it does not land in the re-park window. */
  lemma WakeHeededExactly(s: Sys, t: ThreadId)
    requires Inv(s) && t in s.threads
    ensures t in UnparkStep(s, t).threads
    ensures Heeded(UnparkStep(s, t).threads[t]) <==> !InReparkWindow(s.threads[t])
  {
    assert ThreadInv(s, t);
  }

  lemma HeededStep(s: Sys, step: Step, t: ThreadId)
    requires Inv(s) && Enabled(s, step) && t < s.nextId && (t in s.threads ==> Heeded(s.threads[t]))
    requires Exec(s, step).Next?
    ensures Inv(Exec(s, step).s) && t < Exec(s, step).s.nextId
    ensures Returns(s, Exec(s, step).s, t) || (t in Exec(s, step).s.threads ==> Heeded(Exec(s, step).s.threads[t]))
  {
    StepInv(s, step);
    if !OwnParkStep(s, step, t) && step != Unpark(t) {
      OthersLeaveParkAlone(s, step, t);
    }
  }

  /** `t` never comes back from `park` during the run. */
  ghost predicate NeverReturns(s: Sys, steps: seq<Step>, t: ThreadId)
    requires IsRun(s, steps)
    decreases |steps|
  {
    steps == [] || Exec(s, steps[0]).Panic? || (
      && !Returns(s, Exec(s, steps[0]).s, t)
      && NeverReturns(Exec(s, steps[0]).s, steps[1..], t))
  }

  lemma {:induction false} HeededRun(s: Sys, steps: seq<Step>, t: ThreadId)
    requires Inv(s) && IsRun(s, steps) && NeverReturns(s, steps, t)
    requires t < s.nextId && (t in s.threads ==> Heeded(s.threads[t]))
    ensures After(s, steps).Next? && t in After(s, steps).s.threads ==> !After(s, steps).s.threads[t].park.parked
    decreases |steps|
  {
    if steps != [] && Exec(s, steps[0]).Next? {
      HeededStep(s, steps[0], t);
      HeededRun(Exec(s, steps[0]).s, steps[1..], t);
    }
  }

  /**
   No wakeup is lost outside the re-park window: whatever runs after the wake, the thread is
   never found parked before its call to `park` has returned. Being unparked, it is in
   some place (`OnePlaceEach`), so it is not stranded either.
   */
  lemma WakeIsHeeded(s: Sys, t: ThreadId, steps: seq<Step>)
    requires Inv(s) && t in s.threads && !InReparkWindow(s.threads[t])
    requires IsRun(UnparkStep(s, t), steps) && NeverReturns(UnparkStep(s, t), steps, t)
    ensures After(UnparkStep(s, t), steps).Next? && t in After(UnparkStep(s, t), steps).s.threads ==>
      !After(UnparkStep(s, t), steps).s.threads[t].park.parked
  {
    UnparkInv(s, t);
    assert ThreadInv(s, t);
    WakeHeededExactly(s, t);
    HeededRun(UnparkStep(s, t), steps, t);
  }

  /** No step of the run is a wake of `t` or `t`'s own progress through `park`. */
  ghost predicate Undisturbed(s: Sys, steps: seq<Step>, t: ThreadId)
    requires IsRun(s, steps)
    decreases |steps|
  {
    steps == [] || Exec(s, steps[0]).Panic? || (
      && steps[0] != Unpark(t) && !OwnParkStep(s, steps[0], t)
      && Undisturbed(Exec(s, steps[0]).s, steps[1..], t))
  }

  lemma {:induction false} ParkStays(s: Sys, steps: seq<Step>, t: ThreadId)
    requires Inv(s) && IsRun(s, steps) && Undisturbed(s, steps, t) && t in s.threads
    ensures After(s, steps).Next? ==> Inv(After(s, steps).s)
    ensures After(s, steps).Next? && t in After(s, steps).s.threads ==>
      && After(s, steps).s.threads[t].park == s.threads[t].park
      && After(s, steps).s.threads[t].point == s.threads[t].point
    decreases |steps|
  {
    if steps != [] && Exec(s, steps[0]).Next? {
      assert ThreadInv(s, t);
      StepInv(s, steps[0]);
      OthersLeaveParkAlone(s, steps[0], t);
      var s' := Exec(s, steps[0]).s;
      if t in s'.threads { ParkStays(s', steps[1..], t); } else { GoneForGood(s', steps[1..], t); }
    }
  }

  /** A thread id that has left the table never comes back: ids are not reused. */
  lemma {:induction false} GoneForGood(s: Sys, steps: seq<Step>, t: ThreadId)
    requires Inv(s) && IsRun(s, steps) && t < s.nextId && t !in s.threads
    ensures After(s, steps).Next? ==> Inv(After(s, steps).s) && t !in After(s, steps).s.threads
    decreases |steps|
  {
    if steps != [] && Exec(s, steps[0]).Next? {
      StepInv(s, steps[0]);
      assert t < Exec(s, steps[0]).s.nextId && t !in Exec(s, steps[0]).s.threads by {
        if steps[0] != Unpark(t) { GoneStep(s, steps[0], t); }
      }
      GoneForGood(Exec(s, steps[0]).s, steps[1..], t);
    }
  }

  lemma GoneStep(s: Sys, step: Step, t: ThreadId)
    requires Inv(s) && Enabled(s, step) && Exec(s, step).Next? && t < s.nextId && t !in s.threads
    ensures t < Exec(s, step).s.nextId && t !in Exec(s, step).s.threads
  {
    assert forall c :: 0 <= c < |s.cpus| ==> CpuInv(s, c);
  }

  /**
   A wake that lands in the re-park window is lost: whenever the thread next gets to run,
   its next step parks it again, with no wake remembered.
   */
  lemma WakeIsLost(s: Sys, t: ThreadId, steps: seq<Step>, c: nat)
    requires Inv(s) && t in s.threads && InReparkWindow(s.threads[t])
    requires IsRun(UnparkStep(s, t), steps) && Undisturbed(UnparkStep(s, t), steps, t)
    ensures After(UnparkStep(s, t), steps).Next? ==>
      var s' := After(UnparkStep(s, t), steps).s;
      RunsThread(s', c) && s'.cpus[c].current == Some(t) ==>
        && Enabled(s', ParkLock(c))
        && ParkLockStep(s', c).threads[t].park == ParkState(true, false)
  {
    UnparkInv(s, t);
    assert ThreadInv(s, t);
    ParkStays(UnparkStep(s, t), steps, t);
  }

  // ---- Reaping ----

  /**
   `reap` frees a stack that a processor still executes on if and only if that processor is
   inside the switch window of the exiting thread; every other corpse is safe to free.
   */
  lemma ReapFreesUsedStackExactly(s: Sys, t: ThreadId, c: nat)
    requires Inv(s) && t in Corpses(s) && c < |s.cpus|
    ensures s.cpus[c].stack == Some(t) <==> s.cpus[c].pc.Window? && s.cpus[c].pc.out == t
  {
    assert CpuInv(s, c) && ReapInv(s, t);
    assert s.cpus[c].current != Some(t);
  }

  // ---- A run that reaches the re-park window ----

  lemma {:induction false} RunAppend(s: Sys, steps: seq<Step>, step: Step)
    requires IsRun(s, steps) && After(s, steps).Next?
    requires Enabled(After(s, steps).s, step)
    ensures IsRun(s, steps + [step])
    ensures After(s, steps + [step]) == Exec(After(s, steps).s, step)
    decreases |steps|
  {
    if steps == [] {
      assert steps + [step] == [step];
    } else {
      assert (steps + [step])[1..] == steps[1..] + [step];
      RunAppend(Exec(s, steps[0]).s, steps[1..], step);
    }
  }

  lemma Extend(n: nat, s: Sys, step: Step) returns (s': Sys)
    requires Reachable(n, s) && Enabled(s, step) && Exec(s, step).Next?
    ensures Exec(s, step) == Next(s') && Reachable(n, s')
  {
    s' := Exec(s, step).s;
    var steps :| IsRun(Initial(n), steps) && After(Initial(n), steps) == Next(s);
    RunAppend(Initial(n), steps, step);
  }

  lemma Start(n: nat) returns (s: Sys)
    ensures s == Initial(n) && Reachable(n, s)
  {
    s := Initial(n);
    assert IsRun(s, []) && After(s, []) == Next(s);
  }

  /** One processor and its own thread. */
  function Alone(pc: Pc, parked: bool, point: Point, state: ThreadState): Sys {
    var th := Thread(ParkState(parked, false), point, state, Idle, Some(0), false, OnCpu(0));
    Sys(map[0 := th], 1, [], [Cpu(pc, Some(0), Some(0), false, Empty, 0, EmptyQueue)], map[], 0)
  }

  ghost predicate Leads(s: Sys, step: Step, s': Sys) {
    Enabled(s, step) && Exec(s, step) == Next(s')
  }

  lemma AloneStep(s: Sys, step: Step, s': Sys)
    requires Reachable(1, s) && Leads(s, step, s')
    ensures Reachable(1, s')
  {
    var _ := Extend(1, s, step);
  }

  lemma AloneAtHome()
    ensures Reachable(1, Alone(Run, false, Outside, Running))
  {
    var s := Start(1);
    s := Extend(1, s, Adopt(0));
    s := Extend(1, s, Install(0));
    assert s == Alone(Run, false, Outside, Running);
  }

  /** It parks, finds nothing to run, halts, and comes round to park again. */
  lemma AloneParks()
    ensures Leads(Alone(Run, false, Outside, Running), ParkEnter(0), Alone(Run, false, Entering, Running))
    ensures Leads(Alone(Run, false, Entering, Running), ParkLock(0), Alone(Run, true, Committed, Blocked))
    ensures Leads(Alone(Run, true, Committed, Blocked), ParkSchedule(0),
        Alone(Pc.Local(false), true, Returned, Blocked))
  {
  }

  lemma AloneFindsNothing()
    ensures Leads(Alone(Pc.Local(false), true, Returned, Blocked), TakeLocal(0),
        Alone(Remote(false, 0), true, Returned, Blocked))
    ensures Leads(Alone(Remote(false, 0), true, Returned, Blocked), TakeRemote(0, false),
        Alone(Last(false), true, Returned, Blocked))
    ensures Leads(Alone(Last(false), true, Returned, Blocked), TakeLast(0), Alone(Run, true, Returned, Blocked))
  {
  }

  lemma AloneHalts()
    ensures Leads(Alone(Run, true, Returned, Blocked), CheckReturned(0), Alone(Run, true, Halted, Blocked))
    ensures Leads(Alone(Run, true, Halted, Blocked), CheckHalted(0), Alone(Run, true, Reparking, Blocked))
  {
  }

  lemma AloneLoses()
    ensures UnparkStep(Alone(Run, true, Reparking, Blocked), 0) == Alone(Run, false, Reparking, Ready)
    ensures Leads(Alone(Run, false, Reparking, Ready), ParkLock(0), Alone(Run, true, Committed, Blocked))
  {
    assert Alone(Run, true, Reparking, Blocked).cpus[0].current == Some(0);
  }

  /** The re-park window is reachable, and a wake that lands there is lost: the thread parks on, nothing remembered. */
  lemma LostWakeIsReachable()
    ensures var before := Alone(Run, true, Reparking, Blocked);
      && Reachable(1, before) && InReparkWindow(before.threads[0])
      && Leads(UnparkStep(before, 0), ParkLock(0), Alone(Run, true, Committed, Blocked))
  {
    AloneAtHome();
    AloneParks();
    AloneStep(Alone(Run, false, Outside, Running), ParkEnter(0), Alone(Run, false, Entering, Running));
    AloneStep(Alone(Run, false, Entering, Running), ParkLock(0), Alone(Run, true, Committed, Blocked));
    AloneStep(Alone(Run, true, Committed, Blocked), ParkSchedule(0), Alone(Pc.Local(false), true, Returned, Blocked));
    AloneFindsNothing();
    AloneStep(Alone(Pc.Local(false), true, Returned, Blocked), TakeLocal(0),
        Alone(Remote(false, 0), true, Returned, Blocked));
    AloneStep(Alone(Remote(false, 0), true, Returned, Blocked), TakeRemote(0, false),
        Alone(Last(false), true, Returned, Blocked));
    AloneStep(Alone(Last(false), true, Returned, Blocked), TakeLast(0), Alone(Run, true, Returned, Blocked));
    AloneHalts();
    AloneStep(Alone(Run, true, Returned, Blocked), CheckReturned(0), Alone(Run, true, Halted, Blocked));
    AloneStep(Alone(Run, true, Halted, Blocked), CheckHalted(0), Alone(Run, true, Reparking, Blocked));
    AloneLoses();
  }
}
