/**
 Threads that exit: what keeps an exiting thread from giving up, the two ways it can, and
 the window in which another processor frees the stack it still stands on.
 */
module SchedExits {
  import opened Wrappers
  import opened RunQueues
  import opened SchedSpec
  import opened SchedInv
  import opened SchedTheorems

  // ---- Why an exit finds nothing to run ----

  /**
   A processor whose own idle thread is not the one running finds nothing to run only while
   that idle thread is parked, or a wake has taken it out and has not queued it yet.
   */
  lemma NothingToRunWhen(n: nat, s: Sys, c: nat, h: ThreadId)
    requires Reachable(n, s) && Enabled(s, TakeLast(c)) && Pop(s.cpus[c].queue).0.None?
    requires h in s.threads && s.threads[h].state != Exited && s.threads[h].home == Some(c)
    requires s.cpus[c].current != Some(h)
    ensures h in s.transit || (s.threads[h].park.parked && s.threads[h].saved && forall p :: !At(s, h, p))
  {
    ReachableInv(n, s);
    assert ThreadInv(s, h) && CpuInv(s, c);
    PopTakes(s.cpus[c].queue);
    forall p ensures s.threads[h].place == Nowhere ==> !At(s, h, p) {
      PlaceIsWhereItWasPut(s, h, p);
    }
  }

  /** `h` is alive and has not begun to exit. */
  predicate Stays(s: Sys, h: ThreadId) {
    h in s.threads && s.threads[h].state != Exited && !s.threads[h].point.Ending()
  }

  predicate IsExitOf(s: Sys, step: Step, h: ThreadId) {
    step.Exit? && step.c < |s.cpus| && s.cpus[step.c].current == Some(h)
  }

  lemma StaysInTable(s: Sys, step: Step, h: ThreadId)
    requires Inv(s) && Enabled(s, step) && Exec(s, step).Next? && Stays(s, h)
    ensures h in Exec(s, step).s.threads && h < s.nextId
  {
    assert ThreadInv(s, h) && ReapInv(s, h);
  }

  lemma StaysLive(s: Sys, step: Step, h: ThreadId)
    requires Inv(s) && Enabled(s, step) && Exec(s, step).Next? && Stays(s, h) && h in Exec(s, step).s.threads
    ensures Exec(s, step).s.threads[h].state != Exited
  {
    if step.Commit? { CommitKeepsLive(s, step.c, h); }
    else if MovesPoint(step) { OwnStepsKeepLive(s, step, h); }
  }

  lemma OwnStepsKeepLive(s: Sys, step: Step, h: ThreadId)
    requires MovesPoint(step) && Enabled(s, step) && Exec(s, step).Next? && Stays(s, h)
    ensures h in Exec(s, step).s.threads && Exec(s, step).s.threads[h].state != Exited
  {
  }

  lemma CommitKeepsLive(s: Sys, c: nat, h: ThreadId)
    requires Inv(s) && Enabled(s, Commit(c)) && CommitStep(s, c).Next? && Stays(s, h)
    ensures h in CommitStep(s, c).s.threads && CommitStep(s, c).s.threads[h].state != Exited
  {
    assert CpuInv(s, c);
  }

  lemma StaysStep(s: Sys, step: Step, h: ThreadId)
    requires Inv(s) && Enabled(s, step) && Exec(s, step).Next? && Stays(s, h) && !IsExitOf(s, step, h)
    ensures Stays(Exec(s, step).s, h)
  {
    StaysInTable(s, step, h);
    StaysLive(s, step, h);
    if !OwnParkStep(s, step, h) && step != Unpark(h) { OthersLeaveParkAlone(s, step, h); }
  }

  ghost predicate NeverExits(s: Sys, steps: seq<Step>, h: ThreadId)
    requires IsRun(s, steps)
    decreases |steps|
  {
    steps == [] || Exec(s, steps[0]).Panic? || (
      && !IsExitOf(s, steps[0], h)
      && NeverExits(Exec(s, steps[0]).s, steps[1..], h))
  }

  /** While one thread never exits, no run ends with the last thread gone. */
  lemma {:induction false} OneThreadSuffices(s: Sys, steps: seq<Step>, h: ThreadId)
    requires Inv(s) && IsRun(s, steps) && Stays(s, h) && NeverExits(s, steps, h)
    ensures After(s, steps) != Panic(NothingLeft)
    ensures After(s, steps).Next? ==> Stays(After(s, steps).s, h)
    decreases |steps|
  {
    if steps != [] {
      StepInv(s, steps[0]);
      assert GivesUp(s, steps[0]) != Some(NothingLeft);
      if Exec(s, steps[0]).Next? {
        StaysStep(s, steps[0], h);
        OneThreadSuffices(Exec(s, steps[0]).s, steps[1..], h);
      }
    }
  }

// ---- How long an exit waits ----

  /** `t`, while it is in the table, is exiting and will give up at tick `due`. */
  predicate ExitsBy(s: Sys, t: ThreadId, due: nat) {
    t < s.nextId && (t in s.threads ==> s.threads[t].point.Ending() && s.threads[t].point.deadline == due)
  }

  lemma ExitsByStep(s: Sys, step: Step, t: ThreadId, due: nat)
    requires Inv(s) && Enabled(s, step) && Exec(s, step).Next? && ExitsBy(s, t, due)
    ensures ExitsBy(Exec(s, step).s, t, due)
  {
    if !OwnParkStep(s, step, t) && step != Unpark(t) { OthersLeaveParkAlone(s, step, t); }
  }

  lemma {:induction false} ExitsByRun(s: Sys, steps: seq<Step>, t: ThreadId, due: nat)
    requires Inv(s) && IsRun(s, steps) && ExitsBy(s, t, due) && After(s, steps).Next?
    ensures ExitsBy(After(s, steps).s, t, due)
    decreases |steps|
  {
    if steps != [] {
      StepInv(s, steps[0]);
      ExitsByStep(s, steps[0], t, due);
      ExitsByRun(Exec(s, steps[0]).s, steps[1..], t, due);
    }
  }

  /** An exit that finds nothing to run gives up at a look at the clock exactly if 60,000 ticks have passed. */
  lemma ExitWaits(s: Sys, c: nat, steps: seq<Step>, d: nat)
    requires Inv(s) && Enabled(s, Exit(c)) && IsRun(Exec(s, Exit(c)).s, steps)
    requires After(Exec(s, Exit(c)).s, steps).Next? && Enabled(After(Exec(s, Exit(c)).s, steps).s, CheckDeadline(d))
    requires After(Exec(s, Exit(c)).s, steps).s.cpus[d].current == s.cpus[c].current
    ensures var s' := After(Exec(s, Exit(c)).s, steps).s;
      Exec(s', CheckDeadline(d)) == Panic(WaitedTooLong) <==> s'.ticks >= s.ticks + 60_000
  {
    var t := s.cpus[c].current.value;
    StepInv(s, Exit(c));
    assert ThreadInv(s, t);
    ExitsByRun(Exec(s, Exit(c)).s, steps, t, s.ticks + 60_000);
  }

  // ---- Runs that give up ----

  ghost predicate PanicReachable(n: nat, reason: Reason) {
    exists steps :: IsRun(Initial(n), steps) && After(Initial(n), steps) == Panic(reason)
  }

  lemma PanicsNext(n: nat, s: Sys, step: Step, reason: Reason)
    requires Reachable(n, s) && Enabled(s, step) && Exec(s, step) == Panic(reason)
    ensures PanicReachable(n, reason)
  {
    var steps :| IsRun(Initial(n), steps) && After(Initial(n), steps) == Next(s);
    RunAppend(Initial(n), steps, step);
  }

  lemma Then(n: nat, s: Sys, step: Step, s': Sys)
    requires Reachable(n, s) && Leads(s, step, s')
    ensures Reachable(n, s')
  {
    var _ := Extend(n, s, step);
  }

  /** One processor's only thread exits. */
  lemma LastThreadPanics()
    ensures PanicReachable(1, NothingLeft)
  {
    LastThreadExits(Dying(EXIT_WAIT_TICKS));
    PanicsNext(1, Alone(Run, false, Dying(EXIT_WAIT_TICKS), Running), CheckAlive(0), NothingLeft);
  }

  lemma LastThreadExits(dying: Point)
    requires dying == Dying(EXIT_WAIT_TICKS)
    ensures Reachable(1, Alone(Run, false, dying, Running))
  {
    AloneAtHome();
    AloneLeaves(dying);
    AloneLooks(dying);
    AloneFails(dying);
    AloneStep(Alone(Run, false, Outside, Running), Exit(0), Alone(Pc.Local(true), false, dying, Running));
    AloneStep(Alone(Pc.Local(true), false, dying, Running), TakeLocal(0),
        Alone(Remote(true, 0), false, dying, Running));
    AloneStep(Alone(Remote(true, 0), false, dying, Running), TakeRemote(0, false),
        Alone(Last(true), false, dying, Running));
    AloneStep(Alone(Last(true), false, dying, Running), TakeLast(0), Alone(Run, false, dying, Running));
  }

  lemma AloneLeaves(point: Point)
    requires point == Dying(EXIT_WAIT_TICKS)
    ensures Leads(Alone(Run, false, Outside, Running), Exit(0), Alone(Pc.Local(true), false, point, Running))
  {
  }

  lemma AloneLooks(point: Point)
    ensures Leads(Alone(Pc.Local(true), false, point, Running), TakeLocal(0),
        Alone(Remote(true, 0), false, point, Running))
    ensures Leads(Alone(Remote(true, 0), false, point, Running), TakeRemote(0, false),
        Alone(Last(true), false, point, Running))
  {
  }

  lemma AloneFails(point: Point)
    ensures Leads(Alone(Last(true), false, point, Running), TakeLast(0), Alone(Run, false, point, Running))
  {
  }

  function BootThread(c: nat, point: Point): Thread {
    Thread(ParkState(false, false), point, Running, Idle, Some(c), false, OnCpu(c))
  }

  function BootCpu(c: nat, pc: Pc): Cpu {
    Cpu(pc, Some(c), Some(c), false, Empty, 0, EmptyQueue)
  }

  /** Two processors, each with its own thread; the second only runs. */
  function Pair(pc: Pc, point: Point, ticks: nat): Sys {
    Sys(map[0 := BootThread(0, point), 1 := BootThread(1, Outside)], 2, [], [BootCpu(0, pc), BootCpu(1, Run)], map[],
        ticks)
  }

  /** The first processor has booted, the second not yet. */
  function HalfBooted(): Sys {
    Sys(map[0 := BootThread(0, Outside)], 1, [], [BootCpu(0, Run), BootCpu(1, Boot).(current := None, stack := None)],
        map[], 0)
  }

  lemma HalfBoots()
    ensures Reachable(2, HalfBooted())
  {
    var s := Start(2);
    s := Extend(2, s, Adopt(0));
    s := Extend(2, s, Install(0));
    assert s == HalfBooted();
  }

  function Adopted(): Sys {
    var t1 := BootThread(1, Outside).(place := Booting(1));
    Sys(map[0 := BootThread(0, Outside), 1 := t1], 2, [],
        [BootCpu(0, Run), BootCpu(1, Adopting(1)).(current := None)], map[], 0)
  }

  lemma SecondAdopts()
    ensures Leads(HalfBooted(), Adopt(1), Adopted())
  {
  }

  lemma SecondInstalls()
    ensures Leads(Adopted(), Install(1), Pair(Run, Outside, 0))
  {
  }

  lemma PairBoots()
    ensures Reachable(2, Pair(Run, Outside, 0))
  {
    HalfBoots();
    SecondAdopts();
    Then(2, HalfBooted(), Adopt(1), Adopted());
    SecondInstalls();
    Then(2, Adopted(), Install(1), Pair(Run, Outside, 0));
  }

  lemma PairLeaves(point: Point)
    requires point == Dying(EXIT_WAIT_TICKS)
    ensures Leads(Pair(Run, Outside, 0), Exit(0), Pair(Pc.Local(true), point, 0))
  {
  }

  lemma PairLooks(point: Point)
    ensures Leads(Pair(Pc.Local(true), point, 0), TakeLocal(0), Pair(Remote(true, 0), point, 0))
    ensures Leads(Pair(Remote(true, 0), point, 0), TakeRemote(0, false), Pair(Remote(true, 1), point, 0))
  {
  }

  lemma PairFindsNothing(point: Point)
    ensures Leads(Pair(Remote(true, 1), point, 0), TakeRemote(0, false), Pair(Last(true), point, 0))
    ensures Leads(Pair(Last(true), point, 0), TakeLast(0), Pair(Run, point, 0))
  {
  }

  lemma PairOutlived(deadline: nat)
    ensures Leads(Pair(Run, Dying(deadline), 0), CheckAlive(0), Pair(Run, Waiting(deadline), 0))
  {
    assert 1 in Pair(Run, Dying(deadline), 0).threads;
  }

  lemma PairExits()
    ensures Reachable(2, Pair(Run, Waiting(EXIT_WAIT_TICKS), 0))
  {
    PairBoots();
    var dying := Dying(EXIT_WAIT_TICKS);
    PairLeaves(dying);
    Then(2, Pair(Run, Outside, 0), Exit(0), Pair(Pc.Local(true), dying, 0));
    PairLooks(dying);
    Then(2, Pair(Pc.Local(true), dying, 0), TakeLocal(0), Pair(Remote(true, 0), dying, 0));
    Then(2, Pair(Remote(true, 0), dying, 0), TakeRemote(0, false), Pair(Remote(true, 1), dying, 0));
    PairFindsNothing(dying);
    Then(2, Pair(Remote(true, 1), dying, 0), TakeRemote(0, false), Pair(Last(true), dying, 0));
    Then(2, Pair(Last(true), dying, 0), TakeLast(0), Pair(Run, dying, 0));
    PairOutlived(EXIT_WAIT_TICKS);
    Then(2, Pair(Run, dying, 0), CheckAlive(0), Pair(Run, Waiting(EXIT_WAIT_TICKS), 0));
  }

  lemma {:induction false} PairWaits(k: nat)
    ensures Reachable(2, Pair(Run, Waiting(EXIT_WAIT_TICKS), k))
  {
    if k == 0 {
      PairExits();
    } else {
      PairWaits(k - 1);
      Then(2, Pair(Run, Waiting(EXIT_WAIT_TICKS), k - 1), Tick, Pair(Run, Waiting(EXIT_WAIT_TICKS), k));
    }
  }

  /** One processor's thread exits while the other's runs on: after enough ticks the exit is declared stuck. */
  lemma StuckExitPanics()
    ensures PanicReachable(2, WaitedTooLong)
  {
    PairWaits(EXIT_WAIT_TICKS);
    PanicsNext(2, Pair(Run, Waiting(EXIT_WAIT_TICKS), EXIT_WAIT_TICKS), CheckDeadline(0), WaitedTooLong);
  }

  // ---- A run that frees a stack in use ----

  /** The first processor's thread has spawned thread 2. */
  function Trio(t0: Thread, t2: Thread, k0: Cpu, reapable: seq<ThreadId>, transit: map<ThreadId, Wakeup>): Sys {
    Sys(map[0 := t0, 1 := BootThread(1, Outside), 2 := t2], 3, reapable, [k0, BootCpu(1, Run)], transit, 0)
  }

  function Spawned(state: ThreadState, place: Place): Thread {
    Thread(ParkState(false, false), Outside, state, Normal, None, true, place)
  }

  const OneQueued: RunQueue := Bands([], [2], [])

  /** The first processor is between the lock and the switch, away from its exited thread. */
  function MidExit(): Sys {
    Trio(BootThread(0, Dying(EXIT_WAIT_TICKS)).(state := Exited, place := Nowhere), Spawned(Running, OnCpu(0)),
         BootCpu(0, Window(0, 2)).(current := Some(2)), [0], map[])
  }

  function Fresh(): Sys {
    Trio(BootThread(0, Outside), Spawned(Ready, InTransit), BootCpu(0, Run), [], map[2 := Wakeup(Normal, None)])
  }

  /** Thread 2 is queued; the first processor's thread is at `point`. */
  function OneReady(pc: Pc, point: Point): Sys {
    Trio(BootThread(0, point), Spawned(Ready, Queued(0)), BootCpu(0, pc).(queue := OneQueued), [], map[])
  }

  function OneTaken(): Sys {
    Trio(BootThread(0, Dying(EXIT_WAIT_TICKS)), Spawned(Ready, Taken(0)), BootCpu(0, Chosen(true, 2)), [], map[])
  }

  lemma TrioSpawns()
    ensures Leads(Pair(Run, Outside, 0), Spawn(0, Normal), Fresh())
  {
  }

  lemma TrioQueues()
    ensures Leads(Fresh(), PushTransit(0, 2), OneReady(Run, Outside))
  {
    assert Push(EmptyQueue, 2, Normal) == OneQueued;
    assert Fresh().transit - {2} == map[];
  }

  lemma TrioLeaves()
    ensures Leads(OneReady(Run, Outside), Exit(0), OneReady(Pc.Local(true), Dying(EXIT_WAIT_TICKS)))
  {
  }

  lemma TrioTakes()
    ensures Leads(OneReady(Pc.Local(true), Dying(EXIT_WAIT_TICKS)), TakeLocal(0), OneTaken())
  {
    assert Pop(OneQueued) == (Some(2), EmptyQueue);
  }

  lemma TrioCommits()
    ensures Leads(OneTaken(), Commit(0), MidExit())
  {
  }

  lemma TrioExits()
    ensures Reachable(2, MidExit())
  {
    PairBoots();
    TrioSpawns();
    Then(2, Pair(Run, Outside, 0), Spawn(0, Normal), Fresh());
    TrioQueues();
    Then(2, Fresh(), PushTransit(0, 2), OneReady(Run, Outside));
    TrioLeaves();
    Then(2, OneReady(Run, Outside), Exit(0), OneReady(Pc.Local(true), Dying(EXIT_WAIT_TICKS)));
    TrioTakes();
    Then(2, OneReady(Pc.Local(true), Dying(EXIT_WAIT_TICKS)), TakeLocal(0), OneTaken());
    TrioCommits();
    Then(2, OneTaken(), Commit(0), MidExit());
  }

  /** A reap on the second processor frees the stack the first still stands on. */
  lemma ReapsStackInUse()
    ensures Reachable(2, MidExit()) && Enabled(MidExit(), Reap(1))
    ensures 0 in Corpses(MidExit()) && 0 !in ReapStep(MidExit()).threads
    ensures ReapStep(MidExit()).cpus[0].stack == Some(0)
  {
    TrioExits();
    var s := MidExit();
    assert !CurrentAnywhere(s, 0) by {
      assert s.cpus[0].current == Some(2) && s.cpus[1].current == Some(1);
    }
  }
}
