/** What the state recorded for a thread means, in every state a run can reach. */
module SchedStates {
  import opened Wrappers
  import opened RunQueues
  import opened SchedSpec
  import opened SchedInv
  import opened SchedTheorems

  /** Blocked just while parked; ready wherever it waits to run; running only on a processor. */
  predicate StateOk(th: Thread) {
    th.state == Exited || (
      && (th.state == Blocked <==> th.park.parked)
      && (th.place.Queued? || th.place.Taken? || th.place.InTransit? || th.place.Leaving? ==> th.state == Ready)
      && (th.place.HandedOff? || th.place.Nowhere? ==> th.state != Running)
      && (th.state == Running ==> th.place.OnCpu? || th.place.Booting?))
  }

  predicate StateAt(s: Sys, t: ThreadId) {
    t in s.threads ==> StateOk(s.threads[t])
  }

  ghost predicate States(s: Sys) {
    Inv(s) && forall t: ThreadId {:trigger StateAt(s, t)} :: StateAt(s, t)
  }

  lemma ParksState(s: Sys, step: Step, t: ThreadId)
    requires States(s) && Enabled(s, step) && Exec(s, step).Next? && MovesPoint(step)
    ensures StateAt(Exec(s, step).s, t)
  {
    assert StateAt(s, t) && ThreadInv(s, t);
    assert CpuInv(s, step.c);
  }

  lemma TakesOwnState(s: Sys, c: nat, last: bool, t: ThreadId)
    requires States(s) && Enabled(s, if last then TakeLast(c) else TakeLocal(c))
    ensures StateAt(if last then TakeLastStep(s, c) else TakeLocalStep(s, c), t)
  {
    assert StateAt(s, t) && ThreadInv(s, t) && CpuInv(s, c);
    PopTakes(s.cpus[c].queue);
  }

  lemma StealsState(s: Sys, c: nat, contended: bool, t: ThreadId)
    requires States(s) && Enabled(s, TakeRemote(c, contended))
    ensures StateAt(TakeRemoteStep(s, c, contended), t)
  {
    var v := s.cpus[c].pc.victim;
    assert StateAt(s, t) && ThreadInv(s, t) && CpuInv(s, v);
    StealTakes(s.cpus[v].queue);
  }

  lemma WaitsState(s: Sys, step: Step, t: ThreadId)
    requires States(s) && Enabled(s, step) && (step.Yield? || step.Reap? || step.MarkOnline? || step.Tick?)
    ensures Exec(s, step).Next? && StateAt(Exec(s, step).s, t)
  {
    assert StateAt(s, t);
  }

  lemma TakesState(s: Sys, step: Step, t: ThreadId)
    requires States(s) && Enabled(s, step) && TakesOrWaits(step)
    ensures Exec(s, step).Next? && StateAt(Exec(s, step).s, t)
  {
    match step
    case TakeLocal(c) => TakesOwnState(s, c, false, t);
    case TakeLast(c) => TakesOwnState(s, c, true, t);
    case TakeRemote(c, contended) => StealsState(s, c, contended, t);
    case _ => WaitsState(s, step, t);
  }

  lemma CommitState(s: Sys, c: nat, t: ThreadId)
    requires States(s) && Enabled(s, Commit(c)) && CommitStep(s, c).Next?
    ensures StateAt(CommitStep(s, c).s, t)
  {
    assert StateAt(s, t) && ThreadInv(s, t) && CpuInv(s, c);
    assert StateAt(s, s.cpus[c].current.value) && StateAt(s, s.cpus[c].pc.next);
    assert ThreadInv(s, s.cpus[c].pc.next);
  }

  lemma SwitchesState(s: Sys, step: Step, t: ThreadId)
    requires States(s) && Enabled(s, step) && (step.Switch? || step.PublishSwap? || step.PublishPush?)
    ensures Exec(s, step).Next? && StateAt(Exec(s, step).s, t)
  {
    assert StateAt(s, t) && ThreadInv(s, t) && CpuInv(s, step.c);
  }

  lemma ArrivalsState(s: Sys, step: Step, t: ThreadId)
    requires States(s) && Enabled(s, step)
    requires step.Adopt? || step.Install? || step.Spawn? || step.PushTransit?
    ensures Exec(s, step).Next? && StateAt(Exec(s, step).s, t)
  {
    assert StateAt(s, t) && ThreadInv(s, t) && CpuInv(s, step.c);
    if step.PushTransit? { assert TransitInv(s, step.id) && StateAt(s, step.id); }
  }

  lemma WakeState(s: Sys, u: ThreadId, t: ThreadId)
    requires States(s)
    ensures StateAt(UnparkStep(s, u), t)
  {
    assert StateAt(s, t) && ThreadInv(s, t);
  }

  lemma StatesStep(s: Sys, step: Step)
    requires States(s) && Enabled(s, step) && Exec(s, step).Next?
    ensures States(Exec(s, step).s)
  {
    StepInv(s, step);
    var s' := Exec(s, step).s;
    forall t: ThreadId ensures StateAt(s', t) {
      if MovesPoint(step) {
        ParksState(s, step, t);
      } else if TakesOrWaits(step) {
        TakesState(s, step, t);
      } else if step.Commit? {
        CommitState(s, step.c, t);
      } else if step.Unpark? {
        WakeState(s, step.id, t);
      } else if step.Switch? || step.PublishSwap? || step.PublishPush? {
        SwitchesState(s, step, t);
      } else {
        ArrivalsState(s, step, t);
      }
    }
  }

  lemma {:induction false} StatesRun(s: Sys, steps: seq<Step>)
    requires States(s) && IsRun(s, steps) && After(s, steps).Next?
    ensures States(After(s, steps).s)
    decreases |steps|
  {
    if steps != [] {
      StatesStep(s, steps[0]);
      StatesRun(Exec(s, steps[0]).s, steps[1..]);
    }
  }

  /**
   In every run, a live thread is recorded as blocked exactly while it is parked, as ready
   wherever it waits for a processor, and as running only where it runs.
   */
  lemma StateMeansPlace(n: nat, s: Sys, t: ThreadId, p: Place)
    requires Reachable(n, s) && t in s.threads && s.threads[t].state != Exited
    ensures s.threads[t].state == Blocked <==> s.threads[t].park.parked
    ensures At(s, t, p) && (p.Queued? || p.Taken? || p.InTransit? || p.Leaving?) ==> s.threads[t].state == Ready
    ensures s.threads[t].state == Running ==> exists q :: At(s, t, q) && (q.OnCpu? || q.Booting?)
  {
    var steps :| IsRun(Initial(n), steps) && After(Initial(n), steps) == Next(s);
    InitialInv(n);
    StatesRun(Initial(n), steps);
    assert StateAt(s, t);
    PlaceIsWhereItWasPut(s, t, p);
    PlaceIsWhereItWasPut(s, t, s.threads[t].place);
  }

  // ---- Returns from `park` are paid for by wakes ----

  /** The wakes a thread has not used yet: one remembered, and one that the park it is in will see. */
  function Credit(s: Sys, t: ThreadId): nat {
    if t !in s.threads then 0
    else
      var th := s.threads[t];
      (if th.park.pending then 1 else 0)
        + (if !th.park.parked && (th.point == Committed || th.point == Returned || th.point == Halted) then 1 else 0)
  }

  /** How often the thread comes back from `park`. */
  ghost function ReturnCount(s: Sys, steps: seq<Step>, t: ThreadId): nat
    requires IsRun(s, steps)
    decreases |steps|
  {
    if steps == [] || Exec(s, steps[0]).Panic? then 0
    else
      (if Returns(s, Exec(s, steps[0]).s, t) then 1 else 0) + ReturnCount(Exec(s, steps[0]).s, steps[1..], t)
  }

  function Wakes(steps: seq<Step>, t: ThreadId): nat {
    if steps == [] then 0 else (if steps[0] == Unpark(t) then 1 else 0) + Wakes(steps[1..], t)
  }

  predicate Paid(s: Sys, s': Sys, t: ThreadId, wakes: nat) {
    (if Returns(s, s', t) then 1 else 0) + Credit(s', t) <= wakes + Credit(s, t)
  }

  lemma OwnPays(s: Sys, step: Step, t: ThreadId)
    requires Inv(s) && Enabled(s, step) && Exec(s, step).Next? && OwnParkStep(s, step, t)
    ensures Paid(s, Exec(s, step).s, t, 0)
  {
    assert ThreadInv(s, t);
  }

  lemma WakePays(s: Sys, t: ThreadId)
    requires Inv(s)
    ensures Paid(s, UnparkStep(s, t), t, 1)
  {
    assert ThreadInv(s, t);
  }

  lemma CreditStep(s: Sys, step: Step, t: ThreadId)
    requires Inv(s) && Enabled(s, step) && Exec(s, step).Next? && t < s.nextId
    ensures t < Exec(s, step).s.nextId && Paid(s, Exec(s, step).s, t, if step == Unpark(t) then 1 else 0)
  {
    if step == Unpark(t) {
      WakePays(s, t);
    } else if OwnParkStep(s, step, t) {
      OwnPays(s, step, t);
    } else {
      OthersLeaveParkAlone(s, step, t);
    }
  }

  /** Over every run: each return from `park` uses up a wake of its own. */
  lemma {:induction false} ReturnsArePaid(s: Sys, steps: seq<Step>, t: ThreadId)
    requires Inv(s) && IsRun(s, steps) && After(s, steps).Next? && t < s.nextId
    ensures ReturnCount(s, steps, t) + Credit(After(s, steps).s, t) <= Wakes(steps, t) + Credit(s, t)
    decreases |steps|
  {
    if steps != [] {
      StepInv(s, steps[0]);
      CreditStep(s, steps[0], t);
      ReturnsArePaid(Exec(s, steps[0]).s, steps[1..], t);
    }
  }

  // ---- What a thread keeps for life ----

  predicate SameLife(s: Sys, s': Sys, t: ThreadId) {
    && t < s'.nextId
    && (t in s'.threads ==>
          t in s.threads && s'.threads[t].priority == s.threads[t].priority && s'.threads[t].home == s.threads[t].home)
  }

  lemma ParksKeepLife(s: Sys, step: Step, t: ThreadId)
    requires Enabled(s, step) && Exec(s, step).Next? && t < s.nextId && MovesPoint(step)
    ensures SameLife(s, Exec(s, step).s, t)
  {
  }

  lemma TakesKeepLife(s: Sys, step: Step, t: ThreadId)
    requires Enabled(s, step) && Exec(s, step).Next? && t < s.nextId && TakesOrWaits(step)
    ensures SameLife(s, Exec(s, step).s, t)
  {
  }

  lemma SwitchesKeepLife(s: Sys, step: Step, t: ThreadId)
    requires Enabled(s, step) && Exec(s, step).Next? && t < s.nextId
    requires step.Commit? || step.Switch? || step.PublishSwap? || step.PublishPush?
    ensures SameLife(s, Exec(s, step).s, t)
  {
  }

  lemma ArrivalsKeepLife(s: Sys, step: Step, t: ThreadId)
    requires Enabled(s, step) && Exec(s, step).Next? && t < s.nextId
    requires step.Adopt? || step.Install? || step.Spawn? || step.PushTransit? || step.Unpark?
    ensures SameLife(s, Exec(s, step).s, t)
  {
  }

  lemma {:induction false} LifeRun(s: Sys, steps: seq<Step>, t: ThreadId)
    requires IsRun(s, steps) && After(s, steps).Next? && t < s.nextId
    ensures SameLife(s, After(s, steps).s, t)
    decreases |steps|
  {
    if steps != [] {
      var step := steps[0];
      if MovesPoint(step) {
        ParksKeepLife(s, step, t);
      } else if TakesOrWaits(step) {
        TakesKeepLife(s, step, t);
      } else if step.Commit? || step.Switch? || step.PublishSwap? || step.PublishPush? {
        SwitchesKeepLife(s, step, t);
      } else {
        ArrivalsKeepLife(s, step, t);
      }
      LifeRun(Exec(s, step).s, steps[1..], t);
    }
  }

  /**
   A thread spawned at a priority has it, and no home processor, as long as it is in the table,
   and is only ever queued in the band of that priority.
   */
  lemma SpawnedForLife(s: Sys, c: nat, priority: Priority, steps: seq<Step>, d: nat)
    requires Inv(s) && Enabled(s, Spawn(c, priority))
    requires IsRun(Exec(s, Spawn(c, priority)).s, steps) && After(Exec(s, Spawn(c, priority)).s, steps).Next?
    ensures var (t, s') := (s.nextId, After(Exec(s, Spawn(c, priority)).s, steps).s);
      && (t in s'.threads ==> s'.threads[t].priority == priority && s'.threads[t].home == None)
      && (d < |s'.cpus| && s'.cpus[d].queue.Contains(t) ==> t in s'.cpus[d].queue.Band(priority))
  {
    var s1 := Exec(s, Spawn(c, priority)).s;
    StepInv(s, Spawn(c, priority));
    LifeRun(s1, steps, s.nextId);
    RunInv(s1, steps);
    assert CpuInv(After(s1, steps).s, d);
  }

  // ---- No exited thread is forgotten ----

  predicate Listed(s: Sys, t: ThreadId) {
    t in s.threads && s.threads[t].state == Exited ==> t in s.reapable
  }

  lemma {:induction false} StillCurrentIs(s: Sys, ids: seq<ThreadId>, t: ThreadId)
    ensures t in StillCurrent(s, ids) <==> t in ids && CurrentAnywhere(s, t)
  {
    if ids != [] { StillCurrentIs(s, ids[1..], t); }
  }

  lemma ReapLists(s: Sys, t: ThreadId)
    requires Listed(s, t)
    ensures Listed(ReapStep(s), t)
    ensures t in ReapStep(s).threads <==> t in s.threads && !(t in s.reapable && !CurrentAnywhere(s, t))
  {
    StillCurrentIs(s, s.reapable, t);
  }

  /** Nobody exits and nobody is reaped. */
  predicate NoExits(s: Sys, s': Sys, t: ThreadId) {
    && s'.reapable == s.reapable
    && (t in s'.threads && s'.threads[t].state == Exited ==> t in s.threads && s.threads[t].state == Exited)
  }

  lemma ParksNoExits(s: Sys, step: Step, t: ThreadId)
    requires Enabled(s, step) && Exec(s, step).Next? && MovesPoint(step)
    ensures NoExits(s, Exec(s, step).s, t)
  {
  }

  lemma TakesNoExits(s: Sys, step: Step, t: ThreadId)
    requires Enabled(s, step) && Exec(s, step).Next? && TakesOrWaits(step) && !step.Reap?
    ensures NoExits(s, Exec(s, step).s, t)
  {
  }

  lemma SwitchesNoExits(s: Sys, step: Step, t: ThreadId)
    requires Enabled(s, step) && (step.Switch? || step.PublishSwap? || step.PublishPush? || step.Unpark?)
    ensures Exec(s, step).Next? && NoExits(s, Exec(s, step).s, t)
  {
  }

  lemma ArrivalsNoExits(s: Sys, step: Step, t: ThreadId)
    requires Enabled(s, step) && (step.Adopt? || step.Install? || step.Spawn? || step.PushTransit?)
    ensures Exec(s, step).Next? && NoExits(s, Exec(s, step).s, t)
  {
  }

  lemma CommitLists(s: Sys, c: nat, t: ThreadId)
    requires Inv(s) && Enabled(s, Commit(c)) && CommitStep(s, c).Next? && Listed(s, t)
    ensures Listed(CommitStep(s, c).s, t)
  {
    assert CpuInv(s, c);
  }

  lemma ListedStep(s: Sys, step: Step, t: ThreadId)
    requires Inv(s) && Enabled(s, step) && Exec(s, step).Next? && Listed(s, t)
    ensures Listed(Exec(s, step).s, t)
  {
    if step.Reap? {
      ReapLists(s, t);
    } else if step.Commit? {
      CommitLists(s, step.c, t);
    } else if MovesPoint(step) {
      ParksNoExits(s, step, t);
    } else if TakesOrWaits(step) {
      TakesNoExits(s, step, t);
    } else if step.Switch? || step.PublishSwap? || step.PublishPush? || step.Unpark? {
      SwitchesNoExits(s, step, t);
    } else {
      ArrivalsNoExits(s, step, t);
    }
  }

  lemma {:induction false} ListedRun(s: Sys, steps: seq<Step>, t: ThreadId)
    requires Inv(s) && IsRun(s, steps) && After(s, steps).Next? && Listed(s, t)
    ensures Listed(After(s, steps).s, t)
    decreases |steps|
  {
    if steps != [] {
      StepInv(s, steps[0]);
      ListedStep(s, steps[0], t);
      ListedRun(Exec(s, steps[0]).s, steps[1..], t);
    }
  }

  /** In every run, a reap frees exactly the exited threads that no processor has as current. */
  lemma ReapFreesExited(n: nat, s: Sys, t: ThreadId)
    requires Reachable(n, s) && t in s.threads
    ensures t !in ReapStep(s).threads <==> s.threads[t].state == Exited && !CurrentAnywhere(s, t)
  {
    var steps :| IsRun(Initial(n), steps) && After(Initial(n), steps) == Next(s);
    InitialInv(n);
    ListedRun(Initial(n), steps, t);
    ReachableInv(n, s);
    assert ReapInv(s, t);
    ReapLists(s, t);
  }

  // ---- The way round in `park` ----

  predicate GoesRound(th: Thread, th': Thread) {
    && (th'.point == Halted ==> th.point == Returned && th.park.parked)
    && (th'.point == Reparking ==> th.point == Halted && th.park.parked)
    && (th.point == Returned || th.point == Halted ==> (th'.point == Outside <==> !th.park.parked))
  }

  lemma OwnGoesRound(s: Sys, step: Step, t: ThreadId)
    requires Inv(s) && Enabled(s, step) && Exec(s, step).Next? && OwnParkStep(s, step, t) && t in s.threads
    ensures t in Exec(s, step).s.threads && GoesRound(s.threads[t], Exec(s, step).s.threads[t])
  {
    assert CpuInv(s, step.c);
  }

  /**
   Each step a thread takes towards parking again follows a look that found it parked: it is
   halted only after the first re-check did, and parks again only after the second did too.
   */
  lemma RechecksTwice(s: Sys, step: Step, t: ThreadId)
    requires Inv(s) && Enabled(s, step) && Exec(s, step).Next? && t < s.nextId
    requires t in Exec(s, step).s.threads && t in s.threads
    requires Exec(s, step).s.threads[t].point != s.threads[t].point
    ensures GoesRound(s.threads[t], Exec(s, step).s.threads[t])
  {
    if OwnParkStep(s, step, t) {
      OwnGoesRound(s, step, t);
    } else if step != Unpark(t) {
      OthersLeaveParkAlone(s, step, t);
    }
  }

  // ---- Processors ----

  predicate SameOnline(s: Sys, s': Sys, c: nat) {
    |s'.cpus| == |s.cpus| && (c < |s.cpus| && s.cpus[c].online ==> s'.cpus[c].online)
  }

  lemma ParksOnline(s: Sys, step: Step, c: nat)
    requires Enabled(s, step) && Exec(s, step).Next? && MovesPoint(step)
    ensures SameOnline(s, Exec(s, step).s, c)
  {
  }

  lemma TakesOnline(s: Sys, step: Step, c: nat)
    requires Enabled(s, step) && Exec(s, step).Next? && TakesOrWaits(step)
    ensures SameOnline(s, Exec(s, step).s, c)
  {
  }

  lemma SwitchesOnline(s: Sys, step: Step, c: nat)
    requires Enabled(s, step) && Exec(s, step).Next?
    requires step.Commit? || step.Switch? || step.PublishSwap? || step.PublishPush?
    ensures SameOnline(s, Exec(s, step).s, c)
  {
  }

  lemma PushOnline(s: Sys, d: nat, t: ThreadId, c: nat)
    requires d < |s.cpus| && t in s.transit
    ensures SameOnline(s, PushTransitStep(s, d, t), c)
  {
    var home := s.transit[t].home;
    var target := if home.Some? && home.value < |s.cpus| then home.value else d;
    assert target < |s.cpus|;
  }

  lemma ArrivalsOnline(s: Sys, step: Step, c: nat)
    requires Enabled(s, step) && (step.Adopt? || step.Install? || step.Spawn? || step.Unpark?)
    ensures Exec(s, step).Next? && SameOnline(s, Exec(s, step).s, c)
  {
  }

  lemma OnlineStep(s: Sys, step: Step, c: nat)
    requires Enabled(s, step) && Exec(s, step).Next?
    ensures SameOnline(s, Exec(s, step).s, c)
  {
    if MovesPoint(step) {
      ParksOnline(s, step, c);
    } else if TakesOrWaits(step) {
      TakesOnline(s, step, c);
    } else if step.Commit? || step.Switch? || step.PublishSwap? || step.PublishPush? {
      SwitchesOnline(s, step, c);
    } else if step.PushTransit? {
      PushOnline(s, step.c, step.id, c);
    } else {
      ArrivalsOnline(s, step, c);
    }
  }

  lemma {:induction false} OnlineRun(s: Sys, steps: seq<Step>, c: nat)
    requires IsRun(s, steps) && After(s, steps).Next? && c < |s.cpus| && s.cpus[c].online
    ensures c < |After(s, steps).s.cpus| && After(s, steps).s.cpus[c].online
    decreases |steps|
  {
    if steps != [] {
      OnlineStep(s, steps[0], c);
      OnlineRun(Exec(s, steps[0]).s, steps[1..], c);
    }
  }

  /** A processor that comes on line is on line in every later state, so its work can be stolen. */
  lemma OnlineForGood(s: Sys, c: nat, steps: seq<Step>)
    requires Enabled(s, MarkOnline(c)) && IsRun(Exec(s, MarkOnline(c)).s, steps)
    requires After(Exec(s, MarkOnline(c)).s, steps).Next?
    ensures var s' := After(Exec(s, MarkOnline(c)).s, steps).s; c < |s'.cpus| && s'.cpus[c].online
  {
    OnlineRun(Exec(s, MarkOnline(c)).s, steps, c);
  }
}
