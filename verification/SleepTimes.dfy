/** How long a sleep lasts: never less than was asked for, and no longer than its thread is kept from polling. */
module SleepTimes {
  import opened Wrappers
  import opened RunQueues
  import opened SchedSpec
  import opened SchedInv
  import opened SchedTheorems
  import opened BlockOn
  import Timers

  /** The tick a sleep of `n` ticks begun at tick `now` is due at; the counter has 64 bits. */
  function DueAt(now: nat, n: nat): nat {
    if now + n < 0x1_0000_0000_0000_0000 then now + n else 0xffff_ffff_ffff_ffff
  }

  /** `t` starts another sleep. */
  predicate Begins(w: World, step: WStep, t: ThreadId) {
    step.BeginSleep? && step.c < |w.sys.cpus| && w.sys.cpus[step.c].current == Some(t)
  }

  ghost predicate NeverBegins(w: World, steps: seq<WStep>, t: ThreadId)
    requires WRun(w, steps)
    decreases |steps|
  {
    steps == [] || (!Begins(w, steps[0], t) && NeverBegins(WExec(w, steps[0]), steps[1..], t))
  }

  /** Whatever sleep `t` is in is due at `due`. */
  predicate SleepsUntil(w: World, t: ThreadId, due: nat) {
    match PhaseOf(w, t)
    case Off => true
    case Computed(deadline) => deadline == due
    case Sleeping(sleep, _) => sleep.deadline == due
  }

  lemma SleepsUntilStep(w: World, step: WStep, t: ThreadId, due: nat)
    requires WEnabled(w, step) && !Begins(w, step, t) && SleepsUntil(w, t, due)
    ensures SleepsUntil(WExec(w, step), t, due)
  {
  }

  lemma {:induction false} SleepsUntilRun(w: World, steps: seq<WStep>, t: ThreadId, due: nat)
    requires WRun(w, steps) && NeverBegins(w, steps, t) && SleepsUntil(w, t, due)
    ensures SleepsUntil(WAfter(w, steps), t, due)
    decreases |steps|
  {
    if steps != [] {
      SleepsUntilStep(w, steps[0], t, due);
      SleepsUntilRun(WExec(w, steps[0]), steps[1..], t, due);
    }
  }

  /**
   A poll of a sleep of `n` ticks ends it if and only if the tick it was begun at is that far
   back, or the counter is at its end; whatever ran in between.
   */
  lemma SleepLasts(w: World, c: nat, n: nat, steps: seq<WStep>, d: nat)
    requires WEnabled(w, BeginSleep(c, n)) && WRun(WExec(w, BeginSleep(c, n)), steps)
    requires NeverBegins(WExec(w, BeginSleep(c, n)), steps, w.sys.cpus[c].current.value)
    requires WEnabled(WAfter(WExec(w, BeginSleep(c, n)), steps), Poll(d))
    requires WAfter(WExec(w, BeginSleep(c, n)), steps).sys.cpus[d].current == w.sys.cpus[c].current
    ensures var w' := WAfter(WExec(w, BeginSleep(c, n)), steps);
      Mine(WExec(w', Poll(d)), d) == Off <==> w'.sys.ticks >= DueAt(w.sys.ticks, n)
  {
    SleepsUntilRun(WExec(w, BeginSleep(c, n)), steps, w.sys.cpus[c].current.value, DueAt(w.sys.ticks, n));
  }

  // ---- Sleeps that are over when they begin ----

  lemma TicksGrow(w: World, step: WStep)
    requires WBase(w) && WEnabled(w, step)
    ensures w.sys.ticks <= WExec(w, step).sys.ticks
  {
    if step.Sched? { IdsGrow(w.sys, step.step); }
  }

  /** `t` is in no sleep, or in one that was due when it began. */
  predicate NeedsNoSlot(w: World, t: ThreadId) {
    PhaseOf(w, t).Off? || (PhaseOf(w, t).Sleeping? && PhaseOf(w, t).sleep.slot.None? &&
                           PhaseOf(w, t).sleep.deadline <= w.sys.ticks)
  }

  lemma NeedsNoSlotStep(w: World, step: WStep, t: ThreadId)
    requires WBase(w) && WEnabled(w, step) && !Begins(w, step, t) && NeedsNoSlot(w, t)
    ensures NeedsNoSlot(WExec(w, step), t)
  {
    TicksGrow(w, step);
  }

  lemma {:induction false} NeedsNoSlotRun(w: World, steps: seq<WStep>, t: ThreadId)
    requires WBase(w) && WRun(w, steps) && NeverBegins(w, steps, t) && NeedsNoSlot(w, t)
    ensures WBase(WAfter(w, steps)) && NeedsNoSlot(WAfter(w, steps), t)
    decreases |steps|
  {
    if steps != [] {
      WStepBase(w, steps[0]);
      NeedsNoSlotStep(w, steps[0], t);
      NeedsNoSlotRun(WExec(w, steps[0]), steps[1..], t);
    }
  }

  /** A sleep of no ticks never has a slot in the table, and any poll of it ends it. */
  lemma NoTicksNoSlot(w: World, c: nat, steps: seq<WStep>, d: nat)
    requires WBase(w) && WEnabled(w, BeginSleep(c, 0)) && WRun(WExec(w, BeginSleep(c, 0)), steps)
    requires NeverBegins(WExec(w, BeginSleep(c, 0)), steps, w.sys.cpus[c].current.value)
    ensures var (t, w') := (w.sys.cpus[c].current.value, WAfter(WExec(w, BeginSleep(c, 0)), steps));
      && NoEntry(w'.table, t) && !PhaseOf(w', t).Computed?
      && (WEnabled(w', Poll(d)) && w'.sys.cpus[d].current == Some(t) ==> Mine(WExec(w', Poll(d)), d) == Off)
  {
    var t, w1 := w.sys.cpus[c].current.value, WExec(w, BeginSleep(c, 0));
    WStepBase(w, BeginSleep(c, 0));
    NeedsNoSlotRun(w1, steps, t);
    var w' := WAfter(w1, steps);
    forall i | 0 <= i < |w'.table.slots| && w'.table.slots[i].Some? ensures w'.table.slots[i].value.thread != t {
      var g := w'.table.slots[i].value.generation;
      assert Timers.Holds(w'.table, g) && LiveInv(w', g);
    }
  }

  // ---- When the timer goes off ----

  /** The pass over the table that a tick makes fires a sleeper's timer exactly if the sleep is due by that tick. */
  lemma FiresWhenDue(w: World, now: nat, t: ThreadId)
    requires WBase(w) && WEnabled(w, ExpireTimers(now))
    requires PhaseOf(w, t).Sleeping? && Entered(w, PhaseOf(w, t).sleep)
    ensures var (w', sleep) := (WExec(w, ExpireTimers(now)), PhaseOf(w, t).sleep);
      && PhaseOf(w', t) == PhaseOf(w, t)
      && (Entered(w', sleep) <==> now < sleep.deadline)
      && (now >= sleep.deadline ==> w'.calls[t] > w.calls[t])
  {
    assert PhaseInv(w, t);
    Timers.ExpiredOwned(w.table, now);
  }
}
