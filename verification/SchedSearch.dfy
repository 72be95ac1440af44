/**
 What a processor looking for its next thread picks, over every run that may go on meanwhile:
 its own runnable work first, then somebody else's, and its idle thread or nothing only
 after everyone was looked at.
 */
module SchedSearch {
  import opened Wrappers
  import opened RunQueues
  import opened SchedSpec
  import opened SchedInv
  import opened SchedTheorems

  predicate Searching(s: Sys, c: nat) {
    c < |s.cpus| && (s.cpus[c].pc.Local? || s.cpus[c].pc.Remote? || s.cpus[c].pc.Last?)
  }

  /** Where a run is after `k` of its steps. */
  ghost function StateAt(s: Sys, steps: seq<Step>, k: nat): Sys
    requires IsRun(s, steps) && After(s, steps).Next? && k <= |steps|
    decreases k
  {
    if k == 0 then s else StateAt(Exec(s, steps[0]).s, steps[1..], k - 1)
  }

  lemma {:induction false} StateAtNext(s: Sys, steps: seq<Step>, k: nat)
    requires IsRun(s, steps) && After(s, steps).Next? && k < |steps| && Inv(s)
    ensures Inv(StateAt(s, steps, k))
    ensures Enabled(StateAt(s, steps, k), steps[k])
    ensures Exec(StateAt(s, steps, k), steps[k]) == Next(StateAt(s, steps, k + 1))
    decreases k
  {
    if k == 0 {
      assert StateAt(Exec(s, steps[0]).s, steps[1..], 0) == Exec(s, steps[0]).s;
    } else {
      StepInv(s, steps[0]);
      StateAtNext(Exec(s, steps[0]).s, steps[1..], k - 1);
    }
  }

  /** A run of the whole machine that ends just as `c`'s search, under way from the start, does. */
  ghost predicate Search(s: Sys, steps: seq<Step>, c: nat) {
    && Inv(s) && IsRun(s, steps) && After(s, steps).Next? && steps != []
    && c < |s.cpus| && s.cpus[c].pc.Local?
    && (forall k: nat {:trigger StateAt(s, steps, k)} :: k < |steps| ==> Searching(StateAt(s, steps, k), c))
    && !Searching(StateAt(s, steps, |steps|), c)
  }

  /** In its `k`th step `c` looks at its own queue for the first time. */
  ghost predicate LooksHome(s: Sys, steps: seq<Step>, c: nat, k: nat)
    requires Search(s, steps, c)
  {
    && k < |steps| && StateAt(s, steps, k).cpus[c].pc.Local?
    && c < |StateAt(s, steps, k + 1).cpus| && !StateAt(s, steps, k + 1).cpus[c].pc.Local?
  }

  /** In its `k`th step `c` is done with processor `v`. */
  ghost predicate Visits(s: Sys, steps: seq<Step>, c: nat, v: nat, k: nat)
    requires Search(s, steps, c)
  {
    && k < |steps| && StateAt(s, steps, k).cpus[c].pc.Remote? && StateAt(s, steps, k).cpus[c].pc.victim == v
    && c < |StateAt(s, steps, k + 1).cpus|
    && StateAt(s, steps, k + 1).cpus[c].pc != StateAt(s, steps, k).cpus[c].pc
  }

  /** `v` has nothing for a thief at that moment: it is off line, its queue is locked, or nothing there is runnable. */
  predicate NothingToSteal(s: Sys, step: Step, c: nat, v: nat) {
    v < |s.cpus| && (!s.cpus[v].online || step == TakeRemote(c, true) || s.cpus[v].queue.RunnableLen() == 0)
  }

  ghost predicate HomeWasIdle(s: Sys, steps: seq<Step>, c: nat, end: nat)
    requires Search(s, steps, c)
  {
    exists k: nat ::
      k < end && LooksHome(s, steps, c, k) && StateAt(s, steps, k).cpus[c].queue.RunnableLen() == 0
  }

  ghost predicate HadNothing(s: Sys, steps: seq<Step>, c: nat, v: nat, end: nat)
    requires Search(s, steps, c)
  {
    exists k: nat ::
      k < end && Visits(s, steps, c, v, k) && NothingToSteal(StateAt(s, steps, k), steps[k], c, v)
  }

  /** Everybody before `n` was looked at by step `end` and had nothing. */
  ghost predicate LookedBefore(s: Sys, steps: seq<Step>, c: nat, n: nat, end: nat)
    requires Search(s, steps, c)
  {
    HomeWasIdle(s, steps, c, end) && forall v: nat :: v < n && v != c ==> HadNothing(s, steps, c, v, end)
  }

  /** The thread a queue would have its owner run, if it has any worth running. */
  predicate IsFirstRunnable(q: RunQueue, t: ThreadId) {
    if q.high != [] then t == q.high[0] else q.normal != [] && t == q.normal[0]
  }

  /** The thread a queue would give to a thief. */
  predicate IsLastRunnable(q: RunQueue, t: ThreadId) {
    if q.high != [] then t == q.high[|q.high| - 1] else q.normal != [] && t == q.normal[|q.normal| - 1]
  }

  // ---- One step ----

  predicate IsTake(step: Step, c: nat) {
    step == TakeLocal(c) || (step.TakeRemote? && step.c == c) || step == TakeLast(c)
  }

  predicate SamePc(s: Sys, s': Sys, c: nat) {
    |s'.cpus| == |s.cpus| && c < |s.cpus| && s'.cpus[c].pc == s.cpus[c].pc
  }

  lemma WakeLeavesPc(s: Sys, t: ThreadId, c: nat)
    requires c < |s.cpus|
    ensures SamePc(s, UnparkStep(s, t), c)
  {
    if t in s.threads {
      var th := s.threads[t];
      var s1 := SetThread(s, t, th.(park := th.park.Wake().1, state := Ready));
      assert SamePc(s, Untag(s1, t), c);
    }
  }

  lemma ParksLeavePc(s: Sys, step: Step, c: nat)
    requires Enabled(s, step) && Exec(s, step).Next? && Searching(s, c) && MovesPoint(step)
    ensures SamePc(s, Exec(s, step).s, c)
  {
  }

  lemma TakesLeavePc(s: Sys, step: Step, c: nat)
    requires Enabled(s, step) && Exec(s, step).Next? && Searching(s, c) && !IsTake(step, c) && TakesOrWaits(step)
    ensures SamePc(s, Exec(s, step).s, c)
  {
  }

  lemma SwitchesLeavePc(s: Sys, step: Step, c: nat)
    requires Enabled(s, step) && Exec(s, step).Next? && Searching(s, c)
    requires step.Commit? || step.Switch? || step.PublishSwap? || step.PublishPush?
    ensures SamePc(s, Exec(s, step).s, c)
  {
  }

  lemma ArrivalsLeavePc(s: Sys, step: Step, c: nat)
    requires Enabled(s, step) && Exec(s, step).Next? && Searching(s, c)
    requires step.Adopt? || step.Install? || step.Spawn? || step.PushTransit?
    ensures SamePc(s, Exec(s, step).s, c)
  {
    if step.PushTransit? {
      var home := s.transit[step.id].home;
      var target := if home.Some? && home.value < |s.cpus| then home.value else step.c;
      assert target < |s.cpus|;
    }
  }

  /** Nobody else ends or moves a search. */
  lemma OthersLeaveSearch(s: Sys, step: Step, c: nat)
    requires Enabled(s, step) && Exec(s, step).Next? && Searching(s, c) && !IsTake(step, c)
    ensures SamePc(s, Exec(s, step).s, c)
  {
    if MovesPoint(step) {
      ParksLeavePc(s, step, c);
    } else if TakesOrWaits(step) {
      TakesLeavePc(s, step, c);
    } else if step.Commit? || step.Switch? || step.PublishSwap? || step.PublishPush? {
      SwitchesLeavePc(s, step, c);
    } else if step.Unpark? {
      WakeLeavesPc(s, step.id, c);
    } else {
      ArrivalsLeavePc(s, step, c);
    }
  }

  /** A look at one's own queue: the first runnable thread, or on to the others if there is none. */
  lemma HomeStep(s: Sys, c: nat)
    requires c < |s.cpus| && s.cpus[c].pc.Local?
    ensures var s', q := Exec(s, TakeLocal(c)).s, s.cpus[c].queue;
      && |s'.cpus| == |s.cpus|
      && if q.RunnableLen() == 0 then s'.cpus[c].pc == Remote(s.cpus[c].pc.exiting, 0)
         else s'.cpus[c].pc.Chosen? && s'.cpus[c].pc.exiting == s.cpus[c].pc.exiting
              && IsFirstRunnable(q, s'.cpus[c].pc.next)
  {
  }

  lemma VisitStep(s: Sys, c: nat, contended: bool)
    requires Enabled(s, TakeRemote(c, contended))
    ensures var s', k := Exec(s, TakeRemote(c, contended)).s, s.cpus[c];
      && |s'.cpus| == |s.cpus|
      && if k.pc.victim == c || NothingToSteal(s, TakeRemote(c, contended), c, k.pc.victim) then
           s'.cpus[c].pc ==
             if k.pc.victim + 1 < |s.cpus| then Remote(k.pc.exiting, k.pc.victim + 1) else Last(k.pc.exiting)
         else s'.cpus[c].pc.Chosen? && s'.cpus[c].pc.exiting == k.pc.exiting
              && IsLastRunnable(s.cpus[k.pc.victim].queue, s'.cpus[c].pc.next)
  {
  }

  /** The last look takes whatever there is by then. */
  lemma LastStep(s: Sys, c: nat)
    requires c < |s.cpus| && s.cpus[c].pc.Last?
    ensures var s', q := Exec(s, TakeLast(c)).s, s.cpus[c].queue;
      && |s'.cpus| == |s.cpus|
      && if q == EmptyQueue then s'.cpus[c].pc == Run
         else s'.cpus[c].pc.Chosen? && s'.cpus[c].pc.exiting == s.cpus[c].pc.exiting
              && if q.RunnableLen() > 0 then IsFirstRunnable(q, s'.cpus[c].pc.next)
                 else q.idle != [] && s'.cpus[c].pc.next == q.idle[0]
  {
  }

  // ---- The whole search ----

  /** How far a search has come, and what it has seen on the way. */
  ghost predicate Progress(s: Sys, steps: seq<Step>, c: nat, k: nat)
    requires Search(s, steps, c) && k < |steps|
  {
    var now := StateAt(s, steps, k);
    && |now.cpus| == |s.cpus| && now.cpus[c].pc.exiting == s.cpus[c].pc.exiting
    && (now.cpus[c].pc.Remote? ==>
          now.cpus[c].pc.victim < |s.cpus| && LookedBefore(s, steps, c, now.cpus[c].pc.victim, k))
    && (now.cpus[c].pc.Last? ==> LookedBefore(s, steps, c, |s.cpus|, k))
  }

  lemma SeenLater(s: Sys, steps: seq<Step>, c: nat, n: nat, k: nat)
    requires Search(s, steps, c) && LookedBefore(s, steps, c, n, k)
    ensures LookedBefore(s, steps, c, n, k + 1)
  {
    var end := k + 1;
    forall v: nat | v < n && v != c ensures HadNothing(s, steps, c, v, end) {
      assert HadNothing(s, steps, c, v, k);
    }
  }

  /** One more visited. */
  lemma SeenOneMore(s: Sys, steps: seq<Step>, c: nat, k: nat)
    requires Search(s, steps, c) && k < |steps|
    requires var pc := StateAt(s, steps, k).cpus[c].pc; pc.Remote? && LookedBefore(s, steps, c, pc.victim, k)
    requires |StateAt(s, steps, k + 1).cpus| == |s.cpus|
    requires StateAt(s, steps, k + 1).cpus[c].pc != StateAt(s, steps, k).cpus[c].pc
    requires var v := StateAt(s, steps, k).cpus[c].pc.victim;
      v == c || NothingToSteal(StateAt(s, steps, k), steps[k], c, v)
    ensures LookedBefore(s, steps, c, StateAt(s, steps, k).cpus[c].pc.victim + 1, k + 1)
  {
    var v, end := StateAt(s, steps, k).cpus[c].pc.victim, k + 1;
    SeenLater(s, steps, c, v, k);
    assert Visits(s, steps, c, v, k);
    forall u: nat | u < v + 1 && u != c ensures HadNothing(s, steps, c, u, end) {
      if u < v { assert HadNothing(s, steps, c, u, end); }
    }
  }

  lemma ProgressNext(s: Sys, steps: seq<Step>, c: nat, k: nat)
    requires Search(s, steps, c) && k + 1 < |steps| && Progress(s, steps, c, k)
    ensures Progress(s, steps, c, k + 1)
  {
    StateAtNext(s, steps, k);
    var now, later, step := StateAt(s, steps, k), StateAt(s, steps, k + 1), steps[k];
    if !IsTake(step, c) {
      OthersLeaveSearch(now, step, c);
      if now.cpus[c].pc.Remote? { SeenLater(s, steps, c, now.cpus[c].pc.victim, k); }
      if now.cpus[c].pc.Last? { SeenLater(s, steps, c, |s.cpus|, k); }
    } else if step.TakeLocal? {
      HomeStep(now, c);
      assert LooksHome(s, steps, c, k);
    } else if step.TakeRemote? {
      VisitStep(now, c, step.contended);
      SeenOneMore(s, steps, c, k);
    } else {
      LastStep(now, c);
    }
  }

  lemma {:induction false} SearchProgress(s: Sys, steps: seq<Step>, c: nat, k: nat)
    requires Search(s, steps, c) && k < |steps|
    ensures Progress(s, steps, c, k)
  {
    if k > 0 {
      SearchProgress(s, steps, c, k - 1);
      ProgressNext(s, steps, c, k - 1);
    }
  }

  /** The step that ends a search is the searcher's own, and the moment before it. */
  ghost function Before(s: Sys, steps: seq<Step>): Sys
    requires IsRun(s, steps) && After(s, steps).Next? && steps != []
  {
    StateAt(s, steps, |steps| - 1)
  }

  /** What the search found: a thread to run, or nothing. */
  ghost predicate Finds(s: Sys, steps: seq<Step>, c: nat, found: Option<ThreadId>)
    requires Search(s, steps, c)
  {
    var s' := StateAt(s, steps, |steps|);
    && |s'.cpus| == |s.cpus|
    && s'.cpus[c].pc == (if found.Some? then Chosen(s.cpus[c].pc.exiting, found.value) else Run)
  }

  ghost predicate FindsHome(s: Sys, steps: seq<Step>, c: nat, found: Option<ThreadId>)
    requires Search(s, steps, c)
  {
    && LooksHome(s, steps, c, |steps| - 1)
    && c < |Before(s, steps).cpus| && found.Some? && IsFirstRunnable(Before(s, steps).cpus[c].queue, found.value)
  }

  ghost predicate FindsAt(s: Sys, steps: seq<Step>, c: nat, v: nat, found: Option<ThreadId>)
    requires Search(s, steps, c)
  {
    && v != c && v < |Before(s, steps).cpus| && Before(s, steps).cpus[v].online
    && steps[|steps| - 1] != TakeRemote(c, true)
    && found.Some? && IsLastRunnable(Before(s, steps).cpus[v].queue, found.value)
    && LookedBefore(s, steps, c, v, |steps| - 1)
  }

  ghost predicate FindsLast(s: Sys, steps: seq<Step>, c: nat, found: Option<ThreadId>)
    requires Search(s, steps, c)
  {
    && c < |Before(s, steps).cpus| && LookedBefore(s, steps, c, |s.cpus|, |steps| - 1)
    && var q := Before(s, steps).cpus[c].queue;
       if found.None? then q == EmptyQueue
       else if q.RunnableLen() > 0 then IsFirstRunnable(q, found.value)
       else q.idle != [] && found.value == q.idle[0]
  }

  lemma SearchEndsOwn(s: Sys, steps: seq<Step>, c: nat)
    requires Search(s, steps, c)
    ensures Progress(s, steps, c, |steps| - 1) && IsTake(steps[|steps| - 1], c)
    ensures Enabled(Before(s, steps), steps[|steps| - 1])
    ensures Exec(Before(s, steps), steps[|steps| - 1]) == Next(StateAt(s, steps, |steps|))
    ensures Inv(Before(s, steps))
  {
    var k := |steps| - 1;
    SearchProgress(s, steps, c, k);
    StateAtNext(s, steps, k);
    if !IsTake(steps[k], c) { OthersLeaveSearch(StateAt(s, steps, k), steps[k], c); }
  }

  /**
   Every search ends in one of three ways: with the first runnable thread of the processor's
   own queue; with the last runnable one of the first other processor that has any to steal,
   the own queue having had none; or, everyone having had none, with what is first in the
   own queue by then, and with nothing just when that is empty.
   */
  lemma SearchEnds(s: Sys, steps: seq<Step>, c: nat) returns (found: Option<ThreadId>)
    requires Search(s, steps, c)
    ensures Finds(s, steps, c, found)
    ensures FindsHome(s, steps, c, found) || (exists v: nat :: FindsAt(s, steps, c, v, found))
         || FindsLast(s, steps, c, found)
  {
    SearchEndsOwn(s, steps, c);
    var k := |steps| - 1;
    var now, step := Before(s, steps), steps[k];
    if step.TakeLocal? {
      HomeStep(now, c);
      found := Some(StateAt(s, steps, |steps|).cpus[c].pc.next);
    } else if step.TakeRemote? {
      VisitStep(now, c, step.contended);
      found := Some(StateAt(s, steps, |steps|).cpus[c].pc.next);
      assert FindsAt(s, steps, c, now.cpus[c].pc.victim, found);
    } else {
      LastStep(now, c);
      var pc := StateAt(s, steps, |steps|).cpus[c].pc;
      found := if pc.Chosen? then Some(pc.next) else None;
    }
  }

  /** Runnable work in the own queue, when it is looked at, ends the search and beats any steal. */
  lemma OwnWorkFirst(s: Sys, steps: seq<Step>, c: nat, k: nat)
    requires Search(s, steps, c) && LooksHome(s, steps, c, k)
    requires StateAt(s, steps, k).cpus[c].queue.RunnableLen() > 0
    ensures k == |steps| - 1
    ensures exists t :: Finds(s, steps, c, Some(t)) && IsFirstRunnable(StateAt(s, steps, k).cpus[c].queue, t)
  {
    SearchProgress(s, steps, c, k);
    StateAtNext(s, steps, k);
    var now, step := StateAt(s, steps, k), steps[k];
    if !IsTake(step, c) { OthersLeaveSearch(now, step, c); }
    HomeStep(now, c);
    var t := StateAt(s, steps, k + 1).cpus[c].pc.next;
    assert k + 1 < |steps| ==> Searching(StateAt(s, steps, k + 1), c);
    assert Finds(s, steps, c, Some(t));
  }

  lemma QueuedPriority(s: Sys, v: nat, t: ThreadId)
    requires Inv(s) && v < |s.cpus|
    requires IsFirstRunnable(s.cpus[v].queue, t) || IsLastRunnable(s.cpus[v].queue, t)
    ensures t in s.threads && s.threads[t].priority != Idle
  {
    assert CpuInv(s, v);
    assert s.cpus[v].queue.Contains(t);
    assert t in s.cpus[v].queue.Band(s.threads[t].priority);
  }

  /**
   Before running nothing, it has looked for something: a processor turns to a thread of idle
   priority, or to none at all, only if its own queue had no runnable thread when it looked
   there, and neither had any other processor, on line and not locked, when it was visited.
   */
  lemma LooksEverywhereFirst(s: Sys, steps: seq<Step>, c: nat, found: Option<ThreadId>)
    requires Search(s, steps, c) && Finds(s, steps, c, found)
    requires found.Some? && found.value in Before(s, steps).threads ==>
      Before(s, steps).threads[found.value].priority == Idle
    ensures HomeWasIdle(s, steps, c, |steps|)
    ensures forall v: nat :: v < |s.cpus| && v != c ==> HadNothing(s, steps, c, v, |steps|)
  {
    SearchEndsOwn(s, steps, c);
    var f := SearchEnds(s, steps, c);
    assert f == found;
    if FindsHome(s, steps, c, found) {
      QueuedPriority(Before(s, steps), c, found.value);
    } else if v: nat :| FindsAt(s, steps, c, v, found) {
      QueuedPriority(Before(s, steps), v, found.value);
    }
    SeenLater(s, steps, c, |s.cpus|, |steps| - 1);
  }
}
