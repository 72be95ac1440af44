/**
 The scheduler as a state machine. Every section run under the scheduler lock or under
 one run-queue lock is one step, and so is every lone atomic on a handoff slot, so a run
 is any interleaving of these steps over any number of processors and threads.
 */
module SchedSpec {
  import opened Wrappers
  import opened RunQueues

  /** A thread's side of the wakeup protocol; `pending` is a wake that came while it was not parked. */
  datatype ParkState = ParkState(parked: bool, pending: bool) {
    function Park(): (bool, ParkState) {
      if pending then (false, this.(pending := false)) else (true, this.(parked := true))
    }

    function Wake(): (bool, ParkState) {
      if parked then (true, this.(parked := false)) else (false, this.(pending := true))
    }
  }

  datatype ThreadState = Ready | Running | Blocked | Exited

  /** Where a thread's own code stands in `park` or in `exit_current`. */
  datatype Point =
    | Outside     // in neither, or about to return from `park`
    | Entering    // before the first acquisition of the lock
    | Committed   // `ParkState::park` said parked; `schedule` not called yet
    | Returned    // inside `schedule`, or just back from it; first re-check next
    | Halted      // the first re-check said parked; halted, second re-check next
    | Reparking   // the second re-check said parked; before the next acquisition
    | Dying(deadline: nat)     // inside the exiting `schedule`, or back from it with nothing to run
    | Waiting(deadline: nat)   // some other thread is alive; the deadline is looked at next
    | Dozing(deadline: nat)    // halted; `schedule` again next
  {
    predicate Ending() { Dying? || Waiting? || Dozing? }

    /** Interrupts are on here, so a tick may preempt the thread. */
    predicate Preemptible() { Outside? || Halted? || Reparking? || Ending() }
  }

  /** Everywhere a thread can be found. */
  datatype Place =
    | Nowhere
    | OnCpu(c: nat)       // some processor's current thread
    | Booting(c: nat)     // adopted, not yet recorded as current
    | Taken(c: nat)       // removed from a queue for dispatch
    | Queued(c: nat)
    | HandedOff(c: nat)
    | Leaving(c: nat)     // out of the handoff slot, not pushed yet
    | InTransit           // decided runnable by a spawn or a wake, not pushed yet

  /**
   `saved` and `place` are history: no step reads them, except that resuming a context
   that was never stored is a panic.
   */
  datatype Thread = Thread(
    park: ParkState,
    point: Point,
    state: ThreadState,
    priority: Priority,
    home: Option<nat>,
    saved: bool,          // the stored context is the thread's latest suspension point
    place: Place)         // where the last move left it

  datatype Handoff = Empty | Plain(id: ThreadId) | Tagged(id: ThreadId) {
    predicate Names(t: ThreadId) { !Empty? && id == t }
  }

  /** What a processor is doing between two steps. */
  datatype Pc =
    | Boot
    | Adopting(id: ThreadId)
    | Run
    | Local(exiting: bool)
    | Remote(exiting: bool, victim: nat)
    | Last(exiting: bool)
    | Chosen(exiting: bool, next: ThreadId)
    | Window(out: ThreadId, next: ThreadId)   // lock released, outgoing context not saved yet
    | Switched
    | Publishing(id: ThreadId, priority: Priority)

  datatype Cpu = Cpu(
    pc: Pc,
    current: Option<ThreadId>,
    stack: Option<ThreadId>,   // whose stack the processor executes on
    online: bool,
    handoff: Handoff,
    handoffPriority: nat,
    queue: RunQueue)

  const NO_THREAD: nat := 0xffff_ffff_ffff_ffff
  const HANDOFF_PARKED: nat := 0x8000_0000_0000_0000

  /** The id with the top bit or-ed in. */
  function Tag(id: ThreadId): nat {
    if id < HANDOFF_PARKED then id + HANDOFF_PARKED else id
  }

  /** The one word a handoff slot is stored as. */
  function Word(h: Handoff): nat {
    match h
    case Empty => NO_THREAD
    case Plain(id) => id
    case Tagged(id) => Tag(id)
  }

  function FromWord(w: nat): Handoff {
    if w == NO_THREAD then Empty
    else if w >= HANDOFF_PARKED then Tagged(w - HANDOFF_PARKED)
    else Plain(w)
  }

  /** The word gives back every slot that names an id below the one whose tag is the empty pattern. */
  lemma WordRoundTrips(h: Handoff)
    requires h.Empty? || h.id < HANDOFF_PARKED - 1
    ensures FromWord(Word(h)) == h
  {
  }

  /**
   What a compare-exchange on the tagged word of `t` finds: the slot that holds `t` tagged,
   unless the tag bit is already part of the id, or the tagged word is the empty one.
   */
  lemma ClaimFindsExactly(w: nat, t: ThreadId)
    requires t < NO_THREAD
    ensures w == Tag(t) <==>
      FromWord(w) == (if t < HANDOFF_PARKED - 1 then Tagged(t)
                      else if t == HANDOFF_PARKED - 1 then Empty
                      else Tagged(t - HANDOFF_PARKED))
  {
  }

  /** A push decided under the scheduler lock and made after it is released. */
  datatype Wakeup = Wakeup(priority: Priority, home: Option<nat>)

  datatype Sys = Sys(
    threads: map<ThreadId, Thread>,
    nextId: nat,
    reapable: seq<ThreadId>,
    cpus: seq<Cpu>,
    transit: map<ThreadId, Wakeup>,
    ticks: nat)

  /** Why a step can panic: its own bookkeeping disagrees, or `exit_current` gives up. */
  datatype Reason = Broken | NothingLeft | WaitedTooLong

  datatype Outcome = Panic(reason: Reason) | Next(s: Sys)

  const EXIT_WAIT_TICKS: nat := 60_000

  datatype Step =
    | Adopt(c: nat)
    | Install(c: nat)
    | MarkOnline(c: nat)
    | Spawn(c: nat, priority: Priority)
    | PushTransit(c: nat, id: ThreadId)
    | ParkEnter(c: nat)
    | ParkLock(c: nat)
    | ParkSchedule(c: nat)
    | CheckReturned(c: nat)
    | CheckHalted(c: nat)
    | Unpark(id: ThreadId)
    | Yield(c: nat)
    | Exit(c: nat)
    | CheckAlive(c: nat)
    | CheckDeadline(c: nat)
    | ExitAgain(c: nat)
    | Tick
    | TakeLocal(c: nat)
    | TakeRemote(c: nat, contended: bool)
    | TakeLast(c: nat)
    | Commit(c: nat)
    | Switch(c: nat)
    | PublishSwap(c: nat)
    | PublishPush(c: nat)
    | Reap(c: nat)

  const EmptyQueue: RunQueue := Bands([], [], [])

  function Initial(n: nat): Sys {
    Sys(map[], 0, [], seq(n, i => Cpu(Boot, None, None, false, Empty, 0, EmptyQueue)), map[], 0)
  }

  // ---- Reading and updating a state ----

  function SetCpu(s: Sys, c: nat, k: Cpu): Sys
    requires c < |s.cpus|
  {
    s.(cpus := s.cpus[c := k])
  }

  function SetPc(s: Sys, c: nat, pc: Pc): Sys
    requires c < |s.cpus|
  {
    SetCpu(s, c, s.cpus[c].(pc := pc))
  }

  /** Records a move in the history. */
  function Put(threads: map<ThreadId, Thread>, t: ThreadId, place: Place): map<ThreadId, Thread> {
    if t in threads then threads[t := threads[t].(place := place)] else threads
  }

  function SetThread(s: Sys, t: ThreadId, th: Thread): Sys {
    s.(threads := s.threads[t := th])
  }

  /** `c` is running ordinary code of a thread that the table knows. */
  predicate RunsThread(s: Sys, c: nat) {
    && c < |s.cpus| && s.cpus[c].pc == Run
    && s.cpus[c].current.Some? && s.cpus[c].current.value in s.threads
  }

  function Me(s: Sys, c: nat): Thread
    requires RunsThread(s, c)
  {
    s.threads[s.cpus[c].current.value]
  }

  predicate PointIs(s: Sys, c: nat, points: set<Point>) {
    RunsThread(s, c) && Me(s, c).point in points
  }

  function SetPoint(s: Sys, c: nat, point: Point): Sys
    requires RunsThread(s, c)
  {
    SetThread(s, s.cpus[c].current.value, Me(s, c).(point := point))
  }

  /** No other thread is in the table. */
  predicate OnlyThread(s: Sys, t: ThreadId) {
    forall u :: u in s.threads ==> u == t
  }

  predicate CurrentAnywhere(s: Sys, t: ThreadId) {
    exists c | 0 <= c < |s.cpus| :: s.cpus[c].current == Some(t)
  }

  predicate TaggedAnywhere(s: Sys, t: ThreadId) {
    exists c | 0 <= c < |s.cpus| :: s.cpus[c].handoff == Tagged(t)
  }

  /** Clears the parked tag on every slot that names `t`. */
  function Untag(s: Sys, t: ThreadId): Sys {
    s.(cpus := seq(|s.cpus|, i requires 0 <= i < |s.cpus| =>
      if s.cpus[i].handoff == Tagged(t) then s.cpus[i].(handoff := Plain(t)) else s.cpus[i]))
  }

  // ---- The steps ----

  predicate Enabled(s: Sys, step: Step) {
    match step
    case Adopt(c) => c < |s.cpus| && s.cpus[c].pc == Boot
    case Install(c) => c < |s.cpus| && s.cpus[c].pc.Adopting?
    case MarkOnline(c) => RunsThread(s, c)
    case Spawn(c, _) => RunsThread(s, c)
    case PushTransit(c, id) => c < |s.cpus| && !s.cpus[c].pc.Boot? && id in s.transit
    case ParkEnter(c) => PointIs(s, c, {Outside})
    case ParkLock(c) => PointIs(s, c, {Entering, Reparking})
    case ParkSchedule(c) => PointIs(s, c, {Committed})
    case CheckReturned(c) => PointIs(s, c, {Returned})
    case CheckHalted(c) => PointIs(s, c, {Halted})
    case Unpark(_) => true
    case Yield(c) => RunsThread(s, c) && Me(s, c).point.Preemptible()
    case Exit(c) => PointIs(s, c, {Outside})
    case CheckAlive(c) => RunsThread(s, c) && Me(s, c).point.Dying?
    case CheckDeadline(c) => RunsThread(s, c) && Me(s, c).point.Waiting?
    case ExitAgain(c) => RunsThread(s, c) && Me(s, c).point.Dozing?
    case Tick => true
    case TakeLocal(c) => c < |s.cpus| && s.cpus[c].pc.Local?
    case TakeRemote(c, _) => c < |s.cpus| && s.cpus[c].pc.Remote? && s.cpus[c].pc.victim < |s.cpus|
    case TakeLast(c) => c < |s.cpus| && s.cpus[c].pc.Last?
    case Commit(c) => c < |s.cpus| && s.cpus[c].pc.Chosen?
    case Switch(c) => c < |s.cpus| && s.cpus[c].pc.Window?
    case PublishSwap(c) => c < |s.cpus| && s.cpus[c].pc.Switched?
    case PublishPush(c) => c < |s.cpus| && s.cpus[c].pc.Publishing?
    case Reap(c) => RunsThread(s, c)
  }

  function AdoptStep(s: Sys, c: nat): Sys
    requires c < |s.cpus|
  {
    var id := s.nextId;
    var th := Thread(ParkState(false, false), Outside, Running, Idle, Some(c), false, Booting(c));
    SetCpu(s, c, s.cpus[c].(pc := Adopting(id), stack := Some(id)))
      .(threads := s.threads[id := th], nextId := id + 1)
  }

  function InstallStep(s: Sys, c: nat): Sys
    requires c < |s.cpus| && s.cpus[c].pc.Adopting?
  {
    var id := s.cpus[c].pc.id;
    SetCpu(s, c, s.cpus[c].(pc := Run, current := Some(id))).(threads := Put(s.threads, id, OnCpu(c)))
  }

  function SpawnStep(s: Sys, priority: Priority): Sys {
    var id := s.nextId;
    var th := Thread(ParkState(false, false), Outside, Ready, priority, None, true, InTransit);
    s.(threads := s.threads[id := th], nextId := id + 1, transit := s.transit[id := Wakeup(priority, None)])
  }

  /** The push that follows a spawn or a wake, made by processor `c` once the lock is gone. */
  function PushTransitStep(s: Sys, c: nat, id: ThreadId): Sys
    requires c < |s.cpus| && id in s.transit
  {
    var Wakeup(priority, home) := s.transit[id];
    var target := if home.Some? && home.value < |s.cpus| then home.value else c;
    var k := s.cpus[target];
    SetCpu(s, target, k.(queue := Push(k.queue, id, priority)))
      .(transit := s.transit - {id}, threads := Put(s.threads, id, Queued(target)))
  }

  function ParkLockStep(s: Sys, c: nat): Sys
    requires RunsThread(s, c)
  {
    var th := Me(s, c);
    var (parked, park) := th.park.Park();
    SetThread(s, s.cpus[c].current.value,
              if parked then th.(park := park, point := Committed, state := Blocked)
              else th.(park := park, point := Outside))
  }

  function UnparkStep(s: Sys, t: ThreadId): Sys {
    if t !in s.threads then s
    else
      var th := s.threads[t];
      var (runnable, park) := th.park.Wake();
      if !runnable then SetThread(s, t, th.(park := park))
      else
        var s1 := SetThread(s, t, th.(park := park, state := Ready));
        if CurrentAnywhere(s, t) then s1
        else if TaggedAnywhere(s, t) then Untag(s1, t)
        else s1.(transit := s.transit[t := Wakeup(th.priority, th.home)], threads := Put(s1.threads, t, InTransit))
  }

  function TakeLocalStep(s: Sys, c: nat): Sys
    requires c < |s.cpus| && s.cpus[c].pc.Local?
  {
    var k := s.cpus[c];
    if k.queue.RunnableLen() > 0 then
      var (id, rest) := Pop(k.queue);
      match id
      case Some(next) =>
        SetCpu(s, c, k.(queue := rest, pc := Chosen(k.pc.exiting, next))).(threads := Put(s.threads, next, Taken(c)))
      case None => SetPc(s, c, Remote(k.pc.exiting, 0))
    else SetPc(s, c, Remote(k.pc.exiting, 0))
  }

  /** One turn of the stealing loop; `contended` is a failed `try_lock`. */
  function TakeRemoteStep(s: Sys, c: nat, contended: bool): Sys
    requires c < |s.cpus| && s.cpus[c].pc.Remote? && s.cpus[c].pc.victim < |s.cpus|
  {
    var k := s.cpus[c];
    var v := k.pc.victim;
    var further := if v + 1 < |s.cpus| then Remote(k.pc.exiting, v + 1) else Last(k.pc.exiting);
    if v == c || !s.cpus[v].online || contended || s.cpus[v].queue.RunnableLen() == 0 then
      SetPc(s, c, further)
    else
      var (id, rest) := Steal(s.cpus[v].queue);
      match id
      case Some(next) =>
        SetPc(SetCpu(s, v, s.cpus[v].(queue := rest)), c, Chosen(k.pc.exiting, next))
          .(threads := Put(s.threads, next, Taken(c)))
      case None => SetPc(s, c, further)
  }

  function TakeLastStep(s: Sys, c: nat): Sys
    requires c < |s.cpus| && s.cpus[c].pc.Last?
  {
    var k := s.cpus[c];
    var (id, rest) := Pop(k.queue);
    match id
    case Some(next) =>
      SetCpu(s, c, k.(queue := rest, pc := Chosen(k.pc.exiting, next))).(threads := Put(s.threads, next, Taken(c)))
    case None => SetPc(s, c, Run)
  }

  /** The section of `schedule` that runs under the scheduler lock. */
  function CommitStep(s: Sys, c: nat): Outcome
    requires c < |s.cpus| && s.cpus[c].pc.Chosen?
  {
    var k := s.cpus[c];
    var next := k.pc.next;
    if k.current.None? || k.current.value !in s.threads then Panic(Broken)    // not in the table
    else if next !in s.threads then Panic(Broken)                             // not a live thread
    else if !s.threads[next].saved then Panic(Broken)                         // no context to resume
    else
      var me := k.current.value;
      var th := s.threads[me];
      var state :=
        if k.pc.exiting || th.state == Exited then Exited
        else if th.park.parked then Blocked
        else Ready;
      var place := if k.pc.exiting then Nowhere else HandedOff(c);
      var threads1 := s.threads[me := th.(state := state, place := place)];
      var threads2 := threads1[next := threads1[next].(state := Running, place := OnCpu(c))];
      var handoff :=
        if k.pc.exiting then Empty
        else if th.park.parked then Tagged(me)
        else Plain(me);
      var raw := if k.pc.exiting then k.handoffPriority else th.priority.Raw();
      var k' := k.(pc := Window(me, next), current := Some(next),
                   handoff := handoff, handoffPriority := raw);
      Next(SetCpu(s, c, k').(threads := threads2,
                             reapable := if k.pc.exiting then s.reapable + [me] else s.reapable))
  }

  /** One turn of the loop in `exit_current`, up to the queues. */
  function ExitStep(s: Sys, c: nat, deadline: nat): Sys
    requires RunsThread(s, c)
  {
    SetPc(SetPoint(s, c, Dying(deadline)), c, Local(true))
  }

  /** The exiter found nothing to run: it panics if it is the last thread, and waits otherwise. */
  function CheckAliveStep(s: Sys, c: nat): Outcome
    requires RunsThread(s, c) && Me(s, c).point.Dying?
  {
    if OnlyThread(s, s.cpus[c].current.value) then Panic(NothingLeft)
    else Next(SetPoint(s, c, Waiting(Me(s, c).point.deadline)))
  }

  function CheckDeadlineStep(s: Sys, c: nat): Outcome
    requires RunsThread(s, c) && Me(s, c).point.Waiting?
  {
    if s.ticks >= Me(s, c).point.deadline then Panic(WaitedTooLong)
    else Next(SetPoint(s, c, Dozing(Me(s, c).point.deadline)))
  }

  /** The stack switch: the outgoing context is stored, the incoming one consumed. */
  function SwitchStep(s: Sys, c: nat): Sys
    requires c < |s.cpus| && s.cpus[c].pc.Window?
  {
    var Window(out, next) := s.cpus[c].pc;
    var threads1 := if out in s.threads then s.threads[out := s.threads[out].(saved := true)] else s.threads;
    var threads2 := if next in threads1 then threads1[next := threads1[next].(saved := false)] else threads1;
    SetCpu(s, c, s.cpus[c].(pc := Switched, stack := Some(next))).(threads := threads2)
  }

  function PublishSwapStep(s: Sys, c: nat): Sys
    requires c < |s.cpus|
  {
    var k := s.cpus[c];
    var pc := if k.handoff.Plain? then Publishing(k.handoff.id, PriorityFromRaw(k.handoffPriority)) else Run;
    var threads :=
      if k.handoff.Empty? then s.threads
      else Put(s.threads, k.handoff.id, if k.handoff.Plain? then Leaving(c) else Nowhere);
    SetCpu(s, c, k.(handoff := Empty, pc := pc)).(threads := threads)
  }

  function PublishPushStep(s: Sys, c: nat): Sys
    requires c < |s.cpus| && s.cpus[c].pc.Publishing?
  {
    var k := s.cpus[c];
    SetCpu(s, c, k.(queue := Push(k.queue, k.pc.id, k.pc.priority), pc := Run))
      .(threads := Put(s.threads, k.pc.id, Queued(c)))
  }

  /** The exited threads `reap` would free now. */
  function Corpses(s: Sys): set<ThreadId> {
    set t | t in s.reapable && !CurrentAnywhere(s, t)
  }

  function StillCurrent(s: Sys, ids: seq<ThreadId>): seq<ThreadId> {
    if ids == [] then []
    else (if CurrentAnywhere(s, ids[0]) then [ids[0]] else []) + StillCurrent(s, ids[1..])
  }

  function ReapStep(s: Sys): Sys {
    s.(threads := s.threads - Corpses(s), reapable := StillCurrent(s, s.reapable))
  }

  function Exec(s: Sys, step: Step): Outcome
    requires Enabled(s, step)
  {
    match step
    case Adopt(c) => Next(AdoptStep(s, c))
    case Install(c) => Next(InstallStep(s, c))
    case MarkOnline(c) => Next(SetCpu(s, c, s.cpus[c].(online := true)))
    case Spawn(_, priority) => Next(SpawnStep(s, priority))
    case PushTransit(c, id) => Next(PushTransitStep(s, c, id))
    case ParkEnter(c) => Next(SetPoint(s, c, Entering))
    case ParkLock(c) => Next(ParkLockStep(s, c))
    case ParkSchedule(c) => Next(SetPc(SetPoint(s, c, Returned), c, Local(false)))
    case CheckReturned(c) => Next(SetPoint(s, c, if Me(s, c).park.parked then Halted else Outside))
    case CheckHalted(c) => Next(SetPoint(s, c, if Me(s, c).park.parked then Reparking else Outside))
    case Unpark(id) => Next(UnparkStep(s, id))
    case Yield(c) => Next(SetPc(s, c, Local(false)))
    case Exit(c) => Next(ExitStep(s, c, s.ticks + EXIT_WAIT_TICKS))
    case CheckAlive(c) => CheckAliveStep(s, c)
    case CheckDeadline(c) => CheckDeadlineStep(s, c)
    case ExitAgain(c) => Next(ExitStep(s, c, Me(s, c).point.deadline))
    case Tick => Next(s.(ticks := s.ticks + 1))
    case TakeLocal(c) => Next(TakeLocalStep(s, c))
    case TakeRemote(c, contended) => Next(TakeRemoteStep(s, c, contended))
    case TakeLast(c) => Next(TakeLastStep(s, c))
    case Commit(c) => CommitStep(s, c)
    case Switch(c) => Next(SwitchStep(s, c))
    case PublishSwap(c) => Next(PublishSwapStep(s, c))
    case PublishPush(c) => Next(PublishPushStep(s, c))
    case Reap(_) => Next(ReapStep(s))
  }

  // ---- Runs ----

  /** `steps` can be taken one after the other from `s`, up to a panic. */
  ghost predicate IsRun(s: Sys, steps: seq<Step>)
    decreases |steps|
  {
    steps == [] || (Enabled(s, steps[0]) &&
                    (Exec(s, steps[0]).Next? ==> IsRun(Exec(s, steps[0]).s, steps[1..])))
  }

  /** Where a run ends. */
  ghost function After(s: Sys, steps: seq<Step>): Outcome
    requires IsRun(s, steps)
    decreases |steps|
  {
    if steps == [] then Next(s)
    else if Exec(s, steps[0]).Panic? then Exec(s, steps[0])
    else After(Exec(s, steps[0]).s, steps[1..])
  }
}
