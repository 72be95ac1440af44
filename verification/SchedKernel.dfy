/**
 The scheduler's shared state, updated in place. Each method is one critical section of
 `kernel/src/sched.rs` with the loops it really runs, and takes the state exactly one
 step of the protocol further; the invariant it relies on is the protocol's.
 */
module SchedKernel {
  import opened Wrappers
  import opened RunQueues
  import opened SchedSpec
  import opened SchedInv

  /** A processor's record without its handoff slot, which is a word of its own. */
  datatype Record = Record(
    pc: Pc,
    current: Option<ThreadId>,
    stack: Option<ThreadId>,
    online: bool,
    handoffPriority: nat,
    queue: RunQueue)

  function Whole(k: Record, w: nat): Cpu {
    Cpu(k.pc, k.current, k.stack, k.online, FromWord(w), k.handoffPriority, k.queue)
  }

  function Cpus(ks: seq<Record>, ws: seq<nat>): seq<Cpu>
    requires |ks| == |ws|
  {
    seq(|ks|, i requires 0 <= i < |ks| => Whole(ks[i], ws[i]))
  }

  /** Exchanging the one word that holds `t` tagged clears the tag on every slot that names it. */
  lemma ClaimedIs(ks: seq<Record>, ws: seq<nat>, ws': seq<nat>, s: Sys, t: ThreadId, c: nat)
    requires |ks| == |ws| && s.cpus == Cpus(ks, ws) && t < HANDOFF_PARKED - 1 && c < |ws| && ws' == ws[c := t]
    requires ws[c] == Tag(t) && forall d :: 0 <= d < |ws| && d != c ==> ws[d] != Tag(t)
    ensures TaggedAnywhere(s, t) && Cpus(ks, ws') == Untag(s, t).cpus
  {
    var all, all', untagged := s.cpus, Cpus(ks, ws'), Untag(s, t).cpus;
    forall d | 0 <= d < |ws| ensures all'[d] == untagged[d] && (d == c ==> all[d].handoff == Tagged(t)) {
      ClaimFindsExactly(ws[d], t);
    }
    assert all[c].handoff == Tagged(t);
  }

  lemma NoneClaimed(ks: seq<Record>, ws: seq<nat>, s: Sys, t: ThreadId)
    requires |ks| == |ws| && s.cpus == Cpus(ks, ws) && t < HANDOFF_PARKED - 1
    requires forall d :: 0 <= d < |ws| ==> ws[d] != Tag(t)
    ensures !TaggedAnywhere(s, t) && Untag(s, t) == s
  {
    var all, untagged := s.cpus, Untag(s, t).cpus;
    forall d | 0 <= d < |ws| ensures all[d].handoff != Tagged(t) && untagged[d] == all[d] {
      ClaimFindsExactly(ws[d], t);
    }
    assert untagged == all;
  }

  /** At most one slot holds a parked thread tagged. */
  lemma TaggedOnce(ks: seq<Record>, ws: seq<nat>, s: Sys, t: ThreadId)
    requires |ks| == |ws| && s.cpus == Cpus(ks, ws) && t < HANDOFF_PARKED - 1
    requires Inv(s) && t in s.threads && s.threads[t].park.parked
    ensures forall c, d :: 0 <= c < d < |ws| && ws[c] == Tag(t) ==> ws[d] != Tag(t)
  {
    ParkedPlaces(s, t);
    forall c | 0 <= c < |ws| && ws[c] == Tag(t) ensures s.threads[t].place == HandedOff(c) {
      ClaimFindsExactly(ws[c], t);
      assert s.cpus[c].handoff == Tagged(t);
    }
  }

  lemma CpusUpdated(ks: seq<Record>, ws: seq<nat>, c: nat, k: Record, w: nat)
    requires |ks| == |ws| && c < |ks|
    ensures Cpus(ks[c := k], ws[c := w]) == Cpus(ks, ws)[c := Whole(k, w)]
  {
  }

  class Kernel {
    var threads: map<ThreadId, Thread>
    var nextId: nat
    var reapable: seq<ThreadId>
    var cpus: seq<Record>
    const slots: array<nat>      // one atomic word a processor
    var transit: map<ThreadId, Wakeup>
    var ticks: nat

    predicate Valid()
      reads this
    {
      |cpus| == slots.Length
    }

    function View(): Sys
      requires Valid()
      reads this, slots
    {
      Sys(threads, nextId, reapable, Cpus(cpus, slots[..]), transit, ticks)
    }

    constructor (n: nat)
      ensures Valid() && fresh(slots) && View() == Initial(n) && Inv(View())
    {
      threads, nextId, reapable, transit, ticks := map[], 0, [], map[], 0;
      cpus := seq(n, i => Record(Boot, None, None, false, 0, EmptyQueue));
      slots := new nat[n](_ => NO_THREAD);
      new;
      InitialInv(n);
    }

    /** Scans every processor's `current`. */
    method IsCurrentAnywhere(t: ThreadId) returns (found: bool)
      requires Valid()
      ensures found <==> CurrentAnywhere(View(), t)
    {
      ghost var all := View().cpus;
      var c := 0;
      while c < |cpus|
        invariant 0 <= c <= |cpus|
        invariant forall d :: 0 <= d < c ==> all[d].current != Some(t)
      {
        assert all[c].current == cpus[c].current;
        if cpus[c].current == Some(t) { return true; }
        c := c + 1;
      }
      return false;
    }

    /** Compare-exchanges each slot in turn and stops at the first that held `t` tagged. */
    method ClaimParkedHandoff(t: ThreadId) returns (claimed: bool)
      requires Valid() && t < HANDOFF_PARKED - 1
      requires forall c, d :: 0 <= c < d < slots.Length && slots[c] == Tag(t) ==> slots[d] != Tag(t)
      modifies slots
      ensures claimed <==> TaggedAnywhere(old(View()), t)
      ensures View() == Untag(old(View()), t)
    {
      ghost var was := View();
      var c := 0;
      while c < slots.Length
        invariant 0 <= c <= slots.Length && slots[..] == old(slots[..])
        invariant forall d :: 0 <= d < c ==> slots[d] != Tag(t)
      {
        if slots[c] == Tag(t) {
          slots[c] := t;
          ClaimedIs(cpus, old(slots[..]), slots[..], was, t, c);
          return true;
        }
        c := c + 1;
      }
      NoneClaimed(cpus, slots[..], was, t);
      return false;
    }

    /** The thread's id is new, and the thread is in transit to the caller's queue. */
    method SpawnLocked(ghost c: nat, priority: Priority) returns (id: ThreadId)
      requires Valid() && Inv(View()) && Enabled(View(), Spawn(c, priority))
      modifies this
      ensures Valid() && Exec(old(View()), Spawn(c, priority)) == Next(View()) && Inv(View())
      ensures id !in old(threads) && id in transit
    {
      id := nextId;
      SpawnInv(View(), c, priority);
      assert ThreadInv(View(), id);
      threads := threads[id := Thread(ParkState(false, false), Outside, Ready, priority, None, true, InTransit)];
      transit := transit[id := Wakeup(priority, None)];
      nextId := nextId + 1;
    }

    /** The section of `park` under the lock: commits the park, or consumes a pending wake. */
    method ParkLocked(c: nat) returns (cancelled: bool)
      requires Valid() && Inv(View()) && Enabled(View(), ParkLock(c))
      modifies this`threads
      ensures Valid() && Exec(old(View()), ParkLock(c)) == Next(View()) && Inv(View())
      ensures cancelled <==> Me(old(View()), c).park.pending
    {
      OwnStepInv(View(), ParkLock(c));
      var me := cpus[c].current.value;
      var th := threads[me];
      if th.park.pending {
        threads := threads[me := th.(park := th.park.(pending := false), point := Outside)];
        cancelled := true;
      } else {
        threads := threads[me := th.(park := th.park.(parked := true), point := Committed, state := Blocked)];
        cancelled := false;
      }
    }

    /** The section of `unpark` under the lock. The caller pushes the thread if `push` says so. */
    method UnparkLocked(t: ThreadId) returns (push: Option<Wakeup>)
      requires Valid() && Inv(View()) && nextId < HANDOFF_PARKED
      modifies this`threads, this`transit, slots
      ensures Valid() && View() == UnparkStep(old(View()), t) && Inv(View())
      ensures push.Some? <==> t in transit && t !in old(transit)
      ensures push.Some? ==> push.value == transit[t]
    {
      UnparkInv(View(), t);
      push := None;
      if t !in threads { return; }
      var th := threads[t];
      if !th.park.parked {
        threads := threads[t := th.(park := th.park.(pending := true))];
        return;
      }
      ParkedPlaces(View(), t);
      assert ThreadInv(View(), t) && TransitInv(View(), t);
      TaggedOnce(cpus, slots[..], View(), t);
      threads := threads[t := th.(park := th.park.(parked := false), state := Ready)];
      var current := IsCurrentAnywhere(t);
      if current { return; }
      label L:
      var claimed := ClaimParkedHandoff(t);
      assert claimed <==> TaggedAnywhere(old(View()), t);
      if claimed { return; }
      assert Untag(old@L(View()), t) == old@L(View());
      push := Some(Wakeup(th.priority, th.home));
      transit := transit[t := push.value];
      threads := Put(threads, t, InTransit);
    }

    /** The section of `schedule` under the lock. It cannot reach any of its own panics. */
    method ScheduleLocked(c: nat)
      requires Valid() && Inv(View()) && Enabled(View(), Commit(c)) && nextId < HANDOFF_PARKED
      modifies this`threads, this`reapable, this`cpus, slots
      ensures Valid() && Exec(old(View()), Commit(c)) == Next(View()) && Inv(View())
    {
      CommitInv(View(), c);
      ghost var next' := CommitStep(View(), c).s;
      assert CpuInv(View(), c) && ThreadInv(View(), View().cpus[c].current.value);
      var k := cpus[c];
      assert View().cpus[c] == Whole(k, slots[c]);
      var me, next, exiting := k.current.value, k.pc.next, k.pc.exiting;
      var th := threads[me];
      var word, raw := NO_THREAD, k.handoffPriority;
      if exiting {
        threads := threads[me := th.(state := Exited, place := Nowhere)];
        reapable := reapable + [me];
      } else {
        var parked := th.park.parked;
        var state := if th.state == Exited then Exited else if parked then Blocked else Ready;
        threads := threads[me := th.(state := state, place := HandedOff(c))];
        word, raw := if parked then Tag(me) else me, th.priority.Raw();
        WordRoundTrips(if parked then Tagged(me) else Plain(me));
      }
      threads := threads[next := threads[next].(state := Running, place := OnCpu(c))];
      var k' := k.(pc := Window(me, next), current := Some(next), handoffPriority := raw);
      CpusUpdated(cpus, slots[..], c, k', word);
      assert Whole(k', word) == next'.cpus[c];
      cpus := cpus[c := k'];
      slots[c] := word;
    }

    /** Swaps the slot empty. The caller pushes what it held, unless that is still parked. */
    method PublishSwapped(c: nat) returns (push: Option<ThreadId>)
      requires Valid() && Inv(View()) && Enabled(View(), PublishSwap(c))
      modifies this`threads, this`cpus, slots
      ensures Valid() && Exec(old(View()), PublishSwap(c)) == Next(View()) && Inv(View())
      ensures push == if old(View()).cpus[c].handoff.Plain? then Some(old(View()).cpus[c].handoff.id) else None
    {
      PublishSwapInv(View(), c);
      var k, word := cpus[c], slots[c];
      assert View().cpus[c] == Whole(k, word);
      push := if word == NO_THREAD || word >= HANDOFF_PARKED then None else Some(word);
      var pc := if push.Some? then Publishing(word, PriorityFromRaw(k.handoffPriority)) else Run;
      if word != NO_THREAD {
        threads := if push.Some? then Put(threads, word, Leaving(c)) else Put(threads, word - HANDOFF_PARKED, Nowhere);
      }
      CpusUpdated(cpus, slots[..], c, k.(pc := pc), NO_THREAD);
      cpus := cpus[c := k.(pc := pc)];
      slots[c] := NO_THREAD;
    }

    /** Sorts the reapable ids into those current nowhere and those that must wait. */
    method Sweep() returns (corpses: set<ThreadId>, orphans: seq<ThreadId>)
      requires Valid()
      ensures corpses == Corpses(View())
      ensures orphans == StillCurrent(View(), reapable)
    {
      corpses, orphans := {}, [];
      var i := 0;
      while i < |reapable|
        invariant 0 <= i <= |reapable|
        invariant orphans + StillCurrent(View(), reapable[i..]) == StillCurrent(View(), reapable)
        invariant forall t :: t in corpses <==> t in reapable[..i] && !CurrentAnywhere(View(), t)
      {
        var current := IsCurrentAnywhere(reapable[i]);
        assert reapable[..i + 1] == reapable[..i] + [reapable[i]];
        assert reapable[i..][1..] == reapable[i + 1..];
        if current {
          orphans := orphans + [reapable[i]];
        } else {
          corpses := corpses + {reapable[i]};
        }
        i := i + 1;
      }
      assert reapable[..i] == reapable;
    }

    /** Frees the exited threads that are current nowhere, and keeps the rest queued for later. */
    method ReapLocked(ghost c: nat)
      requires Valid() && Inv(View()) && Enabled(View(), Reap(c))
      modifies this`threads, this`reapable
      ensures Valid() && Exec(old(View()), Reap(c)) == Next(View()) && Inv(View())
    {
      ReapInvKept(View());
      var corpses, orphans := Sweep();
      threads := threads - corpses;
      reapable := orphans;
    }
  }
}
