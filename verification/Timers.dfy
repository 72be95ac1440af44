/**
 The fixed table of outstanding sleeps. A slot is taken by `Register`, cleared by
 `Expire` once its deadline has passed, and released by dropping the `Sleep` early;
 the generation is what tells one registration of a slot from the next.
 */
module Timers {
  import opened RunQueues
  import opened Wrappers

  const CAPACITY: nat := 64
  const U64_MAX: nat := 0xffff_ffff_ffff_ffff

  datatype Timer = Timer(deadline: nat, thread: ThreadId, generation: nat)

  datatype Sleep = Sleep(deadline: nat, slot: Option<nat>, generation: nat)

  datatype SleepError = Full

  type Slots = seq<Option<Timer>>

  /**
   `live` maps the generation of every sleep with a slot, until it is dropped, to
   that sleep and its thread; it is history, kept to say whose entry is whose.
   */
  datatype Table = Table(slots: Slots, generation: nat, live: map<nat, (Sleep, ThreadId)>)

  function EmptyTable(n: nat): Table {
    Table(seq(n, i => None), 0, map[])
  }

  predicate Due(entry: Option<Timer>, now: nat) {
    entry.Some? && now >= entry.value.deadline
  }

  /** Index of the first free slot, or the table's size. */
  function FirstFree(slots: Slots): (i: nat)
    ensures i <= |slots|
    ensures forall j :: 0 <= j < i ==> slots[j].Some?
    ensures i < |slots| ==> slots[i].None?
  {
    if slots == [] then 0 else if slots[0].None? then 0 else 1 + FirstFree(slots[1..])
  }

  lemma FirstFreeIs(slots: Slots, i: nat)
    requires i <= |slots| && (forall j :: 0 <= j < i ==> slots[j].Some?) && (i < |slots| ==> slots[i].None?)
    ensures FirstFree(slots) == i
  {
    var k := FirstFree(slots);
    assert k < |slots| ==> slots[k].None?;
  }

  function Registered(T: Table, deadline: nat, thread: ThreadId): (Result<Sleep, SleepError>, Table) {
    var i := FirstFree(T.slots);
    if i == |T.slots| then (Err(Full), T)
    else
      var sleep := Sleep(deadline, Some(i), T.generation);
      (Ok(sleep), Table(T.slots[i := Some(Timer(deadline, thread, T.generation))],
                        T.generation + 1, T.live[T.generation := (sleep, thread)]))
  }

  /** What one tick leaves in the table. */
  function Expired(slots: Slots, now: nat): (r: Slots)
    ensures |r| == |slots|
    ensures forall i :: 0 <= i < |slots| ==> r[i] == if Due(slots[i], now) then None else slots[i]
  {
    seq(|slots|, i requires 0 <= i < |slots| => if Due(slots[i], now) then None else slots[i])
  }

  /** The threads one tick wakes, in slot order. */
  function Woken(slots: Slots, now: nat): seq<ThreadId> {
    if slots == [] then []
    else (if Due(slots[0], now) then [slots[0].value.thread] else []) + Woken(slots[1..], now)
  }

  function Dropped(T: Table, sleep: Sleep): Table {
    if sleep.slot.None? then T
    else
      var i := sleep.slot.value;
      var live := T.live - {sleep.generation};
      if i < |T.slots| && T.slots[i].Some? && T.slots[i].value.generation == sleep.generation
      then T.(slots := T.slots[i := None], live := live)
      else T.(live := live)
  }

  /** `g`'s entry is in its slot: the sleep has not fired. */
  predicate Holds(T: Table, g: nat)
    requires g in T.live
  {
    var (sleep, thread) := T.live[g];
    && sleep.slot.Some? && sleep.slot.value < |T.slots|
    && T.slots[sleep.slot.value] == Some(Timer(sleep.deadline, thread, g))
  }

  /** Every entry belongs to exactly the live sleep whose generation it carries. */
  predicate Owned(T: Table) {
    && (forall g :: g in T.live ==>
          g < T.generation && T.live[g].0.generation == g
          && T.live[g].0.slot.Some? && T.live[g].0.slot.value < |T.slots|)
    && (forall i :: 0 <= i < |T.slots| && T.slots[i].Some? ==>
          var g := T.slots[i].value.generation; g in T.live && T.live[g].0.slot == Some(i) && Holds(T, g))
  }

  lemma EmptyOwned(n: nat)
    ensures Owned(EmptyTable(n))
  {
  }

  /** Registering takes a free slot, disturbs no other sleep, and is refused only when every slot is taken. */
  lemma RegisteredOwned(T: Table, deadline: nat, thread: ThreadId)
    requires Owned(T)
    ensures var (r, T') := Registered(T, deadline, thread);
      && Owned(T')
      && (r.Err? <==> forall i :: 0 <= i < |T.slots| ==> T.slots[i].Some?)
      && (r.Ok? ==>
            && r.value.generation !in T.live && r.value.generation in T'.live && Holds(T', r.value.generation)
            && (forall g :: g in T.live ==> g in T'.live && T'.live[g] == T.live[g] && (Holds(T', g) <==> Holds(T, g))))
  {
    var (r, T') := Registered(T, deadline, thread);
    if r.Ok? {
      var k := r.value.slot.value;
      assert T'.slots[k].value.generation == T.generation;
      forall i | 0 <= i < |T'.slots| && T'.slots[i].Some? && i != k
        ensures var g := T'.slots[i].value.generation; g in T'.live && T'.live[g].0.slot == Some(i) && Holds(T', g)
      {
        assert T'.slots[i] == T.slots[i];
      }
    }
  }

  /** A tick fires exactly the sleeps that are due and wakes their threads; the others keep their entries. */
  lemma ExpiredOwned(T: Table, now: nat)
    requires Owned(T)
    ensures var T' := T.(slots := Expired(T.slots, now));
      && Owned(T')
      && (forall g :: g in T.live ==> (Holds(T', g) <==> Holds(T, g) && now < T.live[g].0.deadline))
      && (forall g :: g in T.live && Holds(T, g) && !Holds(T', g) ==>
            now >= T.live[g].0.deadline && T.live[g].1 in Woken(T.slots, now))
  {
    WokenExactly(T.slots, now);
    var T' := T.(slots := Expired(T.slots, now));
    forall g | g in T.live && Holds(T, g) && !Holds(T', g)
      ensures now >= T.live[g].0.deadline && T.live[g].1 in Woken(T.slots, now)
    {
      var i := T.live[g].0.slot.value;
      assert Due(T.slots[i], now) && T.slots[i].value.thread == T.live[g].1;
    }
  }

  lemma {:induction false} WokenExactly(slots: Slots, now: nat)
    ensures forall t :: t in Woken(slots, now) <==>
      exists i :: 0 <= i < |slots| && Due(slots[i], now) && slots[i].value.thread == t
    ensures |Woken(slots, now)| <= |slots|
  {
    if slots != [] {
      var rest := slots[1..];
      WokenExactly(rest, now);
      forall t
        ensures t in Woken(slots, now) <==>
          exists i :: 0 <= i < |slots| && Due(slots[i], now) && slots[i].value.thread == t
      {
        if i :| 0 <= i < |slots| && Due(slots[i], now) && slots[i].value.thread == t {
          if i > 0 { assert rest[i - 1] == slots[i]; }
        }
        if t in Woken(rest, now) {
          var j :| 0 <= j < |rest| && Due(rest[j], now) && rest[j].value.thread == t;
          assert slots[j + 1] == rest[j];
        }
      }
    }
  }

  /**
   Dropping a sleep releases its own entry and nobody else's, whether or not it has fired
   and whatever has taken its slot since: slot index and deadline may both coincide.
   */
  lemma DroppedOwned(T: Table, g: nat)
    requires Owned(T) && g in T.live
    ensures var T' := Dropped(T, T.live[g].0);
      && Owned(T') && T'.live == T.live - {g}
      && (forall h :: h in T.live && h != g ==> (Holds(T', h) <==> Holds(T, h)))
      && (forall i :: 0 <= i < |T.slots| ==>
            T'.slots[i] == if T.slots[i].Some? && T.slots[i].value.generation == g then None else T.slots[i])
  {
  }

  // ---- Occupied slots are the live sleeps that have not fired ----

  function Occupied(T: Table): set<nat> {
    set i | 0 <= i < |T.slots| && T.slots[i].Some?
  }

  function Unfired(T: Table): set<nat> {
    set g | g in T.live && Holds(T, g)
  }

  lemma OccupiedCountsUnfired(T: Table)
    requires Owned(T)
    ensures |Occupied(T)| == |Unfired(T)|
  {
    var slotOf := map g | g in Unfired(T) :: T.live[g].0.slot.value;
    forall g, h | g in slotOf && h in slotOf && slotOf[g] == slotOf[h]
      ensures g == h
    {
      assert Holds(T, g) && Holds(T, h);
    }
    ImageSize(slotOf, Occupied(T)) by {
      forall i | i in Occupied(T)
        ensures exists g :: g in slotOf && slotOf[g] == i
      {
        var g := T.slots[i].value.generation;
        assert g in slotOf && slotOf[g] == i;
      }
    }
    assert slotOf.Keys == Unfired(T);
  }

  /** An injective map onto a set has as many keys as the set has elements. */
  lemma {:induction false} ImageSize(m: map<nat, nat>, s: set<nat>)
    requires forall g, h :: g in m && h in m && m[g] == m[h] ==> g == h
    requires forall g :: g in m ==> m[g] in s
    requires forall i :: i in s ==> exists g :: g in m && m[g] == i
    ensures |m.Keys| == |s|
    decreases |s|
  {
    if s == {} {
      assert m.Keys == {};
    } else {
      var i :| i in s;
      var g :| g in m && m[g] == i;
      var m', s' := m - {g}, s - {i};
      forall j | j in s'
        ensures exists h :: h in m' && m'[h] == j
      {
        var h :| h in m && m[h] == j;
        assert h in m' && m'[h] == j;
      }
      ImageSize(m', s');
      assert m.Keys == m'.Keys + {g};
    }
  }

  // ---- The table in place ----

  /** The first `count` cells hold `ids` and the rest are empty. */
  predicate Lists(cells: seq<Option<ThreadId>>, count: nat, ids: seq<ThreadId>) {
    && count == |ids| <= |cells|
    && (forall k :: 0 <= k < count ==> cells[k] == Some(ids[k]))
    && (forall k :: count <= k < |cells| ==> cells[k] == None)
  }

  lemma WokenSnoc(slots: Slots, now: nat, i: nat)
    requires i < |slots|
    ensures Woken(slots[..i + 1], now) ==
      Woken(slots[..i], now) + if Due(slots[i], now) then [slots[i].value.thread] else []
  {
    if i == 0 {
      assert slots[..1][1..] == [];
    } else {
      assert slots[..i + 1][1..] == slots[1..][..i] && slots[..i][1..] == slots[1..][..i - 1];
      WokenSnoc(slots[1..], now, i - 1);
    }
  }

  method Collect(slots: array<Option<Timer>>, now: nat) returns (woken: array<Option<ThreadId>>, count: nat)
    modifies slots
    ensures slots[..] == Expired(old(slots[..]), now)
    ensures fresh(woken) && Lists(woken[..], count, Woken(old(slots[..]), now))
  {
    ghost var was := slots[..];
    woken := new Option<ThreadId>[slots.Length](_ => None);
    count := 0;
    var i := 0;
    while i < slots.Length
      invariant 0 <= i <= slots.Length == woken.Length && fresh(woken)
      invariant slots[i..] == was[i..]
      invariant forall j :: 0 <= j < i ==> slots[j] == if Due(was[j], now) then None else was[j]
      invariant count <= i && Lists(woken[..], count, Woken(was[..i], now))
    {
      assert slots[i] == slots[i..][0] == was[i];
      WokenSnoc(was, now, i);
      if Due(slots[i], now) {
        woken[count] := Some(slots[i].value.thread);
        count := count + 1;
        slots[i] := None;
      }
      assert slots[i + 1..] == was[i + 1..];
      i := i + 1;
    }
    assert was[..i] == was;
  }

  class TimerTable {
    const slots: array<Option<Timer>>
    var generation: nat
    ghost var live: map<nat, (Sleep, ThreadId)>

    ghost function View(): Table
      reads this, slots
    {
      Table(slots[..], generation, live)
    }

    constructor ()
      ensures View() == EmptyTable(CAPACITY) && Owned(View()) && fresh(slots)
    {
      slots := new Option<Timer>[CAPACITY](_ => None);
      generation, live := 0, map[];
      new;
      assert slots[..] == seq(CAPACITY, i => None);
    }

    /** `try_sleep_ticks` once the deadline is known to lie ahead. */
    method Register(deadline: nat, me: ThreadId) returns (r: Result<Sleep, SleepError>)
      requires Owned(View())
      modifies this, slots
      ensures (r, View()) == Registered(old(View()), deadline, me) && Owned(View())
    {
      RegisteredOwned(View(), deadline, me);
      var i := 0;
      while i < slots.Length && slots[i].Some?
        invariant 0 <= i <= slots.Length
        invariant forall j :: 0 <= j < i ==> slots[j].Some?
      {
        i := i + 1;
      }
      FirstFreeIs(slots[..], i);
      if i == slots.Length { return Err(Full); }
      var sleep := Sleep(deadline, Some(i), generation);
      slots[i] := Some(Timer(deadline, me, generation));
      assert slots[..] == old(slots[..])[i := Some(Timer(deadline, me, generation))];
      live := live[generation := (sleep, me)];
      generation := generation + 1;
      return Ok(sleep);
    }

    /** One tick's pass over the table; the collected threads never outgrow the fixed wake array. */
    method Expire(now: nat) returns (woken: array<Option<ThreadId>>, count: nat)
      requires Owned(View())
      modifies slots
      ensures View() == old(View()).(slots := Expired(old(slots[..]), now)) && Owned(View())
      ensures fresh(woken) && Lists(woken[..], count, Woken(old(slots[..]), now))
    {
      ExpiredOwned(View(), now);
      woken, count := Collect(slots, now);
    }

    /** `Sleep::drop`. */
    method Drop(sleep: Sleep)
      requires Owned(View())
      requires sleep.slot.Some? ==> sleep.generation in live && live[sleep.generation].0 == sleep
      modifies this`live, slots
      ensures View() == Dropped(old(View()), sleep) && Owned(View())
    {
      if sleep.slot.None? { return; }
      DroppedOwned(View(), sleep.generation);
      var i := sleep.slot.value;
      live := live - {sleep.generation};
      if slots[i].Some? && slots[i].value.generation == sleep.generation {
        slots[i] := None;
        assert slots[..] == old(slots[..])[i := None];
      }
    }
  }
}
