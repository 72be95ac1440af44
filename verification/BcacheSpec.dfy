/**
 The write-back buffer cache as a state machine: one step per section run under the cache
 lock, and one per thing the device does to a frame or to the disk, so that a run is any
 interleaving of readers, writers, flushers, evictions, failures and dropped guards.
 */
module BcacheSpec {
  import opened Wrappers

  const SECTORS_PER_BLOCK: nat := 8
  const BLOCK_BYTES: nat := 4096
  const U64_MAX: nat := 0xffff_ffff_ffff_ffff
  const ONLY_DEVICE: nat := 0

  type Block = seq<nat>

  datatype Key = Key(dev: nat, block: nat)

  datatype BcacheError = OutOfRange | PartialBlock | UnknownDevice

  function LbaOf(key: Key): Result<nat, BcacheError> {
    if key.block * SECTORS_PER_BLOCK > U64_MAX then Err(OutOfRange) else Ok(key.block * SECTORS_PER_BLOCK)
  }

  /** The checks `read_block` makes before it touches the cache. */
  function CheckRead(key: Key): Result<nat, BcacheError> {
    if key.dev != ONLY_DEVICE then Err(UnknownDevice) else LbaOf(key)
  }

  /** The checks `write_block` makes before it touches the cache. */
  function CheckWrite(key: Key, data: Block): Result<nat, BcacheError> {
    if key.dev != ONLY_DEVICE then Err(UnknownDevice)
    else if |data| != BLOCK_BYTES then Err(PartialBlock)
    else LbaOf(key)
  }

  datatype SlotState = Free | Clean | Dirty | InFlight

  /** The I/O token outstanding against a slot, held by a fill or a writeback guard. */
  datatype Job = NoJob | Reading(done: Option<bool>) | Writing(done: Option<bool>)

  /** A live reference into a slot's frame: what it was given. */
  datatype Ref = Ref(key: Key, bytes: Block)

  /**
   One slot of the table with its frame and its two flags. `job` is the guard outstanding
   against it, `refs` the references outstanding, and `version` numbers the bytes in the
   frame; the code holds the first two outside the table and keeps no versions.
   */
  datatype Cell = Cell(
    key: Key,
    state: SlotState,
    pins: nat,
    dirtied: bool,
    frame: Block,
    filling: bool,
    failed: bool,
    job: Job,
    refs: multiset<Ref>,
    version: nat)
  {
    predicate Holds(k: Key) { state != Free && key == k }

    predicate Reusable() { (state == Free || state == Clean) && pins == 0 }

    /** Dirty or under writeback: bytes the disk is still owed. */
    predicate Unsynced() { state == Dirty || (state == InFlight && !filling) }

    // The table's mutators; `None` is an assertion that fails.

    function EndIo(to: SlotState): Option<Cell> {
      if to == Free || state != InFlight then None
      else Some(this.(state := if dirtied then Dirty else to, dirtied := false, job := NoJob))
    }

    function BeginIo(): Option<Cell> {
      if state == Clean || state == Dirty then Some(this.(state := InFlight, job := Writing(None))) else None
    }

    function MarkDirty(): Option<Cell> {
      if state == Free then None
      else if state == InFlight then Some(this.(dirtied := true))
      else Some(this.(state := Dirty))
    }

    function Pin(): Option<Cell> {
      if state == Free then None else Some(this.(pins := pins + 1, refs := refs + multiset{Ref(key, frame)}))
    }

    function Unpin(r: Ref): Option<Cell> {
      if pins == 0 then None else Some(this.(pins := pins - 1, refs := refs - multiset{r}))
    }

    function Evict(): Option<Cell> {
      if Reusable() then Some(this.(state := Free, key := Key(0, 0), dirtied := false)) else None
    }

    /** What `insert` puts into a free slot. */
    function Claimed(k: Key): Cell {
      this.(key := k, state := InFlight, pins := 0, dirtied := false, job := Reading(None))
    }
  }

  /** A `sync` in progress: the slots it owes, those the device refused it, and what they held at entry. */
  datatype Sync = Sync(owed: set<nat>, failed: set<nat>, entry: map<nat, (Key, nat)>)

  datatype Sys = Sys(
    cells: seq<Cell>,
    disk: map<Key, Block>,
    durable: map<Key, nat>,          // the newest version each block's disk copy has held
    clock: nat,
    strays: multiset<(Key, Block)>,  // writes the driver gave up on and the device still has
    syncs: map<nat, Sync>)

  function DiskAt(s: Sys, k: Key): Block {
    if k in s.disk then s.disk[k] else seq(BLOCK_BYTES, i => 0)
  }

  function DurableAt(s: Sys, k: Key): nat {
    if k in s.durable then s.durable[k] else 0
  }

  function FreeCell(): Cell {
    Cell(Key(0, 0), Free, 0, false, [], false, false, NoJob, multiset{}, 0)
  }

  function Initial(n: nat, disk: map<Key, Block>): Sys {
    Sys(seq(n, i => FreeCell()), disk, map[], 0, multiset{}, map[])
  }

  // ---- Searching the table ----

  /** Index of the slot holding `k`, or the table's size. */
  function Lookup(cells: seq<Cell>, k: Key): (i: nat)
    ensures i <= |cells|
    ensures i < |cells| ==> cells[i].Holds(k)
    ensures forall j :: 0 <= j < i ==> !cells[j].Holds(k)
  {
    if cells == [] then 0 else if cells[0].Holds(k) then 0 else 1 + Lookup(cells[1..], k)
  }

  function FirstFree(cells: seq<Cell>): (i: nat)
    ensures i <= |cells|
    ensures i < |cells| ==> cells[i].state == Free
    ensures forall j :: 0 <= j < i ==> cells[j].state != Free
  {
    if cells == [] then 0 else if cells[0].state == Free then 0 else 1 + FirstFree(cells[1..])
  }

  function FirstReusable(cells: seq<Cell>): (i: nat)
    ensures i <= |cells|
    ensures i < |cells| ==> cells[i].Reusable()
    ensures forall j :: 0 <= j < i ==> !cells[j].Reusable()
  {
    if cells == [] then 0 else if cells[0].Reusable() then 0 else 1 + FirstReusable(cells[1..])
  }

  // ---- Steps ----

  datatype Outcome = Panic | Refused | Next(s: Sys)

  datatype Step =
    | Claim(key: Key)
    | ReadProgress(i: nat, junk: Block)
    | ReadDone(i: nat, ok: bool, junk: Block)
    | FinishFill(i: nat)
    | DropFill(i: nat)
    | Store(key: Key, data: Block)
    | BeginWriteback(i: nat)
    | WriteProgress(i: nat, junk: Block)
    | WriteDone(i: nat, ok: bool, junk: Block)
    | FinishWriteback(i: nat)
    | DropWriteback(i: nat)
    | DropRef(i: nat, r: Ref)
    | LateProgress(k: Key, bytes: Block, junk: Block)
    | LateLanding(k: Key, bytes: Block)
    | SyncStart(id: nat)
    | SyncFail(id: nat, i: nat)
    | SyncReturn(id: nat)

  function JobAt(s: Sys, i: nat): Job {
    if i < |s.cells| then s.cells[i].job else NoJob
  }

  predicate Enabled(s: Sys, step: Step) {
    match step
    case Claim(key) => CheckRead(key).Ok?
    case Store(key, data) => CheckWrite(key, data).Ok?
    case ReadProgress(i, _) => JobAt(s, i) == Reading(None)
    case ReadDone(i, _, _) => JobAt(s, i) == Reading(None)
    case FinishFill(i) => JobAt(s, i).Reading? && JobAt(s, i).done.Some?
    case DropFill(i) => JobAt(s, i).Reading?
    case BeginWriteback(i) => i < |s.cells|
    case WriteProgress(i, _) => JobAt(s, i) == Writing(None)
    case WriteDone(i, _, _) => JobAt(s, i) == Writing(None)
    case FinishWriteback(i) => JobAt(s, i).Writing? && JobAt(s, i).done.Some?
    case DropWriteback(i) => JobAt(s, i).Writing?
    case DropRef(i, r) => i < |s.cells| && r in s.cells[i].refs
    case LateProgress(k, bytes, _) => (k, bytes) in s.strays
    case LateLanding(k, bytes) => (k, bytes) in s.strays
    case SyncStart(id) => id !in s.syncs
    case SyncFail(id, i) => id in s.syncs && i in s.syncs[id].owed
    case SyncReturn(id) =>
      id in s.syncs && forall i :: i in s.syncs[id].owed && i !in s.syncs[id].failed ==>
        i < |s.cells| ==> !s.cells[i].Unsynced()
  }

  function SetCell(s: Sys, i: nat, c: Cell): Sys
    requires i < |s.cells|
  {
    s.(cells := s.cells[i := c])
  }

  /** Continues with a mutated cell, or panics where the mutator's assertion failed. */
  function With(s: Sys, i: nat, c: Option<Cell>): Outcome
    requires i < |s.cells|
  {
    if c.Some? then Next(SetCell(s, i, c.value)) else Panic
  }

  /** Where `insert` would put `key`: `Ok` of the table's size means it is full. */
  function Insert(cells: seq<Cell>, key: Key): Result<nat, nat> {
    var held := Lookup(cells, key);
    if held < |cells| then Err(held) else Ok(FirstFree(cells))
  }

  datatype Room = Room(s: Sys, i: nat) | Exhausted | Fault

  function Inserted(s: Sys, i: nat, key: Key): Room
    requires i < |s.cells|
  {
    Room(SetCell(s, i, s.cells[i].Claimed(key)), i)
  }

  /**
   Where a block not in the table goes: a free slot, or a full table's first reusable one,
   evicted. An insertion refused straight after an eviction would lose the evicted block for
   nothing; it counts as a fault here.
   */
  function ClaimFreeSlot(s: Sys, key: Key): Room {
    match Insert(s.cells, key)
    case Err(_) => Fault
    case Ok(i) =>
      if i < |s.cells| then Inserted(s, i, key)
      else
        var v := FirstReusable(s.cells);
        if v == |s.cells| then Exhausted
        else
          match s.cells[v].Evict()
          case None => Fault
          case Some(c) =>
            var s' := SetCell(s, v, c.(failed := false));
            match Insert(s'.cells, key)
            case Err(_) => Fault
            case Ok(j) => if j < |s'.cells| then Inserted(s', j, key) else Fault
  }

  function ClaimStep(s: Sys, key: Key): Outcome {
    var i := Lookup(s.cells, key);
    if i < |s.cells| then
      if s.cells[i].state == InFlight && s.cells[i].filling then Refused else With(s, i, s.cells[i].Pin())
    else
      match ClaimFreeSlot(s, key)
      case Fault => Panic
      case Exhausted => Refused
      case Room(s', j) => if j < |s'.cells| then Next(SetCell(s', j, s'.cells[j].(filling := true))) else Panic
  }

  function FinishFillStep(s: Sys, i: nat): Outcome
    requires i < |s.cells| && s.cells[i].job.Reading? && s.cells[i].job.done.Some?
  {
    var ok := s.cells[i].job.done.value;
    match s.cells[i].(filling := false).EndIo(Clean)
    case None => Panic
    case Some(c) =>
      if ok then With(s, i, c.Pin())
      else if c.state != Clean then Panic
      else With(s, i, c.Evict())
  }

  function DropFillStep(s: Sys, i: nat): Outcome
    requires i < |s.cells|
  {
    match s.cells[i].(filling := false).EndIo(Clean)
    case None => Panic
    case Some(c) => With(s, i, c.Evict())
  }

  function Stored(s: Sys, i: nat, c: Cell, data: Block): Outcome
    requires i < |s.cells|
  {
    match c.(frame := data, version := s.clock + 1).MarkDirty()
    case None => Panic
    case Some(c') => Next(SetCell(s, i, c'.(failed := false)).(clock := s.clock + 1))
  }

  function StoreStep(s: Sys, key: Key, data: Block): Outcome {
    var i := Lookup(s.cells, key);
    if i < |s.cells| then
      if s.cells[i].state == InFlight || s.cells[i].pins != 0 then Refused else Stored(s, i, s.cells[i], data)
    else
      match ClaimFreeSlot(s, key)
      case Fault => Panic
      case Exhausted => Refused
      case Room(s', j) =>
        if j >= |s'.cells| then Panic
        else
          match s'.cells[j].EndIo(Clean)
          case None => Panic
          case Some(c) => Stored(s', j, c, data)
  }

  function BeginWritebackStep(s: Sys, i: nat): Outcome
    requires i < |s.cells|
  {
    var c := s.cells[i];
    if c.state != Dirty then Refused else if c.filling then Panic else With(s, i, c.BeginIo())
  }

  function FinishWritebackStep(s: Sys, i: nat): Outcome
    requires i < |s.cells| && s.cells[i].job.Writing? && s.cells[i].job.done.Some?
  {
    var ok := s.cells[i].job.done.value;
    match s.cells[i].EndIo(if ok then Clean else Dirty)
    case None => Panic
    case Some(c) => Next(SetCell(s, i, c.(failed := !ok)))
  }

  /** The slots a `sync` starting now owes durability for. */
  function UnsyncedSlots(s: Sys): set<nat> {
    set i | 0 <= i < |s.cells| && s.cells[i].Unsynced()
  }

  function Exec(s: Sys, step: Step): Outcome
    requires Enabled(s, step)
  {
    match step
    case Claim(key) => ClaimStep(s, key)
    case Store(key, data) => StoreStep(s, key, data)
    case ReadProgress(i, junk) => Next(SetCell(s, i, s.cells[i].(frame := junk)))
    case ReadDone(i, ok, junk) =>
      var c := s.cells[i];
      Next(SetCell(s, i, if ok then c.(frame := DiskAt(s, c.key), version := DurableAt(s, c.key),
          job := Reading(Some(true)))
                         else c.(frame := junk, job := Reading(Some(false)))))
    case FinishFill(i) => FinishFillStep(s, i)
    case DropFill(i) => DropFillStep(s, i)
    case BeginWriteback(i) => BeginWritebackStep(s, i)
    case WriteProgress(i, junk) => Next(s.(disk := s.disk[s.cells[i].key := junk]))
    case WriteDone(i, ok, junk) =>
      var c := s.cells[i];
      var s' := SetCell(s, i, c.(job := Writing(Some(ok))));
      Next(if ok then s'.(disk := s.disk[c.key := c.frame], durable := s.durable[c.key := c.version])
           else s'.(disk := s.disk[c.key := junk], strays := s.strays + multiset{(c.key, c.frame)}))
    case FinishWriteback(i) => FinishWritebackStep(s, i)
    case DropWriteback(i) =>
      var c := s.cells[i];
      With(if c.job.done.None? then s.(strays := s.strays + multiset{(c.key, c.frame)}) else s, i, c.EndIo(Dirty))
    case DropRef(i, r) => With(s, i, s.cells[i].Unpin(r))
    case LateProgress(k, _, junk) => Next(s.(disk := s.disk[k := junk]))
    case LateLanding(k, bytes) =>
      Next(s.(disk := s.disk[k := bytes], strays := s.strays - multiset{(k, bytes)}))
    case SyncStart(id) =>
      var owed := UnsyncedSlots(s);
      var entry := map i | i in owed :: (s.cells[i].key, s.cells[i].version);
      Next(s.(syncs := s.syncs[id := Sync(owed, {}, entry)]))
    case SyncFail(id, i) => Next(s.(syncs := s.syncs[id := s.syncs[id].(failed := s.syncs[id].failed + {i})]))
    case SyncReturn(id) => Next(s.(syncs := s.syncs - {id}))
  }

  // ---- What the cache means ----

  /** The bytes a reader of `k` is owed: the slot's if it holds the block, else the disk's. */
  function View(s: Sys, k: Key): Block {
    var i := Lookup(s.cells, k);
    if i < |s.cells| && !s.cells[i].filling then s.cells[i].frame else DiskAt(s, k)
  }
}
