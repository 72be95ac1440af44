/** Frames of memory, and an address space that owns the frames it takes. */
module VmSpace {
  import opened Seqs
  import opened Wrappers
  import opened Elf

  const PAGE_SIZE: nat := 4096
  const USER_MIN: nat := 0x1000
  const USER_MAX: nat := 0x8000_0000_0000

  datatype MapError = OutOfFrames | AlreadyMapped | NotUserAddress | NotMapped

  datatype Page = Page(frame: nat, writable: bool, executable: bool)

  type Bytes = seq<Byte>

  function Zeroes(): Bytes { seq(4096, i => 0) }

  /** The frame allocator: a pool of free frames, and every frame's contents, whoever has it. */
  class Ram {
    var pool: seq<nat>
    var mem: map<nat, Bytes>

    ghost predicate Valid()
      reads this
    {
      NoDup(pool) && (forall f :: f in pool ==> f in mem) && (forall f :: f in mem ==> |mem[f]| == 4096)
    }

    ghost function Taken(): set<nat>
      reads this
    {
      set f | f in mem && f !in pool
    }

    constructor (frames: map<nat, Bytes>, order: seq<nat>)
      requires NoDup(order) && (forall f :: f in order ==> f in frames)
      requires forall f :: f in frames ==> |frames[f]| == 4096
      ensures Valid() && pool == order && mem == frames
    {
      pool := order;
      mem := frames;
    }

    /** A frame nobody has, with whatever its last owner left in it, or nothing. */
    method Alloc() returns (r: Option<nat>)
      requires Valid()
      modifies this`pool
      ensures Valid()
      ensures r.None? ==> Taken() == old(Taken()) && pool == []
      ensures r.Some? ==> r.value in mem && r.value !in old(Taken()) && Taken() == old(Taken()) + {r.value}
      ensures |pool| == |old(pool)| - (if r.Some? then 1 else 0)
    {
      if pool == [] {
        return None;
      }
      var f := pool[0];
      assert pool == [f] + pool[1..];
      pool := pool[1..];
      assert f !in pool;
      r := Some(f);
    }

    method Free(f: nat)
      requires Valid() && f in Taken()
      modifies this`pool
      ensures Valid() && Taken() == old(Taken()) - {f}
    {
      pool := [f] + pool;
    }

    /** Overwrites part of a frame. */
    method Write(f: nat, off: nat, d: Bytes)
      requires Valid() && f in mem && off + |d| <= 4096
      modifies this`mem
      ensures Valid() && Taken() == old(Taken())
      ensures mem == old(mem)[f := Splice(old(mem)[f], off, d)]
    {
      mem := mem[f := Splice(mem[f], off, d)];
    }
  }

  function Splice(page: Bytes, off: nat, d: Bytes): (r: Bytes)
    requires off + |d| <= |page|
    ensures |r| == |page|
    ensures forall i :: 0 <= i < |page| ==> r[i] == if off <= i < off + |d| then d[i - off] else page[i]
  {
    page[..off] + d + page[off + |d|..]
  }

  /** A page's frame is one the space owns, and no other page has it. */
  ghost predicate PagesOk(pages: map<nat, Page>, owned: seq<nat>) {
    && (forall n :: n in pages ==> pages[n].frame in owned)
    && (forall n, m :: n in pages && m in pages && n != m ==> pages[n].frame != pages[m].frame)
  }

  /** A frame of the space's own that no page has. */
  predicate Unused(pages: map<nat, Page>, owned: seq<nat>, frame: nat) {
    frame in owned && forall m :: m in pages ==> pages[m].frame != frame
  }

  lemma PagesKept(pages: map<nat, Page>, owned: seq<nat>, owned': seq<nat>)
    requires PagesOk(pages, owned) && owned <= owned'
    ensures PagesOk(pages, owned')
  {
  }

  lemma PageAdded(pages: map<nat, Page>, owned: seq<nat>, n: nat, page: Page)
    requires PagesOk(pages, owned) && Unused(pages, owned, page.frame)
    ensures PagesOk(pages[n := page], owned)
  {
  }

  lemma Remapped(pages: map<nat, Page>, n: nat, page: Page)
    ensures (pages - {n})[n := page] == pages[n := page]
  {
  }

  type TableKey = (nat, nat)

  /** The intermediate table of a level that a page needs. */
  function TableAt(level: nat, n: nat): TableKey {
    (level, n / (if level == 3 then 0x800_0000 else if level == 2 then 0x4_0000 else 512))
  }

  function TablesOf(n: nat): set<TableKey> {
    {TableAt(3, n), TableAt(2, n), TableAt(1, n)}
  }

  /** A table is in a frame of the space's own, and neither the root nor another table is in it. */
  ghost predicate TablesOk(tables: map<TableKey, nat>, owned: seq<nat>, root: nat) {
    && (forall k :: k in tables ==> tables[k] in owned && tables[k] != root)
    && (forall j, k :: j in tables && k in tables && j != k ==> tables[j] != tables[k])
  }

  predicate HasTables(tables: map<TableKey, nat>, n: nat) {
    TableAt(3, n) in tables && TableAt(2, n) in tables && TableAt(1, n) in tables
  }

  /** `tables'` is `tables` with at most tables of page `n` added. */
  predicate Widened(tables: map<TableKey, nat>, tables': map<TableKey, nat>, n: nat) {
    tables.Keys <= tables'.Keys <= tables.Keys + TablesOf(n)
  }

  predicate IsUserPage(n: nat) { USER_MIN <= n * PAGE_SIZE < USER_MAX }

  /** Every table there was is where it was, and the new ones are in frames nobody had. */
  predicate NewTables(tables: map<TableKey, nat>, tables': map<TableKey, nat>, taken: set<nat>) {
    && tables.Keys <= tables'.Keys
    && forall k :: k in tables' ==> if k in tables then tables'[k] == tables[k] else tables'[k] !in taken
  }

  /** One more table of page `n`, or none. */
  lemma OneMoreTable(t0: map<TableKey, nat>, t1: map<TableKey, nat>, t2: map<TableKey, nat>, taken: set<nat>,
                     taken1: set<nat>, n: nat, key: TableKey)
    requires Widened(t0, t1, n) && NewTables(t0, t1, taken) && key in TablesOf(n)
    requires t1.Keys <= t2.Keys <= t1.Keys + {key} && NewTables(t1, t2, taken1) && taken <= taken1
    ensures Widened(t0, t2, n) && NewTables(t0, t2, taken)
  {
  }

  predicate PageReached(pages: map<nat, Page>, tables: map<TableKey, nat>, n: nat) {
    n in pages ==> IsUserPage(n) && HasTables(tables, n)
  }

  /** Every page is a user page with its tables there. */
  ghost predicate Reached(pages: map<nat, Page>, tables: map<TableKey, nat>) {
    forall n: nat {:trigger PageReached(pages, tables, n)} :: PageReached(pages, tables, n)
  }

  /** More tables and fewer pages leave the pages reached. */
  lemma StillReached(pages: map<nat, Page>, tables: map<TableKey, nat>, pages': map<nat, Page>,
                     tables': map<TableKey, nat>)
    requires Reached(pages, tables) && tables.Keys <= tables'.Keys
    requires forall n: nat :: n in pages' ==> n in pages || (IsUserPage(n) && HasTables(tables', n))
    ensures Reached(pages', tables')
  {
    forall n: nat ensures PageReached(pages', tables', n) {
      assert PageReached(pages, tables, n);
    }
  }

  class Space {
    const ram: Ram
    const root: nat
    var owned: seq<nat>
    var tables: map<TableKey, nat>
    var pages: map<nat, Page>

    /** The frames taken are accounted for, whatever frames the pages name. */
    ghost predicate Sound()
      reads this, ram
    {
      && ram.Valid()
      && NoDup(owned) && root in owned && (forall f :: f in owned ==> f in ram.Taken())
      && TablesOk(tables, owned, root)
      && Reached(pages, tables)
    }

    /** And every page's frame is the space's own, for that page alone. */
    ghost predicate Valid()
      reads this, ram
    {
      Sound() && PagesOk(pages, owned)
    }

    /** Frames the space has or could still take. */
    ghost function Within(): nat
      reads this, ram
    {
      |ram.pool| + |owned|
    }

    /** Frames taken by anyone else. */
    ghost function Others(): set<nat>
      reads this, ram
    {
      ram.Taken() - ToSet(owned)
    }

    constructor (ram: Ram, root: nat)
      requires ram.Valid() && root in ram.Taken()
      ensures Valid() && this.ram == ram && this.root == root
      ensures owned == [root] && pages == map[] && tables == map[]
    {
      this.ram := ram;
      this.root := root;
      owned := [root];
      tables := map[];
      pages := map[];
    }

    /** Takes a frame and records it. */
    method Take() returns (r: Option<nat>)
      requires Sound()
      modifies this`owned, ram`pool
      ensures Sound() && Others() == old(Others()) && old(owned) <= owned && old(ram.Taken()) <= ram.Taken()
      ensures r.None? ==> owned == old(owned) && ram.pool == []
      ensures r.Some? ==> owned == old(owned) + [r.value] && r.value !in old(ram.Taken()) && r.value in ram.mem
      ensures Within() == old(Within())
    {
      r := ram.Alloc();
      if r.Some? {
        owned := owned + [r.value];
      }
    }

    /** Creates one table, in a new frame. */
    method AddTable(key: TableKey) returns (ok: bool)
      requires Sound() && key !in tables
      modifies this`owned, this`tables, ram`pool
      ensures Sound() && Others() == old(Others()) && old(owned) <= owned && old(ram.Taken()) <= ram.Taken()
      ensures NewTables(old(tables), tables, old(ram.Taken()))
      ensures tables.Keys == old(tables).Keys + (if ok then {key} else {})
      ensures !ok ==> ram.pool == [] && owned == old(owned)
      ensures Within() == old(Within()) && |owned| <= |old(owned)| + 1
    {
      var f := Take();
      if f.None? {
        return false;
      }
      StillReached(pages, tables, pages, tables[key := f.value]);
      tables := tables[key := f.value];
      ok := true;
    }

    /** Creates one table unless it is there. */
    method EnsureTable(key: TableKey) returns (ok: bool)
      requires Sound()
      modifies this`owned, this`tables, ram`pool
      ensures Sound() && Others() == old(Others()) && old(owned) <= owned && old(ram.Taken()) <= ram.Taken()
      ensures NewTables(old(tables), tables, old(ram.Taken()))
      ensures tables.Keys == old(tables).Keys + (if ok then {key} else {})
      ensures !ok ==> ram.pool == [] && key !in tables && owned == old(owned)
      ensures Within() == old(Within()) && |owned| <= |old(owned)| + 1
      ensures key in old(tables) ==> ok && owned == old(owned) && tables == old(tables)
    {
      ok := true;
      if key !in tables {
        ok := AddTable(key);
      }
    }

    /** Creates the tables a page lacks, each in a new frame of the space's own, until the frames run out. */
    method EnsureTables(n: nat) returns (ok: bool)
      requires Sound()
      modifies this`owned, this`tables, ram`pool
      ensures Sound() && Others() == old(Others()) && old(owned) <= owned
      ensures if ok then HasTables(tables, n) else ram.pool == [] && !HasTables(tables, n)
      ensures Within() == old(Within()) && |owned| <= |old(owned)| + (if ok then 3 else 2)
      ensures NewTables(old(tables), tables, old(ram.Taken())) && Widened(old(tables), tables, n)
      ensures old(HasTables(tables, n)) ==> ok && owned == old(owned) && tables == old(tables)
    {
      ghost var taken, t := ram.Taken(), tables;
      ok := EnsureTable(TableAt(3, n));
      OneMoreTable(t, t, tables, taken, taken, n, TableAt(3, n));
      if !ok {
        return;
      }
      ghost var taken1, t1 := ram.Taken(), tables;
      ok := EnsureTable(TableAt(2, n));
      OneMoreTable(t, t1, tables, taken, taken1, n, TableAt(2, n));
      if !ok {
        return;
      }
      ghost var taken2, t2 := ram.Taken(), tables;
      ok := EnsureTable(TableAt(1, n));
      OneMoreTable(t, t2, tables, taken, taken2, n, TableAt(1, n));
    }

    /** Maps page `n` to any frame; one of the space's own that no page has keeps the pages private. */
    method MapUser(n: nat, frame: nat, writable: bool, executable: bool) returns (r: Result<(), MapError>)
      requires Sound()
      modifies this`owned, this`tables, this`pages, ram`pool
      ensures Sound() && Others() == old(Others()) && old(owned) <= owned
      ensures old(Valid() && Unused(pages, owned, frame)) ==> Valid()
      ensures r.Ok? ==> n !in old(pages) && pages == old(pages)[n := Page(frame, writable, executable)]
      ensures r.Err? ==> pages == old(pages)
      ensures r == Err(NotUserAddress) <==> !IsUserPage(n)
      ensures r == Err(AlreadyMapped) <==> n in old(pages)
      ensures r == Err(OutOfFrames) ==> ram.pool == [] && !old(HasTables(tables, n)) && !HasTables(tables, n)
      ensures r.Ok? ==> HasTables(tables, n)
      ensures Within() == old(Within()) && |owned| <= |old(owned)| + (if r == Err(OutOfFrames) then 2 else 3)
      ensures r.Ok? || r == Err(NotUserAddress) || r == Err(AlreadyMapped) || r == Err(OutOfFrames)
      ensures old(HasTables(tables, n)) ==> owned == old(owned) && tables == old(tables)
    {
      assert PageReached(pages, tables, n);
      if n * PAGE_SIZE >= USER_MAX || n * PAGE_SIZE < USER_MIN {
        return Err(NotUserAddress);
      }
      ghost var private := Valid() && Unused(pages, owned, frame);
      ghost var owned0 := owned;
      var ok := EnsureTables(n);
      if private { PagesKept(pages, owned0, owned); }
      if !ok {
        return Err(OutOfFrames);
      }
      assert PageReached(pages, tables, n);
      if n in pages {
        return Err(AlreadyMapped);
      }
      StillReached(pages, tables, pages[n := Page(frame, writable, executable)], tables);
      if private { PageAdded(pages, owned, n, Page(frame, writable, executable)); }
      pages := pages[n := Page(frame, writable, executable)];
      r := Ok(());
    }

    /** Maps page `n` to a fresh frame, zeroed. */
    method MapNewPage(n: nat, writable: bool, executable: bool) returns (r: Result<(), MapError>)
      requires Valid()
      modifies this`owned, this`tables, this`pages, ram
      ensures Valid() && Others() == old(Others()) && old(owned) <= owned
      ensures r.Ok? ==> n !in old(pages) && n in pages && pages == old(pages)[n := pages[n]]
      ensures r.Ok? ==> pages[n] == Page(pages[n].frame, writable, executable) && pages[n].frame in ram.mem
      ensures r.Ok? ==> ram.mem[pages[n].frame] == Zeroes() && pages[n].frame !in old(ram.Taken())
      ensures r.Err? ==> pages == old(pages)
      ensures r.Ok? || r == Err(NotUserAddress) || r == Err(AlreadyMapped) || r == Err(OutOfFrames)
      ensures r == Err(NotUserAddress) ==> !IsUserPage(n)
      ensures r == Err(AlreadyMapped) ==> n in old(pages)
      ensures ram.mem.Keys == old(ram.mem).Keys
      ensures forall f :: f in old(ram.Taken()) ==> ram.mem[f] == old(ram.mem)[f]
      ensures Within() == old(Within()) && |owned| <= |old(owned)| + 4
      ensures r == Err(OutOfFrames) ==> ram.pool == [] && |owned| <= |old(owned)| + 3
    {
      var f := Take();
      if f.None? {
        return Err(OutOfFrames);
      }
      ram.Write(f.value, 0, Zeroes());
      assert ram.mem[f.value] == Zeroes();
      r := MapUser(n, f.value, writable, executable);
    }

    /** Takes a page out of the tables and says what frame it had; the tables stay. */
    method Unmap(n: nat) returns (r: Result<nat, MapError>)
      requires Valid()
      modifies this`pages
      ensures Valid() && Others() == old(Others())
      ensures if n in old(pages) then r == Ok(old(pages)[n].frame) else r == Err(NotMapped)
      ensures pages == old(pages) - {n}
    {
      if n !in pages {
        return Err(NotMapped);
      }
      r := Ok(pages[n].frame);
      StillReached(pages, tables, pages - {n}, tables);
      pages := pages - {n};
    }

    /** Unmaps a page and maps it again with other permissions; its tables are there, so that cannot fail half-way. */
    method SetPermissions(n: nat, writable: bool, executable: bool) returns (r: Result<(), MapError>)
      requires Valid()
      modifies this`owned, this`tables, this`pages, ram`pool
      ensures Valid() && Others() == old(Others()) && owned == old(owned) && tables == old(tables)
      ensures Within() == old(Within())
      ensures if n in old(pages) then r.Ok? else r == Err(NotMapped)
      ensures pages == if n !in old(pages) then old(pages)
                       else old(pages)[n := Page(old(pages)[n].frame, writable, executable)]
    {
      assert PageReached(pages, tables, n);
      var frame := Unmap(n);
      if frame.Err? {
        return Err(frame.error);
      }
      r := MapUser(n, frame.value, writable, executable);
      Remapped(old(pages), n, Page(frame.value, writable, executable));
    }

    /** Gives every owned frame back, last first, each exactly once. The space must not be the one in use. */
    method Drop(active: nat)
      requires Sound() && active != root
      modifies this, ram`pool
      ensures ram.Valid() && ram.Taken() == old(Others())
      ensures owned == []
    {
      pages := map[];
      while owned != []
        invariant ram.Valid() && NoDup(owned) && (forall f :: f in owned ==> f in ram.Taken())
        invariant ram.Taken() - ToSet(owned) == old(Others())
        decreases |owned|
      {
        var f := owned[|owned| - 1];
        assert owned == owned[..|owned| - 1] + [f];
        ram.Free(f);
        owned := owned[..|owned| - 1];
        assert f !in owned;
      }
    }
  }

  /** A fresh address space, its root zeroed but for the kernel's half, which is the kernel root's; or nothing. */
  method NewSpace(ram: Ram, kernelRoot: nat) returns (space: Space?)
    requires ram.Valid() && kernelRoot in ram.Taken()
    modifies ram
    ensures ram.Valid() && ram.mem.Keys == old(ram.mem).Keys
    ensures space == null <==> old(ram.pool) == []
    ensures space == null ==> ram.Taken() == old(ram.Taken())
    ensures space != null ==> space.Within() == |old(ram.pool)|
    ensures space != null ==> fresh(space) && space.ram == ram && space.Valid() && space.pages == map[]
    ensures space != null ==> space.owned == [space.root] && space.root !in old(ram.Taken())
    ensures space != null ==> space.Others() == old(ram.Taken()) && space.root in ram.mem
    ensures space != null ==>
      && ram.mem[space.root][..2048] == Zeroes()[..2048]
      && ram.mem[space.root][2048..] == old(ram.mem)[kernelRoot][2048..]
    ensures forall f :: f in old(ram.Taken()) ==> ram.mem[f] == old(ram.mem)[f]
  {
    var root := ram.Alloc();
    if root.None? {
      return null;
    }
    ram.Write(root.value, 0, Zeroes());
    assert ram.mem[root.value] == Zeroes();
    var half := ram.mem[kernelRoot][2048..];
    ram.Write(root.value, 2048, half);
    assert ram.mem[root.value] == Zeroes()[..2048] + half;
    space := new Space(ram, root.value);
    assert ToSet(space.owned) == {root.value};
  }
}
