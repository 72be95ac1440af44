/**
 The descriptors of one queue, linked through their own `next` fields: each is on the free
 list or in a chain, and chains are handed out whole and taken back whole.
 */
module VirtQueue {
  import opened Wrappers
  import opened Seqs

  const NIL: nat := 0xffff
  const U16: nat := 0x1_0000

  datatype Descriptor = Descriptor(addr: nat, len: nat, hasNext: bool, deviceWrites: bool, next: nat)

  datatype UsedElem = UsedElem(id: nat, len: nat)

  predicate FreeLink(desc: seq<Descriptor>, list: seq<nat>, k: nat) {
    k < |list| ==> list[k] < |desc| && desc[list[k]].next == (if k + 1 < |list| then list[k + 1] else NIL)
  }

  /** `list` is what following `next` from `head` visits. */
  ghost predicate FreeLinked(desc: seq<Descriptor>, head: nat, list: seq<nat>) {
    && head == (if list == [] then NIL else list[0])
    && forall k: nat {:trigger FreeLink(desc, list, k)} :: FreeLink(desc, list, k)
  }

  lemma FreeInRange(desc: seq<Descriptor>, head: nat, list: seq<nat>)
    requires FreeLinked(desc, head, list)
    ensures forall k :: 0 <= k < |list| ==> list[k] < |desc|
  {
    forall k: nat | k < |list| ensures list[k] < |desc| {
      assert FreeLink(desc, list, k);
    }
  }

  predicate ChainLink(desc: seq<Descriptor>, chain: seq<nat>, k: nat) {
    k < |chain| ==>
      && chain[k] < |desc|
      && desc[chain[k]].hasNext == (k + 1 < |chain|)
      && (k + 1 < |chain| ==> desc[chain[k]].next == chain[k + 1])
  }

  /** `chain` is what a device starting at its head walks. */
  ghost predicate ChainLinked(desc: seq<Descriptor>, chain: seq<nat>) {
    forall k: nat {:trigger ChainLink(desc, chain, k)} :: ChainLink(desc, chain, k)
  }

  ghost predicate AllLinked(desc: seq<Descriptor>, chains: map<nat, seq<nat>>) {
    forall h {:trigger ChainLinked(desc, chains[h])} :: h in chains ==> ChainLinked(desc, chains[h])
  }

  predicate ChainOwned(size: nat, owner: map<nat, nat>, h: nat, chain: seq<nat>) {
    && chain != [] && chain[0] == h && NoDup(chain)
    && forall k {:trigger chain[k]} :: 0 <= k < |chain| ==> chain[k] < size && chain[k] in owner && owner[chain[k]] == h
  }

  predicate Placed(size: nat, owner: map<nat, nat>, list: seq<nat>, chains: map<nat, seq<nat>>, d: nat) {
    && (d in list ==> d < size && d !in owner)
    && (d < size && d !in owner ==> d in list)
    && (d in owner ==> owner[d] in chains && d in chains[owner[d]])
  }

  /** Each descriptor is on the free list, once, or in exactly one chain, once. */
  ghost predicate Partition(size: nat, owner: map<nat, nat>, list: seq<nat>, chains: map<nat, seq<nat>>) {
    && NoDup(list)
    && (forall h {:trigger ChainOwned(size, owner, h, chains[h])} :: h in chains ==>
        ChainOwned(size, owner, h, chains[h]))
    && (forall d {:trigger Placed(size, owner, list, chains, d)} :: Placed(size, owner, list, chains, d))
  }

  // ---- Taking a chain, on values ----

  predicate Linked(d: seq<Descriptor>, list: seq<nat>, k: nat) {
    k + 1 < |list| && list[k] < |d| && d[list[k]].hasNext && d[list[k]].next == list[k + 1]
  }

  predicate SameUnless(d: seq<Descriptor>, d': seq<Descriptor>, taken: seq<nat>, x: nat) {
    x < |d| && x < |d'| && x !in taken ==> d'[x] == d[x]
  }

  ghost predicate SameBut(d: seq<Descriptor>, d': seq<Descriptor>, taken: seq<nat>) {
    |d'| == |d| && forall x: nat {:trigger SameUnless(d, d', taken, x)} :: SameUnless(d, d', taken, x)
  }

  /** The first `i` free descriptors taken, all but the last of them linked to their successor. */
  ghost predicate Linking(d0: seq<Descriptor>, d: seq<Descriptor>, list: seq<nat>, i: nat)
    requires i <= |list| && forall k :: 0 <= k < |list| ==> list[k] < |d0|
  {
    && SameBut(d0, d, list[..i])
    && (forall k: nat {:trigger Linked(d, list, k)} :: k + 1 < i ==> Linked(d, list, k))
    && (i > 0 ==> d[list[i - 1]] == d0[list[i - 1]])
  }

  /** Taking one more descriptor links the one before it to it. */
  function Relink(d: seq<Descriptor>, list: seq<nat>, i: nat): seq<Descriptor>
    requires i < |list| && (i > 0 ==> list[i - 1] < |d|)
  {
    if i == 0 then d else d[list[i - 1] := d[list[i - 1]].(hasNext := true, next := list[i])]
  }

  lemma LinkStep(d0: seq<Descriptor>, d: seq<Descriptor>, list: seq<nat>, i: nat)
    requires NoDup(list) && i < |list| && forall k :: 0 <= k < |list| ==> list[k] < |d0|
    requires Linking(d0, d, list, i)
    ensures d[list[i]] == d0[list[i]] && Linking(d0, Relink(d, list, i), list, i + 1)
  {
    assert list[..i + 1] == list[..i] + [list[i]];
    assert SameUnless(d0, d, list[..i], list[i]);
    var d', taken := Relink(d, list, i), list[..i + 1];
    forall x: nat ensures SameUnless(d0, d', taken, x) {
      assert SameUnless(d0, d, list[..i], x);
    }
    forall k: nat | k + 1 < i + 1 ensures Linked(d', list, k) {
      assert k + 1 < i ==> Linked(d, list, k);
    }
  }

  /** The finished chain walks the taken descriptors, and the list goes on behind them. */
  lemma TakenLinks(d0: seq<Descriptor>, d: seq<Descriptor>, list: seq<nat>, n: nat)
    requires NoDup(list) && 0 < n <= |list| && FreeLinked(d0, list[0], list)
    requires forall k :: 0 <= k < |list| ==> list[k] < |d0|
    requires Linking(d0, d, list, n)
    ensures var d' := d[list[n - 1] := d[list[n - 1]].(hasNext := false, next := 0)];
            && ChainLinked(d', list[..n])
            && FreeLinked(d', if n < |list| then list[n] else NIL, list[n..])
            && SameBut(d0, d', list[..n])
  {
    var d' := d[list[n - 1] := d[list[n - 1]].(hasNext := false, next := 0)];
    var chain, rest := list[..n], list[n..];
    forall k: nat ensures ChainLink(d', chain, k) {
      assert k + 1 < n ==> Linked(d, list, k);
    }
    forall x: nat ensures SameUnless(d0, d', chain, x) {
      assert SameUnless(d0, d, chain, x);
    }
    forall k: nat ensures FreeLink(d', rest, k) {
      assert FreeLink(d0, list, n + k);
      if k < |rest| {
        assert rest[k] == list[n + k] && list[n + k] !in chain;
        assert SameUnless(d0, d', chain, list[n + k]);
      }
    }
  }

  function TakenOwner(owner: map<nat, nat>, taken: seq<nat>, head: nat): map<nat, nat> {
    map d | d in owner.Keys + ToSet(taken) :: if d in taken then head else owner[d]
  }

  lemma TakenPartition(size: nat, owner: map<nat, nat>, list: seq<nat>, chains: map<nat, seq<nat>>, n: nat)
    requires Partition(size, owner, list, chains) && 0 < n <= |list|
    ensures list[0] !in chains
    ensures Partition(size, TakenOwner(owner, list[..n], list[0]), list[n..], chains[list[0] := list[..n]])
  {
    var owner', chains' := TakenOwner(owner, list[..n], list[0]), chains[list[0] := list[..n]];
    assert list == list[..n] + list[n..];
    assert Placed(size, owner, list, chains, list[0]);
    assert list[0] in chains ==> ChainOwned(size, owner, list[0], chains[list[0]]);
    forall d ensures Placed(size, owner', list[n..], chains', d) {
      assert Placed(size, owner, list, chains, d);
      assert d in list[n..] ==> d !in list[..n];
    }
    forall h | h in chains' ensures ChainOwned(size, owner', h, chains'[h]) {
      if h != list[0] {
        var chain := chains[h];
        assert ChainOwned(size, owner, h, chain);
        forall k | 0 <= k < |chain| ensures chain[k] < size && chain[k] in owner' && owner'[chain[k]] == h {
          assert Placed(size, owner, list, chains, chain[k]);
        }
      } else {
        forall k | 0 <= k < n ensures list[..n][k] < size && list[..n][k] in owner' {
          assert Placed(size, owner, list, chains, list[k]);
        }
      }
    }
  }

  lemma AllFree(n: nat)
    ensures Partition(n, map[], seq(n, (i: nat) => i), map[])
  {
    var list := seq(n, (i: nat) => i);
    forall d: nat ensures Placed(n, map[], list, map[], d) {
      assert d < n ==> list[d] == d;
    }
  }

  /** A chain none of whose descriptors changed still links. */
  lemma ChainKept(d: seq<Descriptor>, d': seq<Descriptor>, taken: seq<nat>, chain: seq<nat>)
    requires ChainLinked(d, chain) && SameBut(d, d', taken)
    requires forall x :: x in chain ==> x !in taken
    ensures ChainLinked(d', chain)
  {
    forall k: nat ensures ChainLink(d', chain, k) {
      assert ChainLink(d, chain, k);
      assert k < |chain| ==> chain[k] in chain && SameUnless(d, d', taken, chain[k]);
    }
  }

  lemma Untaken(size: nat, owner: map<nat, nat>, list: seq<nat>, chains: map<nat, seq<nat>>, n: nat, h: nat)
    requires Partition(size, owner, list, chains) && n <= |list| && h in chains
    ensures forall x :: x in chains[h] ==> x !in list[..n]
  {
    assert ChainOwned(size, owner, h, chains[h]);
    forall x | x in chains[h] ensures x !in list[..n] {
      assert Placed(size, owner, list, chains, x);
    }
  }

  lemma TakenChains(size: nat, owner: map<nat, nat>, list: seq<nat>, chains: map<nat, seq<nat>>, n: nat,
                    d: seq<Descriptor>, d': seq<Descriptor>)
    requires Partition(size, owner, list, chains) && 0 < n <= |list| && |d| == |d'| == size
    requires AllLinked(d, chains) && ChainLinked(d', list[..n])
    requires SameBut(d, d', list[..n])
    ensures AllLinked(d', chains[list[0] := list[..n]])
  {
    var chains' := chains[list[0] := list[..n]];
    forall h | h in chains' ensures ChainLinked(d', chains'[h]) {
      if h != list[0] {
        Untaken(size, owner, list, chains, n, h);
        assert ChainLinked(d, chains[h]);
        ChainKept(d, d', list[..n], chains[h]);
      }
    }
  }

  // ---- Giving a chain back, on values ----

  function Blank(next: nat): Descriptor { Descriptor(0, 0, false, false, next) }

  lemma PushFree(d: seq<Descriptor>, head: nat, list: seq<nat>, x: nat)
    requires FreeLinked(d, head, list) && x < |d| && x !in list
    ensures FreeLinked(d[x := Blank(head)], x, [x] + list)
  {
    var list' := [x] + list;
    var d' := d[x := Blank(head)];
    forall k: nat ensures FreeLink(d', list', k) {
      assert k > 0 ==> FreeLink(d, list, k - 1);
      assert 0 < k < |list'| ==> list'[k] == list[k - 1];
    }
  }

  /** The first `c` descriptors of the chain pushed onto the list, the rest as they were. */
  ghost predicate Unlinking(d0: seq<Descriptor>, d: seq<Descriptor>, head: nat, chain: seq<nat>, list: seq<nat>, c: nat)
    requires c <= |chain|
  {
    && SameBut(d0, d, chain[..c])
    && FreeLinked(d, head, Reverse(chain[..c]) + list)
  }

  lemma UnlinkStep(d0: seq<Descriptor>, d: seq<Descriptor>, head: nat, chain: seq<nat>, list: seq<nat>, c: nat)
    requires NoDup(chain) && c < |chain| && chain[c] < |d| && (forall x :: x in chain ==> x !in list)
    requires Unlinking(d0, d, head, chain, list, c)
    ensures d[chain[c]] == d0[chain[c]]
    ensures Unlinking(d0, d[chain[c] := Blank(head)], chain[c], chain, list, c + 1)
  {
    var x, tail := chain[c], Reverse(chain[..c]) + list;
    var d' := d[x := Blank(head)];
    assert SameUnless(d0, d, chain[..c], x);
    assert FreeLinked(d', x, Reverse(chain[..c + 1]) + list) by {
      assert x !in tail by { InReverse(chain[..c]); }
      PushFree(d, head, tail, x);
      PrefixReversed(chain, list, c);
    }
    var taken := chain[..c + 1];
    assert taken == chain[..c] + [x];
    forall y: nat ensures SameUnless(d0, d', taken, y) {
      assert SameUnless(d0, d, chain[..c], y);
    }
  }

  lemma PrefixReversed(chain: seq<nat>, list: seq<nat>, c: nat)
    requires c < |chain|
    ensures Reverse(chain[..c + 1]) + list == [chain[c]] + (Reverse(chain[..c]) + list)
  {
    assert chain[..c + 1] == chain[..c] + [chain[c]];
    ReverseSnoc(chain[..c], chain[c]);
  }

  function FreedOwner(owner: map<nat, nat>, chain: seq<nat>): map<nat, nat> {
    map d | d in owner && d !in chain :: owner[d]
  }

  lemma FreedPartition(size: nat, owner: map<nat, nat>, list: seq<nat>, chains: map<nat, seq<nat>>, h: nat)
    requires Partition(size, owner, list, chains) && h in chains
    ensures Partition(size, FreedOwner(owner, chains[h]), Reverse(chains[h]) + list, chains - {h})
  {
    var chain := chains[h];
    var owner', list', chains' := FreedOwner(owner, chain), Reverse(chain) + list, chains - {h};
    assert ChainOwned(size, owner, h, chain);
    InReverse(chain);
    assert NoDup(list') by {
      forall i, j | 0 <= i < j < |list'| ensures list'[i] != list'[j] {
        if i < |chain| {
          assert Placed(size, owner, list, chains, list'[i]);
          assert list'[i] == chain[|chain| - 1 - i];
        }
      }
    }
    forall d: nat ensures Placed(size, owner', list', chains', d) {
      assert Placed(size, owner, list, chains, d);
    }
    forall g | g in chains' ensures ChainOwned(size, owner', g, chains'[g]) {
      assert ChainOwned(size, owner, g, chains[g]);
      forall k | 0 <= k < |chains[g]| ensures chains[g][k] in owner' {
        assert chains[g][k] !in chain;
      }
    }
  }

  lemma InReverse(s: seq<nat>)
    ensures forall x :: x in Reverse(s) <==> x in s
  {
    forall x | x in s ensures x in Reverse(s) {
      var k :| 0 <= k < |s| && s[k] == x;
      assert Reverse(s)[|s| - 1 - k] == x;
    }
  }

  lemma FreedChains(size: nat, owner: map<nat, nat>, list: seq<nat>, chains: map<nat, seq<nat>>, h: nat,
                    d: seq<Descriptor>, d': seq<Descriptor>)
    requires Partition(size, owner, list, chains) && h in chains && |d| == |d'| == size
    requires AllLinked(d, chains)
    requires SameBut(d, d', chains[h])
    ensures AllLinked(d', chains - {h})
  {
    forall g | g in chains - {h} ensures ChainLinked(d', (chains - {h})[g]) {
      assert ChainOwned(size, owner, g, chains[g]) && ChainOwned(size, owner, h, chains[h]);
      assert ChainLinked(d, chains[g]);
      ChainKept(d, d', chains[h], chains[g]);
    }
  }

  /** Filling a descriptor in moves no link. */
  lemma Relabelled(d: seq<Descriptor>, d': seq<Descriptor>, head: nat, list: seq<nat>, chains: map<nat, seq<nat>>)
    requires |d| == |d'| && forall x :: 0 <= x < |d| ==> d'[x].hasNext == d[x].hasNext && d'[x].next == d[x].next
    requires FreeLinked(d, head, list) && AllLinked(d, chains)
    ensures FreeLinked(d', head, list) && AllLinked(d', chains)
  {
    forall k: nat ensures FreeLink(d', list, k) {
      assert FreeLink(d, list, k);
    }
    forall h | h in chains ensures ChainLinked(d', chains[h]) {
      assert ChainLinked(d, chains[h]);
      forall k: nat ensures ChainLink(d', chains[h], k) {
        assert ChainLink(d, chains[h], k);
      }
    }
  }

  lemma ChainFits(size: nat, owner: map<nat, nat>, h: nat, chain: seq<nat>)
    requires ChainOwned(size, owner, h, chain)
    ensures |chain| <= size
  {
    Pigeonhole(chain, size);
  }

  /** The free-running index after this one: 16 bits, wrapping. */
  function NextIndex(idx: nat): (r: nat)
    requires idx < U16
    ensures r < U16
  {
    if idx + 1 == U16 then 0 else idx + 1
  }

  /** The ring position of a free-running index. */
  function RingSlot(idx: nat, size: nat): (slot: nat)
    requires size > 0
    ensures slot < size
  {
    idx % size
  }

  predicate PowerOfTwo(n: nat) {
    n == 1 || (n > 1 && n % 2 == 0 && PowerOfTwo(n / 2))
  }

  class SplitQueue {
    const size: nat
    const desc: array<Descriptor>
    const inFlight: array<bool>
    const availRing: array<nat>
    const usedRing: array<UsedElem>
    var freeHead: nat
    var free: nat
    var availIdx: nat
    ghost var freeList: seq<nat>
    ghost var chains: map<nat, seq<nat>>
    ghost var owner: map<nat, nat>

    ghost predicate Shape()
      reads this
    {
      && 0 < size < NIL && availIdx < U16
      && desc.Length == inFlight.Length == availRing.Length == usedRing.Length == size
    }

    ghost predicate Valid()
      reads this, desc, inFlight
    {
      && Shape()
      && free == |freeList|
      && FreeLinked(desc[..], freeHead, freeList)
      && Partition(size, owner, freeList, chains)
      && AllLinked(desc[..], chains)
      && (forall h :: 0 <= h < size && inFlight[h] ==> h in chains)
    }

    constructor (n: nat)
      requires 0 < n < NIL && PowerOfTwo(n)
      ensures Valid() && size == n && freeList == seq(n, (i: nat) => i) && chains == map[] && availIdx == 0
      ensures fresh(desc) && fresh(inFlight) && fresh(availRing) && fresh(usedRing)
    {
      size := n;
      desc := new Descriptor[n]((i: nat) => Descriptor(0, 0, false, false, if i + 1 < n then i + 1 else NIL));
      inFlight := new bool[n](i => false);
      availRing := new nat[n](i => 0);
      usedRing := new UsedElem[n](i => UsedElem(0, 0));
      freeHead := 0;
      free := n;
      availIdx := 0;
      freeList := seq(n, (i: nat) => i);
      chains := map[];
      owner := map[];
      new;
      AllFree(n);
    }

    /** The loop of `AllocChain`: links the first `n` descriptors of the list and says what follows them. */
    method LinkTaken(n: nat, ghost list: seq<nat>) returns (next: nat, last: nat)
      requires Shape() && NoDup(list) && 0 < n <= |list| && FreeLinked(desc[..], freeHead, list)
      requires forall k :: 0 <= k < |list| ==> list[k] < size
      modifies desc
      ensures Linking(old(desc[..]), desc[..], list, n)
      ensures last == list[n - 1] && next == if n < |list| then list[n] else NIL
    {
      ghost var d0 := desc[..];
      last := NIL;
      next := freeHead;
      for i := 0 to n
        invariant next == if i < |list| then list[i] else NIL
        invariant last == if i == 0 then NIL else list[i - 1]
        invariant Linking(d0, desc[..], list, i)
      {
        var idx := next;
        ghost var before := desc[..];
        assert FreeLink(d0, list, i);
        LinkStep(d0, before, list, i);
        assert before[idx] == desc[idx];
        next := desc[idx].next;
        if last != NIL {
          desc[last] := desc[last].(hasNext := true, next := idx);
        }
        assert desc[..] == Relink(before, list, i);
        last := idx;
      }
    }

    /** Takes a chain off the list and terminates it. */
    method TakeChain(n: nat, ghost list: seq<nat>) returns (next: nat)
      requires Shape() && NoDup(list) && 0 < n <= |list| && FreeLinked(desc[..], freeHead, list)
      modifies desc
      ensures ChainLinked(desc[..], list[..n]) && FreeLinked(desc[..], next, list[n..])
      ensures SameBut(old(desc[..]), desc[..], list[..n])
      ensures list[n - 1] < size && desc[list[n - 1]].next == 0
    {
      ghost var d0 := desc[..];
      FreeInRange(d0, freeHead, list);
      var last;
      next, last := LinkTaken(n, list);
      ghost var before := desc[..];
      TakenLinks(d0, before, list, n);
      desc[last] := desc[last].(hasNext := false, next := 0);
      assert desc[..] == before[list[n - 1] := before[list[n - 1]].(hasNext := false, next := 0)];
    }

    /** Takes the first `n` free descriptors as one chain, or none at all. */
    method AllocChain(n: nat) returns (r: Option<nat>)
      requires Valid()
      modifies this`freeHead, this`free, this`freeList, this`chains, this`owner, desc
      ensures Valid()
      ensures r.None? <==> n == 0 || n > |old(freeList)|
      ensures r.None? ==> freeList == old(freeList) && chains == old(chains) && desc[..] == old(desc[..])
      ensures r.Some? ==> r.value !in old(chains) && r.value == old(freeList)[0]
      ensures r.Some? ==> freeList == old(freeList)[n..] && chains == old(chains)[r.value := old(freeList)[..n]]
      ensures r.Some? ==> old(freeList)[n - 1] < size && desc[old(freeList)[n - 1]].next == 0
    {
      if n == 0 || n > free {
        return None;
      }
      var head := freeHead;
      ghost var list := freeList;
      TakenPartition(size, owner, list, chains, n);
      ghost var d0 := desc[..];
      freeHead := TakeChain(n, list);
      TakenChains(size, owner, list, chains, n, d0, desc[..]);
      free := free - n;
      freeList := list[n..];
      chains := chains[head := list[..n]];
      owner := TakenOwner(owner, list[..n], head);
      r := Some(head);
    }

    /** The loop of `FreeChain`: walks the chain, pushing each descriptor onto the free list. */
    method Unlink(head: nat, ghost chain: seq<nat>, ghost list: seq<nat>) returns (newHead: nat, count: nat)
      requires Shape() && FreeLinked(desc[..], freeHead, list) && ChainLinked(desc[..], chain)
      requires NoDup(chain) && 0 < |chain| <= size && chain[0] == head
      requires forall x :: x in chain ==> x !in list
      modifies desc
      ensures FreeLinked(desc[..], newHead, Reverse(chain) + list) && count == |chain|
      ensures SameBut(old(desc[..]), desc[..], chain)
    {
      ghost var d0 := desc[..];
      var idx := head;
      newHead := freeHead;
      count := 0;
      assert Reverse(chain[..0]) + list == list;
      while count < size
        invariant count < |chain| && idx == chain[count]
        invariant Unlinking(d0, desc[..], newHead, chain, list, count)
      {
        assert ChainLink(d0, chain, count);
        var d := desc[idx];
        ghost var before := desc[..];
        UnlinkStep(d0, before, newHead, chain, list, count);
        assert before[idx] == d;
        desc[idx] := Descriptor(0, 0, false, false, newHead);
        assert desc[..] == before[idx := Blank(newHead)];
        newHead := idx;
        count := count + 1;
        if !d.hasNext {
          assert chain[..count] == chain;
          return;
        }
        idx := d.next;
      }
    }

    /** Gives a whole chain back. */
    method FreeChain(head: nat)
      requires Valid() && head in chains
      modifies this`freeHead, this`free, this`freeList, this`chains, this`owner, desc, inFlight
      ensures Valid()
      ensures freeList == Reverse(old(chains)[head]) + old(freeList) && chains == old(chains) - {head}
      ensures forall h :: 0 <= h < size ==> inFlight[h] == (old(inFlight[h]) && h != head)
    {
      ghost var chain, d0 := chains[head], desc[..];
      assert ChainOwned(size, owner, head, chain) && ChainLinked(desc[..], chain);
      ChainFits(size, owner, head, chain);
      FreedPartition(size, owner, freeList, chains, head);
      Untaken(size, owner, freeList, chains, |freeList|, head);
      assert freeList[..|freeList|] == freeList;
      var count;
      freeHead, count := Unlink(head, chain, freeList);
      FreedChains(size, owner, freeList, chains, head, d0, desc[..]);
      free := free + count;
      inFlight[head] := false;
      freeList := Reverse(chain) + freeList;
      owner := FreedOwner(owner, chain);
      chains := chains - {head};
    }

    /** Fills in a descriptor, leaving the chain it is part of linked as it was. */
    method Describe(idx: nat, addr: nat, len: nat, deviceWrites: bool)
      requires Valid() && idx < size && idx !in freeList
      modifies desc
      ensures Valid() && desc[idx] == old(desc[idx]).(addr := addr, len := len, deviceWrites := deviceWrites)
      ensures forall x :: 0 <= x < size && x != idx ==> desc[x] == old(desc[x])
    {
      ghost var d0 := desc[..];
      desc[idx] := desc[idx].(addr := addr, len := len, deviceWrites := deviceWrites);
      Relabelled(d0, desc[..], freeHead, freeList, chains);
    }

    method NextInChain(idx: nat) returns (r: Option<nat>)
      requires Valid() && idx < size
      ensures r == if desc[idx].hasNext then Some(desc[idx].next) else None
      ensures forall h, k :: h in chains && 0 <= k < |chains[h]| && chains[h][k] == idx ==>
                r == if k + 1 < |chains[h]| then Some(chains[h][k + 1]) else None
    {
      r := if desc[idx].hasNext then Some(desc[idx].next) else None;
      forall h, k | h in chains && 0 <= k < |chains[h]| && chains[h][k] == idx
        ensures r == if k + 1 < |chains[h]| then Some(chains[h][k + 1]) else None
      {
        assert ChainLinked(desc[..], chains[h]);
        assert ChainLink(desc[..], chains[h], k);
      }
    }

    /** Hands a chain to the device: its head goes into the slot its index wraps to. */
    method Publish(head: nat) returns (idx: nat)
      requires Valid() && head in chains && head < size
      modifies this`availIdx, inFlight, availRing
      ensures Valid() && idx == availIdx == NextIndex(old(availIdx))
      ensures availRing[..] == old(availRing[..])[RingSlot(old(availIdx), size) := head]
      ensures inFlight[..] == old(inFlight[..])[head := true]
    {
      inFlight[head] := true;
      availRing[RingSlot(availIdx, size)] := head;
      availIdx := NextIndex(availIdx);
      idx := availIdx;
    }

    /** Takes a completion of a chain in flight, once. */
    method TakeUsed(slot: nat) returns (r: Option<(nat, nat)>)
      requires Valid()
      modifies inFlight
      ensures Valid()
      ensures r.Some? <==> old(usedRing[RingSlot(slot, size)].id < size && inFlight[usedRing[RingSlot(slot, size)].id])
      ensures r.Some? ==>
        r.value == (usedRing[RingSlot(slot, size)].id, usedRing[RingSlot(slot, size)].len) && r.value.0 in chains
      ensures r.Some? ==> inFlight[..] == old(inFlight[..])[r.value.0 := false]
      ensures r.None? ==> inFlight[..] == old(inFlight[..])
    {
      var elem := usedRing[RingSlot(slot, size)];
      if elem.id >= size || !inFlight[elem.id] {
        return None;
      }
      inFlight[elem.id] := false;
      r := Some((elem.id, elem.len));
    }

    method IngestUsedSlot(slot: nat, elem: UsedElem) returns (ok: bool)
      requires Valid()
      modifies usedRing
      ensures Valid() && ok == (slot < size)
      ensures usedRing[..] == if ok then old(usedRing[..])[slot := elem] else old(usedRing[..])
    {
      ok := slot < size;
      if ok {
        usedRing[slot] := elem;
      }
    }
  }
}
