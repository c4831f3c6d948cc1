/** `MemoryPool.cpp`: blocks of one size, in sets that are made when no block is free and given up when too many are in use. */
module MemoryPools {
  import opened Packing
  import opened BlockSets

  /** The address of a block: its set and its place behind the header. The user gets the address `IDLEN` further. */
  datatype Addr = Addr(id: nat, at: nat)

  datatype Slot = None | Some(s: BlockSet)

  lemma {:induction false} Lowest(s: set<nat>) returns (m: nat)
    requires s != {}
    ensures m in s && forall j :: j in s ==> m <= j
  {
    m :| m in s;
    var rest := s - {m};
    if rest != {} {
      var k := Lowest(rest);
      assert forall j :: j in s ==> j == m || j in rest;
      m := if k < m then k else m;
    } else {
      assert forall j :: j in s ==> j == m || j in rest;
    }
  }

  // ---------- the blocks of a pool ----------

  /**
    The sets of a pool, with the free blocks of every set in the order of its list, the numbers
    of the sets, and the blocks in use by address.
   */
  datatype Sets = Sets(slots: seq<Slot>, free: seq<seq<nat>>, ids: set<nat>, live: map<Addr, nat>)

  /** The sizes of the blocks, and of what they cover behind the header of a set. */
  datatype Sizes = Sizes(r: nat, size: nat) {
    predicate Ok() {
      LINKLEN <= r <= size < TWO32
    }

    function Count(): nat
      requires Ok()
    {
      Blocks(size, r)
    }
  }

  ghost predicate Present(v: Sets) {
    && |v.free| == |v.slots|
    && forall i: nat :: i in v.ids <==> i < |v.slots| && v.slots[i].Some?
  }

  ghost predicate OneOk(z: Sizes, i: nat, s: BlockSet, list: seq<nat>) {
    SetOk(s, i, list) && s.blockSize == z.r && |s.mem| == z.size
  }

  ghost predicate SetsOk(z: Sizes, v: Sets)
    requires Present(v)
  {
    forall i :: i in v.ids ==> OneOk(z, i, v.slots[i].s, v.free[i])
  }

  ghost predicate UsedAt(z: Sizes, v: Sets, i: nat, k: nat)
    requires z.Ok() && Present(v)
  {
    i in v.ids && k < z.Count() && k !in v.free[i]
  }

  ghost predicate LiveAt(z: Sizes, v: Sets, a: Addr)
    requires z.Ok() && Present(v) && a in v.live
  {
    UsedAt(z, v, a.id, v.live[a]) && a.at == Off(v.live[a], z.r)
  }

  ghost predicate InUse(z: Sizes, v: Sets, i: nat, k: nat) {
    var a := Addr(i, Off(k, z.r));
    a in v.live && v.live[a] == k
  }

  /** The blocks in use are those that are in no list. */
  ghost predicate LiveOk(z: Sizes, v: Sets)
    requires z.Ok() && Present(v)
  {
    && (forall a :: a in v.live ==> LiveAt(z, v, a))
    && (forall i: nat, k: nat :: UsedAt(z, v, i, k) ==> InUse(z, v, i, k))
  }

  ghost predicate Good(z: Sizes, v: Sets) {
    z.Ok() && Present(v) && SetsOk(z, v) && LiveOk(z, v)
  }

  lemma LiveSet(z: Sizes, v: Sets, a: Addr)
    requires Good(z, v) && a in v.live
    ensures a.id in v.ids && a.id < |v.slots| && |v.free| == |v.slots| && v.slots[a.id].Some? && OneOk(z, a.id, v.slots[a.id].s, v.free[a.id])
    ensures UsedAt(z, v, a.id, v.live[a]) && a.at == Off(v.live[a], z.r)
  {
    hide OneOk, UsedAt;
    assert LiveAt(z, v, a);
    assert a.id in v.ids by {
      assert UsedAt(z, v, a.id, v.live[a]);
      Used(z, v, a.id, v.live[a]);
    }
  }

  lemma Used(z: Sizes, v: Sets, i: nat, k: nat)
    requires z.Ok() && Present(v)
    ensures UsedAt(z, v, i, k) <==> i in v.ids && k < z.Count() && k !in v.free[i]
  {
  }

  /** What the user of a block has. */
  ghost function ContentOf(z: Sizes, v: Sets, a: Addr): (b: Bytes)
    requires Good(z, v) && a in v.live
    ensures |b| == z.r - IDLEN
  {
    LiveSet(z, v, a);
    Payload(v.slots[a.id].s, v.live[a])
  }

  /** Blocks in use do not overlap. */
  lemma NoOverlap(z: Sizes, v: Sets, a: Addr, b: Addr)
    requires Good(z, v) && a in v.live && b in v.live && a != b && a.id == b.id
    ensures a.at + z.r <= b.at || b.at + z.r <= a.at
    ensures a.at + z.r <= z.size
  {
    hide Off, Blocks, Good;
    LiveSet(z, v, a);
    LiveSet(z, v, b);
    InSet(v.slots[a.id].s, v.live[a]);
    if v.live[a] < v.live[b] {
      Apart(v.live[a], v.live[b], z.r);
    } else if v.live[b] < v.live[a] {
      Apart(v.live[b], v.live[a], z.r);
    }
  }

  // ---------- steps ----------

  /** The blocks `dom` are in use before and after, and their content is the same. */
  ghost predicate Kept(z: Sizes, v: Sets, w: Sets, dom: set<Addr>) {
    Good(z, v) && Good(z, w) && forall a :: a in dom ==> KeptAt(z, v, w, a)
  }

  ghost predicate KeptAt(z: Sizes, v: Sets, w: Sets, a: Addr)
    requires Good(z, v) && Good(z, w)
  {
    a in v.live && a in w.live && v.live[a] == w.live[a] && ContentOf(z, v, a) == ContentOf(z, w, a)
  }

  function AddedTo<T>(s: seq<T>, i: nat, x: T): seq<T>
    requires i <= |s|
  {
    if i == |s| then s + [x] else s[i := x]
  }

  /** The sets with a new one, which has free blocks only. */
  ghost function Added(z: Sizes, v: Sets, id: nat, s: BlockSet): Sets
    requires z.Ok() && |v.slots| == |v.free| && id <= |v.slots|
  {
    Sets(AddedTo(v.slots, id, Some(s)), AddedTo(v.free, id, From(0, z.Count())), v.ids + {id}, v.live)
  }

  lemma AddedGood(z: Sizes, v: Sets, id: nat, s: BlockSet)
    requires Good(z, v) && id <= |v.slots| && id !in v.ids && OneOk(z, id, s, From(0, z.Count()))
    ensures Good(z, Added(z, v, id, s)) && Kept(z, v, Added(z, v, id, s), v.live.Keys)
  {
    var w := Added(z, v, id, s);
    hide OneOk, UsedAt, Off, Blocks;
    AllInList(z.Count());
    forall i: nat, k: nat | i in w.ids ensures UsedAt(z, w, i, k) == (i != id && UsedAt(z, v, i, k)) {
      Used(z, v, i, k);
      Used(z, w, i, k);
    }
    forall i: nat, k: nat | UsedAt(z, w, i, k) ensures InUse(z, w, i, k) {
      Used(z, w, i, k);
      assert UsedAt(z, v, i, k) && InUse(z, v, i, k);
    }
    forall a | a in v.live ensures LiveAt(z, w, a) {
      LiveSet(z, v, a);
    }
    assert Good(z, w);
    forall a | a in v.live ensures KeptAt(z, v, w, a) {
      LiveSet(z, v, a);
    }
  }

  lemma AllInList(n: nat)
    ensures forall k: nat :: k < n ==> k in From(0, n)
  {
    forall k: nat | k < n ensures k in From(0, n) {
      assert From(0, n)[k] == k;
    }
  }

  lemma OffInjective(j: nat, k: nat, r: nat)
    requires r > 0 && Off(j, r) == Off(k, r)
    ensures j == k
  {
    hide Off;
    if j < k {
      Apart(j, k, r);
    } else if k < j {
      Apart(k, j, r);
    }
  }

  /** Set `id` is `s` with the free blocks `list` now, and `live` are the blocks in use. */
  ghost function Changed(v: Sets, id: nat, s: BlockSet, list: seq<nat>, live: map<Addr, nat>): Sets
    requires id < |v.slots| == |v.free|
  {
    Sets(v.slots[id := Some(s)], v.free[id := list], v.ids, live)
  }

  /** `live` has the blocks of set `id` that are not in `list`, and those of the other sets. */
  ghost predicate LiveNow(z: Sizes, v: Sets, id: nat, list: seq<nat>, live: map<Addr, nat>)
    requires z.Ok()
  {
    && (forall a: Addr :: a.id != id ==> (a in live <==> a in v.live) && (a in live ==> live[a] == v.live[a]))
    && (forall a :: a in live && a.id == id ==> live[a] < z.Count() && live[a] !in list && a.at == Off(live[a], z.r))
    && (forall k: nat :: k < z.Count() && k !in list ==> BlockIn(z, id, k, live))
  }

  ghost predicate BlockIn(z: Sizes, id: nat, k: nat, live: map<Addr, nat>) {
    var a := Addr(id, Off(k, z.r));
    a in live && live[a] == k
  }

  lemma ChangedGood(z: Sizes, v: Sets, id: nat, s: BlockSet, list: seq<nat>, live: map<Addr, nat>)
    requires Good(z, v) && id in v.ids && OneOk(z, id, s, list) && LiveNow(z, v, id, list, live)
    ensures Good(z, Changed(v, id, s, list, live))
    ensures forall a :: a in v.live && a.id != id ==> KeptAt(z, v, Changed(v, id, s, list, live), a)
  {
    var w := Changed(v, id, s, list, live);
    hide OneOk, UsedAt, Off, Blocks;
    forall i: nat, k: nat | UsedAt(z, w, i, k) ensures InUse(z, w, i, k) {
      Used(z, w, i, k);
      if i == id {
        assert BlockIn(z, id, k, live);
      } else {
        Used(z, v, i, k);
        assert InUse(z, v, i, k);
      }
    }
    forall a | a in w.live ensures LiveAt(z, w, a) {
      Used(z, w, a.id, w.live[a]);
      if a.id != id {
        LiveSet(z, v, a);
        Used(z, v, a.id, w.live[a]);
      }
    }
    assert Good(z, w);
    forall a | a in v.live && a.id != id ensures KeptAt(z, v, w, a) {
      LiveSet(z, v, a);
    }
  }

  /** A block of the set that was in use and is: its content is the same if that of its number is. */
  lemma SameBlock(z: Sizes, v: Sets, id: nat, s: BlockSet, list: seq<nat>, live: map<Addr, nat>, a: Addr)
    requires Good(z, v) && id in v.ids && OneOk(z, id, s, list) && Good(z, Changed(v, id, s, list, live))
    requires a in v.live && a.id == id && a in live && live[a] == v.live[a] && OneOk(z, id, v.slots[id].s, v.free[id])
    requires v.live[a] < z.Count() && Payload(s, v.live[a]) == Payload(v.slots[id].s, v.live[a])
    ensures KeptAt(z, v, Changed(v, id, s, list, live), a)
  {
    hide Payload, SetOk;
  }

  lemma TakenGood(z: Sizes, v: Sets, id: nat)
    requires Good(z, v) && id in v.ids && v.slots[id].s.next != 0
    ensures SETLEN <= v.slots[id].s.next && v.slots[id].s.next - SETLEN + LINKLEN <= |v.slots[id].s.mem| && v.free[id] != []
    ensures var s := v.slots[id].s;
            var a := Addr(id, s.next - SETLEN);
            var w := Changed(v, id, Taken(s), v.free[id][1..], v.live[a := v.free[id][0]]);
            a !in v.live && Good(z, w) && Kept(z, v, w, v.live.Keys)
  {
    hide Off, Blocks, UsedAt, LiveAt, SetOk, Payload;
    var s, list := v.slots[id].s, v.free[id];
    assert OneOk(z, id, s, list);
    FirstFree(s, id, list);
    TakenOk(s, id, list);
    var k, a := list[0], Addr(id, s.next - SETLEN);
    assert k in list;
    var rest, live := list[1..], v.live[a := k];
    Fresh(z, v, id, k);
    assert OneOk(z, id, Taken(s), rest);
    forall b | b in live && b.id == id ensures live[b] < z.Count() && live[b] !in rest && b.at == Off(live[b], z.r) {
      if b != a {
        LiveSet(z, v, b);
        Used(z, v, id, v.live[b]);
      }
    }
    forall j: nat | j < z.Count() && j !in rest ensures BlockIn(z, id, j, live) {
      if j != k {
        Used(z, v, id, j);
        assert InUse(z, v, id, j);
      }
    }
    ChangedGood(z, v, id, Taken(s), rest, live);
    var w := Changed(v, id, Taken(s), rest, live);
    forall b | b in v.live ensures KeptAt(z, v, w, b) {
      if b.id == id {
        LiveSet(z, v, b);
        Used(z, v, id, v.live[b]);
        SameBlock(z, v, id, Taken(s), rest, live, b);
      }
    }
  }

  /** A free block is not in use. */
  lemma Fresh(z: Sizes, v: Sets, id: nat, k: nat)
    requires Good(z, v) && id in v.ids && k in v.free[id]
    ensures Addr(id, Off(k, z.r)) !in v.live
  {
    hide Off, Blocks, OneOk, UsedAt;
    var a := Addr(id, Off(k, z.r));
    if a in v.live {
      LiveSet(z, v, a);
      Used(z, v, id, v.live[a]);
      OffInjective(v.live[a], k, z.r);
    }
  }

  lemma GivenGood(z: Sizes, v: Sets, a: Addr)
    requires Good(z, v) && a in v.live
    ensures a.id in v.ids && a.at + LINKLEN <= |v.slots[a.id].s.mem| && v.slots[a.id].s.usedNum > 0
    ensures var w := Changed(v, a.id, Given(v.slots[a.id].s, a.at), [v.live[a]] + v.free[a.id], v.live - {a});
            Good(z, w) && Kept(z, v, w, v.live.Keys - {a})
  {
    hide Off, Blocks, UsedAt, LiveAt, SetOk, Payload;
    LiveSet(z, v, a);
    var id, k := a.id, v.live[a];
    var s, list := v.slots[id].s, v.free[id];
    Used(z, v, id, k);
    GivenOk(s, id, list, k);
    var t, more, live := Given(s, a.at), [k] + list, v.live - {a};
    assert OneOk(z, id, t, more);
    forall b | b in live && b.id == id ensures live[b] < z.Count() && live[b] !in more && b.at == Off(live[b], z.r) {
      LiveSet(z, v, b);
      Used(z, v, id, v.live[b]);
    }
    forall j: nat | j < z.Count() && j !in more ensures BlockIn(z, id, j, live) {
      Used(z, v, id, j);
      assert InUse(z, v, id, j);
    }
    ChangedGood(z, v, id, t, more, live);
    var w := Changed(v, id, t, more, live);
    forall b | b in v.live && b != a ensures KeptAt(z, v, w, b) {
      if b.id == id {
        LiveSet(z, v, b);
        Used(z, v, id, v.live[b]);
        SameBlock(z, v, id, t, more, live, b);
      }
    }
  }

  lemma StoredGood(z: Sizes, v: Sets, a: Addr, i: nat, b: Bytes)
    requires Good(z, v) && a in v.live && i + |b| <= z.r - IDLEN
    ensures a.id in v.ids && a.at + IDLEN + i + |b| <= |v.slots[a.id].s.mem|
    ensures var s := v.slots[a.id].s;
            var w := Changed(v, a.id, s.(mem := Put(s.mem, a.at + IDLEN + i, b)), v.free[a.id], v.live);
            Good(z, w) && Kept(z, v, w, v.live.Keys - {a}) && ContentOf(z, w, a) == Put(ContentOf(z, v, a), i, b)
  {
    hide Off, Blocks, UsedAt, LiveAt, SetOk, Payload, Put;
    LiveSet(z, v, a);
    var id, k := a.id, v.live[a];
    var s, list := v.slots[id].s, v.free[id];
    Used(z, v, id, k);
    InSet(s, k);
    StoredOk(s, id, list, k, i, b);
    var t := s.(mem := Put(s.mem, a.at + IDLEN + i, b));
    assert t == Stored(s, k, i, b);
    assert OneOk(z, id, t, list);
    forall c | c in v.live && c.id == id ensures v.live[c] < z.Count() && v.live[c] !in list && c.at == Off(v.live[c], z.r) {
      LiveSet(z, v, c);
      Used(z, v, id, v.live[c]);
    }
    forall j: nat | j < z.Count() && j !in list ensures BlockIn(z, id, j, v.live) {
      Used(z, v, id, j);
      assert InUse(z, v, id, j);
    }
    ChangedGood(z, v, id, t, list, v.live);
    var w := Changed(v, id, t, list, v.live);
    forall c | c in v.live && c != a ensures KeptAt(z, v, w, c) {
      if c.id == id {
        LiveSet(z, v, c);
        Used(z, v, id, v.live[c]);
        OffDiffers(z, v, a, c);
        SameBlock(z, v, id, t, list, v.live, c);
      }
    }
    LiveSet(z, w, a);
  }

  lemma OffDiffers(z: Sizes, v: Sets, a: Addr, b: Addr)
    requires Good(z, v) && a in v.live && b in v.live && a != b && a.id == b.id
    ensures v.live[a] != v.live[b]
  {
    LiveSet(z, v, a);
    LiveSet(z, v, b);
  }

  /** The sets without set `id`. */
  ghost function Dropped(v: Sets, id: nat): Sets
    requires id < |v.slots|
  {
    v.(slots := v.slots[id := None], ids := v.ids - {id})
  }

  /** A set that is given up has no block in use. */
  lemma DroppedGood(z: Sizes, v: Sets, id: nat)
    requires Good(z, v) && id in v.ids && v.slots[id].s.usedNum == 0
    ensures Good(z, Dropped(v, id)) && Kept(z, v, Dropped(v, id), v.live.Keys)
    ensures forall a :: a in v.live ==> a.id != id
  {
    var w := Dropped(v, id);
    hide UsedAt, Off, Blocks, SetOk;
    assert OneOk(z, id, v.slots[id].s, v.free[id]);
    Unused(v.slots[id].s, id, v.free[id]);
    hide OneOk;
    forall a | a in v.live ensures a.id != id && LiveAt(z, w, a) {
      LiveSet(z, v, a);
      Used(z, v, a.id, v.live[a]);
      Used(z, w, a.id, v.live[a]);
    }
    forall i: nat, k: nat | UsedAt(z, w, i, k) ensures InUse(z, w, i, k) {
      Used(z, w, i, k);
      Used(z, v, i, k);
      assert InUse(z, v, i, k);
    }
    assert Good(z, w);
    forall a | a in v.live ensures KeptAt(z, v, w, a) {
      LiveSet(z, v, a);
    }
  }

  lemma KeptTwice(z: Sizes, v: Sets, w: Sets, x: Sets, dom: set<Addr>)
    requires Kept(z, v, w, dom) && Kept(z, w, x, dom)
    ensures Kept(z, v, x, dom)
  {
    hide Good;
    forall a | a in dom ensures KeptAt(z, v, x, a) {
      assert KeptAt(z, v, w, a) && KeptAt(z, w, x, a);
    }
  }

  /** The number of the set stands in front of every block in use. */
  lemma SetNumber(z: Sizes, v: Sets, a: Addr)
    requires Good(z, v) && a in v.live
    ensures a.id in v.ids && a.at + IDLEN <= |v.slots[a.id].s.mem| && Get(v.slots[a.id].s.mem, a.at, IDLEN) == a.id
  {
    hide Off, Blocks, Get, LiveOk, SetsOk;
    LiveSet(z, v, a);
    Used(z, v, a.id, v.live[a]);
    InSet(v.slots[a.id].s, v.live[a]);
    assert MarkedAt(v.slots[a.id].s, a.id, v.live[a]);
  }

  lemma Place(z: Sizes, v: Sets, a: Addr)
    requires Good(z, v) && a in v.live
    ensures a.id in v.ids && a.at + z.r <= |v.slots[a.id].s.mem| && ContentOf(z, v, a) == v.slots[a.id].s.mem[a.at + IDLEN..a.at + z.r]
  {
    hide Off, Blocks, LiveOk, SetsOk;
    LiveSet(z, v, a);
    Used(z, v, a.id, v.live[a]);
    InSet(v.slots[a.id].s, v.live[a]);
  }

  /** A set has no block in use if and only if its count says so. */
  lemma UnusedSet(z: Sizes, v: Sets, id: nat)
    requires Good(z, v) && id in v.ids
    ensures v.slots[id].s.usedNum == 0 <==> forall a :: a in v.live ==> a.id != id
  {
    hide Off, Blocks, SetOk;
    var s, list := v.slots[id].s, v.free[id];
    assert OneOk(z, id, s, list);
    Unused(s, id, list);
    if s.usedNum == 0 {
      DroppedGood(z, v, id);
    } else {
      var k: nat :| k < z.Count() && k !in list;
      assert UsedAt(z, v, id, k);
      assert InUse(z, v, id, k);
    }
  }

  /** Every number up to the last one is that of a set, or can be used again. */
  ghost predicate NumbersOk(n: nat, lastId: nat, recycled: set<nat>, validMax: nat, working: nat, ids: set<nat>) {
    && n == lastId + 1
    && validMax == lastId < TWO32
    && 0 !in ids
    && (forall i :: i in recycled <==> 1 <= i <= lastId && i !in ids)
    && working == |ids|
  }

  /** The least number that can be used again, or a new one. */
  ghost predicate Generated(id: nat, lastId: nat, recycled: set<nat>, lastId': nat, recycled': set<nat>) {
    if recycled != {}
    then id in recycled && (forall j :: j in recycled ==> id <= j) && recycled' == recycled - {id} && lastId' == lastId
    else id == lastId' == lastId + 1 && recycled' == {}
  }

  lemma NumbersAdd(n: nat, lastId: nat, recycled: set<nat>, working: nat, ids: set<nat>, id: nat, lastId': nat, recycled': set<nat>)
    requires NumbersOk(n, lastId, recycled, lastId, working, ids) && lastId + 1 < TWO32
    requires forall i :: i in ids ==> i < n
    requires Generated(id, lastId, recycled, lastId', recycled')
    ensures id !in ids && 1 <= id <= n && id <= lastId' && (id > lastId ==> id == lastId') && (id == n <==> id > lastId)
    ensures lastId <= lastId' && (id <= lastId ==> lastId' == lastId)
    ensures NumbersOk(if id == n then n + 1 else n, lastId', recycled', lastId', working + 1, ids + {id})
  {
  }

  lemma NumbersDrop(n: nat, lastId: nat, recycled: set<nat>, working: nat, ids: set<nat>, id: nat)
    requires NumbersOk(n, lastId, recycled, lastId, working, ids) && id in ids && id < n
    ensures working > 0 && NumbersOk(n, lastId, recycled + {id}, lastId, working - 1, ids - {id})
  {
  }

  predicate HasFree(sets: seq<Slot>, i: nat) {
    i < |sets| && sets[i].Some? && sets[i].s.next != 0
  }

  /** The set that was used last, if it has a free block, or else the first one that has. */
  ghost predicate Chosen(sets: seq<Slot>, last: nat, id: nat) {
    HasFree(sets, id) && (id == last || (!HasFree(sets, last) && forall j: nat :: j < id ==> !HasFree(sets, j)))
  }

  predicate Readable(sets: seq<Slot>, a: Addr, n: nat) {
    a.id < |sets| && sets[a.id].Some? && a.at + IDLEN + n <= |sets[a.id].s.mem|
  }

  lemma Part(mem: Bytes, lo: nat, len: nat, i: nat, n: nat)
    requires lo + len <= |mem| && i + n <= len
    ensures mem[lo + i..lo + i + n] == mem[lo..lo + len][i..i + n]
  {
    var x, y := mem[lo + i..lo + i + n], mem[lo..lo + len][i..i + n];
    assert forall k :: 0 <= k < n ==> x[k] == y[k];
  }

  lemma Numbers(z: Sizes, v: Sets)
    requires Good(z, v)
    ensures |v.free| == |v.slots| && forall i :: i in v.ids ==> i < |v.slots|
  {
  }

  // ---------- the pool ----------

  class MemoryPool {
    const blockSize: nat
    const pageSize: nat
    const expected: nat // unused sets beyond this number are given up
    const minNum: nat
    var lastId: nat
    var recycled: set<nat>
    var sets: seq<Slot>
    var freeMin: nat
    var validMax: nat
    var working: nat
    ghost var view: Sets

    ghost predicate Sized() {
      pageSize > 0 && Z().Ok() && SETLEN < MallocSize(IDLEN + blockSize, minNum, pageSize) < TWO32
    }

    /** The bytes of a set behind its header. */
    ghost function SetSize(): nat
      requires pageSize > 0
    {
      MallocSize(IDLEN + blockSize, minNum, pageSize) - SETLEN
    }

    ghost function Z(): Sizes
      requires pageSize > 0
    {
      Sizes(IDLEN + blockSize, Reach(SetSize(), IDLEN + blockSize))
    }

    ghost predicate Numbered()
      reads this
    {
      freeMin <= lastId == validMax && NumbersOk(|sets|, lastId, recycled, validMax, working, view.ids)
    }

    ghost predicate Valid()
      reads this
    {
      Sized() && Numbered() && view.slots == sets && Good(Z(), view)
    }

    /** The blocks in use. */
    ghost function Live(): set<Addr>
      reads `view
    {
      view.live.Keys
    }

    ghost function Content(a: Addr): (b: Bytes)
      requires Valid() && a in Live()
      reads this
      ensures |b| == blockSize
    {
      ContentOf(Z(), view, a)
    }

    twostate lemma SameContent(dom: set<Addr>)
      requires old(Valid()) && Valid() && Kept(Z(), old(view), view, dom)
      ensures forall b :: b in dom ==> b in old(Live()) && b in Live() && Content(b) == old(Content(b))
    {
      hide Good;
      forall b | b in dom ensures b in old(Live()) && b in Live() && Content(b) == old(Content(b)) {
        assert KeptAt(Z(), old(view), view, b);
      }
    }

    /** A block in use lies in the bytes of its set if and only if these have room for one block. */
    lemma Inside(a: Addr)
      requires Valid() && a in Live()
      ensures a.at + IDLEN + blockSize <= SetSize() <==> IDLEN + blockSize <= SetSize()
    {
      hide Off, Blocks, SetsOk, LiveOk, MallocSize;
      LiveSet(Z(), view, a);
      Used(Z(), view, a.id, view.live[a]);
      InSet(view.slots[a.id].s, view.live[a]);
    }

    /** Sets need a byte behind their header, or their first block is never threaded. */
    constructor (blockSize: nat, pageSize: nat, expected: nat, minNum: nat)
      requires pageSize > 0
      requires LINKLEN <= IDLEN + blockSize < TWO32 && SETLEN < MallocSize(IDLEN + blockSize, minNum, pageSize) < TWO32
      ensures Valid() && Live() == {} && this.blockSize == blockSize && this.expected == expected && lastId == 0
    {
      this.blockSize, this.pageSize, this.expected, this.minNum := blockSize, pageSize, expected, minNum;
      lastId, recycled, sets, freeMin, validMax, working := 0, {}, [None], 0, 0, 0;
      view := Sets([None], [[]], {}, map[]);
    }

    method FindSet() returns (id: nat)
      requires Valid()
      ensures id != 0 ==> Chosen(sets, freeMin, id)
      ensures id == 0 ==> forall j: nat :: !HasFree(sets, j)
    {
      hide SetsOk, LiveOk;
      if sets[freeMin].Some? && sets[freeMin].s.next != 0 {
        return freeMin;
      }
      var i := 1;
      while i <= validMax
        invariant 1 <= i <= |sets|
        invariant forall j: nat :: j < i ==> !HasFree(sets, j)
      {
        if sets[i].Some? && sets[i].s.next != 0 {
          return i;
        }
        i := i + 1;
      }
      return 0;
    }

    method GenBlockId() returns (id: nat)
      modifies `lastId, `recycled
      ensures Generated(id, old(lastId), old(recycled), lastId, recycled)
    {
      if recycled != {} {
        ghost var least := Lowest(recycled);
        id :| id in recycled && forall j :: j in recycled ==> id <= j;
        recycled := recycled - {id};
      } else {
        lastId := lastId + 1;
        id := lastId;
      }
    }

    /** A new set; it has free blocks only. */
    method AddSet() returns (id: nat)
      requires Valid() && lastId + 1 < TWO32
      modifies this
      ensures Valid() && Live() == old(Live()) && Kept(Z(), old(view), view, Live())
      ensures id !in old(view.ids) && view.ids == old(view.ids) + {id} && id > 0 && HasFree(sets, id)
      ensures Generated(id, old(lastId), old(recycled), lastId, recycled)
      ensures freeMin == old(freeMin) && lastId <= old(lastId) + 1
    {
      hide NumbersOk, SetsOk, LiveOk, Kept, SetOk, From, Blocks, UsedAt, Off, Reach, MallocSize, Generated, Present, AllInside;
      Numbers(Z(), view);
      id := GenBlockId();
      NumbersAdd(|sets|, old(lastId), old(recycled), working, view.ids, id, lastId, recycled);
      var r := IDLEN + blockSize;
      var size := MallocSize(r, minNum, pageSize) - SETLEN;
      assert |Copies(0, Reach(size, r))| == Reach(size, r);
      var junk: Bytes :| |junk| == Reach(size, r);
      var s := NewSet(id, r, size, junk);
      AddedGood(Z(), view, id, s);
      FirstFree(s, id, From(0, Z().Count()));
      working := working + 1;
      if |sets| == id {
        sets := sets + [Some(s)];
      } else {
        sets := sets[id := Some(s)];
      }
      if id > validMax {
        validMax := id;
      }
      view := Added(Z(), view, id, s);
    }

    /** The first free block of a set. */
    method Take(id: nat) returns (a: Addr)
      requires Valid() && HasFree(sets, id)
      modifies this
      ensures Valid() && a !in old(Live()) && Live() == old(Live()) + {a} && Kept(Z(), old(view), view, old(Live()))
      ensures a.id == id == freeMin && view.ids == old(view.ids) && lastId == old(lastId)
    {
      hide Kept, SetOk, SetsOk, LiveOk, Blocks, Off, UsedAt;
      TakenGood(Z(), view, id);
      var s := sets[id].s;
      freeMin := id;
      a := Addr(id, s.next - SETLEN);
      sets := sets[id := Some(Taken(s))];
      view := Changed(view, id, Taken(s), view.free[id][1..], view.live[a := view.free[id][0]]);
    }

    /** A new set is made only when no block is free. */
    method Malloc() returns (a: Addr)
      requires Valid() && lastId + 1 < TWO32
      modifies this
      ensures Valid() && a !in old(Live()) && Live() == old(Live()) + {a}
      ensures forall b :: b in old(Live()) ==> Content(b) == old(Content(b))
      ensures lastId <= old(lastId) + 1
      ensures if exists j: nat :: HasFree(old(sets), j) then Chosen(old(sets), old(freeMin), a.id) && view.ids == old(view.ids)
              else a.id !in old(view.ids) && view.ids == old(view.ids) + {a.id}
    {
      hide Good, Kept, NumbersOk, Generated;
      var id := FindSet();
      if id == 0 {
        id := AddSet();
        ghost var between := view;
        a := Take(id);
        KeptTwice(Z(), old(view), between, view, old(Live()));
      } else {
        a := Take(id);
      }
      SameContent(old(Live()));
    }

    /** The block goes back to the set whose number stands in front of it. */
    method Free(a: Addr)
      requires Valid() && a in Live()
      modifies this
      ensures Valid() && Live() == old(Live()) - {a}
      ensures forall b :: b in Live() ==> Content(b) == old(Content(b))
      ensures lastId == old(lastId)
      ensures view.ids == if old(working) > expected && (forall b :: b in Live() ==> b.id != a.id) then old(view.ids) - {a.id} else old(view.ids)
    {
      hide Kept, SetOk, SetsOk, LiveOk, Blocks, Get, Put, NumbersOk, Off, UsedAt;
      SetNumber(Z(), view, a);
      GivenGood(Z(), view, a);
      var id := Get(sets[a.id].s.mem, a.at, IDLEN);
      var s := Given(sets[id].s, a.at);
      sets := sets[id := Some(s)];
      view := Changed(view, id, s, [view.live[a]] + view.free[id], view.live - {a});
      assert Live() == old(Live()) - {a};
      UnusedSet(Z(), view, id);
      if working > expected {
        if s.usedNum <= 0 {
          ghost var between := view;
          DroppedGood(Z(), view, id);
          NumbersDrop(|sets|, lastId, recycled, working, view.ids, id);
          sets := sets[id := None];
          recycled := recycled + {id};
          view := Dropped(view, id);
          working := working - 1;
          KeptTwice(Z(), old(view), between, view, Live());
        }
      }
      SameContent(Live());
    }

    /** The user of a block reads from it. */
    function Load(a: Addr, i: nat, n: nat): Bytes
      requires Readable(sets, a, i + n)
      reads `sets
    {
      sets[a.id].s.mem[a.at + IDLEN + i..a.at + IDLEN + i + n]
    }

    lemma Loaded(a: Addr, i: nat, n: nat)
      requires Valid() && a in Live() && i + n <= blockSize
      ensures Readable(sets, a, i + n) && Load(a, i, n) == Content(a)[i..i + n]
    {
      hide SetsOk, LiveOk, NumbersOk, MallocSize, Reach;
      Place(Z(), view, a);
      Part(sets[a.id].s.mem, a.at + IDLEN, blockSize, i, n);
    }

    /** The user of a block writes into it. */
    method Store(a: Addr, i: nat, b: Bytes)
      requires Valid() && a in Live() && i + |b| <= blockSize
      modifies `sets, `view
      ensures Valid() && Live() == old(Live())
      ensures forall b :: b in Live() && b != a ==> Content(b) == old(Content(b))
      ensures Content(a) == Put(old(Content(a)), i, b)
    {
      hide Kept, Put, SetsOk, LiveOk, SetOk, Blocks, Off;
      StoredGood(Z(), view, a, i, b);
      var s := sets[a.id].s;
      var t := s.(mem := Put(s.mem, a.at + IDLEN + i, b));
      sets := sets[a.id := Some(t)];
      view := Changed(view, a.id, t, view.free[a.id], view.live);
      SameContent(Live() - {a});
    }
  }
}
