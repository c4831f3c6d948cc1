/**
  Tables as `ltable.c` has them: an array part and a hash part, together a map
  from keys to values.
 */
module LuaTable {
  import opened TableNodes
  import opened TableSizes

  const MAXASIZE := 0x8000_0000
  const MAXHBITS := 30

  /** A pointer to the value of a key, or to `luaO_nilobject`. */
  datatype Cell = InArray(i: nat) | InNode(n: nat) | Absent

  /** What may stand in brackets: `FloatArg(i)` is a float whose value is the integer `i`. */
  datatype Arg = NilArg | NaNArg | FloatArg(i: int) | KeyArg(k: Key)

  datatype Stored = Done | IndexIsNil | IndexIsNaN | Overflow

  function AsKey(a: Arg): Key
    requires a.FloatArg? || a.KeyArg?
  {
    if a.FloatArg? then IntKey(a.i) else a.k
  }

  function Look(m: map<Key, Value>, k: Key): Value {
    if k in m then m[k] else Nil
  }

  function Updated(m: map<Key, Value>, k: Key, v: Value): map<Key, Value> {
    if v == Nil then m - {k} else m[k := v]
  }

  /** `k` is an integer of the array part of size `size`. */
  predicate InRange(k: Key, size: nat) {
    k.IntKey? && 1 <= k.i <= size
  }

  // ---------- the abstract content ----------

  ghost predicate KeyHeld(arr: seq<Value>, place: map<Key, nat>, m: map<Key, Value>, k: Key) {
    k in m ==> m[k] != Nil && (InRange(k, |arr|) || k in place)
  }

  ghost predicate SlotHeld(arr: seq<Value>, m: map<Key, Value>, i: nat)
    requires i < |arr|
  {
    arr[i] == Look(m, IntKey(i + 1))
  }

  ghost predicate NodeHeld(arr: seq<Value>, nodes: seq<Node>, m: map<Key, Value>, n: nat)
    requires n < |nodes|
  {
    nodes[n].key.Has? ==> !InRange(nodes[n].key.k, |arr|) && nodes[n].val == Look(m, nodes[n].key.k)
  }

  /** The array and the nodes hold exactly the map `m`. */
  ghost predicate Holds(arr: seq<Value>, s: Part, m: map<Key, Value>) {
    && (forall k :: KeyHeld(arr, s.place, m, k))
    && (forall i :: 0 <= i < |arr| ==> SlotHeld(arr, m, i))
    && (forall n :: 0 <= n < |s.nodes| ==> NodeHeld(arr, s.nodes, m, n))
  }

  ghost function FreeNodes(nodes: seq<Node>): set<nat> {
    set n: nat | n < |nodes| && nodes[n].key == NoKey
  }

  /** Nodes that come later in the chain of `n`. */
  ghost function Later(s: Part, n: nat): set<nat>
    requires n < |s.nodes| == |s.chain| == |s.rank|
  {
    set b: nat | b < |s.nodes| && s.chain[b] == s.chain[n] && s.rank[b] > s.rank[n]
  }

  lemma LaterShrinks(s: Part, h: Hasher, n: nat)
    requires PartOk(s, h) && n < |s.nodes| && s.nodes[n].next != 0
    ensures 0 <= Succ(s.nodes, n) < |s.nodes| && |Later(s, Succ(s.nodes, n))| < |Later(s, n)|
  {
    assert LinkOk(s, n);
    var q := Succ(s.nodes, n);
    assert Later(s, q) <= Later(s, n) - {q};
    Smaller(Later(s, q), Later(s, n) - {q});
  }

  lemma {:induction false} Smaller<T>(a: set<T>, b: set<T>)
    requires a <= b
    ensures |a| <= |b|
    decreases a
  {
    if a != {} {
      var x :| x in a;
      Smaller(a - {x}, b - {x});
    }
  }

  /** On the way from its main position a key has not been passed. */
  ghost predicate Ahead(s: Part, k: Key, n: nat)
    requires n < |s.nodes| == |s.chain| == |s.rank|
  {
    k in s.place ==> s.place[k] < |s.nodes| && s.chain[n] == s.chain[s.place[k]] && s.rank[n] <= s.rank[s.place[k]]
  }

  lemma StartsAhead(s: Part, h: Hasher, k: Key)
    requires PartOk(s, h)
    ensures Ahead(s, k, Main(h, k, |s.nodes|))
  {
    if k in s.place {
      assert NodeOk(s, h, s.place[k]);
    }
  }

  /** Going on from a node that is not the key's, one does not pass the key; at the end it is nowhere. */
  lemma StaysAhead(s: Part, h: Hasher, k: Key, n: nat)
    requires PartOk(s, h) && n < |s.nodes| && Ahead(s, k, n) && s.nodes[n].key != Has(k)
    ensures s.nodes[n].next == 0 ==> k !in s.place
    ensures s.nodes[n].next != 0 ==> 0 <= Succ(s.nodes, n) < |s.nodes| && Ahead(s, k, Succ(s.nodes, n))
  {
    assert LinkOk(s, n);
    if k in s.place {
      assert OrderOk(s, n, s.place[k]) && NodeOk(s, h, s.place[k]);
    }
  }

  /** New nodes, all free and each a chain of its own. */
  ghost function Fresh(nodes: seq<Node>): Part {
    Part(nodes, seq(|nodes|, i => i), seq(|nodes|, _ => 0.0), map[])
  }

  lemma FreshOk(nodes: seq<Node>, h: Hasher)
    requires |nodes| > 0 && forall n :: 0 <= n < |nodes| ==> nodes[n] == Node(NoKey, Nil, 0)
    ensures PartOk(Fresh(nodes), h) && |FreeNodes(nodes)| == |nodes|
  {
    RangeSize(|nodes|);
    assert FreeNodes(nodes) == UpTo(|nodes|);
  }

  ghost function UpTo(n: nat): set<nat> {
    if n == 0 then {} else UpTo(n - 1) + {n - 1}
  }

  lemma {:induction false} RangeSize(n: nat)
    ensures |UpTo(n)| == n && forall i: nat :: i in UpTo(n) <==> i < n
  {
    if n > 0 {
      RangeSize(n - 1);
    }
  }

  class Table {
    var arr: seq<Value>
    var nodes: seq<Node>
    var lsizenode: nat
    /** Index of the last free position handed out, or -1 for the dummy node. */
    var lastfree: int
    const hash: Hasher
    ghost var m: map<Key, Value>
    ghost var part: Part

    /** Every position from `bound` on is taken. */
    ghost predicate TakenFrom(bound: int)
      reads this
    {
      0 <= bound && forall n :: bound <= n < |nodes| ==> nodes[n].key.Has?
    }

    ghost predicate Sound()
      reads this
    {
      && PartOk(part, hash) && part.nodes == nodes && |nodes| == Pow2(lsizenode)
      && -1 <= lastfree <= |nodes|
      && (lastfree == -1 ==> lsizenode == 0 && nodes[0].key == NoKey)
      && Holds(arr, part, m)
      && |arr| <= MAXASIZE
    }

    ghost predicate Valid()
      reads this
    {
      Sound() && (lastfree == -1 || TakenFrom(lastfree))
    }

    predicate IsDummy()
      reads this
    {
      lastfree == -1
    }

    /** There is a node that `getfreepos` can hand out. */
    ghost predicate HasRoom()
      reads this
    {
      !IsDummy() && FreeNodes(nodes) != {}
    }

    constructor (h: Hasher)
      ensures Valid() && m == map[] && hash == h
    {
      hash := h;
      arr, nodes, lsizenode, lastfree := [], [Node(NoKey, Nil, 0)], 0, -1;
      m, part := map[], Fresh([Node(NoKey, Nil, 0)]);
      new;
      FreshOk(nodes, h);
    }

    /** The walk of `getgeneric`, `luaH_getint` and `luaH_getshortstr` along a chain. */
    method FindNode(k: Key) returns (n: int)
      requires PartOk(part, hash) && part.nodes == nodes
      ensures n == if k in part.place then part.place[k] as int else -1
      ensures n >= 0 ==> n < |nodes| && nodes[n].key == Has(k)
    {
      hide PartOk;
      PartSizes(part, hash);
      n := Main(hash, k, |nodes|);
      StartsAhead(part, hash, k);
      while nodes[n].key != Has(k)
        invariant 0 <= n < |nodes| && Ahead(part, k, n)
        decreases |Later(part, n)|
      {
        StaysAhead(part, hash, k, n);
        var nx := nodes[n].next;
        if nx == 0 {
          return -1;
        }
        LaterShrinks(part, hash, n);
        n := n + nx;
      }
      PlaceOf(part, hash, k, n);
    }

    /** `luaH_get`, as a pointer. */
    method Locate(k: Key) returns (c: Cell)
      requires Valid()
      ensures c == CellOf(k)
    {
      hide PartOk, Holds;
      if k.IntKey? && 1 <= k.i <= |arr| {
        return InArray(k.i - 1);
      }
      var n := FindNode(k);
      c := if n >= 0 then InNode(n) else Absent;
    }

    ghost function CellOf(k: Key): Cell
      reads this
    {
      if InRange(k, |arr|) then InArray(k.i - 1) else if k in part.place then InNode(part.place[k]) else Absent
    }

    /** `luaH_get` and `luaH_getint`: the table is the map. */
    method Get(k: Key) returns (v: Value)
      requires Valid()
      ensures v == Look(m, k)
    {
      hide PartOk;
      CellValue(k);
      var c := Locate(k);
      match c
      case InArray(i) => v := arr[i];
      case InNode(n) => v := nodes[n].val;
      case Absent => v := Nil;
    }

    lemma CellValue(k: Key)
      requires Sound()
      ensures match CellOf(k)
              case InArray(i) => i < |arr| && arr[i] == Look(m, k)
              case InNode(n) => n < |nodes| && nodes[n].key == Has(k) && nodes[n].val == Look(m, k)
              case Absent => k !in m
    {
      assert KeyHeld(arr, part.place, m, k);
      if InRange(k, |arr|) {
        assert SlotHeld(arr, m, k.i - 1);
      } else if k in part.place {
        assert NodeHeld(arr, nodes, m, part.place[k]);
      }
    }

    /** Stores through a pointer that `luaH_set` returned. */
    method Store(k: Key, c: Cell, v: Value)
      requires Valid() && c == CellOf(k) && c != Absent
      modifies this`arr, this`nodes, this`m, this`part
      ensures Valid() && m == Updated(old(m), k, v)
      ensures |arr| == |old(arr)| && |nodes| == |old(nodes)| && FreeNodes(nodes) == FreeNodes(old(nodes)) && part.place == old(part.place)
    {
      CellValue(k);
      ghost var arr0, s0 := arr, part;
      if c.InArray? {
        arr := arr[c.i := v];
      } else {
        nodes := nodes[c.n := nodes[c.n].(val := v)];
        part := part.(nodes := nodes);
        StoredPart(s0, hash, c.n, v);
      }
      m := Updated(m, k, v);
      StoredHolds(arr0, s0, old(m), hash, k, c, v, arr, part);
    }

    // ---------- inserting a key ----------

    /** `getfreepos`. */
    method GetFreePos() returns (f: int)
      requires Valid()
      modifies this`lastfree
      ensures if old(HasRoom()) then Sound() && 0 <= f < |nodes| && nodes[f].key == NoKey && lastfree == f && TakenFrom(f + 1)
              else Valid() && f == -1 && IsDummy() == old(IsDummy())
    {
      hide PartOk, Holds;
      if !IsDummy() {
        while lastfree > 0
          invariant 0 <= lastfree <= |nodes| && TakenFrom(lastfree)
          decreases lastfree
        {
          lastfree := lastfree - 1;
          if nodes[lastfree].key == NoKey {
            assert lastfree in FreeNodes(nodes);
            return lastfree;
          }
        }
      }
      f := -1;
    }

    /** What `luaH_newkey` leaves: the key has a place, with no value yet. */
    ghost predicate Inserted(nodes0: seq<Node>, k: Key, mp: nat)
      reads this
    {
      Valid() && CellOf(k) == InNode(mp) && |FreeNodes(nodes)| + 1 >= |FreeNodes(nodes0)|
    }

    /** The main position is free. */
    method PutInMain(k: Key, mp: nat)
      requires Valid() && !IsDummy() && k !in part.place && !InRange(k, |arr|)
      requires mp == Main(hash, k, |nodes|) && nodes[mp].val == Nil
      modifies this`nodes, this`part
      ensures Inserted(old(nodes), k, mp) && !IsDummy()
    {
      hide PartOk, Holds;
      ghost var s0 := part;
      KeyFresh(k);
      InMainOk(s0, hash, mp, k);
      nodes := nodes[mp := nodes[mp].(key := Has(k))];
      part := InMain(s0, mp, k);
      InMainHolds(arr, s0, m, hash, mp, k);
      OneLessFree(s0.nodes, nodes, mp);
    }

    /** The assignments that put a key into the free node `f`, second in the chain of `mp`. */
    method ChainSecond(k: Key, mp: nat, f: nat)
      requires PartOk(part, hash) && part.nodes == nodes && mp < |nodes| && f < |nodes| && f != mp && nodes[f].next == 0
      requires 0 <= Succ(nodes, mp) < |nodes|
      modifies this`nodes
      ensures nodes == Chained(part, mp, f, k).nodes
    {
      hide PartOk;
      PartSizes(part, hash);
      if nodes[mp].next != 0 {
        nodes := nodes[f := nodes[f].(next := mp + nodes[mp].next - f)];
      }
      nodes := nodes[mp := nodes[mp].(next := f - mp)];
      nodes := nodes[f := nodes[f].(key := Has(k))];
    }

    /** The free node `f` becomes second in the chain. */
    method PutInChain(k: Key, mp: nat, f: nat)
      requires Sound() && lastfree == f && TakenFrom(f + 1) && k !in part.place && !InRange(k, |arr|) && mp == Main(hash, k, |nodes|)
      requires f < |nodes| && nodes[f].key == NoKey && nodes[mp].key.Has? && Main(hash, nodes[mp].key.k, |nodes|) == mp
      modifies this`nodes, this`part
      ensures Inserted(old(nodes), k, f) && !IsDummy()
    {
      hide PartOk, Holds;
      ghost var s0 := part;
      KeyFresh(k);
      PartSizes(s0, hash);
      ChainedOk(s0, hash, mp, f, k);
      FreeAlone(s0, hash, f);
      ChainedHolds(arr, s0, m, hash, mp, f, k);
      ChainSecond(k, mp, f);
      part := Chained(s0, mp, f, k);
      OneLessFree(s0.nodes, nodes, f);
    }

    /** Walks from the main position of the key at `mp` to the node before `mp`. */
    method FindPrevious(mp: nat, o: nat) returns (othern: nat)
      requires PartOk(part, hash) && part.nodes == nodes && mp < |nodes| && nodes[mp].key.Has? && o == Main(hash, nodes[mp].key.k, |nodes|) != mp
      ensures othern < |nodes| && nodes[othern].next != 0 && Succ(nodes, othern) == mp
    {
      hide PartOk;
      ghost var moving := nodes[mp].key.k;
      PartSizes(part, hash);
      StartsAhead(part, hash, moving);
      PlaceOf(part, hash, moving, mp);
      var at: int := o;
      NotTwice(part, hash, moving, mp, o);
      StaysAhead(part, hash, moving, o);
      while at + nodes[at].next != mp
        invariant 0 <= at < |nodes| && Ahead(part, moving, at) && nodes[at].next != 0
        invariant 0 <= Succ(nodes, at) < |nodes| && Ahead(part, moving, Succ(nodes, at))
        decreases |Later(part, at)|
      {
        LaterShrinks(part, hash, at);
        at := at + nodes[at].next;
        NotTwice(part, hash, moving, mp, at);
        StaysAhead(part, hash, moving, at);
      }
      othern := at;
    }

    /** The assignments that move the node at `mp` to `f` and put the key into `mp`. */
    method MoveNode(k: Key, mp: nat, f: nat, othern: nat)
      requires PartOk(part, hash) && part.nodes == nodes && mp < |nodes| && f < |nodes| && f != mp && nodes[f].key == NoKey && nodes[f].next == 0
      requires othern < |nodes| && othern != mp && othern != f && nodes[othern].next != 0 && Succ(nodes, othern) == mp
      modifies this`nodes
      ensures nodes == Moved(part, mp, f, othern, k).nodes
    {
      hide PartOk;
      PartSizes(part, hash);
      nodes := nodes[othern := nodes[othern].(next := f - othern)];
      nodes := nodes[f := nodes[mp]];
      if nodes[mp].next != 0 {
        nodes := nodes[f := nodes[f].(next := nodes[f].next + mp - f)];
        nodes := nodes[mp := nodes[mp].(next := 0)];
      }
      nodes := nodes[mp := nodes[mp].(val := Nil)];
      nodes := nodes[mp := nodes[mp].(key := Has(k))];
    }

    /** The colliding node moves to the free node `f`; `othern` is walked to its predecessor. */
    method MoveAndPut(k: Key, mp: nat, f: nat, o: nat)
      requires Sound() && lastfree == f && TakenFrom(f + 1) && k !in part.place && !InRange(k, |arr|) && mp == Main(hash, k, |nodes|)
      requires f < |nodes| && nodes[f].key == NoKey && nodes[mp].key.Has? && o == Main(hash, nodes[mp].key.k, |nodes|) != mp
      modifies this`nodes, this`part
      ensures Inserted(old(nodes), k, mp) && !IsDummy()
    {
      hide PartOk, Holds;
      ghost var s0 := part;
      KeyFresh(k);
      PartSizes(s0, hash);
      FreeAlone(s0, hash, f);
      var othern := FindPrevious(mp, o);
      NotItself(s0, hash, othern);
      MovedOk(s0, hash, mp, f, othern, k);
      MovedHolds(arr, s0, m, hash, mp, f, othern, k);
      MoveNode(k, mp, f, othern);
      part := Moved(s0, mp, f, othern, k);
      OneLessFree(s0.nodes, nodes, f);
    }

    lemma KeyFresh(k: Key)
      requires Sound() && k !in part.place && !InRange(k, |arr|)
      ensures k !in m
    {
      assert KeyHeld(arr, part.place, m, k);
    }

    // ---------- `luaH_newkey` and `luaH_set` ----------

    /** Whether putting `k` in takes no rehash: 0 if so. */
    ghost function Need(k: Key): nat
      reads this
    {
      if CellOf(k) != Absent || HasRoom() then 0 else 1
    }

    /** `luaH_newkey`: the key gets a place, in a larger table if there is no room in this one. */
    method NewKey(k: Key) returns (ok: bool, c: Cell)
      requires Valid() && CellOf(k) == Absent
      modifies this
      ensures Valid() && m == old(m)
      ensures ok ==> c == CellOf(k) && c != Absent
      ensures !ok ==> |m| >= Pow2(MAXHBITS) && c == Absent
      ensures old(HasRoom()) ==> ok && KeptRoom(old(arr), old(nodes), 1)
      decreases Need(k), 2
    {
      hide PartOk, Holds;
      PartSizes(part, hash);
      var mp := Main(hash, k, |nodes|);
      if nodes[mp].val != Nil || IsDummy() {
        var f := GetFreePos();
        if f < 0 {
          ok := Rehash(k);
          c := Absent;
          if ok {
            ok, c := SetSlot(k);
          }
          return;
        }
        TakenHasKey(part, hash, mp);
        var o := Main(hash, nodes[mp].key.k, |nodes|);
        if o != mp {
          MoveAndPut(k, mp, f, o);
          c := InNode(mp);
        } else {
          PutInChain(k, mp, f);
          c := InNode(f);
        }
      } else {
        PutInMain(k, mp);
        c := InNode(mp);
      }
      ok := true;
    }

    /** The table has the size it had, and at most `n` free nodes less. */
    ghost predicate KeptRoom(arr0: seq<Value>, nodes0: seq<Node>, n: nat)
      reads this
    {
      |arr| == |arr0| && |nodes| == |nodes0| && !IsDummy() && |FreeNodes(nodes)| + n >= |FreeNodes(nodes0)|
    }

    /** `luaH_set`, as a pointer to store through. */
    method SetSlot(k: Key) returns (ok: bool, c: Cell)
      requires Valid()
      modifies this
      ensures Valid() && m == old(m)
      ensures ok ==> c == CellOf(k) && c != Absent
      ensures !ok ==> |m| >= Pow2(MAXHBITS)
      ensures old(CellOf(k)) != Absent ==> ok && arr == old(arr) && nodes == old(nodes) && lastfree == old(lastfree) && part == old(part)
      ensures old(CellOf(k)) == Absent && old(HasRoom()) ==> ok && KeptRoom(old(arr), old(nodes), 1)
      decreases Need(k), 3
    {
      hide PartOk, Holds;
      c := Locate(k);
      ok := true;
      if c == Absent {
        ok, c := NewKey(k);
      }
    }

    /** `luaH_set` or `luaH_setint` and the store: the map is updated, or the table has reached its largest size. */
    method Set(k: Key, v: Value) returns (ok: bool)
      requires Valid()
      modifies this
      ensures Valid()
      ensures m == if ok then Updated(old(m), k, v) else old(m)
      ensures !ok ==> |m| >= Pow2(MAXHBITS)
      ensures old(CellOf(k)) != Absent ==> ok && |arr| == |old(arr)| && |nodes| == |old(nodes)| && lastfree == old(lastfree) && FreeNodes(nodes) == FreeNodes(old(nodes)) && part.place == old(part.place)
      ensures old(CellOf(k)) == Absent && old(HasRoom()) ==> ok && KeptRoom(old(arr), old(nodes), 1)
      decreases Need(k), 4
    {
      hide PartOk, Holds;
      var c;
      ok, c := SetSlot(k);
      if ok {
        Store(k, c, v);
      }
    }

    // ---------- resizing ----------

    /** `setnodevector`. */
    method SetNodeVector(size: nat) returns (ok: bool)
      requires |arr| <= MAXASIZE
      modifies this`nodes, this`lsizenode, this`lastfree, this`part
      ensures ok ==> PartOk(part, hash) && part == Fresh(nodes) && part.nodes == nodes && |nodes| == Pow2(lsizenode)
      ensures ok ==> forall n :: 0 <= n < |nodes| ==> nodes[n] == Node(NoKey, Nil, 0)
      ensures ok ==> |FreeNodes(nodes)| == |nodes| >= size && lastfree == (if size == 0 then -1 else |nodes|) && (size == 0 ==> lsizenode == 0)
      ensures !ok ==> size > Pow2(MAXHBITS) && nodes == old(nodes) && lsizenode == old(lsizenode) && lastfree == old(lastfree) && part == old(part)
    {
      hide PartOk;
      if size == 0 {
        nodes, lsizenode, lastfree := [Node(NoKey, Nil, 0)], 0, -1;
      } else {
        var lsize := CeilLog2(size);
        if lsize > MAXHBITS {
          Pow2Monotone(MAXHBITS, lsize - 1);
          return false;
        }
        var vector: seq<Node> := [];
        while |vector| < Pow2(lsize)
          invariant |vector| <= Pow2(lsize) && forall n :: 0 <= n < |vector| ==> vector[n] == Node(NoKey, Nil, 0)
        {
          vector := vector + [Node(NoKey, Nil, 0)];
        }
        nodes, lsizenode, lastfree := vector, lsize, |vector|;
      }
      part := Fresh(nodes);
      FreshOk(nodes, hash);
      ok := true;
    }

    /** One entry is put back. There is room for it. */
    method Reinsert(k: Key, v: Value, ghost m0: map<Key, Value>, nasize: nat, nhsize: nat)
      requires Valid() && k !in m && k in m0 && m0[k] == v && v != Nil && Refilling(m0, nasize, nhsize)
      modifies this
      ensures Valid() && m == old(m)[k := v] && Refilling(m0, nasize, nhsize)
      decreases 1, 0, 0
    {
      hide PartOk, Holds;
      OneMoreOut(m, m0, k, v, nasize);
      if !InRange(k, nasize) {
        assert |FreeNodes(nodes)| > 0;
      }
      CellOrRoom(k);
      var ok := Set(k, v);
    }

    lemma CellOrRoom(k: Key)
      requires InRange(k, |arr|) || HasRoom()
      ensures Need(k) == 0
    {
    }

    /** Part of `m0` is back in the table, whose hash part is large enough for the rest. */
    ghost predicate Refilling(m0: map<Key, Value>, nasize: nat, nhsize: nat)
      reads this
    {
      && (forall k :: k in m ==> k in m0 && m[k] == m0[k])
      && |arr| == nasize && |OutKeys(m0, nasize)| <= nhsize <= |nodes| && (nhsize == 0 <==> IsDummy())
      && |FreeNodes(nodes)| + |OutKeys(m, nasize)| >= |nodes|
    }

    /** The elements of a vanishing slice of the array part are put back. */
    method RefillFromArray(olda: seq<Value>, kept: nat, ghost m0: map<Key, Value>, ghost s0: Part, nasize: nat, nhsize: nat)
      requires Valid() && Holds(olda, s0, m0) && kept <= |olda| && m == Restrict(m0, IntKeys(kept)) && Refilling(m0, nasize, nhsize)
      modifies this
      ensures Valid() && m == Restrict(m0, IntKeys(|olda|)) && Refilling(m0, nasize, nhsize)
      decreases 1, 0, 1
    {
      hide Sound, Holds, Refilling, Restrict, IntKeys;
      var i := kept;
      while i < |olda|
        invariant kept <= i <= |olda| && Valid() && m == Restrict(m0, IntKeys(i)) && Refilling(m0, nasize, nhsize)
      {
        SlotIs(olda, s0, m0, i);
        NotYet(m0, IntKeys(i), IntKey(i + 1));
        if olda[i] != Nil {
          Reinsert(IntKey(i + 1), olda[i], m0, nasize, nhsize);
        }
        RestrictNext(m0, i, olda[i]);
        i := i + 1;
      }
    }

    /** The entries of the old nodes are put back, the last node first. */
    method RefillFromNodes(olda: seq<Value>, oldn: seq<Node>, count: nat, ghost m0: map<Key, Value>, ghost s0: Part, nasize: nat, nhsize: nat)
      requires Valid() && Holds(olda, s0, m0) && PartOk(s0, hash) && s0.nodes == oldn && count == |oldn|
      requires m == Restrict(m0, IntKeys(|olda|)) && Refilling(m0, nasize, nhsize)
      modifies this
      ensures Valid() && m == Restrict(m0, IntKeys(|olda|) + KeysFrom(oldn, 0)) && Refilling(m0, nasize, nhsize)
      decreases 1, 0, 1
    {
      hide Sound, Holds, Refilling, Restrict, IntKeys, PartOk, KeysFrom;
      var j := count;
      RestrictStart(m0, |olda|, oldn);
      while j > 0
        invariant 0 <= j <= |oldn| && Valid() && Refilling(m0, nasize, nhsize)
        invariant m == Restrict(m0, IntKeys(|olda|) + KeysFrom(oldn, j))
      {
        j := j - 1;
        NodeIs(olda, s0, m0, hash, j);
        if oldn[j].val != Nil {
          NotYet(m0, IntKeys(|olda|) + KeysFrom(oldn, j + 1), oldn[j].key.k);
          Reinsert(oldn[j].key.k, oldn[j].val, m0, nasize, nhsize);
        }
        RestrictNode(olda, s0, m0, hash, j);
      }
    }

    /** The part of `luaH_resize` that makes the new parts: only what stays in the array part is in the table. */
    method NewParts(nasize: nat, nhsize: nat, kept: nat) returns (ok: bool)
      requires Valid() && nasize <= MAXASIZE && |OutKeys(m, nasize)| <= nhsize && kept == if nasize < |arr| then nasize else |arr|
      modifies this
      ensures Valid()
      ensures ok ==> m == Restrict(old(m), IntKeys(kept)) && Refilling(old(m), nasize, nhsize)
      ensures !ok ==> nhsize > Pow2(MAXHBITS) && arr == old(arr) && nodes == old(nodes) && m == old(m)
    {
      hide PartOk, Holds, Restrict, IntKeys, OutKeys, FreeNodes, Refilling, TakenFrom, Pow2;
      var olda := arr;
      ghost var m0, s0 := m, part;
      if nasize > |olda| {
        arr := olda + seq(nasize - |olda|, _ => Nil);
      }
      ok := SetNodeVector(nhsize);
      if !ok {
        arr := olda;
        return;
      }
      if nasize < |olda| {
        arr := olda[..nasize];
      }
      m := Restrict(m0, IntKeys(kept));
      ArrayOnly(olda, arr, m0, s0, m, part, kept, nasize);
      RestrictIn(m0, IntKeys(kept));
      NowRefilling(m0, nasize, nhsize);
    }

    lemma NowRefilling(m0: map<Key, Value>, nasize: nat, nhsize: nat)
      requires forall k :: k in m ==> k in m0 && m[k] == m0[k]
      requires |arr| == nasize && |OutKeys(m0, nasize)| <= nhsize <= |nodes| && (nhsize == 0 <==> IsDummy()) && |FreeNodes(nodes)| == |nodes|
      ensures Refilling(m0, nasize, nhsize) && TakenFrom(|nodes|)
    {
    }

    /** `luaH_resize`: other sizes, the same map. */
    method Resize(nasize: nat, nhsize: nat) returns (ok: bool)
      requires Valid() && nasize <= MAXASIZE && |OutKeys(m, nasize)| <= nhsize
      modifies this
      ensures Valid() && m == old(m)
      ensures ok ==> Refilling(m, nasize, nhsize)
      ensures !ok ==> nhsize > Pow2(MAXHBITS) && arr == old(arr) && nodes == old(nodes)
      decreases 1, 0, 2
    {
      hide PartOk, Holds, Restrict, IntKeys, KeysFrom, OutKeys, FreeNodes, Refilling;
      var olda, oldn, olddummy := arr, nodes, IsDummy();
      ghost var m0, s0 := m, part;
      var kept := if nasize < |olda| then nasize else |olda|;
      PartSizes(s0, hash);
      ok := NewParts(nasize, nhsize, kept);
      if !ok {
        return;
      }
      RefillFromArray(olda, kept, m0, s0, nasize, nhsize);
      if !olddummy {
        RefillFromNodes(olda, oldn, |oldn|, m0, s0, nasize, nhsize);
      }
      AllBack(olda, s0, m0, hash, olddummy);
    }

    // ---------- `rehash` ----------

    /** `numusearray`: counts the keys of the array part slice by slice. */
    method NumUseArray() returns (nums: seq<nat>, ause: nat)
      requires |arr| <= MAXASIZE
      ensures Counted(nums, Ints(ArrayKeys(arr, |arr|))) && ause == |ArrayKeys(arr, |arr|)| == CountIn(Ints(ArrayKeys(arr, |arr|)), 0, Pow2(MAXABITS))
    {
      hide Counted, Ints, CountIn, Pow2;
      nums := seq(MAXABITS + 1, _ => 0);
      NoKeysYet(arr);
      var lg, ttlg := 0, 1;
      ause := 0;
      var i := 1;
      while lg <= MAXABITS
        invariant 0 <= lg <= MAXABITS + 1 && (lg <= MAXABITS ==> ttlg == Pow2(lg))
        invariant 1 <= i <= |arr| + 1 && i - 1 == (if Low(lg) < |arr| then Low(lg) else |arr|)
        invariant Counted(nums, Ints(ArrayKeys(arr, i - 1))) && |nums| == MAXABITS + 1 && ause == |ArrayKeys(arr, i - 1)|
      {
        var lc := 0;
        var lim := ttlg;
        if lim > |arr| {
          lim := |arr|;
          if i > lim {
            break;
          }
        }
        SliceStarts(nums, lg);
        while i <= lim
          invariant Low(lg) < i <= lim + 1 && lim <= ttlg && lim <= |arr|
          invariant Counted(nums[lg := nums[lg] + lc], Ints(ArrayKeys(arr, i - 1))) && ause + lc == |ArrayKeys(arr, i - 1)|
        {
          ArrayKeyNext(arr, nums[lg := nums[lg] + lc], i, lg);
          if arr[i - 1] != Nil {
            assert nums[lg := nums[lg] + lc][lg := nums[lg] + lc + 1] == nums[lg := nums[lg] + (lc + 1)];
            lc := lc + 1;
          }
          i := i + 1;
        }
        nums := nums[lg := nums[lg] + lc];
        ause := ause + lc;
        SliceEnds(lg, ttlg);
        lg := lg + 1;
        ttlg := Twice(ttlg);
      }
      EndOfArray(|arr|, i, lg);
      ArrayAllSmall(arr);
    }

    /** `numusehash`: counts the keys of the nodes, the last node first. */
    method NumUseHash(nums0: seq<nat>, pna0: nat) returns (nums: seq<nat>, pna: nat, totaluse: nat)
      requires Valid() && Counted(nums0, Ints(ArrayKeys(arr, |arr|))) && pna0 == CountIn(Ints(ArrayKeys(arr, |arr|)), 0, Pow2(MAXABITS))
      ensures Counted(nums, Ints(m.Keys)) && pna == CountIn(Ints(m.Keys), 0, Pow2(MAXABITS)) && totaluse + |ArrayKeys(arr, |arr|)| == |m|
    {
      hide Counted, Ints, CountIn, PartOk, Holds, ArrayKeys, UsedKeys, TakenFrom, Pow2;
      nums, pna, totaluse := nums0, pna0, 0;
      ghost var a := ArrayKeys(arr, |arr|);
      var i := |nodes|;
      NoUsedYet(nodes, a);
      while i > 0
        invariant 0 <= i <= |nodes| && Counted(nums, Ints(a + UsedKeys(nodes, i))) && pna == CountIn(Ints(a + UsedKeys(nodes, i)), 0, Pow2(MAXABITS))
        invariant totaluse + |a| == |a + UsedKeys(nodes, i)|
      {
        i := i - 1;
        NodeIs(arr, part, m, hash, i);
        NodeUsed(arr, part, m, hash, i);
        if nodes[i].val != Nil {
          var c;
          nums, c := CountInt(nodes[i].key.k, nums, a + UsedKeys(nodes, i + 1));
          pna := pna + c;
          totaluse := totaluse + 1;
        }
      }
      AllUsed(arr, part, m, hash);
    }

    /** `rehash`: the optimal array size for the keys of the table and `ek`, and just enough nodes for the rest. */
    method Rehash(ek: Key) returns (ok: bool)
      requires Valid() && CellOf(ek) == Absent
      modifies this
      ensures Valid() && m == old(m)
      ensures ok ==> (InRange(ek, |arr|) || HasRoom()) && Optimal(Ints(m.Keys + {ek}), |arr|)
      ensures !ok ==> |m| >= Pow2(MAXHBITS)
      decreases 1, 1
    {
      hide PartOk, Holds, Counted, Ints, CountIn, Optimal, OutKeys;
      CellValue(ek);
      var nums, na := NumUseArray();
      var totaluse := na;
      var hashuse;
      nums, na, hashuse := NumUseHash(nums, na);
      totaluse := totaluse + hashuse;
      var c;
      nums, c := CountInt(ek, nums, m.Keys);
      na := na + c;
      totaluse := totaluse + 1;
      var asize;
      asize, na := ComputeSizes(nums, na, Ints(m.Keys + {ek}));
      SizeFits(Ints(m.Keys + {ek}), asize);
      RoomFor(m, ek, asize);
      ok := Resize(asize, totaluse - na);
      if ok && !InRange(ek, asize) {
        assert |FreeNodes(nodes)| > 0;
      }
    }

    // ---------- keys as the interpreter has them ----------

    /** A store `t[a] = v`: nil and NaN are no keys, a float with an integer value is that integer. */
    method RawSet(a: Arg, v: Value) returns (r: Stored)
      requires Valid()
      modifies this
      ensures Valid()
      ensures r == IndexIsNil <==> a == NilArg
      ensures r == IndexIsNaN <==> a == NaNArg
      ensures r == Done ==> m == Updated(old(m), AsKey(a), v)
      ensures r != Done ==> m == old(m)
      ensures r == Overflow ==> |m| >= Pow2(MAXHBITS)
    {
      match a
      case NilArg => r := IndexIsNil;
      case NaNArg => r := IndexIsNaN;
      case FloatArg(i) =>
        var ok := Set(IntKey(i), v);
        r := if ok then Done else Overflow;
      case KeyArg(k) =>
        var ok := Set(k, v);
        r := if ok then Done else Overflow;
    }

    /** A load `t[a]`. */
    method RawGet(a: Arg) returns (v: Value)
      requires Valid()
      ensures v == if a == NilArg || a == NaNArg then Nil else Look(m, AsKey(a))
    {
      match a
      case NilArg => v := Nil;
      case NaNArg => v := Nil;
      case FloatArg(i) => v := Get(IntKey(i));
      case KeyArg(k) => v := Get(k);
    }

    // ---------- traversal ----------

    /** The number of a key in a traversal: array elements first, then nodes. */
    ghost function Index(k: KeySlot): nat
      reads this
    {
      if k == NoKey then 0
      else if InRange(k.k, |arr|) then k.k.i
      else if k.k in part.place then part.place[k.k] + 1 + |arr|
      else 0
    }

    /** `findindex`; an unknown key is an error. */
    method FindIndex(key: KeySlot) returns (ok: bool, i: nat)
      requires Valid()
      ensures ok <==> key == NoKey || CellOf(key.k) != Absent
      ensures ok ==> i == Index(key)
    {
      hide PartOk, Holds;
      if key == NoKey {
        return true, 0;
      }
      if key.k.IntKey? && 1 <= key.k.i <= |arr| {
        return true, key.k.i;
      }
      var n := FindNode(key.k);
      ok, i := n >= 0, if n >= 0 then n + 1 + |arr| else 0;
    }

    /** `luaH_next`: the present key that follows `key`, NoKey after the last one. */
    method Next(key: KeySlot) returns (ok: bool, k: KeySlot, v: Value)
      requires Valid()
      ensures ok <==> key == NoKey || CellOf(key.k) != Absent
      ensures ok && k.Has? ==> k.k in m && v == m[k.k] && Index(k) > Index(key)
      ensures ok && k.Has? ==> forall q :: q in m && Index(Has(q)) > Index(key) ==> Index(Has(q)) >= Index(k)
      ensures ok && k == NoKey ==> forall q :: q in m ==> Index(Has(q)) <= Index(key)
    {
      hide PartOk, Holds, Skipped;
      ghost var start := Index(key);
      NoneSkipped(start);
      var i: nat;
      ok, i := FindIndex(key);
      k, v := NoKey, Nil;
      if !ok {
        return;
      }
      while i < |arr|
        invariant start <= i && (start <= |arr| ==> i <= |arr|) && Skipped(start, i)
      {
        SkipOne(start, i);
        IndexedArray(i);
        if arr[i] != Nil {
          NothingBefore(start, i);
          return true, Has(IntKey(i + 1)), arr[i];
        }
        i := i + 1;
      }
      i := i - |arr|;
      while i < |nodes|
        invariant start <= i + |arr| && Skipped(start, i + |arr|)
        invariant i > 0 || start <= |arr|
      {
        SkipNode(start, i);
        IndexedNode(i);
        if nodes[i].val != Nil {
          NothingBefore(start, i + |arr|);
          return true, nodes[i].key, nodes[i].val;
        }
        i := i + 1;
      }
      NothingLeft(start, i + |arr|);
    }

    /** No key is present with a number above `start` and up to `i`. */
    ghost predicate Skipped(start: nat, i: nat)
      reads this
    {
      forall q :: q in m && Index(Has(q)) > start ==> Index(Has(q)) > i
    }

    lemma IndexedArray(i: nat)
      requires Valid() && i < |arr|
      ensures arr[i] == Look(m, IntKey(i + 1)) && Index(Has(IntKey(i + 1))) == i + 1
      ensures forall q :: q in m && Index(Has(q)) == i + 1 ==> q == IntKey(i + 1)
      ensures arr[i] != Nil <==> IntKey(i + 1) in m
    {
      assert SlotHeld(arr, m, i) && KeyHeld(arr, part.place, m, IntKey(i + 1));
      forall q | q in m && Index(Has(q)) == i + 1 ensures q == IntKey(i + 1) {
        assert KeyHeld(arr, part.place, m, q);
      }
    }

    lemma IndexedNode(i: nat)
      requires Valid() && i < |nodes|
      ensures nodes[i].val != Nil ==> nodes[i].key.Has? && nodes[i].key.k in m && m[nodes[i].key.k] == nodes[i].val && Index(nodes[i].key) == i + 1 + |arr|
      ensures forall q :: q in m && Index(Has(q)) == i + 1 + |arr| ==> nodes[i].key == Has(q) && nodes[i].val != Nil
    {
      NodeIs(arr, part, m, hash, i);
      assert NodeOk(part, hash, i) && NodeHeld(arr, nodes, m, i);
      forall q | q in m && Index(Has(q)) == i + 1 + |arr| ensures nodes[i].key == Has(q) && nodes[i].val != Nil {
        assert KeyHeld(arr, part.place, m, q);
      }
    }

    lemma NoneSkipped(start: nat)
      ensures Skipped(start, start)
    {
    }

    lemma SkipOne(start: nat, i: nat)
      requires Valid() && i < |arr| && Skipped(start, i)
      ensures arr[i] == Nil ==> Skipped(start, i + 1)
    {
      hide Index;
      IndexedArray(i);
    }

    lemma SkipNode(start: nat, i: nat)
      requires Valid() && i < |nodes| && Skipped(start, i + |arr|)
      ensures nodes[i].val == Nil ==> Skipped(start, i + 1 + |arr|)
    {
      hide Index;
      IndexedNode(i);
    }

    lemma NothingBefore(start: nat, i: nat)
      requires Skipped(start, i)
      ensures forall q :: q in m && Index(Has(q)) > start ==> Index(Has(q)) >= i + 1
    {
    }

    lemma NothingLeft(start: nat, i: nat)
      requires Valid() && Skipped(start, i) && i >= |arr| + |nodes|
      ensures forall q :: q in m ==> Index(Has(q)) <= start
    {
    }

    // ---------- borders ----------

    /** `j` is a border: the last of a run of present integer keys that starts at 1, or 0. */
    ghost predicate IsBorder(j: nat)
      reads this
    {
      (j == 0 || IntKey(j) in m) && IntKey(j + 1) !in m
    }

    /** Whether `luaH_getint` finds a value. */
    method Has1(j: nat) returns (b: bool)
      requires Valid()
      ensures b <==> IntKey(j) in m
    {
      var v := Get(IntKey(j));
      b := v != Nil;
      assert KeyHeld(arr, part.place, m, IntKey(j));
    }

    const MAXINT := 0x7FFF_FFFF_FFFF_FFFF

    /** `unbound_search`: doubles, then halves; for huge indices it searches linearly. */
    method UnboundSearch(j0: nat) returns (r: nat)
      requires Valid() && (j0 == 0 || IntKey(j0) in m)
      ensures IsBorder(r)
    {
      hide PartOk, Holds;
      var i: nat, j: nat := j0, j0 + 1;
      var present := Has1(j);
      while present
        invariant i < j && (i == 0 || IntKey(i) in m) && (present <==> IntKey(j) in m)
        decreases if present then MAXINT + 2 - j else -1
      {
        i := j;
        if j > MAXINT / 2 {
          r := LinearSearch();
          return;
        }
        j := j * 2;
        present := Has1(j);
      }
      while j - i > 1
        invariant i < j && (i == 0 || IntKey(i) in m) && IntKey(j) !in m
        decreases j - i
      {
        var mid := (i + j) / 2;
        present := Has1(mid);
        if !present {
          j := mid;
        } else {
          i := mid;
        }
      }
      r := i;
    }

    method LinearSearch() returns (r: nat)
      requires Valid()
      ensures IsBorder(r)
    {
      hide PartOk, Holds;
      var i := 1;
      var present := Has1(i);
      ghost var left := m.Keys;
      while present
        invariant 1 <= i && (i == 1 || IntKey(i - 1) in m) && (present <==> IntKey(i) in m)
        invariant left == m.Keys - IntKeys(i - 1)
        decreases left, present
      {
        left := left - {IntKey(i)};
        assert IntKeys(i) == IntKeys(i - 1) + {IntKey(i)};
        i := i + 1;
        present := Has1(i);
      }
      r := i - 1;
    }

    /** `luaH_getn`. */
    method GetN() returns (r: nat)
      requires Valid()
      ensures IsBorder(r)
    {
      hide PartOk;
      var j := |arr|;
      AllSlots();
      if j > 0 && arr[j - 1] == Nil {
        var i := 0;
        while j - i > 1
          invariant 0 <= i < j <= |arr| && (i == 0 || arr[i - 1] != Nil) && arr[j - 1] == Nil
        {
          var mid := (i + j) / 2;
          if arr[mid - 1] == Nil {
            j := mid;
          } else {
            i := mid;
          }
        }
        return i;
      }
      if IsDummy() {
        NothingInDummy(j + 1);
        return j;
      }
      r := UnboundSearch(j);
    }

    lemma AllSlots()
      requires Valid()
      ensures forall i :: 0 <= i < |arr| ==> (arr[i] != Nil <==> IntKey(i + 1) in m)
    {
      forall i | 0 <= i < |arr| ensures arr[i] != Nil <==> IntKey(i + 1) in m {
        assert SlotHeld(arr, m, i) && KeyHeld(arr, part.place, m, IntKey(i + 1));
      }
    }

    lemma NothingInDummy(j: nat)
      requires Valid() && IsDummy() && j > |arr|
      ensures IntKey(j) !in m
    {
      assert KeyHeld(arr, part.place, m, IntKey(j));
    }
  }

  lemma PartSizes(s: Part, h: Hasher)
    requires PartOk(s, h)
    ensures |s.nodes| == |s.chain| == |s.rank| > 0
  {
  }

  lemma PlaceOf(s: Part, h: Hasher, k: Key, n: nat)
    requires PartOk(s, h) && n < |s.nodes| && s.nodes[n].key == Has(k)
    ensures k in s.place && s.place[k] == n
  {
    assert NodeOk(s, h, n);
  }

  lemma StoredPart(s: Part, h: Hasher, n: nat, v: Value)
    requires PartOk(s, h) && n < |s.nodes| && s.nodes[n].key.Has?
    ensures PartOk(s.(nodes := s.nodes[n := s.nodes[n].(val := v)]), h)
  {
    var s' := s.(nodes := s.nodes[n := s.nodes[n].(val := v)]);
    forall a | 0 <= a < |s'.nodes| ensures LinkOk(s', a) && NodeOk(s', h, a) {
      assert LinkOk(s, a) && NodeOk(s, h, a);
    }
    forall a, b | 0 <= a < |s'.nodes| && 0 <= b < |s'.nodes| ensures OrderOk(s', a, b) {
      assert OrderOk(s, a, b);
    }
  }

  lemma StoredHolds(arr: seq<Value>, s: Part, m: map<Key, Value>, h: Hasher, k: Key, c: Cell, v: Value, arr': seq<Value>, s': Part)
    requires Holds(arr, s, m) && PartOk(s, h)
    requires match c
             case InArray(i) => InRange(k, |arr|) && i == k.i - 1 && arr' == arr[i := v] && s' == s
             case InNode(n) => !InRange(k, |arr|) && k in s.place && n == s.place[k] < |s.nodes| && arr' == arr && s' == s.(nodes := s.nodes[n := s.nodes[n].(val := v)])
             case Absent => false
    ensures Holds(arr', s', Updated(m, k, v))
  {
    var m' := Updated(m, k, v);
    forall q ensures KeyHeld(arr', s'.place, m', q) {
      assert KeyHeld(arr, s.place, m, q);
    }
    forall i | 0 <= i < |arr'| ensures SlotHeld(arr', m', i) {
      assert SlotHeld(arr, m, i);
    }
    forall n | 0 <= n < |s'.nodes| ensures NodeHeld(arr', s'.nodes, m', n) {
      assert NodeHeld(arr, s.nodes, m, n) && NodeOk(s, h, n);
    }
  }

  lemma NotTwice(s: Part, h: Hasher, k: Key, n: nat, q: nat)
    requires PartOk(s, h) && n < |s.nodes| && q < |s.nodes| && s.nodes[n].key == Has(k) && q != n
    ensures s.nodes[q].key != Has(k)
  {
    assert NodeOk(s, h, n) && NodeOk(s, h, q);
  }

  /** One node less is free. */
  lemma OneLessFree(a: seq<Node>, b: seq<Node>, f: nat)
    requires |a| == |b| && f < |a| && forall n :: 0 <= n < |a| && a[n].key == NoKey && n != f ==> b[n].key == NoKey
    ensures |FreeNodes(b)| + 1 >= |FreeNodes(a)|
  {
    assert FreeNodes(a) - {f} <= FreeNodes(b);
    Smaller(FreeNodes(a) - {f}, FreeNodes(b));
  }

  lemma InMainHolds(arr: seq<Value>, s: Part, m: map<Key, Value>, h: Hasher, mp: nat, k: Key)
    requires Holds(arr, s, m) && PartOk(s, h) && mp < |s.nodes| && s.nodes[mp].val == Nil && k !in m && !InRange(k, |arr|)
    ensures Holds(arr, InMain(s, mp, k), m)
  {
    var s' := InMain(s, mp, k);
    forall q ensures KeyHeld(arr, s'.place, m, q) {
      assert KeyHeld(arr, s.place, m, q);
      if q in s.place && s.nodes[mp].key == Has(q) {
        assert NodeHeld(arr, s.nodes, m, mp);
      }
    }
    forall n | 0 <= n < |s'.nodes| ensures NodeHeld(arr, s'.nodes, m, n) {
      assert NodeHeld(arr, s.nodes, m, n);
    }
  }

  lemma ChainedHolds(arr: seq<Value>, s: Part, m: map<Key, Value>, h: Hasher, mp: nat, f: nat, k: Key)
    requires Holds(arr, s, m) && PartOk(s, h) && mp < |s.nodes| && f < |s.nodes| && f != mp && s.nodes[f].key == NoKey && 0 <= Succ(s.nodes, mp) < |s.nodes|
    requires k !in m && !InRange(k, |arr|) && k !in s.place
    ensures Holds(arr, Chained(s, mp, f, k), m)
  {
    var s' := Chained(s, mp, f, k);
    assert NodeOk(s, h, f);
    forall q ensures KeyHeld(arr, s'.place, m, q) {
      assert KeyHeld(arr, s.place, m, q);
    }
    forall n | 0 <= n < |s'.nodes| ensures NodeHeld(arr, s'.nodes, m, n) {
      assert NodeHeld(arr, s.nodes, m, n);
    }
  }

  lemma NotItself(s: Part, h: Hasher, n: nat)
    requires PartOk(s, h) && n < |s.nodes| && s.nodes[n].next != 0
    ensures Succ(s.nodes, n) != n
  {
  }

  lemma MovedHolds(arr: seq<Value>, s: Part, m: map<Key, Value>, h: Hasher, mp: nat, f: nat, prev: nat, k: Key)
    requires Holds(arr, s, m) && PartOk(s, h) && mp < |s.nodes| && f < |s.nodes| && f != mp && prev < |s.nodes| && s.nodes[f].key == NoKey
    requires s.nodes[prev].next != 0 && Succ(s.nodes, prev) == mp && s.nodes[mp].key.Has?
    requires k !in m && !InRange(k, |arr|) && k !in s.place
    ensures Holds(arr, Moved(s, mp, f, prev, k), m)
  {
    var s' := Moved(s, mp, f, prev, k);
    FreeAlone(s, h, f);
    assert LinkOk(s, prev) && NodeOk(s, h, mp);
    forall q ensures KeyHeld(arr, s'.place, m, q) {
      assert KeyHeld(arr, s.place, m, q);
    }
    forall n | 0 <= n < |s'.nodes| ensures NodeHeld(arr, s'.nodes, m, n) {
      assert NodeHeld(arr, s.nodes, m, n) && NodeHeld(arr, s.nodes, m, mp);
    }
  }

  lemma TakenHasKey(s: Part, h: Hasher, n: nat)
    requires PartOk(s, h) && n < |s.nodes| && s.nodes[n].val != Nil
    ensures s.nodes[n].key.Has?
  {
    assert NodeOk(s, h, n);
  }

  /** The keys that do not go into an array part of size `n`. */
  ghost function OutKeys(m: map<Key, Value>, n: nat): set<Key> {
    set k | k in m && !InRange(k, n)
  }

  lemma OneMoreOut(m: map<Key, Value>, m0: map<Key, Value>, k: Key, v: Value, n: nat)
    requires (forall q :: q in m ==> q in m0) && k !in m && k in m0
    ensures |OutKeys(m[k := v], n)| == |OutKeys(m, n)| + if InRange(k, n) then 0 else 1
    ensures !InRange(k, n) ==> |OutKeys(m, n)| + 1 <= |OutKeys(m0, n)|
  {
    if InRange(k, n) {
      assert OutKeys(m[k := v], n) == OutKeys(m, n);
    } else {
      assert OutKeys(m[k := v], n) == OutKeys(m, n) + {k};
      assert OutKeys(m, n) + {k} <= OutKeys(m0, n);
      Smaller(OutKeys(m, n) + {k}, OutKeys(m0, n));
    }
  }

  ghost function Restrict(m: map<Key, Value>, ks: set<Key>): map<Key, Value> {
    map k | k in m && k in ks :: m[k]
  }

  lemma RestrictIn(m: map<Key, Value>, ks: set<Key>)
    ensures forall k :: k in Restrict(m, ks) ==> k in m && Restrict(m, ks)[k] == m[k]
  {
  }

  lemma NotYet(m: map<Key, Value>, ks: set<Key>, k: Key)
    requires k !in ks
    ensures k !in Restrict(m, ks)
  {
  }

  /** The keys 1 to `n`. */
  ghost function IntKeys(n: nat): set<Key> {
    set i | 1 <= i <= n :: IntKey(i)
  }

  /** The keys of the nodes from `j` on. */
  ghost function KeysFrom(nodes: seq<Node>, j: nat): set<Key> {
    set n | j <= n < |nodes| && nodes[n].key.Has? :: nodes[n].key.k
  }

  /** With empty nodes, the table holds what is in its array part. */
  lemma ArrayOnly(olda: seq<Value>, arr: seq<Value>, m0: map<Key, Value>, s0: Part, m: map<Key, Value>, s: Part, kept: nat, nasize: nat)
    requires Holds(olda, s0, m0) && kept == (if nasize < |olda| then nasize else |olda|) && m == Restrict(m0, IntKeys(kept))
    requires arr == if nasize < |olda| then olda[..nasize] else olda + seq(nasize - |olda|, _ => Nil)
    requires forall n :: 0 <= n < |s.nodes| ==> s.nodes[n] == Node(NoKey, Nil, 0)
    ensures Holds(arr, s, m) && OutKeys(m, nasize) == {}
  {
    forall k ensures KeyHeld(arr, s.place, m, k) {
      assert KeyHeld(olda, s0.place, m0, k);
    }
    forall i | 0 <= i < |arr| ensures SlotHeld(arr, m, i) {
      assert i < |olda| ==> SlotHeld(olda, m0, i);
      assert IntKey(i + 1) in IntKeys(kept) <==> i < kept;
    }
    forall n | 0 <= n < |s.nodes| ensures NodeHeld(arr, s.nodes, m, n) {
    }
  }

  lemma SlotIs(olda: seq<Value>, s0: Part, m0: map<Key, Value>, i: nat)
    requires Holds(olda, s0, m0) && i < |olda|
    ensures olda[i] == Look(m0, IntKey(i + 1)) && (olda[i] != Nil ==> IntKey(i + 1) in m0) && IntKey(i + 1) !in IntKeys(i)
    ensures forall k :: k in m0 ==> m0[k] != Nil
  {
    assert SlotHeld(olda, m0, i);
    forall k | k in m0 ensures m0[k] != Nil {
      assert KeyHeld(olda, s0.place, m0, k);
    }
  }

  lemma RestrictNext(m0: map<Key, Value>, i: nat, v: Value)
    requires v == Look(m0, IntKey(i + 1)) && forall k :: k in m0 ==> m0[k] != Nil
    ensures Restrict(m0, IntKeys(i + 1)) == if v != Nil then Restrict(m0, IntKeys(i))[IntKey(i + 1) := v] else Restrict(m0, IntKeys(i))
  {
    assert IntKeys(i + 1) == IntKeys(i) + {IntKey(i + 1)};
  }

  lemma RestrictStart(m0: map<Key, Value>, n: nat, nodes: seq<Node>)
    ensures Restrict(m0, IntKeys(n)) == Restrict(m0, IntKeys(n) + KeysFrom(nodes, |nodes|))
  {
  }

  lemma NodeIs(olda: seq<Value>, s0: Part, m0: map<Key, Value>, h: Hasher, j: nat)
    requires Holds(olda, s0, m0) && PartOk(s0, h) && j < |s0.nodes|
    ensures s0.nodes[j].val != Nil ==> s0.nodes[j].key.Has? && s0.nodes[j].key.k in m0 && m0[s0.nodes[j].key.k] == s0.nodes[j].val
    ensures s0.nodes[j].key.Has? ==> s0.nodes[j].key.k !in IntKeys(|olda|) && s0.nodes[j].key.k !in KeysFrom(s0.nodes, j + 1)
  {
    assert NodeOk(s0, h, j) && NodeHeld(olda, s0.nodes, m0, j);
    forall n | j + 1 <= n < |s0.nodes| && s0.nodes[n].key.Has? ensures s0.nodes[n].key != s0.nodes[j].key {
      assert NodeOk(s0, h, n);
    }
  }

  lemma RestrictNode(olda: seq<Value>, s0: Part, m0: map<Key, Value>, h: Hasher, j: nat)
    requires Holds(olda, s0, m0) && PartOk(s0, h) && j < |s0.nodes|
    ensures var a, b := Restrict(m0, IntKeys(|olda|) + KeysFrom(s0.nodes, j + 1)), Restrict(m0, IntKeys(|olda|) + KeysFrom(s0.nodes, j));
            b == if s0.nodes[j].val != Nil && s0.nodes[j].key.Has? then a[s0.nodes[j].key.k := s0.nodes[j].val] else a
  {
    assert NodeOk(s0, h, j) && NodeHeld(olda, s0.nodes, m0, j);
    var extra: set<Key> := if s0.nodes[j].key.Has? then {s0.nodes[j].key.k} else {};
    assert KeysFrom(s0.nodes, j) == KeysFrom(s0.nodes, j + 1) + extra;
    if s0.nodes[j].key.Has? {
      assert KeyHeld(olda, s0.place, m0, s0.nodes[j].key.k);
    }
  }

  /** Every key was in the array part or in a node. */
  lemma AllBack(olda: seq<Value>, s0: Part, m0: map<Key, Value>, h: Hasher, dummy: bool)
    requires Holds(olda, s0, m0) && PartOk(s0, h)
    requires dummy ==> |s0.nodes| == 1 && s0.nodes[0].key == NoKey
    ensures Restrict(m0, IntKeys(|olda|) + KeysFrom(s0.nodes, 0)) == m0
    ensures dummy ==> Restrict(m0, IntKeys(|olda|)) == m0
  {
    assert dummy ==> KeysFrom(s0.nodes, 0) == {};
    assert IntKeys(|olda|) + {} == IntKeys(|olda|);
    forall k | k in m0 ensures k in IntKeys(|olda|) + KeysFrom(s0.nodes, 0) {
      assert KeyHeld(olda, s0.place, m0, k);
      if InRange(k, |olda|) {
        assert k == IntKey(k.i) && k in IntKeys(|olda|);
      } else {
        assert s0.nodes[s0.place[k]].key == Has(k);
      }
    }
  }

  // ---------- counting keys ----------

  ghost function Ints(ks: set<Key>): set<int> {
    set k | k in ks && k.IntKey? :: k.i
  }

  lemma IntsAdd(ks: set<Key>, k: Key)
    ensures Ints(ks + {k}) == if k.IntKey? then Ints(ks) + {k.i} else Ints(ks)
    ensures k !in ks && k.IntKey? ==> k.i !in Ints(ks)
  {
    if k.IntKey? {
      assert k == IntKey(k.i);
      forall i | i in Ints(ks) + {k.i} ensures i in Ints(ks + {k}) {
        if i != k.i {
          var q :| q in ks && q.IntKey? && q.i == i;
          assert q in ks + {k};
        } else {
          assert k in ks + {k};
        }
      }
    }
  }

  /** `countint`. */
  method CountInt(k: Key, nums0: seq<nat>, ghost ks: set<Key>) returns (nums: seq<nat>, c: nat)
    requires Counted(nums0, Ints(ks)) && k !in ks
    ensures Counted(nums, Ints(ks + {k}))
    ensures CountIn(Ints(ks + {k}), 0, Pow2(MAXABITS)) == CountIn(Ints(ks), 0, Pow2(MAXABITS)) + c
  {
    hide Counted, Ints, CountIn, Pow2;
    IntsAdd(ks, k);
    Pow2At31();
    nums, c := nums0, 0;
    if k.IntKey? && 0 < k.i <= MAXASIZE {
      var l := CeilLog2(k.i);
      SliceInBounds(k.i, l);
      CountedLength(nums, Ints(ks));
      CountedAdd(nums, Ints(ks), k.i, l);
      CountAdd(Ints(ks), k.i, 0, Pow2(MAXABITS));
      nums := nums[l := nums[l] + 1];
      c := 1;
    } else if k.IntKey? {
      CountedSame(nums, Ints(ks), k.i);
    }
  }

  lemma SliceInBounds(x: nat, l: nat)
    requires Low(l) < x <= MAXASIZE
    ensures l <= MAXABITS
  {
    Pow2At31();
    if l > MAXABITS {
      Pow2Monotone(MAXABITS, l - 1);
    }
  }

  lemma CountedLength(nums: seq<nat>, s: set<int>)
    requires Counted(nums, s)
    ensures |nums| == MAXABITS + 1
  {
  }

  /** The keys of the first `n` array slots in use. */
  ghost function ArrayKeys(arr: seq<Value>, n: nat): set<Key>
    requires n <= |arr|
  {
    set i | 0 <= i < n && arr[i] != Nil :: IntKey(i + 1)
  }

  lemma NoKeysYet(arr: seq<Value>)
    ensures Counted(seq(MAXABITS + 1, _ => 0), Ints(ArrayKeys(arr, 0))) && ArrayKeys(arr, 0) == {} && Low(0) == 0 && Pow2(0) == 1
  {
    CountedNone();
    assert Ints({}) == {};
  }

  lemma SliceStarts(nums: seq<nat>, lg: nat)
    requires lg < |nums|
    ensures nums[lg := nums[lg] + 0] == nums
    ensures Low(lg) < Pow2(lg)
  {
    if lg > 0 {
      Pow2Monotone(lg - 1, lg);
    }
  }

  lemma SliceEnds(lg: nat, ttlg: nat)
    requires lg <= MAXABITS && ttlg == Pow2(lg)
    ensures Low(lg + 1) == ttlg && (lg < MAXABITS ==> Twice(ttlg) == Pow2(lg + 1))
  {
    Pow2Wraps(lg);
  }

  lemma EndOfArray(n: nat, i: nat, lg: nat)
    requires n <= MAXASIZE && lg <= MAXABITS + 1 && i >= 1 && i - 1 == (if Low(lg) < n then Low(lg) else n) && (lg == MAXABITS + 1 || i > n)
    ensures i - 1 == n
  {
    Pow2At31();
  }

  lemma OneMoreCell(arr: seq<Value>, i: nat)
    requires 1 <= i <= |arr|
    ensures ArrayKeys(arr, i) == if arr[i - 1] == Nil then ArrayKeys(arr, i - 1) else ArrayKeys(arr, i - 1) + {IntKey(i)}
    ensures IntKey(i) !in ArrayKeys(arr, i - 1)
  {
  }

  lemma ArrayKeyNext(arr: seq<Value>, nums: seq<nat>, i: nat, lg: nat)
    requires 1 <= i <= |arr| && Counted(nums, Ints(ArrayKeys(arr, i - 1))) && Low(lg) < i <= Pow2(lg) && lg <= MAXABITS
    ensures |nums| == MAXABITS + 1
    ensures arr[i - 1] == Nil ==> ArrayKeys(arr, i) == ArrayKeys(arr, i - 1)
    ensures arr[i - 1] != Nil ==> Counted(nums[lg := nums[lg] + 1], Ints(ArrayKeys(arr, i))) && |ArrayKeys(arr, i)| == |ArrayKeys(arr, i - 1)| + 1
  {
    hide Ints, CountIn, ArrayKeys, Low, Pow2, Counted;
    var ks := ArrayKeys(arr, i - 1);
    OneMoreCell(arr, i);
    CountedLength(nums, Ints(ks));
    if arr[i - 1] != Nil {
      IntsAdd(ks, IntKey(i));
      CountedAdd(nums, Ints(ks), i, lg);
    }
  }

  lemma ArrayAllSmall(arr: seq<Value>)
    requires |arr| <= MAXASIZE
    ensures CountIn(Ints(ArrayKeys(arr, |arr|)), 0, Pow2(MAXABITS)) == |ArrayKeys(arr, |arr|)|
  {
    Pow2At31();
    Partition(ArrayKeys(arr, |arr|), Pow2(MAXABITS));
    var ks := ArrayKeys(arr, |arr|);
    assert (set k | k in ks && !InRange(k, Pow2(MAXABITS))) == {};
  }

  /** Keys are either integers up to `n` or do not go into an array part of that size. */
  lemma {:induction false} Partition(ks: set<Key>, n: nat)
    ensures |ks| == CountIn(Ints(ks), 0, n) + |set k | k in ks && !InRange(k, n)|
    decreases ks
  {
    if ks == {} {
      assert Ints(ks) == {} && Between({}, 0, n) == {};
      assert (set k | k in ks && !InRange(k, n)) == {};
    } else {
      var x :| x in ks;
      var rest := ks - {x};
      Partition(rest, n);
      assert ks == rest + {x};
      IntsAdd(rest, x);
      if x.IntKey? {
        CountAdd(Ints(rest), x.i, 0, n);
      }
      var out := set k | k in rest && !InRange(k, n);
      assert (set k | k in ks && !InRange(k, n)) == if InRange(x, n) then out else out + {x};
    }
  }

  /** The keys of the nodes from `j` on that have a value. */
  ghost function UsedKeys(nodes: seq<Node>, j: nat): set<Key> {
    set n | j <= n < |nodes| && nodes[n].key.Has? && nodes[n].val != Nil :: nodes[n].key.k
  }

  lemma NoUsedYet(nodes: seq<Node>, a: set<Key>)
    ensures a + UsedKeys(nodes, |nodes|) == a
  {
  }

  lemma NodeUsed(arr: seq<Value>, s: Part, m: map<Key, Value>, h: Hasher, j: nat)
    requires Holds(arr, s, m) && PartOk(s, h) && j < |s.nodes|
    ensures var a := ArrayKeys(arr, |arr|);
            if s.nodes[j].val == Nil then UsedKeys(s.nodes, j) == UsedKeys(s.nodes, j + 1)
            else s.nodes[j].key.Has? && s.nodes[j].key.k !in a + UsedKeys(s.nodes, j + 1)
                 && a + UsedKeys(s.nodes, j) == a + UsedKeys(s.nodes, j + 1) + {s.nodes[j].key.k}
  {
    assert NodeOk(s, h, j) && NodeHeld(arr, s.nodes, m, j);
    forall n | j + 1 <= n < |s.nodes| && s.nodes[n].key.Has? ensures s.nodes[n].key != s.nodes[j].key {
      assert NodeOk(s, h, n);
    }
  }

  lemma AllUsed(arr: seq<Value>, s: Part, m: map<Key, Value>, h: Hasher)
    requires Holds(arr, s, m) && PartOk(s, h)
    ensures ArrayKeys(arr, |arr|) + UsedKeys(s.nodes, 0) == m.Keys
  {
    forall k | k in m.Keys ensures k in ArrayKeys(arr, |arr|) + UsedKeys(s.nodes, 0) {
      assert KeyHeld(arr, s.place, m, k);
      if InRange(k, |arr|) {
        assert k == IntKey(k.i) && SlotHeld(arr, m, k.i - 1);
      } else {
        assert NodeHeld(arr, s.nodes, m, s.place[k]);
      }
    }
    forall i | 0 <= i < |arr| && arr[i] != Nil ensures IntKey(i + 1) in m {
      assert SlotHeld(arr, m, i);
    }
    forall n | 0 <= n < |s.nodes| && s.nodes[n].key.Has? && s.nodes[n].val != Nil ensures s.nodes[n].key.k in m {
      assert NodeHeld(arr, s.nodes, m, n);
    }
  }

  lemma SizeFits(s: set<int>, n: nat)
    requires Optimal(s, n)
    ensures n <= MAXASIZE
  {
    Pow2At31();
    if n != 0 {
      var i :| 0 <= i <= MAXABITS && n == Pow2(i);
      Pow2Monotone(i, MAXABITS);
    }
  }

  /** The nodes that `rehash` asks for are enough for the keys that stay in the hash part, the new one included. */
  lemma RoomFor(m: map<Key, Value>, ek: Key, n: nat)
    requires ek !in m
    ensures |m| + 1 - CountIn(Ints(m.Keys + {ek}), 0, n) == |OutKeys(m, n)| + if InRange(ek, n) then 0 else 1
  {
    var ks := m.Keys + {ek};
    assert |ks| == |m| + 1;
    Partition(ks, n);
    hide CountIn, Ints, OutKeys, InRange;
    OneMoreKey(m, ek, n);
  }

  lemma OneMoreKey(m: map<Key, Value>, ek: Key, n: nat)
    requires ek !in m
    ensures |set k | k in m.Keys + {ek} && !InRange(k, n)| == |OutKeys(m, n)| + if InRange(ek, n) then 0 else 1
  {
    assert (set k | k in m.Keys + {ek} && !InRange(k, n)) == OutKeys(m, n) + if InRange(ek, n) then {} else {ek};
  }
}
