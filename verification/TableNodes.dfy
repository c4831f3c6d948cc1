/**
  The hash part of a table in `ltable.c`: a vector of nodes, chained by offsets,
  with Brent's variation: a node outside its main position collides with one
  that is inside its own.
 */
module TableNodes {

  datatype Key = IntKey(i: int) | OtherKey(id: int)

  datatype Value = Nil | Val(id: int)

  datatype KeySlot = NoKey | Has(k: Key)

  /** A node: `next` is the offset of the next node of its chain, 0 at the end. */
  datatype Node = Node(key: KeySlot, val: Value, next: int)

  /** How keys other than integers are hashed for a given number of nodes. */
  type Hasher = (Key, nat) -> nat

  const TWO64 := 0x1_0000_0000_0000_0000

  /** `mainposition`, as an index. */
  function Main(h: Hasher, k: Key, size: nat): (p: nat)
    requires size > 0
    ensures p < size
  {
    if k.IntKey? then k.i % TWO64 % size else h(k, size) % size
  }

  /**
    The nodes and what shows that their chains are sound: nodes with the same `chain`
    are linked in the order of `rank`, and `place` says where each key is.
   */
  datatype Part = Part(nodes: seq<Node>, chain: seq<int>, rank: seq<real>, place: map<Key, nat>)

  ghost predicate LinkOk(s: Part, n: nat)
    requires n < |s.nodes| == |s.chain| == |s.rank|
  {
    s.nodes[n].next != 0 ==>
      0 <= n + s.nodes[n].next < |s.nodes|
      && s.chain[n + s.nodes[n].next] == s.chain[n]
      && s.rank[n] < s.rank[n + s.nodes[n].next]
  }

  /** Of two nodes of a chain the first leads to the second, in one step or more. */
  ghost predicate OrderOk(s: Part, a: nat, b: nat)
    requires a < |s.nodes| == |s.chain| == |s.rank| && b < |s.nodes|
  {
    a != b && s.chain[a] == s.chain[b] ==>
      && s.rank[a] != s.rank[b]
      && (s.rank[a] < s.rank[b] ==> s.nodes[a].next != 0 && 0 <= a + s.nodes[a].next < |s.nodes| && s.rank[a + s.nodes[a].next] <= s.rank[b])
  }

  ghost predicate NodeOk(s: Part, h: Hasher, n: nat)
    requires n < |s.nodes| == |s.chain| == |s.rank|
  {
    match s.nodes[n].key
    case NoKey =>
      && s.nodes[n].val == Nil
      && forall b :: 0 <= b < |s.nodes| && b != n ==> s.chain[b] != s.chain[n]
    case Has(k) =>
      var p := Main(h, k, |s.nodes|);
      && k in s.place && s.place[k] == n
      && s.chain[p] == s.chain[n] && s.rank[p] <= s.rank[n]
      && (p != n ==> s.nodes[p].key.Has? && Main(h, s.nodes[p].key.k, |s.nodes|) == p)
  }

  ghost predicate PartOk(s: Part, h: Hasher) {
    && |s.nodes| == |s.chain| == |s.rank| > 0
    && (forall n :: 0 <= n < |s.nodes| ==> LinkOk(s, n))
    && (forall a, b :: 0 <= a < |s.nodes| && 0 <= b < |s.nodes| ==> OrderOk(s, a, b))
    && (forall n :: 0 <= n < |s.nodes| ==> NodeOk(s, h, n))
    && (forall k :: k in s.place ==> s.place[k] < |s.nodes| && s.nodes[s.place[k]].key == Has(k))
  }

  /** The successor of a node, itself at the end of a chain. */
  function Succ(nodes: seq<Node>, n: nat): int
    requires n < |nodes|
  {
    n + nodes[n].next
  }

  /** Each node has at most one predecessor. */
  lemma OnePredecessor(s: Part, h: Hasher, a: nat, b: nat)
    requires PartOk(s, h) && a < |s.nodes| && b < |s.nodes| && s.nodes[a].next != 0 && s.nodes[b].next != 0
    requires Succ(s.nodes, a) == Succ(s.nodes, b)
    ensures a == b
  {
    assert LinkOk(s, a) && LinkOk(s, b) && OrderOk(s, a, b) && OrderOk(s, b, a);
  }

  lemma Facts(s: Part, h: Hasher, a: nat, b: nat)
    requires PartOk(s, h) && a < |s.nodes| && b < |s.nodes|
    ensures |s.nodes| == |s.chain| == |s.rank| && LinkOk(s, a) && OrderOk(s, a, b)
  {
  }

  /** A free node is in no chain. */
  lemma FreeAlone(s: Part, h: Hasher, f: nat)
    requires PartOk(s, h) && f < |s.nodes| && s.nodes[f].key == NoKey
    ensures s.nodes[f].next == 0 && forall b :: 0 <= b < |s.nodes| && b != f ==> s.chain[b] != s.chain[f]
    ensures forall a :: 0 <= a < |s.nodes| && s.nodes[a].next != 0 ==> Succ(s.nodes, a) != f
  {
    assert LinkOk(s, f) && NodeOk(s, h, f);
    forall a | 0 <= a < |s.nodes| && s.nodes[a].next != 0 ensures Succ(s.nodes, a) != f {
      assert LinkOk(s, a) && LinkOk(s, f);
    }
  }

  // ---------- the three ways `luaH_newkey` puts a key in ----------

  /** The main position holds no value: the key goes there, whatever dead key was there before. */
  function InMain(s: Part, mp: nat, k: Key): Part
    requires mp < |s.nodes|
  {
    var dead := s.nodes[mp].key;
    s.(nodes := s.nodes[mp := s.nodes[mp].(key := Has(k))],
       place := (if dead.Has? then s.place - {dead.k} else s.place)[k := mp])
  }

  lemma InMainOk(s: Part, h: Hasher, mp: nat, k: Key)
    requires PartOk(s, h) && mp < |s.nodes| && mp == Main(h, k, |s.nodes|) && s.nodes[mp].val == Nil && k !in s.place
    ensures PartOk(InMain(s, mp, k), h)
  {
    var s' := InMain(s, mp, k);
    forall n | 0 <= n < |s'.nodes| ensures LinkOk(s', n) && NodeOk(s', h, n) {
      assert LinkOk(s, n) && NodeOk(s, h, n) && NodeOk(s, h, mp);
    }
    forall a, b | 0 <= a < |s'.nodes| && 0 <= b < |s'.nodes| ensures OrderOk(s', a, b) {
      assert OrderOk(s, a, b);
    }
  }

  /** The node at the main position is in its own: the key goes to the free node `f`, second in the chain. */
  function Chained(s: Part, mp: nat, f: nat, k: Key): Part
    requires mp < |s.nodes| == |s.chain| == |s.rank| && f < |s.nodes|
    requires 0 <= Succ(s.nodes, mp) < |s.nodes|
  {
    var q := Succ(s.nodes, mp);
    var r := if q == mp then s.rank[mp] + 1.0 else (s.rank[mp] + s.rank[q]) / 2.0;
    Part(s.nodes[f := Node(Has(k), s.nodes[f].val, if q == mp then s.nodes[f].next else q - f)][mp := s.nodes[mp].(next := f - mp)],
         s.chain[f := s.chain[mp]], s.rank[f := r], s.place[k := f])
  }

  lemma ChainedOk(s: Part, h: Hasher, mp: nat, f: nat, k: Key)
    requires PartOk(s, h) && mp < |s.nodes| && mp == Main(h, k, |s.nodes|) && k !in s.place
    requires f < |s.nodes| && f != mp && s.nodes[f].key == NoKey && s.nodes[mp].key.Has? && Main(h, s.nodes[mp].key.k, |s.nodes|) == mp
    ensures 0 <= Succ(s.nodes, mp) < |s.nodes|
    ensures PartOk(Chained(s, mp, f, k), h)
  {
    assert LinkOk(s, mp) && NodeOk(s, h, mp);
    FreeAlone(s, h, f);
    var q := Succ(s.nodes, mp);
    var s' := Chained(s, mp, f, k);
    forall n | 0 <= n < |s'.nodes| ensures LinkOk(s', n) && NodeOk(s', h, n) {
      ChainedLink(s, h, mp, f, k, n);
      ChainedNode(s, h, mp, f, k, n);
    }
    hide LinkOk, OrderOk, NodeOk;
    forall a, b | 0 <= a < |s'.nodes| && 0 <= b < |s'.nodes| ensures OrderOk(s', a, b) {
      ChainedOrder(s, h, mp, f, k, a, b);
    }
  }

  lemma ChainedLink(s: Part, h: Hasher, mp: nat, f: nat, k: Key, n: nat)
    requires PartOk(s, h) && mp < |s.nodes| && f < |s.nodes| && f != mp && s.nodes[f].key == NoKey && n < |s.nodes|
    requires 0 <= Succ(s.nodes, mp) < |s.nodes|
    ensures LinkOk(Chained(s, mp, f, k), n)
  {
    hide OrderOk, NodeOk;
    assert LinkOk(s, mp) && LinkOk(s, n);
    FreeAlone(s, h, f);
  }

  lemma ChainedNode(s: Part, h: Hasher, mp: nat, f: nat, k: Key, n: nat)
    requires PartOk(s, h) && mp < |s.nodes| && mp == Main(h, k, |s.nodes|) && k !in s.place && n < |s.nodes|
    requires f < |s.nodes| && f != mp && s.nodes[f].key == NoKey && s.nodes[mp].key.Has? && Main(h, s.nodes[mp].key.k, |s.nodes|) == mp
    requires 0 <= Succ(s.nodes, mp) < |s.nodes|
    ensures NodeOk(Chained(s, mp, f, k), h, n)
  {
    hide OrderOk;
    assert LinkOk(s, mp) && NodeOk(s, h, n) && NodeOk(s, h, f) && NodeOk(s, h, mp);
    FreeAlone(s, h, f);
  }

  lemma ChainedOrder(s: Part, h: Hasher, mp: nat, f: nat, k: Key, a: nat, b: nat)
    requires PartOk(s, h) && mp < |s.nodes| && f < |s.nodes| && f != mp && s.nodes[f].key == NoKey
    requires 0 <= Succ(s.nodes, mp) < |s.nodes| && a < |s.nodes| && b < |s.nodes|
    ensures OrderOk(Chained(s, mp, f, k), a, b)
  {
    FreeAlone(s, h, f);
    var q := Succ(s.nodes, mp);
    Facts(s, h, a, b);
    Facts(s, h, mp, b);
    Facts(s, h, mp, a);
    Facts(s, h, a, mp);
    Facts(s, h, a, q);
    Facts(s, h, q, b);
    hide PartOk;
  }

  /**
    The node at the main position `mp` is not in its own, which is `o`'s chain: it moves to
    the free node `f`, and the key takes its place. `prev` is the node before `mp`.
   */
  function Moved(s: Part, mp: nat, f: nat, prev: nat, k: Key): Part
    requires mp < |s.nodes| == |s.chain| == |s.rank| && f < |s.nodes| && prev < |s.nodes|
  {
    var moved := s.nodes[mp].(next := if s.nodes[mp].next != 0 then s.nodes[mp].next + mp - f else 0);
    var was := s.nodes[mp].key;
    Part(s.nodes[prev := s.nodes[prev].(next := f - prev)][f := moved][mp := Node(Has(k), Nil, 0)],
         s.chain[f := s.chain[mp]][mp := s.chain[f]], s.rank[f := s.rank[mp]],
         (if was.Has? then s.place[was.k := f] else s.place)[k := mp])
  }

  lemma MovedOk(s: Part, h: Hasher, mp: nat, f: nat, prev: nat, k: Key)
    requires PartOk(s, h) && mp < |s.nodes| && mp == Main(h, k, |s.nodes|) && k !in s.place
    requires f < |s.nodes| && s.nodes[f].key == NoKey && s.nodes[mp].key.Has? && Main(h, s.nodes[mp].key.k, |s.nodes|) != mp
    requires prev < |s.nodes| && s.nodes[prev].next != 0 && Succ(s.nodes, prev) == mp
    ensures PartOk(Moved(s, mp, f, prev, k), h)
  {
    FreeAlone(s, h, f);
    var s' := Moved(s, mp, f, prev, k);
    assert prev != mp && prev != f && f != mp by { assert LinkOk(s, prev); }
    forall n | 0 <= n < |s'.nodes| ensures LinkOk(s', n) {
      MovedLink(s, h, mp, f, prev, k, n);
    }
    forall a, b | 0 <= a < |s'.nodes| && 0 <= b < |s'.nodes| ensures OrderOk(s', a, b) {
      MovedOrder(s, h, mp, f, prev, k, a, b);
    }
    forall n | 0 <= n < |s'.nodes| ensures NodeOk(s', h, n) {
      MovedNode(s, h, mp, f, prev, k, n);
    }
  }

  lemma MovedLink(s: Part, h: Hasher, mp: nat, f: nat, prev: nat, k: Key, n: nat)
    requires PartOk(s, h) && mp < |s.nodes| && f < |s.nodes| && s.nodes[f].key == NoKey && f != mp && prev != mp && prev != f
    requires prev < |s.nodes| && s.nodes[prev].next != 0 && Succ(s.nodes, prev) == mp && n < |s.nodes|
    ensures LinkOk(Moved(s, mp, f, prev, k), n)
  {
    FreeAlone(s, h, f);
    assert LinkOk(s, n) && LinkOk(s, mp) && LinkOk(s, prev) && NodeOk(s, h, f);
    if s.nodes[n].next != 0 && Succ(s.nodes, n) == mp {
      OnePredecessor(s, h, n, prev);
    }
    if s.nodes[mp].next != 0 {
      assert Succ(s.nodes, mp) != mp;
    }
  }

  /** Facts about `a` and `b` and their places before the move. */
  lemma MovedFacts(s: Part, h: Hasher, mp: nat, f: nat, prev: nat, k: Key, a: nat, b: nat)
    requires PartOk(s, h) && mp < |s.nodes| && f < |s.nodes| && s.nodes[f].key == NoKey && f != mp && prev != mp && prev != f
    requires prev < |s.nodes| && s.nodes[prev].next != 0 && Succ(s.nodes, prev) == mp && a < |s.nodes| && b < |s.nodes|
    ensures OrderOk(s, Swapped(a, mp, f), Swapped(b, mp, f)) && OrderOk(s, prev, mp) && OrderOk(s, mp, prev) && LinkOk(s, prev)
    ensures s.nodes[Swapped(a, mp, f)].next != 0 && Succ(s.nodes, Swapped(a, mp, f)) == mp ==> Swapped(a, mp, f) == prev
    ensures forall n :: 0 <= n < |s.nodes| && n != f ==> s.chain[n] != s.chain[f] && (s.nodes[n].next != 0 ==> Succ(s.nodes, n) != f)
    ensures s.nodes[f].next == 0
    ensures s.nodes[Swapped(a, mp, f)].next != 0 ==> 0 <= Succ(s.nodes, Swapped(a, mp, f)) < |s.nodes|
  {
    FreeAlone(s, h, f);
    var a0, b0 := Swapped(a, mp, f), Swapped(b, mp, f);
    Facts(s, h, a0, b0);
    Facts(s, h, mp, prev);
    Facts(s, h, prev, mp);
    if s.nodes[a0].next != 0 && Succ(s.nodes, a0) == mp {
      OnePredecessor(s, h, a0, prev);
    }
  }

  lemma MovedOrder(s: Part, h: Hasher, mp: nat, f: nat, prev: nat, k: Key, a: nat, b: nat)
    requires PartOk(s, h) && mp < |s.nodes| && f < |s.nodes| && s.nodes[f].key == NoKey && f != mp && prev != mp && prev != f
    requires prev < |s.nodes| && s.nodes[prev].next != 0 && Succ(s.nodes, prev) == mp && a < |s.nodes| && b < |s.nodes|
    ensures OrderOk(Moved(s, mp, f, prev, k), a, b)
  {
    MovedFacts(s, h, mp, f, prev, k, a, b);
    MovedAt(s, mp, f, prev, k, a);
    MovedAt(s, mp, f, prev, k, b);
    hide PartOk, Moved;
    var s' := Moved(s, mp, f, prev, k);
    if a != mp && s'.nodes[a].next != 0 {
      MovedAt(s, mp, f, prev, k, Succ(s'.nodes, a));
    }
  }

  function Swapped(n: nat, mp: nat, f: nat): nat {
    if n == f then mp else if n == mp then f else n
  }

  /** The parts of one node after the move. */
  lemma MovedAt(s: Part, mp: nat, f: nat, prev: nat, k: Key, n: int)
    requires |s.nodes| == |s.chain| == |s.rank| && mp < |s.nodes| && f < |s.nodes| && prev < |s.nodes| && f != mp && prev != mp && prev != f
    ensures var s' := Moved(s, mp, f, prev, k);
            && |s'.nodes| == |s'.chain| == |s'.rank| == |s.nodes|
            && (0 <= n < |s.nodes| ==>
                  && s'.chain[n] == s.chain[Swapped(n, mp, f)] && s'.rank[n] == s.rank[if n == f then mp else n]
                  && s'.nodes[n].next == if n == mp then 0 else if n == prev then f - prev
                                         else if n == f then (if s.nodes[mp].next == 0 then 0 else mp + s.nodes[mp].next - f)
                                         else s.nodes[n].next)
  {
  }

  lemma MovedNode(s: Part, h: Hasher, mp: nat, f: nat, prev: nat, k: Key, n: nat)
    requires PartOk(s, h) && mp < |s.nodes| && mp == Main(h, k, |s.nodes|) && k !in s.place
    requires f < |s.nodes| && s.nodes[f].key == NoKey && s.nodes[mp].key.Has? && Main(h, s.nodes[mp].key.k, |s.nodes|) != mp && f != mp && prev != mp && prev != f
    requires prev < |s.nodes| && s.nodes[prev].next != 0 && Succ(s.nodes, prev) == mp && n < |s.nodes|
    ensures NodeOk(Moved(s, mp, f, prev, k), h, n)
  {
    assert NodeOk(s, h, n) && NodeOk(s, h, mp) && NodeOk(s, h, f);
    if s.nodes[n].key.Has? {
      var p := Main(h, s.nodes[n].key.k, |s.nodes|);
      assert NodeOk(s, h, p);
    }
  }
}
