/**
  Whole traversals of a table with `luaH_next`, while the body of the loop assigns to fields
  that the table has, clears them included.
 */
module LuaTraversal {

  import opened TableNodes
  import opened LuaTable

  // ---------- numbered keys ----------

  /** Step `t` of a traversal goes to the present key with the next number. */
  ghost predicate StepsTo(index: Key -> nat, m: map<Key, Value>, before: nat, k: Key) {
    k in m && index(k) > before && forall q :: q in m && index(q) > before ==> index(q) >= index(k)
  }

  ghost function NumberAt(index: Key -> nat, ks: seq<Key>, t: nat): nat
    requires t <= |ks|
  {
    if t == 0 then 0 else index(ks[t - 1])
  }

  /**
    A traversal by `luaH_next` during which values, but not places, change: the table is
    `ms[t]` when step `t` is taken, and the last step finds nothing more.
   */
  ghost predicate Traverses(index: Key -> nat, ms: seq<map<Key, Value>>, ks: seq<Key>) {
    && |ms| == |ks| + 1
    && (forall t :: 0 <= t < |ks| ==> StepsTo(index, ms[t], NumberAt(index, ks, t), ks[t]))
    && (forall q :: q in ms[|ks|] ==> index(q) <= NumberAt(index, ks, |ks|))
  }

  lemma StepGrows(index: Key -> nat, ms: seq<map<Key, Value>>, ks: seq<Key>, t: nat)
    requires Traverses(index, ms, ks) && t < |ks|
    ensures index(ks[t]) > NumberAt(index, ks, t) && ks[t] in ms[t]
    ensures forall q :: q in ms[t] && index(q) > NumberAt(index, ks, t) ==> index(q) >= index(ks[t])
  {
    assert StepsTo(index, ms[t], NumberAt(index, ks, t), ks[t]);
  }

  lemma {:induction false} NumbersGrow(index: Key -> nat, ms: seq<map<Key, Value>>, ks: seq<Key>, a: nat, b: nat)
    requires Traverses(index, ms, ks) && a < b < |ks|
    ensures index(ks[a]) < index(ks[b])
    decreases b
  {
    hide Traverses;
    StepGrows(index, ms, ks, b);
    if a < b - 1 {
      NumbersGrow(index, ms, ks, a, b - 1);
    }
  }

  /** Every key that is present all the time is visited exactly once. */
  lemma {:induction false} VisitedOnce(index: Key -> nat, ms: seq<map<Key, Value>>, ks: seq<Key>, k: Key)
    requires Traverses(index, ms, ks) && (forall t :: 0 <= t < |ms| ==> k in ms[t]) && index(k) > 0
    requires forall q, t :: 0 <= t < |ms| && q in ms[t] && index(q) == index(k) ==> q == k
    ensures exists t :: 0 <= t < |ks| && ks[t] == k && forall u :: 0 <= u < |ks| && ks[u] == k ==> u == t
  {
    hide Traverses;
    var t := Reached(index, ms, ks, k, 0);
    forall u | 0 <= u < |ks| && ks[u] == k ensures u == t {
      if u < t {
        NumbersGrow(index, ms, ks, u, t);
      } else if t < u {
        NumbersGrow(index, ms, ks, t, u);
      }
    }
  }

  lemma BeforeEnd(index: Key -> nat, ms: seq<map<Key, Value>>, ks: seq<Key>, k: Key, t0: nat)
    requires Traverses(index, ms, ks) && (forall t :: 0 <= t < |ms| ==> k in ms[t]) && t0 <= |ks| && NumberAt(index, ks, t0) < index(k)
    ensures t0 < |ks| == |ms| - 1
  {
    assert k in ms[|ks|];
  }

  lemma {:induction false} Reached(index: Key -> nat, ms: seq<map<Key, Value>>, ks: seq<Key>, k: Key, t0: nat) returns (t: nat)
    requires Traverses(index, ms, ks) && (forall t :: 0 <= t < |ms| ==> k in ms[t]) && t0 <= |ks| && NumberAt(index, ks, t0) < index(k)
    requires forall q, t :: 0 <= t < |ms| && q in ms[t] && index(q) == index(k) ==> q == k
    ensures t < |ks| && ks[t] == k
    decreases |ks| - t0
  {
    hide Traverses;
    BeforeEnd(index, ms, ks, k, t0);
    StepGrows(index, ms, ks, t0);
    t := t0;
    if ks[t0] != k {
      assert index(ks[t0]) != index(k) && k in ms[t0];
      t := Reached(index, ms, ks, k, t0 + 1);
    }
  }

  // ---------- the table's own numbers ----------

  /** `k` has a cell in an array part of size `n` or in a node. */
  predicate HasCell(n: nat, place: map<Key, nat>, k: Key) {
    InRange(k, n) || k in place
  }

  /** The number that `findindex` gives a key. */
  function Number(n: nat, place: map<Key, nat>, k: Key): nat {
    if InRange(k, n) then k.i else if k in place then place[k] + 1 + n else 0
  }

  lemma NumberIsIndex(t: Table, k: Key)
    ensures t.Index(Has(k)) == Number(|t.arr|, t.part.place, k)
    ensures t.CellOf(k) != Absent <==> HasCell(|t.arr|, t.part.place, k)
  {
  }

  /** Keys with cells have different numbers, and every present key has a cell. */
  lemma NumbersDiffer(t: Table)
    requires t.Valid()
    ensures forall a, b :: HasCell(|t.arr|, t.part.place, a) && HasCell(|t.arr|, t.part.place, b) && Number(|t.arr|, t.part.place, a) == Number(|t.arr|, t.part.place, b) ==> a == b
    ensures Celled(|t.arr|, t.part.place, t.m)
    ensures forall k :: HasCell(|t.arr|, t.part.place, k) ==> 0 < Number(|t.arr|, t.part.place, k) <= |t.arr| + |t.nodes|
  {
    forall a, b | a in t.part.place && b in t.part.place && t.part.place[a] == t.part.place[b] ensures a == b {
      assert t.nodes[t.part.place[a]].key == Has(a) && t.nodes[t.part.place[b]].key == Has(b);
    }
    forall k | k in t.m ensures HasCell(|t.arr|, t.part.place, k) {
      assert KeyHeld(t.arr, t.part.place, t.m, k);
    }
  }

  // ---------- the loop ----------

  type Stores = seq<(Key, Value)>

  function Apply(m: map<Key, Value>, xs: Stores): map<Key, Value> {
    if xs == [] then m else Updated(Apply(m, xs[..|xs| - 1]), xs[|xs| - 1].0, xs[|xs| - 1].1)
  }

  /** All keys stored to have cells: the body does not add fields. */
  ghost predicate InPlace(n: nat, place: map<Key, nat>, xs: Stores) {
    forall i :: 0 <= i < |xs| ==> HasCell(n, place, xs[i].0)
  }

  /** The assignments of one round. */
  method StoreAll(t: Table, xs: Stores)
    requires t.Valid() && InPlace(|t.arr|, t.part.place, xs)
    modifies t
    ensures t.Valid() && t.m == Apply(old(t.m), xs)
    ensures |t.arr| == |old(t.arr)| && |t.nodes| == |old(t.nodes)| && t.part.place == old(t.part.place)
  {
    hide PartOk, Holds;
    var i := 0;
    while i < |xs|
      invariant 0 <= i <= |xs| && t.Valid() && t.m == Apply(old(t.m), xs[..i])
      invariant |t.arr| == |old(t.arr)| && |t.nodes| == |old(t.nodes)| && t.part.place == old(t.part.place)
    {
      NumberIsIndex(t, xs[i].0);
      var ok := t.Set(xs[i].0, xs[i].1);
      assert xs[..i + 1][..i] == xs[..i];
      i := i + 1;
    }
    assert xs[..i] == xs;
  }

  /** The body of the loop: what it assigns in round `t`, with the key and the value it is given. */
  type Body = (nat, Key, Value) -> Stores

  ghost predicate BodyInPlace(n: nat, place: map<Key, nat>, body: Body) {
    forall t, k, v :: InPlace(n, place, body(t, k, v))
  }

  /** Round `t` visits a present key of `ms[t]` and leads to `ms[t + 1]`. */
  ghost predicate Round(ms: seq<map<Key, Value>>, ks: seq<Key>, body: Body, t: nat)
    requires t < |ks| < |ms|
  {
    ks[t] in ms[t] && ms[t + 1] == Apply(ms[t], body(t, ks[t], ms[t][ks[t]]))
  }

  /** Each key of `ks` once, and all that are in every one of `ms`. */
  ghost predicate EachOnce(ms: seq<map<Key, Value>>, ks: seq<Key>) {
    && (forall i, j :: 0 <= i < j < |ks| ==> ks[i] != ks[j])
    && (forall k :: (forall t :: 0 <= t < |ms| ==> k in ms[t]) ==> k in ks)
  }

  /**
    A `for k, v in next, t` loop whose body assigns to existing fields, or clears them: no key is visited
    twice, and every key that is present all the time is visited, with the value it has then.
   */
  method Traverse(t: Table, body: Body) returns (ks: seq<Key>, ghost ms: seq<map<Key, Value>>)
    requires t.Valid() && BodyInPlace(|t.arr|, t.part.place, body)
    modifies t
    ensures t.Valid() && |ms| == |ks| + 1 && ms[0] == old(t.m) && ms[|ks|] == t.m
    ensures forall i :: 0 <= i < |ks| ==> Round(ms, ks, body, i)
    ensures EachOnce(ms, ks)
  {
    hide Going, EachOnce, BodyInPlace, Round;
    ghost var n, place := |t.arr|, t.part.place;
    ghost var index: Key -> nat := k => Number(n, place, k);
    ks, ms := [], [t.m];
    var key := NoKey;
    GoingStarts(t, index, body);
    while true
      invariant t.Valid() && |t.arr| == n && t.part.place == place && |t.nodes| == |old(t.nodes)|
      invariant ms != [] && ms[0] == old(t.m) && Going(index, n, place, ms, ks, body, t.m)
      invariant key == if ks == [] then NoKey else Has(ks[|ks| - 1])
      invariant NumberAt(index, ks, |ks|) <= n + |t.nodes|
      decreases n + |t.nodes| - NumberAt(index, ks, |ks|)
    {
      ghost var m := t.m;
      var next := NextAndStore(t, key, |ks|, body, index, ms, ks);
      if next == NoKey {
        GoingEnds(index, n, place, ms, ks, body, t.m);
        return;
      }
      ks := ks + [next.k];
      ms := ms + [t.m];
      key := next;
    }
  }

  /** The traversal so far: the table is now `m`. */
  ghost predicate Going(index: Key -> nat, n: nat, place: map<Key, nat>, ms: seq<map<Key, Value>>, ks: seq<Key>, body: Body, m: map<Key, Value>) {
    && |ms| == |ks| + 1 && ms[|ks|] == m
    && (forall i :: 0 <= i < |ms| ==> Celled(n, place, ms[i]))
    && (forall i :: 0 <= i < |ks| ==> Round(ms, ks, body, i))
    && (forall i :: 0 <= i < |ks| ==> StepsTo(index, ms[i], NumberAt(index, ks, i), ks[i]))
    && (ks != [] ==> HasCell(n, place, ks[|ks| - 1]))
    && (forall k :: index(k) == Number(n, place, k))
    && (forall a, b :: HasCell(n, place, a) && HasCell(n, place, b) && Number(n, place, a) == Number(n, place, b) ==> a == b)
    && (forall k :: HasCell(n, place, k) ==> Number(n, place, k) > 0)
  }

  lemma GoingStarts(t: Table, index: Key -> nat, body: Body)
    requires t.Valid() && forall k :: index(k) == Number(|t.arr|, t.part.place, k)
    ensures Going(index, |t.arr|, t.part.place, [t.m], [], body, t.m)
  {
    NumbersDiffer(t);
  }

  /** One round: the next key, and what the body assigns. */
  method NextAndStore(t: Table, key: KeySlot, round: nat, body: Body, ghost index: Key -> nat, ghost ms: seq<map<Key, Value>>, ghost ks: seq<Key>)
    returns (next: KeySlot)
    requires t.Valid() && BodyInPlace(|t.arr|, t.part.place, body) && round == |ks|
    requires Going(index, |t.arr|, t.part.place, ms, ks, body, t.m) && key == if ks == [] then NoKey else Has(ks[|ks| - 1])
    modifies t
    ensures t.Valid() && |t.arr| == |old(t.arr)| && t.part.place == old(t.part.place) && |t.nodes| == |old(t.nodes)|
    ensures next == NoKey ==> t.m == old(t.m) && forall q :: q in t.m ==> index(q) <= NumberAt(index, ks, |ks|)
    ensures next.Has? ==> Going(index, |t.arr|, t.part.place, ms + [t.m], ks + [next.k], body, t.m)
    ensures next.Has? ==> NumberAt(index, ks, |ks|) < index(next.k) <= |t.arr| + |t.nodes|
  {
    hide Table.Valid, Table.Sound, Number, Apply, Round, Celled, StepsTo, InPlace;
    if key.Has? {
      NumberIsIndex(t, key.k);
    }
    var ok, v;
    ok, next, v := t.Next(key);
    NextNumber(t, key, next, ks, index);
    if next == NoKey {
      return;
    }
    ghost var m := t.m;
    NumbersDiffer(t);
    StepHigher(index, m, NumberAt(index, ks, |ks|), next.k);
    StoreAll(t, body(round, next.k, v));
    NumbersDiffer(t);
    OneRound(ms, ks, body, next.k, v, t.m, index);
    StillCelled(|t.arr|, t.part.place, ms, t.m);
  }

  lemma StillCelled(n: nat, place: map<Key, nat>, ms: seq<map<Key, Value>>, m: map<Key, Value>)
    requires Celled(n, place, m) && forall i :: 0 <= i < |ms| ==> Celled(n, place, ms[i])
    ensures forall i :: 0 <= i <= |ms| ==> Celled(n, place, (ms + [m])[i])
  {
  }

  lemma GoingEnds(index: Key -> nat, n: nat, place: map<Key, nat>, ms: seq<map<Key, Value>>, ks: seq<Key>, body: Body, m: map<Key, Value>)
    requires Going(index, n, place, ms, ks, body, m)
    requires forall q :: q in m ==> index(q) <= NumberAt(index, ks, |ks|)
    ensures |ms| == |ks| + 1 && ms[|ks|] == m && EachOnce(ms, ks) && forall i :: 0 <= i < |ks| ==> Round(ms, ks, body, i)
  {
    hide Round, EachOnce;
    Finished(n, place, index, ms, ks);
  }

  lemma StepHigher(index: Key -> nat, m: map<Key, Value>, before: nat, k: Key)
    requires StepsTo(index, m, before, k)
    ensures index(k) > before
  {
  }

  lemma OneRound(ms: seq<map<Key, Value>>, ks: seq<Key>, body: Body, k: Key, v: Value, m: map<Key, Value>, index: Key -> nat)
    requires |ms| == |ks| + 1 && k in ms[|ks|] && ms[|ks|][k] == v && m == Apply(ms[|ks|], body(|ks|, k, v))
    requires forall i :: 0 <= i < |ks| ==> Round(ms, ks, body, i)
    requires forall i :: 0 <= i < |ks| ==> StepsTo(index, ms[i], NumberAt(index, ks, i), ks[i])
    requires StepsTo(index, ms[|ks|], NumberAt(index, ks, |ks|), k)
    ensures forall i :: 0 <= i <= |ks| ==> Round(ms + [m], ks + [k], body, i)
    ensures forall i :: 0 <= i <= |ks| ==> StepsTo(index, (ms + [m])[i], NumberAt(index, ks + [k], i), (ks + [k])[i])
  {
    hide Apply, StepsTo;
    forall i | 0 <= i <= |ks| ensures Round(ms + [m], ks + [k], body, i) {
      if i < |ks| {
        assert Round(ms, ks, body, i);
      }
    }
  }

  ghost predicate Celled(n: nat, place: map<Key, nat>, m: map<Key, Value>) {
    forall k :: k in m ==> HasCell(n, place, k)
  }

  /** What `luaH_next` returned, by numbers. */
  lemma NextNumber(t: Table, key: KeySlot, next: KeySlot, ks: seq<Key>, index: Key -> nat)
    requires t.Valid() && (forall k :: index(k) == Number(|t.arr|, t.part.place, k))
    requires key == if ks == [] then NoKey else Has(ks[|ks| - 1])
    requires next.Has? ==> next.k in t.m && t.Index(next) > t.Index(key)
    requires next.Has? ==> forall q :: q in t.m && t.Index(Has(q)) > t.Index(key) ==> t.Index(Has(q)) >= t.Index(next)
    requires next == NoKey ==> forall q :: q in t.m ==> t.Index(Has(q)) <= t.Index(key)
    ensures next.Has? ==> StepsTo(index, t.m, NumberAt(index, ks, |ks|), next.k) && HasCell(|t.arr|, t.part.place, next.k)
    ensures next == NoKey ==> forall q :: q in t.m ==> index(q) <= NumberAt(index, ks, |ks|)
  {
    hide PartOk, Holds;
    forall q ensures t.Index(Has(q)) == index(q) {
      NumberIsIndex(t, q);
    }
    NumbersDiffer(t);
  }

  lemma Finished(n: nat, place: map<Key, nat>, index: Key -> nat, ms: seq<map<Key, Value>>, ks: seq<Key>)
    requires Traverses(index, ms, ks) && (forall i :: 0 <= i < |ms| ==> Celled(n, place, ms[i]))
    requires forall k :: index(k) == Number(n, place, k)
    requires forall a, b :: HasCell(n, place, a) && HasCell(n, place, b) && Number(n, place, a) == Number(n, place, b) ==> a == b
    requires forall k :: HasCell(n, place, k) ==> Number(n, place, k) > 0
    ensures EachOnce(ms, ks)
  {
    hide Traverses, Number;
    forall i, j | 0 <= i < j < |ks| ensures ks[i] != ks[j] {
      NumbersGrow(index, ms, ks, i, j);
    }
    forall k | forall t :: 0 <= t < |ms| ==> k in ms[t] ensures k in ks {
      SizesAgree(index, ms, ks);
      assert k in ms[0] && Celled(n, place, ms[0]);
      VisitedOnce(index, ms, ks, k);
    }
  }

  lemma SizesAgree(index: Key -> nat, ms: seq<map<Key, Value>>, ks: seq<Key>)
    requires Traverses(index, ms, ks)
    ensures |ms| == |ks| + 1
  {
  }
}
