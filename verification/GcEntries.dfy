/**
  Which entries weak tables lose in the atomic phase of `lgc.c`.
 */
module GcEntries {
  import opened GcHeap
  import opened GcBound

  /** A reference to an object outside `m`; strings are values and stay. */
  ghost predicate Dropped(h: Heap, m: iset<Ref>, s: Slot) {
    s.To? && s.r in h && !h[s.r].kind.Str? && s.r !in m
  }

  /**
    Object `o'` is what is left of `o`: without the values outside `m` if `values`, and without
    the entries with keys outside `k` if `keys`. Empty entries may have lost their keys.
   */
  ghost predicate Left(h: Heap, m: iset<Ref>, k: iset<Ref>, o: Object, o': Object, values: bool, keys: bool) {
    && |o'.slots| == |o.slots| && |o'.nodes| == |o.nodes|
    && (forall i :: 0 <= i < |o.slots| ==> o'.slots[i] == if values && Dropped(h, m, o.slots[i]) then Empty else o.slots[i])
    && (forall i :: 0 <= i < |o.nodes| ==> NodeLeft(h, m, k, o.nodes[i], o'.nodes[i], values, keys))
  }

  ghost predicate NodeLeft(h: Heap, m: iset<Ref>, k: iset<Ref>, n: Node, n': Node, values: bool, keys: bool) {
    && n'.val == (if (values && Dropped(h, m, n.val)) || (keys && Dropped(h, k, n.key)) then Empty else n.val)
    && (n'.key == n.key || n'.val.Empty?)
  }

  predicate WeakValued(mode: Mode) {
    mode.WeakValues? || mode.AllWeak?
  }

  predicate WeakKeyed(mode: Mode) {
    mode.Ephemeral? || mode.AllWeak?
  }

  /** What is left of an object, by its mode. */
  ghost predicate EntriesLeft(h: Heap, r: Ref, m: iset<Ref>, k: iset<Ref>, o: Object, o': Object) {
    Left(h, m, k, o, o', WeakValued(ModeOf(h, r)), WeakKeyed(ModeOf(h, r)))
  }

  /** No value of the object is outside `m`. */
  ghost predicate NoValueDropped(h: Heap, m: iset<Ref>, o: Object) {
    && (forall i :: 0 <= i < |o.slots| ==> !Dropped(h, m, o.slots[i]))
    && (forall i :: 0 <= i < |o.nodes| ==> !Dropped(h, m, o.nodes[i].val))
  }

  ghost predicate NoKeyDropped(h: Heap, k: iset<Ref>, o: Object) {
    forall i :: 0 <= i < |o.nodes| && !o.nodes[i].val.Empty? ==> !Dropped(h, k, o.nodes[i].key)
  }

  lemma LeftSame(h: Heap, m: iset<Ref>, k: iset<Ref>, o: Object)
    ensures Left(h, m, k, o, o, false, false)
  {
  }

  /** Values are removed in two passes. */
  lemma ValuesTwice(h: Heap, m: iset<Ref>, k: iset<Ref>, a: Object, b: Object, c: Object, on1: bool, on2: bool)
    requires Left(h, m, k, a, b, on1, false) && Left(h, m, k, b, c, on2, false)
    ensures Left(h, m, k, a, c, on1 || on2, false)
  {
    forall i | 0 <= i < |a.nodes| ensures NodeLeft(h, m, k, a.nodes[i], c.nodes[i], on1 || on2, false) {
      assert NodeLeft(h, m, k, a.nodes[i], b.nodes[i], on1, false) && NodeLeft(h, m, k, b.nodes[i], c.nodes[i], on2, false);
    }
  }

  /** Entries with dead keys are removed in two passes. */
  lemma KeysTwice(h: Heap, m: iset<Ref>, k: iset<Ref>, a: Object, b: Object, c: Object, on1: bool, on2: bool)
    requires Left(h, m, k, a, b, false, on1) && Left(h, m, k, b, c, false, on2)
    ensures Left(h, m, k, a, c, false, on1 || on2)
  {
    forall i | 0 <= i < |a.nodes| ensures NodeLeft(h, m, k, a.nodes[i], c.nodes[i], false, on1 || on2) {
      assert NodeLeft(h, m, k, a.nodes[i], b.nodes[i], false, on1) && NodeLeft(h, m, k, b.nodes[i], c.nodes[i], false, on2);
    }
  }

  /** First keys, then values. */
  lemma KeysThenValues(h: Heap, m: iset<Ref>, k: iset<Ref>, a: Object, b: Object, c: Object, keys: bool, values: bool)
    requires Left(h, m, k, a, b, false, keys) && Left(h, m, k, b, c, values, false)
    ensures Left(h, m, k, a, c, values, keys)
  {
    forall i | 0 <= i < |a.nodes| ensures NodeLeft(h, m, k, a.nodes[i], c.nodes[i], values, keys) {
      assert NodeLeft(h, m, k, a.nodes[i], b.nodes[i], false, keys) && NodeLeft(h, m, k, b.nodes[i], c.nodes[i], values, false);
    }
  }

  /** Whether values are looked at does not matter where none would go. */
  lemma ValuesEither(h: Heap, m: iset<Ref>, k: iset<Ref>, a: Object, b: Object, values: bool, values': bool, keys: bool)
    requires Left(h, m, k, a, b, values, keys) && (values == values' || NoValueDropped(h, m, a))
    ensures Left(h, m, k, a, b, values', keys)
  {
    forall i | 0 <= i < |a.nodes| ensures NodeLeft(h, m, k, a.nodes[i], b.nodes[i], values', keys) {
      assert NodeLeft(h, m, k, a.nodes[i], b.nodes[i], values, keys);
    }
  }

  lemma KeysEither(h: Heap, m: iset<Ref>, k: iset<Ref>, a: Object, b: Object, values: bool, keys: bool, keys': bool)
    requires Left(h, m, k, a, b, values, keys) && (keys == keys' || NoKeyDropped(h, k, a))
    ensures Left(h, m, k, a, b, values, keys')
  {
    forall i | 0 <= i < |a.nodes| ensures NodeLeft(h, m, k, a.nodes[i], b.nodes[i], values, keys') {
      assert NodeLeft(h, m, k, a.nodes[i], b.nodes[i], values, keys);
    }
  }

  /** What has been removed once is gone, also for a larger set. */
  lemma NoneLeft(h: Heap, m: iset<Ref>, k: iset<Ref>, a: Object, b: Object, m': iset<Ref>)
    requires Left(h, m, k, a, b, true, false) && m <= m'
    ensures NoValueDropped(h, m', b)
  {
    forall i | 0 <= i < |b.nodes| ensures !Dropped(h, m', b.nodes[i].val) {
      assert NodeLeft(h, m, k, a.nodes[i], b.nodes[i], true, false);
    }
  }

  /** Marking removes nothing. */
  lemma OnwardLeft(h: Heap, a: Heap, b: Heap, m: iset<Ref>, k: iset<Ref>, r: Ref)
    requires Onward(a, b, {}) && r in a
    ensures r in b && Left(h, m, k, a[r], b[r], false, false)
  {
    assert r in b && OnwardAt(a, b, {}, r);
    forall i | 0 <= i < |a[r].nodes| ensures NodeLeft(h, m, k, a[r].nodes[i], b[r].nodes[i], false, false) {
      assert NodeOnward(a[r].nodes[i], b[r].nodes[i], false);
    }
  }

  /** Kinds and modes stay. */
  lemma OnwardDropped(h: Heap, h': Heap, w: set<Ref>, m: iset<Ref>, s: Slot)
    requires Onward(h, h', w)
    ensures Dropped(h', m, s) == Dropped(h, m, s)
  {
    if s.To? && s.r in h {
      assert OnwardAt(h, h', w, s.r);
    }
  }

  lemma OnwardObject(h: Heap, h': Heap, w: set<Ref>, m: iset<Ref>, k: iset<Ref>, a: Object, b: Object, values: bool, keys: bool)
    requires Onward(h, h', w)
    ensures Left(h', m, k, a, b, values, keys) == Left(h, m, k, a, b, values, keys)
  {
    forall s ensures Dropped(h', m, s) == Dropped(h, m, s) && Dropped(h', k, s) == Dropped(h, k, s) {
      OnwardDropped(h, h', w, m, s);
      OnwardDropped(h, h', w, k, s);
    }
    hide Dropped;
    assert forall n, n' :: NodeLeft(h', m, k, n, n', values, keys) == NodeLeft(h, m, k, n, n', values, keys);
  }

  // ---------- a whole heap ----------

  ghost function MarkedSet(h: Heap): iset<Ref> {
    iset r | r in h && !h[r].color.White?
  }

  /** Values outside `m` are gone from the tables `l`, and nothing else. */
  ghost predicate ValuesLeft(h: Heap, m: iset<Ref>, a: Heap, b: Heap, l: set<Ref>) {
    a.Keys == b.Keys && forall r :: r in a && r in b ==> Left(h, m, m, a[r], b[r], r in l, false)
  }

  /** Entries with keys outside `m` are gone from the tables `l`, and nothing else. */
  ghost predicate KeysLeft(h: Heap, m: iset<Ref>, a: Heap, b: Heap, l: set<Ref>) {
    a.Keys == b.Keys && forall r :: r in a && r in b ==> Left(h, m, m, a[r], b[r], false, r in l)
  }

  /** Both have been done, the values in the tables `l` and the keys in the tables `l'`. */
  ghost predicate BothLeft(h: Heap, m: iset<Ref>, a: Heap, b: Heap, l: set<Ref>, l': set<Ref>) {
    a.Keys == b.Keys && forall r :: r in a && r in b ==> Left(h, m, m, a[r], b[r], r in l, r in l')
  }

  lemma ValuesLeftOn(h: Heap, m: iset<Ref>, a: Heap, b: Heap, c: Heap, l: set<Ref>, l': set<Ref>)
    requires ValuesLeft(h, m, a, b, l) && ValuesLeft(h, m, b, c, l')
    ensures ValuesLeft(h, m, a, c, l + l')
  {
    hide Left;
    forall r | r in a && r in c ensures Left(h, m, m, a[r], c[r], r in l + l', false) {
      ValuesTwice(h, m, m, a[r], b[r], c[r], r in l, r in l');
    }
  }

  lemma KeysLeftOn(h: Heap, m: iset<Ref>, a: Heap, b: Heap, c: Heap, l: set<Ref>, l': set<Ref>)
    requires KeysLeft(h, m, a, b, l) && KeysLeft(h, m, b, c, l')
    ensures KeysLeft(h, m, a, c, l + l')
  {
    hide Left;
    forall r | r in a && r in c ensures Left(h, m, m, a[r], c[r], false, r in l + l') {
      KeysTwice(h, m, m, a[r], b[r], c[r], r in l, r in l');
    }
  }

  lemma KeysThenValuesLeft(h: Heap, m: iset<Ref>, a: Heap, b: Heap, c: Heap, l: set<Ref>, l': set<Ref>)
    requires KeysLeft(h, m, a, b, l') && ValuesLeft(h, m, b, c, l)
    ensures BothLeft(h, m, a, c, l, l')
  {
    hide Left;
    forall r | r in a && r in c ensures Left(h, m, m, a[r], c[r], r in l, r in l') {
      KeysThenValues(h, m, m, a[r], b[r], c[r], r in l', r in l);
    }
  }

  /** Marking afterwards removes nothing. */
  lemma ValuesThenMarks(h: Heap, m: iset<Ref>, a: Heap, b: Heap, c: Heap, l: set<Ref>)
    requires ValuesLeft(h, m, a, b, l) && Onward(b, c, {})
    ensures ValuesLeft(h, m, a, c, l)
  {
    hide Left, OnwardAt;
    forall r | r in a && r in c ensures Left(h, m, m, a[r], c[r], r in l, false) {
      OnwardLeft(h, b, c, m, m, r);
      ValuesTwice(h, m, m, a[r], b[r], c[r], r in l, false);
    }
  }

  /**
    Exactly these entries are gone: in a table that is in `k`, the values outside `m` if the table
    is in `m` itself, outside `k` otherwise, as far as its mode makes values weak; and the entries
    with keys outside `k`, as far as it makes keys weak.
   */
  ghost predicate Purged(h0: Heap, h: Heap, m: iset<Ref>, k: iset<Ref>) {
    forall r :: r in h0 && r in h && r in k ==> EntriesLeft(h0, r, if r in m then m else k, k, h0[r], h[r])
  }

  /** Table `r`: its values went in the first pass if it was in `m` then, and in the second one otherwise. */
  lemma PurgedAt(h: Heap, r: Ref, m: iset<Ref>, k: iset<Ref>, a: Object, b: Object, c: Object, v1: bool, v2: bool, k2: bool)
    requires Left(h, m, m, a, b, v1, false) && Left(h, k, k, b, c, v2, k2) && m <= k && r in k
    requires r in m ==> v1 == WeakValued(ModeOf(h, r)) || NoValueDropped(h, m, a)
    requires r !in m ==> !v1
    requires v2 == WeakValued(ModeOf(h, r)) || NoValueDropped(h, k, b)
    requires k2 == WeakKeyed(ModeOf(h, r)) || NoKeyDropped(h, k, b)
    ensures EntriesLeft(h, r, if r in m then m else k, k, a, c)
  {
    hide Left, NoValueDropped, NoKeyDropped, Dropped;
    var wv, wk := WeakValued(ModeOf(h, r)), WeakKeyed(ModeOf(h, r));
    KeysEither(h, k, k, b, c, v2, k2, wk);
    if r in m {
      ValuesEither(h, m, m, a, b, v1, wv, false);
      NothingMore(h, m, k, a, b, wv, v2);
      ValuesEither(h, k, k, b, c, v2, false, wk);
      FirstThenKeys(h, m, k, a, b, c, wv, wk);
    } else {
      ValuesEither(h, k, k, b, c, v2, wv, wk);
      UnchangedFirst(h, m, k, a, b, c, wv, wk);
    }
  }

  lemma NothingMore(h: Heap, m: iset<Ref>, k: iset<Ref>, a: Object, b: Object, wv: bool, v2: bool)
    requires Left(h, m, m, a, b, wv, false) && m <= k && (v2 == wv || NoValueDropped(h, k, b))
    ensures !v2 || NoValueDropped(h, k, b)
  {
    if wv {
      NoneLeft(h, m, m, a, b, k);
    }
  }

  lemma FirstThenKeys(h: Heap, m: iset<Ref>, k: iset<Ref>, a: Object, b: Object, c: Object, values: bool, keys: bool)
    requires Left(h, m, m, a, b, values, false) && Left(h, k, k, b, c, false, keys)
    ensures Left(h, m, k, a, c, values, keys)
  {
    forall i | 0 <= i < |a.nodes| ensures NodeLeft(h, m, k, a.nodes[i], c.nodes[i], values, keys) {
      assert NodeLeft(h, m, m, a.nodes[i], b.nodes[i], values, false) && NodeLeft(h, k, k, b.nodes[i], c.nodes[i], false, keys);
    }
  }

  lemma UnchangedFirst(h: Heap, m: iset<Ref>, k: iset<Ref>, a: Object, b: Object, c: Object, values: bool, keys: bool)
    requires Left(h, m, m, a, b, false, false) && Left(h, k, k, b, c, values, keys)
    ensures Left(h, k, k, a, c, values, keys)
  {
    forall i | 0 <= i < |a.nodes| ensures NodeLeft(h, k, k, a.nodes[i], c.nodes[i], values, keys) {
      assert NodeLeft(h, m, m, a.nodes[i], b.nodes[i], false, false) && NodeLeft(h, k, k, b.nodes[i], c.nodes[i], values, keys);
    }
  }

  /** Marking before does not matter. */
  lemma PurgedBefore(h0: Heap, h1: Heap, h: Heap, m: iset<Ref>, k: iset<Ref>)
    requires Onward(h0, h1, {}) && Purged(h1, h, m, k)
    ensures Purged(h0, h, m, k)
  {
    hide Left, OnwardAt, NoValueDropped, NoKeyDropped, Dropped;
    forall r | r in h0 && r in h && r in k ensures EntriesLeft(h0, r, if r in m then m else k, k, h0[r], h[r]) {
      var s := if r in m then m else k;
      OnwardLeft(h1, h0, h1, s, k, r);
      OnwardMode(h0, h1, {}, r);
      assert EntriesLeft(h1, r, s, k, h1[r], h[r]);
      SameFirst(h1, s, k, h0[r], h1[r], h[r], WeakValued(ModeOf(h1, r)), WeakKeyed(ModeOf(h1, r)));
      OnwardObject(h0, h1, {}, s, k, h0[r], h[r], WeakValued(ModeOf(h1, r)), WeakKeyed(ModeOf(h1, r)));
    }
  }

  lemma SameFirst(h: Heap, m: iset<Ref>, k: iset<Ref>, a: Object, b: Object, c: Object, values: bool, keys: bool)
    requires Left(h, m, k, a, b, false, false) && Left(h, m, k, b, c, values, keys)
    ensures Left(h, m, k, a, c, values, keys)
  {
    forall i | 0 <= i < |a.nodes| ensures NodeLeft(h, m, k, a.nodes[i], c.nodes[i], values, keys) {
      assert NodeLeft(h, m, k, a.nodes[i], b.nodes[i], false, false) && NodeLeft(h, m, k, b.nodes[i], c.nodes[i], values, keys);
    }
  }
}
