/**
  How objects change while the collector marks and clears, and a set of objects that
  marking does not leave: the bound for what it can reach.
 */
module GcBound {
  import opened GcHeap

  // ---------- what the collector may do to objects ----------

  /** Marks only grow; contents stay, but empty entries lose their keys, caches are cleared, and tables in `w` may lose entries. */
  ghost predicate OnwardAt(h: Heap, h': Heap, w: set<Ref>, r: Ref)
    requires r in h && r in h'
  {
    var o, o' := h[r], h'[r];
    && o' == o.(color := o'.color, slots := o'.slots, nodes := o'.nodes, cache := o'.cache)
    && (!o.color.White? ==> !o'.color.White?)
    && (o'.color.White? ==> o'.color == o.color)
    && (o'.cache == o.cache || o'.cache == Empty)
    && |o'.slots| == |o.slots| && |o'.nodes| == |o.nodes|
    && (forall i :: 0 <= i < |o.slots| ==> o'.slots[i] == o.slots[i] || (o'.slots[i] == Empty && r in w))
    && (forall i :: 0 <= i < |o.nodes| ==> NodeOnward(o.nodes[i], o'.nodes[i], r in w))
  }

  ghost predicate NodeOnward(n: Node, n': Node, clears: bool) {
    (n'.val == n.val || (n'.val == Empty && clears)) && (n'.key == n.key || (n'.val == Empty && n'.key == DeadKey))
  }

  ghost predicate Onward(h: Heap, h': Heap, w: set<Ref>) {
    h'.Keys == h.Keys && forall r :: r in h && r in h' ==> OnwardAt(h, h', w, r)
  }

  lemma OnwardSame(h: Heap, w: set<Ref>)
    ensures Onward(h, h, w)
  {
  }

  lemma OnwardOn(a: Heap, b: Heap, c: Heap, w: set<Ref>, w': set<Ref>)
    requires Onward(a, b, w) && Onward(b, c, w') && w <= w'
    ensures Onward(a, c, w')
  {
    forall r | r in a && r in c ensures OnwardAt(a, c, w', r) {
      assert OnwardAt(a, b, w, r) && OnwardAt(b, c, w', r);
      forall i | 0 <= i < |a[r].nodes| ensures NodeOnward(a[r].nodes[i], c[r].nodes[i], r in w') {
        assert NodeOnward(a[r].nodes[i], b[r].nodes[i], r in w) && NodeOnward(b[r].nodes[i], c[r].nodes[i], r in w');
      }
    }
  }

  lemma MarksOnward(h: Heap, h': Heap, x: int)
    requires Marks(h, h', x)
    ensures Onward(h, h', {})
  {
    forall r | r in h && r in h' ensures OnwardAt(h, h', {}, r) {
      assert MarksAt(h, h', x, r);
      if r == x && h'[r] != h[r] {
        forall i | 0 <= i < |h[r].nodes| ensures NodeOnward(h[r].nodes[i], h'[r].nodes[i], false) {
          assert NodeKept(h, h[r].nodes[i], h'[r].nodes[i]);
        }
      }
    }
  }

  lemma OnwardMode(h: Heap, h': Heap, w: set<Ref>, r: Ref)
    requires Onward(h, h', w)
    ensures ModeOf(h', r) == ModeOf(h, r)
  {
    if r in h {
      assert OnwardAt(h, h', w, r);
      if h[r].meta.To? && h[r].meta.r in h {
        assert OnwardAt(h, h', w, h[r].meta.r);
      }
    }
  }

  lemma OnwardString(h: Heap, h': Heap, w: set<Ref>, s: Slot)
    requires Onward(h, h', w)
    ensures IsString(h', s) == IsString(h, s)
  {
    if s.To? && s.r in h {
      assert OnwardAt(h, h', w, s.r);
    }
  }

  // ---------- what objects keep alive ----------

  ghost predicate InSet(m: iset<Ref>, s: Slot) {
    s.To? ==> s.r in m
  }

  /** What an object of `m` keeps alive, according to its mode, is in `m`. Strings are values and never weak. */
  ghost predicate KeepsAlive(h: Heap, o: Object, mode: Mode, m: iset<Ref>) {
    && InSet(m, o.meta)
    && (mode.Strong? || mode.Ephemeral? ==> forall i :: 0 <= i < |o.slots| ==> InSet(m, o.slots[i]))
    && (mode.Strong? || mode.WeakValues? ==> forall i :: 0 <= i < |o.nodes| && !o.nodes[i].val.Empty? ==> InSet(m, o.nodes[i].key))
    && (mode.Strong? ==> forall i :: 0 <= i < |o.nodes| ==> InSet(m, o.nodes[i].val))
    && (mode.Ephemeral? ==> forall i :: 0 <= i < |o.nodes| && !o.nodes[i].val.Empty? && (InSet(m, o.nodes[i].key) || IsString(h, o.nodes[i].key))
                              ==> InSet(m, o.nodes[i].val))
  }

  ghost predicate StronglyClosed(h: Heap, m: iset<Ref>) {
    forall r :: r in m && r in h ==> KeepsAlive(h, h[r], ModeOf(h, r), m)
  }

  /** The strings that a weak table holds are marked too, when the table is looked through. */
  ghost predicate StringsIn(h: Heap, o: Object, m: iset<Ref>) {
    && (forall i :: 0 <= i < |o.slots| && IsString(h, o.slots[i]) ==> InSet(m, o.slots[i]))
    && (forall i :: 0 <= i < |o.nodes| && IsString(h, o.nodes[i].key) ==> InSet(m, o.nodes[i].key))
    && (forall i :: 0 <= i < |o.nodes| && IsString(h, o.nodes[i].val) ==> InSet(m, o.nodes[i].val))
  }

  /** A visit to `o` leads into `m` only. */
  ghost predicate Fits(h: Heap, o: Object, mode: Mode, m: iset<Ref>) {
    KeepsAlive(h, o, mode, m) && StringsIn(h, o, m)
  }

  ghost predicate FitsAt(h: Heap, m: iset<Ref>, r: Ref) {
    r in h ==> Fits(h, h[r], ModeOf(h, r), m)
  }

  /** Nothing outside `m` is marked, and to mark more of `m` leads nowhere else. */
  ghost predicate Bounded(h: Heap, m: iset<Ref>) {
    && (forall r :: r in h && !h[r].color.White? ==> r in m)
    && (forall r :: r in h && h[r].color.White? && r in m ==> FitsAt(h, m, r))
  }

  predicate IsRef(r: Ref) {
    r >= 0
  }

  ghost function Everything(): iset<Ref> {
    iset r: Ref | IsRef(r)
  }

  lemma IsThere(r: Ref)
    ensures r in Everything()
  {
    assert IsRef(r);
  }

  lemma EverythingFits(h: Heap)
    ensures Bounded(h, Everything()) && forall o, mode :: Fits(h, o, mode, Everything())
  {
  }

  lemma OnwardFits(h: Heap, h': Heap, w: set<Ref>, r: Ref, mode: Mode, m: iset<Ref>)
    requires Onward(h, h', w) && r in h
    ensures r in h' && (Fits(h, h[r], mode, m) ==> Fits(h', h'[r], mode, m)) && (StringsIn(h, h[r], m) ==> StringsIn(h', h'[r], m))
  {
    assert r in h' && OnwardAt(h, h', w, r);
    var o, o' := h[r], h'[r];
    forall s ensures IsString(h', s) == IsString(h, s) {
      OnwardString(h, h', w, s);
    }
    forall i | 0 <= i < |o.nodes| ensures NodeOnward(o.nodes[i], o'.nodes[i], r in w) {
    }
    hide InSet, IsString, Onward;
    assert StringsIn(h, o, m) ==> StringsIn(h', o', m);
  }

  lemma OnwardFitsAt(h: Heap, h': Heap, w: set<Ref>, r: Ref, m: iset<Ref>)
    requires Onward(h, h', w) && FitsAt(h, m, r)
    ensures FitsAt(h', m, r)
  {
    if r in h' {
      assert r in h;
      OnwardFits(h, h', w, r, ModeOf(h, r), m);
      OnwardMode(h, h', w, r);
    }
  }

  /** What has been marked is in the bound: then the bound is still one. */
  lemma OnwardBounded(h: Heap, h': Heap, w: set<Ref>, m: iset<Ref>)
    requires Onward(h, h', w) && Bounded(h, m) && forall r :: r in h' && !h'[r].color.White? ==> r in m
    ensures Bounded(h', m)
  {
    forall r | r in h' && h'[r].color.White? && r in m ensures FitsAt(h', m, r) {
      assert OnwardAt(h, h', w, r);
      OnwardFitsAt(h, h', w, r, m);
    }
  }

  /** Marking or recolouring one object of the bound. */
  lemma RecolorBounded(h: Heap, h': Heap, r: Ref, m: iset<Ref>)
    requires r in h && r in h' && h' == h[r := h[r].(color := h'[r].color)] && !h'[r].color.White? && r in m && Bounded(h, m)
    ensures Bounded(h', m)
  {
    assert Onward(h, h', {});
    OnwardBounded(h, h', {}, m);
  }

  lemma MarksFits(h: Heap, h': Heap, x: int, r: Ref, mode: Mode, m: iset<Ref>)
    requires Marks(h, h', x) && r in h && Fits(h, h[r], mode, m)
    ensures r in h' && Fits(h', h'[r], mode, m)
  {
    MarksOnward(h, h', x);
    OnwardFits(h, h', {}, r, mode, m);
  }

  lemma MarksMode(h: Heap, h': Heap, x: int, r: Ref)
    requires Marks(h, h', x)
    ensures ModeOf(h', r) == ModeOf(h, r)
  {
    MarksOnward(h, h', x);
    OnwardMode(h, h', {}, r);
  }
}
