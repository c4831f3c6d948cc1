/**
  What a program does to its objects between steps of the collector: stores with the
  barriers of `lgc.c`.
 */
module GcMutator {
  import opened GcHeap
  import opened GcBound
  import opened GcMark
  import opened GcInvariant
  import opened GcAtomic
  import opened GcSweep
  import opened GcCycle

  // ---------- what the mutator does ----------

  /** `keepinvariant`, which is not so inside the atomic phase. */
  predicate KeepInvariant(st: GcState) {
    st == GCSpropagate || st == GCSatomic
  }

  predicate IsSweepPhase(st: GcState) {
    st == GCSswpallgc || st == GCSswpfinobj || st == GCSswptobefnz || st == GCSswpend
  }

  /** Object `o` with other contents. */
  ghost predicate SameIdentity(o: Object, o': Object) {
    o' == o.(meta := o'.meta, slots := o'.slots, nodes := o'.nodes, cache := o'.cache) && Shaped(o')
  }

  lemma WriteSound(h: Heap, white: bool, r: Ref, o': Object)
    requires Sound(h, white) && Live(h, white, r) && Shaped(o') && !IsDead(o', white) && ContentsLive(h, white, o')
    ensures Sound(h[r := o'], white)
    ensures forall q :: Live(h[r := o'], white, q) <==> Live(h, white, q)
  {
    var h' := h[r := o'];
    forall q | q in h' ensures SoundAt(h', white, q) {
      assert SoundAt(h, white, q);
    }
  }

  lemma WriteOwned(h: Heap, main: Ref, lists: seq<Ref>, r: Ref, o': Object)
    requires Owned(h, main, lists) && r in h && o'.kind == h[r].kind
    ensures Owned(h[r := o'], main, lists)
  {
  }

  lemma WriteLive(h: Heap, white: bool, main: Ref, running: Ref, roots: seq<Slot>, fin: seq<Ref>, fnz: seq<Ref>, r: Ref, o': Object)
    requires AllLive(h, white, main, running, roots, fin, fnz) && r in h && o'.kind == h[r].kind && o'.fin == h[r].fin && !IsDead(o', white)
    ensures AllLive(h[r := o'], white, main, running, roots, fin, fnz)
  {
  }

  /** What marking looks at does not depend on `fin` and `gives`. */
  lemma RelabelledObject(h: Heap, h': Heap, o: Object, o': Object)
    requires h'.Keys == h.Keys && (forall r :: r in h && r in h' ==> h'[r].color.White? == h[r].color.White?) && o' == o.(fin := o'.fin, gives := o'.gives)
    ensures Complete(h', o') == Complete(h, o) && ArrayMarked(h', o') == ArrayMarked(h, o) && KeysMarked(h', o') == KeysMarked(h, o)
    ensures ValsMarked(h', o') == ValsMarked(h, o) && Tidy(h', o') == Tidy(h, o) && SlotsInHeap(h', o') == SlotsInHeap(h, o)
    ensures IsMarked(h', o'.meta) == IsMarked(h, o.meta) && Shaped(o') == Shaped(o)
  {
    forall s ensures IsMarked(h', s) == IsMarked(h, s) && InHeap(h', s) == InHeap(h, s) {
    }
    hide IsMarked, InHeap;
  }

  /** An object that has not been written to itself. */
  lemma OtherStays(h: Heap, h': Heap, ls: Lists, q: Ref)
    requires h'.Keys == h.Keys && (forall r :: r in h && r in h' ==> h'[r].color.White? == h[r].color.White?) && q in h && q in h' && h'[q] == h[q]
    requires WellFormedAt(h, q) && CoveredAt(h, ls, q) && (h[q].color.Black? ==> Complete(h, h[q]))
    ensures WellFormedAt(h', q) && CoveredAt(h', ls, q) && (h'[q].color.Black? ==> Complete(h', h'[q]))
  {
    hide Complete, ArrayMarked, KeysMarked, ValsMarked, Tidy, SlotsInHeap, IsMarked, Shaped;
    RelabelledObject(h, h', h[q], h[q]);
  }

  lemma WaitsAsBefore(h: Heap, h': Heap, ls: Lists, r: Ref)
    requires r in h && r in h' && CoveredAt(h, ls, r) && h'[r].color == h[r].color && !ls.atomic
    ensures CoveredAt(h', ls, r)
  {
  }

  /** A write into an object that will be visited (again) needs no barrier. */
  lemma WriteGray(h: Heap, ls: Lists, r: Ref, o': Object)
    requires TriColor(h, ls) && r in h && SameIdentity(h[r], o') && SlotsInHeap(h, o')
    requires (h[r].color.Black? ==> Complete(h, o')) && !ls.atomic && ls.bound == Everything()
    ensures TriColor(h[r := o'], ls)
  {
    var h' := h[r := o'];
    Unconfined(h', ls);
    hide Confined, Complete, SlotsInHeap, Shaped, Settled;
    forall q | q in h' ensures WellFormedAt(h', q) && (h'[q].color.Black? ==> Complete(h', h'[q])) && CoveredAt(h', ls, q) {
      assert WellFormedAt(h, q) && CoveredAt(h, ls, q);
      if q == r {
        RelabelledObject(h, h', o', o');
        WaitsAsBefore(h, h', ls, q);
      } else {
        OtherStays(h, h', ls, q);
      }
    }
    forall q | q in AllLists(ls) ensures Queued(h', q) {
      assert Queued(h, q);
    }
  }

  /** Every slot of `o'` is marked, or is `v`. */
  ghost predicate CompleteBut(h: Heap, o': Object, v: Slot) {
    && (o'.meta == v || IsMarked(h, o'.meta)) && (o'.cache == v || IsMarked(h, o'.cache))
    && (forall i :: 0 <= i < |o'.slots| ==> o'.slots[i] == v || IsMarked(h, o'.slots[i]))
    && (forall i :: 0 <= i < |o'.nodes| ==> (o'.nodes[i].key == v || IsMarked(h, o'.nodes[i].key)) && (o'.nodes[i].val == v || IsMarked(h, o'.nodes[i].val)))
  }

  lemma LiveInHeapToo(h: Heap, white: bool, o: Object)
    requires ContentsLive(h, white, o)
    ensures SlotsInHeap(h, o)
  {
  }

  /** A black object that has been written to: all but it satisfies the invariant. */
  lemma WriteBlack(h: Heap, ls: Lists, r: Ref, o': Object, c: Color)
    requires TriColor(h, ls) && r in h && h[r].color.Black? && SameIdentity(h[r], o') && SlotsInHeap(h, o')
    requires (c.Black? || (c.Gray? && h[r].kind.Table?)) && ls.bound == Everything()
    ensures TriColorBut(h[r := o'.(color := c)], ls, r)
  {
    var h' := h[r := o'.(color := c)];
    Unconfined(h', ls);
    EverythingFits(h');
    hide Confined, Fits, Complete, SlotsInHeap, CoveredAt;
    SlotsAgain(h, h', o', c);
    forall q | q in h' ensures WellFormedAt(h', q) && (q != r && h'[q].color.Black? ==> Complete(h', h'[q])) && (q != r ==> CoveredAt(h', ls, q)) {
      assert WellFormedAt(h, q) && CoveredAt(h, ls, q);
      if q != r {
        OtherStays(h, h', ls, q);
      }
    }
    forall q | q in AllLists(ls) ensures Queued(h', q) && q != r {
      assert Queued(h, q);
    }
  }

  lemma SlotsAgain(h: Heap, h': Heap, o: Object, c: Color)
    requires SlotsInHeap(h, o) && h'.Keys == h.Keys
    ensures SlotsInHeap(h', o.(color := c))
  {
    forall s ensures InHeap(h', s) == InHeap(h, s) {
    }
    hide InHeap;
  }

  /** The forward barrier restores the invariant: `v` has been marked. */
  lemma ForwardKeeps(h: Heap, ls: Lists, r: Ref, o': Object, v: Slot, h2: Heap, gray2: seq<Ref>)
    requires TriColor(h, ls) && r in h && h[r].color.Black? && SameIdentity(h[r], o') && SlotsInHeap(h, o') && CompleteBut(h, o', v)
    requires Grows(h[r := o'], ls.gray, h2, gray2, -1) && IsMarked(h2, v) && ls.bound == Everything()
    ensures TriColor(h2, ls.(gray := gray2))
  {
    hide TriColor, TriColorBut, Bounded, WellFormed, SlotsInHeap;
    var h1 := h[r := o'];
    EverythingFits(h2);
    WriteBlack(h, ls, r, o', Black);
    assert h1 == h[r := o'.(color := Black)];
    assert MarksAt(h1, h2, -1, r);
    forall s | IsMarked(h, s) ensures IsMarked(h2, s) {
      MarkedStays(h1, h2, -1, s);
    }
    GrowsAny(h1, ls.gray, h2, gray2, r);
    TraversalKeeps(h1, ls, r, h2, gray2, ls.(gray := gray2));
  }

  /** The back barrier restores the invariant: the table is gray again, and in `grayagain`. */
  lemma BackKeeps(h: Heap, ls: Lists, r: Ref, o': Object)
    requires TriColor(h, ls) && r in h && h[r].color.Black? && SameIdentity(h[r], o') && SlotsInHeap(h, o') && h[r].kind.Table?
    requires ls.bound == Everything()
    ensures TriColor(h[r := o'.(color := Gray)], ls.(todo := [r] + ls.todo))
  {
    hide TriColor, TriColorBut, Bounded, WellFormed, SlotsInHeap;
    var h1 := h[r := o'.(color := Gray)];
    EverythingFits(h1);
    assert r in h1;
    WriteBlack(h, ls, r, o', Gray);
    GrowsSame(h1, ls.gray, r);
    var ls2 := ls.(todo := [r] + ls.todo);
    assert ls2.todo[0] == r;
    TraversalKeeps(h1, ls, r, h1, ls.gray, ls2);
  }

  /** Outside the mark phase only colours matter: what is white stays white. */
  lemma PhaseStays(s: SweepState, r: Ref, o2: Object)
    requires SweepInv(s) && r in s.objs && (s.objs[r].color == White(s.white) ==> o2.color == White(s.white))
    ensures SweepInv(s.(objs := s.objs[r := o2]))
  {
    SweptWrite(s.objs, s.white, s.allgc, r, o2);
    SweptWrite(s.objs, s.white, s.finobj, r, o2);
    SweptWrite(s.objs, s.white, s.tobefnz, r, o2);
    hide SweptTo;
  }

  lemma SweptWrite(h: Heap, white: bool, l: seq<Ref>, r: Ref, o2: Object)
    requires r in h && (h[r].color == White(white) ==> o2.color == White(white))
    ensures forall n :: SweptTo(h, white, l, n) ==> SweptTo(h[r := o2], white, l, n)
  {
  }

  /** A write that the mutator may do: `o'` holds what `o` held, or other live references. */
  ghost predicate MayWrite(g: GlobalState, o: Ref, o': Object)
    reads g
  {
    Live(g.objs, g.white, o) && SameIdentity(g.objs[o], o') && ContentsLive(g.objs, g.white, o')
  }

  /** What every operation of the mutator keeps: the live objects. */
  ghost predicate KeepsLive(h: Heap, h': Heap, white: bool) {
    forall r :: Live(h, white, r) ==> Live(h', white, r)
  }

  lemma WriteNoneDead(h: Heap, white: bool, r: Ref, o': Object)
    requires NoneDead(h, white) && r in h && !IsDead(o', white)
    ensures NoneDead(h[r := o'], white)
  {
  }

  /** A table in `allweak` minds only that its metatable is marked, and says that it is all-weak. */
  lemma AllWeakWrite(h: Heap, o: Ref, o2: Object, l: seq<Ref>)
    requires AllWeakOk(h, l) && o in h && o2.gives == h[o].gives && o2.kind == h[o].kind && (o2.color.White? ==> h[o].color.White?)
    ensures AllWeakOk(h[o := o2], l) <==> (o in l ==> IsMarked(h[o := o2], o2.meta) && GivenBy(h, o2.meta).AllWeak?)
  {
    var h' := h[o := o2];
    assert forall s :: GivenBy(h', s) == GivenBy(h, s);
    assert forall s :: IsMarked(h, s) ==> IsMarked(h', s);
    if o in l {
      assert ModeOf(h, o).AllWeak?;
      assert h[o].kind.Table?;
      assert ModeOf(h', o) == GivenBy(h', o2.meta);
    }
    forall r | r in l && r != o ensures r in h' && ModeOf(h', r).AllWeak? && IsMarked(h', h'[r].meta) {
      assert ModeOf(h', r) == ModeOf(h, r);
    }
  }

  lemma SameMeta(h: Heap, o: Ref, o2: Object, l: seq<Ref>)
    requires AllWeakOk(h, l) && o in h && o2.gives == h[o].gives && o2.kind == h[o].kind && (o2.color.White? ==> h[o].color.White?)
    requires o in l ==> o2.meta == h[o].meta
    ensures AllWeakOk(h[o := o2], l)
  {
    AllWeakWrite(h, o, o2, l);
    if o in l {
      assert ModeOf(h, o) == GivenBy(h, o2.meta);
    }
  }

  /** The object lists and roots do not mind a write. */
  lemma WriteReady(g: GlobalState, o: Ref, o2: Object)
    requires Owned(g.objs, g.mainthread, g.allgc + g.finobj + g.tobefnz) && RootsLive(g)
    requires o in g.objs && o2.kind == g.objs[o].kind && o2.fin == g.objs[o].fin && !IsDead(o2, g.white)
    ensures Owned(g.objs[o := o2], g.mainthread, g.allgc + g.finobj + g.tobefnz)
    ensures AllLive(g.objs[o := o2], g.white, g.mainthread, g.running, g.roots, g.finobj, g.tobefnz)
    ensures NoneDead(g.objs, g.white) ==> NoneDead(g.objs[o := o2], g.white)
  {
    hide Owned, AllLive;
    RootsAsLive(g);
    WriteOwned(g.objs, g.mainthread, g.allgc + g.finobj + g.tobefnz, o, o2);
    WriteLive(g.objs, g.white, g.mainthread, g.running, g.roots, g.finobj, g.tobefnz, o, o2);
  }

  /** Object `o` is now `o'` but for its colour, and other objects have at most been marked. */
  ghost predicate Stored(h: Heap, o: Ref, o': Object, h': Heap) {
    && o in h && o in h' && h'.Keys == h.Keys && h'[o] == o'.(color := h'[o].color)
    && forall r :: r in h && r in h' && r != o && h'[r] != h[r] ==> h[r].color.White? && !h'[r].color.White? && h'[r] == h[r].(color := h'[r].color)
  }

  lemma StoredAlone(h: Heap, o: Ref, o': Object, h': Heap)
    requires o in h && o in h' && h' == h[o := h'[o]] && h'[o] == o'.(color := h'[o].color)
    ensures Stored(h, o, o', h')
  {
  }

  /** A store into an object that has no barrier to pass, while marking. */
  method StoreQuietly(g: GlobalState, o: Ref, o': Object)
    requires Inv(g) && KeepInvariant(g.gcstate) && MayWrite(g, o, o')
    requires (g.objs[o].color.Black? ==> Complete(g.objs, o')) && (o in g.allweak ==> o'.meta == g.objs[o].meta)
    modifies g`objs
    ensures Inv(g) && g.objs == old(g.objs)[o := o']
  {
    hide Sound, Owned, AllLive, TriColor, NoneDead, RootsLive, ContentsLive, Complete, AllWeakOk, IsMarked;
    SameMeta(g.objs, o, o', g.allweak);
    WriteUnbarred(g, o, o');
  }

  /** Such a store keeps the invariant but for `allweak`. */
  method WriteUnbarred(g: GlobalState, o: Ref, o': Object)
    requires Inv(g) && KeepInvariant(g.gcstate) && MayWrite(g, o, o') && (g.objs[o].color.Black? ==> Complete(g.objs, o'))
    modifies g`objs
    ensures g.objs == old(g.objs)[o := o'] && TriColor(g.objs, MarkLists(g)) && (Inv(g) <==> AllWeakOk(g.objs, g.allweak))
  {
    hide Sound, Owned, AllLive, TriColor, NoneDead, RootsLive, ContentsLive, Complete, AllWeakOk;
    ghost var h, ls := g.objs, MarkLists(g);
    LiveInHeapToo(h, g.white, o');
    WriteGray(h, ls, o, o');
    WriteReady(g, o, o');
    MainMarked(h, g.mainthread, o, o');
    g.objs := g.objs[o := o'];
    OnwardSame(g.objs, {});
    MarkedOn(g.objs, g);
  }

  lemma MainMarked(h: Heap, main: Ref, o: Ref, o2: Object)
    requires IsMarked(h, To(main)) && o in h && (o2.color.White? ==> h[o].color.White?)
    ensures IsMarked(h[o := o2], To(main))
  {
  }

  /** A store with `luaC_barrier` while marking: the value is marked. */
  method StoreMarking(g: GlobalState, o: Ref, o': Object, v: Slot)
    requires Inv(g) && KeepInvariant(g.gcstate) && MayWrite(g, o, o')
    requires g.objs[o].color.Black? && CompleteBut(g.objs, o', v) && IsWhite(g.objs, v)
    modifies g`objs, g`gray, g`bound
    ensures Inv(g) && Stored(old(g.objs), o, o', g.objs) && KeepsLive(old(g.objs), g.objs, g.white)
  {
    hide Sound, Owned, AllLive, TriColor, NoneDead, RootsLive, Grows, KeepsLive, AllWeakOk, IsMarked, IsWhite, CompleteBut, ContentsLive;
    ghost var h, ls := g.objs, MarkLists(g);
    WriteReady(g, o, o');
    StoreAndMark(g, o, o', v);
    MarksOnwardToo(h[o := o'], ls.gray, g.objs, g.gray, -1);
    MarkedOn(h[o := o'], g);
    StoredMarks(h, h[o := o'], o, o', g.objs, ls.gray, g.gray, g.white, g.mainthread);
    SameModes(h, o, o', g.objs, ls, g.gray);
  }

  method StoreAndMark(g: GlobalState, o: Ref, o': Object, v: Slot)
    requires TriColor(g.objs, MarkLists(g)) && MayWrite(g, o, o') && g.objs[o].color.Black? && CompleteBut(g.objs, o', v) && IsWhite(g.objs, v)
    modifies g`objs, g`gray, g`bound
    ensures TriColor(g.objs, MarkLists(g)) && Grows(old(g.objs)[o := o'], old(g.gray), g.objs, g.gray, -1)
  {
    hide TriColor, Grows, WellFormed, CompleteBut, SlotsInHeap, ContentsLive, TriColorBut, Bounded;
    ghost var h, ls := g.objs, MarkLists(g);
    LiveInHeapToo(h, g.white, o');
    assert o'.(color := Black) == o';
    WriteBlack(h, ls, o, o', Black);
    g.objs := g.objs[o := o'];
    ghost var h1 := g.objs;
    ButParts(h1, ls, o);
    g.bound := Everything();
    IsThere(v.r);
    ReallyMark(g, v.r);
    ForwardKeeps(h, ls, o, o', v, g.objs, g.gray) by { assert v == To(v.r) && v.r in g.objs.Keys by { GrowsKeys(h1, ls.gray, g.objs, g.gray, -1); } }
  }

  lemma StoredMarks(h: Heap, h1: Heap, o: Ref, o': Object, h2: Heap, gr: seq<Ref>, gr': seq<Ref>, white: bool, main: Ref)
    requires o in h && SameIdentity(h[o], o') && o'.color.Black? && h1 == h[o := o'] && Grows(h1, gr, h2, gr', -1) && NoneDead(h2, white)
    ensures Stored(h, o, o', h2) && KeepsLive(h, h2, white) && (IsMarked(h, To(main)) ==> IsMarked(h2, To(main))) && |gr| <= |gr'|
  {
    assert MarksAt(h1, h2, -1, o);
    forall r | r in h && r in h2 && r != o && h2[r] != h[r] ensures h[r].color.White? && !h2[r].color.White? && h2[r] == h[r].(color := h2[r].color) {
      assert MarksAt(h1, h2, -1, r);
    }
    if IsMarked(h, To(main)) {
      MarkedStays(h1, h2, -1, To(main));
    }
  }

  lemma SameModes(h: Heap, o: Ref, o': Object, h2: Heap, ls: Lists, gr': seq<Ref>)
    requires TriColor(h, ls) && AllWeakOk(h, ls.allweak) && o in h && h[o].color.Black? && SameIdentity(h[o], o') && Grows(h[o := o'], ls.gray, h2, gr', -1)
    ensures AllWeakOk(h2, ls.allweak)
  {
    BlackUnlisted(h, ls, o);
    SameMeta(h, o, o', ls.allweak);
    MarksOnward(h[o := o'], h2, -1);
    forall r | r in ls.allweak ensures r in h2 && ModeOf(h2, r).AllWeak? && IsMarked(h2, h2[r].meta) {
      OnwardKeeps(h[o := o'], h2, {}, r);
    }
  }

  lemma BlackUnlisted(h: Heap, ls: Lists, o: Ref)
    requires TriColor(h, ls) && o in h && h[o].color.Black?
    ensures o !in ls.allweak
  {
    assert o in AllLists(ls) ==> Queued(h, o);
  }

  /** A store with `luaC_barrierback` while marking: the table will be visited again. */
  method StoreBackMarking(g: GlobalState, o: Ref, o': Object)
    requires Inv(g) && KeepInvariant(g.gcstate) && MayWrite(g, o, o') && g.objs[o].color.Black? && g.objs[o].kind.Table?
    modifies g`objs, g`grayagain
    ensures Inv(g) && g.objs == old(g.objs)[o := o'.(color := Gray)] && g.grayagain == [o] + old(g.grayagain)
  {
    hide Sound, Owned, AllLive, TriColor, NoneDead, RootsLive, SlotsInHeap, ContentsLive, AllWeakOk;
    ghost var h, ls := g.objs, MarkLists(g);
    LiveInHeapToo(h, g.white, o');
    BackKeeps(h, ls, o, o');
    var o2 := o'.(color := Gray);
    BlackUnlisted(h, ls, o);
    SameMeta(h, o, o2, g.allweak);
    MainMarked(h, g.mainthread, o, o2);
    WriteReady(g, o, o2);
    g.objs := g.objs[o := o2];
    g.grayagain := [o] + g.grayagain;
    OnwardSame(g.objs, {});
    MarkedOn(g.objs, g);
  }

  /** A store while nothing is being marked; a barrier may then only recolour the object itself. */
  method StoreElsewhere(g: GlobalState, o: Ref, o': Object, c: Color)
    requires Inv(g) && !KeepInvariant(g.gcstate) && MayWrite(g, o, o')
    requires c == o'.color || (!o'.color.White? && (c == White(g.white) || (c.Gray? && o'.kind.Table?)))
    modifies g`objs
    ensures Inv(g) && g.objs == old(g.objs)[o := o'.(color := c)] && KeepsLive(old(g.objs), g.objs, g.white)
  {
    hide Sound, Owned, AllLive, RootsLive, ContentsLive, SweepInv, AllWeakOk;
    ghost var s := SweepStateOf(g);
    var o2 := o'.(color := c);
    WriteReady(g, o, o2);
    SameContents(g.objs, g.white, o', o2);
    WriteSound(g.objs, g.white, o, o2);
    g.objs := g.objs[o := o2];
    PhaseStays(s, o, o2);
    assert SweepStateOf(g) == s.(objs := g.objs);
    LiveAsRoots(g);
  }

  lemma SameContents(h: Heap, white: bool, o: Object, o': Object)
    requires ContentsLive(h, white, o) && o' == o.(color := o'.color)
    ensures ContentsLive(h, white, o')
  {
  }

  // The operations of the mutator.

  lemma NotAllWeak(g: GlobalState, o: Ref)
    requires Marking(g) && o in g.objs && !g.objs[o].kind.Table?
    ensures o !in g.allweak
  {
    forall r | r in g.allweak ensures r in g.objs && g.objs[r].kind.Table? {
    }
  }

  lemma BlackComplete(g: GlobalState, o: Ref)
    requires Marking(g) && o in g.objs && g.objs[o].color.Black?
    ensures Complete(g.objs, g.objs[o])
  {
  }

  /** A store followed by `luaC_barrier` or `luaC_objbarrier` (forward). */
  method StoreForward(g: GlobalState, o: Ref, o': Object, v: Slot)
    requires Inv(g) && MayWrite(g, o, o') && SlotLive(g.objs, g.white, v)
    requires g.objs[o].color.Black? && KeepInvariant(g.gcstate) ==> CompleteBut(g.objs, o', v)
    requires KeepInvariant(g.gcstate) && o in g.allweak ==> o'.meta == g.objs[o].meta
    modifies g`objs, g`gray, g`bound
    ensures Inv(g) && Stored(old(g.objs), o, o', g.objs) && KeepsLive(old(g.objs), g.objs, g.white)
    ensures !KeepInvariant(g.gcstate) ==> g.objs == old(g.objs)[o := g.objs[o]]
  {
    hide Sound, Owned, TriColor, NoneDead, RootsLive, ContentsLive, Complete, CompleteBut, SweepInv, FinOk, Stored, KeepsLive;
    if KeepInvariant(g.gcstate) {
      if g.objs[o].color.Black? && IsWhite(g.objs, v) {
        StoreMarking(g, o, o', v);
      } else {
        if g.objs[o].color.Black? {
          CompleteWith(g.objs, o', v);
        }
        StoreQuietly(g, o, o');
        QuietLive(old(g.objs), g.white, o, o');
        StoredAlone(old(g.objs), o, o', g.objs);
      }
    } else {
      StoreElsewhere(g, o, o', if o'.color.Black? && IsWhite(g.objs, v) then White(g.white) else o'.color);
      StoredAlone(old(g.objs), o, o', g.objs);
    }
  }

  lemma CompleteWith(h: Heap, o': Object, v: Slot)
    requires CompleteBut(h, o', v) && InHeap(h, v) && !IsWhite(h, v)
    ensures Complete(h, o')
  {
  }

  lemma QuietLive(h: Heap, white: bool, o: Ref, o': Object)
    requires o in h && (IsDead(o', white) ==> IsDead(h[o], white))
    ensures KeepsLive(h, h[o := o'], white)
  {
  }

  /** Setting an upvalue of a closure, a user value, or a constant of a prototype. */
  method SetSlot(g: GlobalState, o: Ref, i: nat, v: Slot)
    requires Inv(g) && Live(g.objs, g.white, o) && g.objs[o].kind in {Closure, Proto, Udata} && i < |g.objs[o].slots| && SlotLive(g.objs, g.white, v)
    modifies g`objs, g`gray, g`bound
    ensures Inv(g) && KeepsLive(old(g.objs), g.objs, g.white)
    ensures Stored(old(g.objs), o, old(g.objs)[o].(slots := old(g.objs)[o].slots[i := v]), g.objs)
  {
    hide Sound, Owned, TriColor, NoneDead, RootsLive, SweepInv, FinOk;
    var o' := g.objs[o].(slots := g.objs[o].slots[i := v]);
    TableSound(g, o);
    if KeepInvariant(g.gcstate) {
      NotAllWeak(g, o);
      if g.objs[o].color.Black? {
        BlackComplete(g, o);
      }
    }
    StoreForward(g, o, o', v);
  }

  /**
    `lua_setmetatable` stores a metatable with `luaC_objbarrier`. That barrier looks at
    black objects only, so it misses an all-weak table that has been visited already:
    the table is gray, waits in `allweak` to be cleared, and is not visited again. So the
    metatable is not marked, nor do entries stay that are strong according to it.
   */
  method SetMetatable(g: GlobalState, o: Ref, v: Slot)
    requires Inv(g) && Live(g.objs, g.white, o) && g.objs[o].kind in {Table, Udata} && SlotLive(g.objs, g.white, v)
    modifies g`objs, g`gray, g`bound
    ensures Inv(g) <==> !(KeepInvariant(g.gcstate) && o in old(g.allweak) && (IsWhite(old(g.objs), v) || !GivenBy(old(g.objs), v).AllWeak?))
    ensures Stored(old(g.objs), o, old(g.objs)[o].(meta := v), g.objs) && (!KeepInvariant(g.gcstate) ==> g.objs == old(g.objs)[o := g.objs[o]])
    ensures Inv(g) ==> KeepsLive(old(g.objs), g.objs, g.white)
    ensures KeepInvariant(g.gcstate) && o in old(g.allweak) ==>
              g.objs == old(g.objs)[o := old(g.objs)[o].(meta := v)] && g.gray == old(g.gray) && TriColor(g.objs, MarkLists(g))
  {
    hide Sound, Owned, TriColor, NoneDead, RootsLive, SweepInv, FinOk, KeepsLive, AllWeakOk, Complete, CompleteBut, ContentsLive, Stored;
    var o' := g.objs[o].(meta := v);
    TableSound(g, o);
    MetaLive(g, o, v);
    if KeepInvariant(g.gcstate) && o in g.allweak {
      ghost var h := g.objs;
      WaitingGray(h, MarkLists(g), o);
      WriteUnbarred(g, o, o');
      QuietLive(h, g.white, o, o');
      AllWeakWrite(h, o, o', g.allweak);
      StillMarked(h, o, o', v);
      StoredAlone(h, o, o', g.objs);
    } else {
      StoreForward(g, o, o', v);
    }
  }

  lemma MetaLive(g: GlobalState, o: Ref, v: Slot)
    requires Inv(g) && Live(g.objs, g.white, o) && g.objs[o].kind in {Table, Udata} && SlotLive(g.objs, g.white, v)
    requires Shaped(g.objs[o]) && ContentsLive(g.objs, g.white, g.objs[o])
    ensures ContentsLive(g.objs, g.white, g.objs[o].(meta := v)) && Shaped(g.objs[o].(meta := v)) && InHeap(g.objs, v)
    ensures KeepInvariant(g.gcstate) && g.objs[o].color.Black? ==> CompleteBut(g.objs, g.objs[o].(meta := v), v)
  {
    hide Sound, Owned, RootsLive, SweepInv, Bounded, Confined;
    if KeepInvariant(g.gcstate) && g.objs[o].color.Black? {
      BlackComplete(g, o);
    }
  }

  lemma StillMarked(h: Heap, o: Ref, o': Object, v: Slot)
    requires o in h && o' == h[o].(meta := v) && InHeap(h, v)
    ensures IsMarked(h[o := o'], v) <==> !IsWhite(h, v)
  {
  }

  /**
    The `__mode` entry of a metatable changes. (Any store of the entry itself is a `SetTable`.)
    Tables that wait in `allweak` because of the old entry are not looked at again.
   */
  method SetGives(g: GlobalState, m: Ref, gives: Mode)
    requires Inv(g) && Live(g.objs, g.white, m) && g.objs[m].kind.Table?
    modifies g`objs
    ensures g.objs == old(g.objs)[m := old(g.objs)[m].(gives := gives)] && KeepsLive(old(g.objs), g.objs, g.white)
    ensures Inv(g) <==> !(KeepInvariant(g.gcstate) && !gives.AllWeak? && exists r :: r in old(g.allweak) && old(g.objs)[r].meta == To(m))
    ensures KeepInvariant(g.gcstate) ==> TriColor(g.objs, MarkLists(g))
  {
    hide Sound, Owned, TriColor, NoneDead, RootsLive, SweepInv, FinOk, KeepsLive, AllWeakOk, AllLive, Shaped;
    ghost var h, s, ls := g.objs, SweepStateOf(g), MarkLists(g);
    var o' := g.objs[m].(gives := gives);
    WriteReady(g, m, o');
    GivesSound(h, g.white, m, o');
    QuietLive(h, g.white, m, o');
    g.objs := g.objs[m := o'];
    if KeepInvariant(g.gcstate) {
      RelabelledTriColor(h, ls, m, o');
      GivesAllWeak(h, g.allweak, m, o');
      MainMarked(h, g.mainthread, m, o');
      OnwardSame(g.objs, {});
      MarkedOn(g.objs, g);
    } else {
      PhaseStays(s, m, o');
      assert SweepStateOf(g) == s.(objs := g.objs);
    }
    LiveAsRoots(g);
  }

  lemma GivesSound(h: Heap, white: bool, m: Ref, o': Object)
    requires Sound(h, white) && m in h && o' == h[m].(gives := o'.gives)
    ensures Sound(h[m := o'], white)
  {
    var h' := h[m := o'];
    forall q | q in h' ensures SoundAt(h', white, q) {
      assert SoundAt(h, white, q) && SoundAt(h, white, m);
    }
  }

  lemma RelabelledSettled(h: Heap, h': Heap, ls: Lists, m: Ref)
    requires h'.Keys == h.Keys && (forall r :: r in h && r in h' ==> h'[r].color.White? == h[r].color.White?)
    requires m in h && m in h' && h'[m] == h[m].(fin := h'[m].fin, gives := h'[m].gives)
    ensures Settled(h', ls, m) == Settled(h, ls, m)
  {
    hide ArrayMarked, KeysMarked, ValsMarked, Tidy, IsMarked;
    RelabelledObject(h, h', h[m], h'[m]);
  }

  lemma RelabelledTriColor(h: Heap, ls: Lists, m: Ref, o': Object)
    requires TriColor(h, ls) && m in h && o' == h[m].(fin := o'.fin, gives := o'.gives) && ls.bound == Everything()
    ensures TriColor(h[m := o'], ls)
  {
    var h' := h[m := o'];
    Unconfined(h', ls);
    hide Confined, Complete, SlotsInHeap, Shaped, Settled;
    forall q | q in h' ensures WellFormedAt(h', q) && (h'[q].color.Black? ==> Complete(h', h'[q])) && CoveredAt(h', ls, q) {
      assert WellFormedAt(h, q) && CoveredAt(h, ls, q);
      if q == m {
        RelabelledObject(h, h', h[q], o');
        RelabelledSettled(h, h', ls, q);
      } else {
        OtherStays(h, h', ls, q);
      }
    }
    forall q | q in AllLists(ls) ensures Queued(h', q) {
      assert Queued(h, q);
    }
  }

  lemma GivesAllWeak(h: Heap, l: seq<Ref>, m: Ref, o': Object)
    requires AllWeakOk(h, l) && m in h && o' == h[m].(gives := o'.gives)
    ensures forall r :: r in l ==> r in h
    ensures AllWeakOk(h[m := o'], l) <==> (o'.gives.AllWeak? || !exists r :: r in l && h[r].meta == To(m))
  {
    var h' := h[m := o'];
    forall r | r in l ensures r in h' && IsMarked(h', h'[r].meta) && (ModeOf(h', r).AllWeak? <==> h[r].meta != To(m) || o'.gives.AllWeak?) {
      assert ModeOf(h, r).AllWeak? && IsMarked(h, h[r].meta);
    }
  }

  lemma WaitingGray(h: Heap, ls: Lists, o: Ref)
    requires TriColor(h, ls) && o in ls.allweak
    ensures o in h && h[o].color.Gray? && o !in ls.gray && o !in ls.todo
  {
    var a, b := ls.gray + ls.todo + ls.weak, ls.allweak + ls.ephemeron;
    assert AllLists(ls) == a + b;
    assert o in AllLists(ls) && Queued(h, o);
    ApartParts(a, b);
  }

  /** `s` is one of `vs`, or something that `o` holds, or no reference. */
  predicate SlotFrom(o: Object, vs: set<Slot>, s: Slot) {
    !s.To? || s in vs || s in o.slots || exists i :: 0 <= i < |o.nodes| && (o.nodes[i].key == s || o.nodes[i].val == s)
  }

  /** The contents of a table rearranged (by a rehash, say), with the slots `vs` added. */
  predicate ContentsFrom(o: Object, vs: set<Slot>, slots: seq<Slot>, nodes: seq<Node>) {
    && (forall i :: 0 <= i < |slots| ==> SlotFrom(o, vs, slots[i]))
    && (forall i :: 0 <= i < |nodes| ==> SlotFrom(o, vs, nodes[i].key) && SlotFrom(o, vs, nodes[i].val))
  }

  lemma FromMarked(h: Heap, o: Object, vs: set<Slot>, s: Slot)
    requires Complete(h, o) && SlotFrom(o, vs, s) && forall v :: v in vs ==> IsMarked(h, v)
    ensures IsMarked(h, s)
  {
    if s in o.slots {
      var i :| 0 <= i < |o.slots| && o.slots[i] == s;
    }
  }

  lemma FromLive(h: Heap, white: bool, o: Object, vs: set<Slot>, s: Slot)
    requires ContentsLive(h, white, o) && SlotFrom(o, vs, s) && forall v :: v in vs ==> SlotLive(h, white, v)
    ensures SlotLive(h, white, s)
  {
    if s in o.slots {
      var i :| 0 <= i < |o.slots| && o.slots[i] == s;
    }
  }

  lemma RearrangedMarked(h: Heap, o: Object, vs: set<Slot>, slots: seq<Slot>, nodes: seq<Node>)
    requires Complete(h, o) && ContentsFrom(o, vs, slots, nodes) && forall v :: v in vs ==> IsMarked(h, v)
    ensures Complete(h, o.(slots := slots, nodes := nodes))
  {
    forall i | 0 <= i < |slots| ensures IsMarked(h, slots[i]) {
      FromMarked(h, o, vs, slots[i]);
    }
    forall i | 0 <= i < |nodes| ensures IsMarked(h, nodes[i].key) && IsMarked(h, nodes[i].val) {
      FromMarked(h, o, vs, nodes[i].key);
      FromMarked(h, o, vs, nodes[i].val);
    }
  }

  lemma RearrangedLive(h: Heap, white: bool, o: Object, vs: set<Slot>, slots: seq<Slot>, nodes: seq<Node>)
    requires ContentsLive(h, white, o) && ContentsFrom(o, vs, slots, nodes) && forall v :: v in vs ==> SlotLive(h, white, v)
    ensures ContentsLive(h, white, o.(slots := slots, nodes := nodes))
  {
    forall i | 0 <= i < |slots| ensures SlotLive(h, white, slots[i]) {
      FromLive(h, white, o, vs, slots[i]);
    }
    forall i | 0 <= i < |nodes| ensures SlotLive(h, white, nodes[i].key) && SlotLive(h, white, nodes[i].val) {
      FromLive(h, white, o, vs, nodes[i].key);
      FromLive(h, white, o, vs, nodes[i].val);
    }
  }

  /** Setting `t[k] = v`, with the back barriers of `luaH_newkey` and of the store itself. */
  method SetTable(g: GlobalState, t: Ref, slots: seq<Slot>, nodes: seq<Node>, k: Slot, v: Slot)
    requires Inv(g) && Live(g.objs, g.white, t) && g.objs[t].kind.Table? && SlotLive(g.objs, g.white, k) && SlotLive(g.objs, g.white, v)
    requires ContentsFrom(g.objs[t], {k, v}, slots, nodes)
    modifies g`objs, g`grayagain
    ensures Inv(g) && KeepsLive(old(g.objs), g.objs, g.white)
    ensures t in g.objs && g.objs == old(g.objs)[t := old(g.objs)[t].(slots := slots, nodes := nodes, color := g.objs[t].color)]
  {
    hide Inv, MayWrite, Complete, ContentsFrom, KeepsLive;
    var o' := g.objs[t].(slots := slots, nodes := nodes);
    RearrangedReady(g, t, slots, nodes, k, v);
    var barrier := g.objs[t].color.Black? && (IsWhite(g.objs, k) || IsWhite(g.objs, v));
    if !KeepInvariant(g.gcstate) {
      StoreElsewhere(g, t, o', if barrier then Gray else o'.color);
      if barrier {
        LinkAgain(g, t);
      }
    } else if barrier {
      StoreBackMarking(g, t, o');
      QuietLive(old(g.objs), g.white, t, g.objs[t]);
    } else {
      StoreQuietly(g, t, o');
      QuietLive(old(g.objs), g.white, t, o');
    }
  }

  /** Outside the mark phase `grayagain` does not matter. */
  method LinkAgain(g: GlobalState, t: Ref)
    requires Inv(g) && !KeepInvariant(g.gcstate)
    modifies g`grayagain
    ensures Inv(g)
  {
    hide Sound, Owned, RootsLive, SweepInv;
    g.grayagain := [t] + g.grayagain;
  }

  lemma RearrangedReady(g: GlobalState, t: Ref, slots: seq<Slot>, nodes: seq<Node>, k: Slot, v: Slot)
    requires Inv(g) && Live(g.objs, g.white, t) && g.objs[t].kind.Table? && SlotLive(g.objs, g.white, k) && SlotLive(g.objs, g.white, v)
    requires ContentsFrom(g.objs[t], {k, v}, slots, nodes)
    ensures var o' := g.objs[t].(slots := slots, nodes := nodes);
            && MayWrite(g, t, o')
            && (KeepInvariant(g.gcstate) && g.objs[t].color.Black? && !IsWhite(g.objs, k) && !IsWhite(g.objs, v) ==> Complete(g.objs, o'))
  {
    hide Sound, Owned, TriColor, NoneDead, RootsLive, ContentsLive, Complete, SweepInv, FinOk, ContentsFrom;
    TableSound(g, t);
    RearrangedLive(g.objs, g.white, g.objs[t], {k, v}, slots, nodes);
    if KeepInvariant(g.gcstate) && g.objs[t].color.Black? && !IsWhite(g.objs, k) && !IsWhite(g.objs, v) {
      BlackComplete(g, t);
      RearrangedMarked(g.objs, g.objs[t], {k, v}, slots, nodes);
    }
  }

  lemma TableSound(g: GlobalState, t: Ref)
    requires Sound(g.objs, g.white) && Live(g.objs, g.white, t)
    ensures Shaped(g.objs[t]) && ContentsLive(g.objs, g.white, g.objs[t])
  {
    assert SoundAt(g.objs, g.white, t);
  }

  /** Writes to a stack have no barrier: threads are never black. */
  method SetStack(g: GlobalState, th: Ref, slots: seq<Slot>)
    requires Inv(g) && Live(g.objs, g.white, th) && g.objs[th].kind.Thread? && forall i :: 0 <= i < |slots| ==> SlotLive(g.objs, g.white, slots[i])
    modifies g`objs
    ensures Inv(g) && g.objs == old(g.objs)[th := old(g.objs)[th].(slots := slots)]
  {
    hide Owned, TriColor, NoneDead, RootsLive, SweepInv, FinOk;
    var o' := g.objs[th].(slots := slots);
    TableSound(g, th);
    if KeepInvariant(g.gcstate) {
      NotAllWeak(g, th);
      StoreQuietly(g, th, o');
    } else {
      StoreElsewhere(g, th, o', o'.color);
    }
  }

  /** The end of `pushclosure`: the closure is cached unless the prototype is black. */
  method CacheClosure(g: GlobalState, p: Ref, c: Ref)
    requires Inv(g) && Live(g.objs, g.white, p) && g.objs[p].kind.Proto? && Live(g.objs, g.white, c)
    modifies g`objs
    ensures Inv(g) && g.objs == if old(g.objs)[p].color.Black? then old(g.objs) else old(g.objs)[p := old(g.objs)[p].(cache := To(c))]
  {
    hide Owned, TriColor, NoneDead, RootsLive, SweepInv, FinOk;
    if !g.objs[p].color.Black? {
      var o' := g.objs[p].(cache := To(c));
      TableSound(g, p);
      if KeepInvariant(g.gcstate) {
        NotAllWeak(g, p);
        StoreQuietly(g, p, o');
      } else {
        StoreElsewhere(g, p, o', o'.color);
      }
    }
  }

  /** The registry or a basic type's metatable is set; roots are marked again in the atomic phase. */
  method SetRoot(g: GlobalState, i: nat, v: Slot)
    requires Inv(g) && i < |g.roots| && SlotLive(g.objs, g.white, v)
    modifies g`roots
    ensures Inv(g) && g.roots == old(g.roots)[i := v]
  {
    hide Sound, Owned, TriColor, NoneDead, SweepInv, FinOk;
    g.roots := g.roots[i := v];
  }

  /** Another thread runs. */
  method SwitchThread(g: GlobalState, th: Ref)
    requires Inv(g) && Live(g.objs, g.white, th) && g.objs[th].kind.Thread?
    modifies g`running
    ensures Inv(g) && g.running == th
  {
    hide Sound, Owned, TriColor, NoneDead, SweepInv, FinOk;
    g.running := th;
  }
}
