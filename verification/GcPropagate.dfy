/**
  `propagatemark` and `propagateall`: taking objects off the gray list.
 */
module GcPropagate {
  import opened GcHeap
  import opened GcBound
  import opened GcMark
  import opened GcInvariant

  /** The gray lists of `g`; inside the atomic phase the old `grayagain` is held aside as `todo`. */
  ghost function ListsOf(g: GlobalState, todo: seq<Ref>): Lists
    reads g
  {
    Lists(g.gcstate != GCSpropagate, g.gray, if g.gcstate == GCSinsideatomic then todo else g.grayagain, g.weak, g.allweak, g.ephemeron, g.bound)
  }

  ghost predicate Invariant(g: GlobalState, todo: seq<Ref>)
    reads g
  {
    TriColor(g.objs, ListsOf(g, todo))
  }

  /** A traversed object, seen from the state `h`, `ls` before it was taken off the gray list. */
  ghost predicate Traversed(h: Heap, ls: Lists, x: Ref, h1: Heap, h2: Heap, gray2: seq<Ref>, ls2: Lists)
    requires |ls.gray| > 0
  {
    && Recolored(h, h1, x) && Shaped(h1[x]) && Grows(h1, ls.gray[1..], h2, gray2, x)
    && Placed(h2, ls.(gray := ls.gray[1..]), gray2, ls2, x) && Bounded(h2, ls.bound)
  }

  lemma Finished(h: Heap, ls: Lists, x: Ref, h1: Heap, h2: Heap, gray2: seq<Ref>, ls2: Lists)
    requires TriColor(h, ls) && |ls.gray| > 0 && x == ls.gray[0] && Traversed(h, ls, x, h1, h2, gray2, ls2)
    ensures TriColor(h2, ls2) && Onward(h, h2, {})
    ensures |Whites(h2)| <= |Whites(h)| && |Whites(h2)| + |gray2| < |Whites(h)| + |ls.gray|
    ensures ModeOf(h2, x) == ModeOf(h, x) && (Heeds(h, x, h2) <==> !ModeOf(h, x).AllWeak? || (x in h2 && !h2[x].color.Black?))
  {
    hide Grows, Settled, Complete, Onward, Links, WellFormed, Covered, BlackDone, Bounded, Confined, FitsAt;
    Popped(h, ls, x, h1);
    TraversalKeeps(h1, ls.(gray := ls.gray[1..]), x, h2, gray2, ls2);
    TraversalOnward(h, h1, h2, ls.gray[1..], gray2, x);
    QueuesWhites(h1, ls.gray[1..], h2, gray2, x);
    SameWhites(h, h1, x);
    HeedsBut(h, h1, h2, ls.gray[1..], gray2, x);
  }

  /** All-weak tables do not get black, `x` apart not at all. */
  ghost predicate Heeds(h: Heap, x: Ref, h': Heap) {
    forall r :: r in h' && ModeOf(h', r).AllWeak? && h'[r].color.Black? ==> r in h && r != x && h[r].color.Black?
  }

  lemma HeedsBut(h: Heap, h1: Heap, h2: Heap, gr: seq<Ref>, gr': seq<Ref>, x: Ref)
    requires Recolored(h, h1, x) && Grows(h1, gr, h2, gr', x)
    ensures ModeOf(h2, x) == ModeOf(h, x) && (Heeds(h, x, h2) <==> !ModeOf(h, x).AllWeak? || (x in h2 && !h2[x].color.Black?))
  {
    forall r ensures ModeOf(h2, r) == ModeOf(h, r) {
      MarksMode(h1, h2, x, r);
      OnwardMode(h, h1, {}, r) by { RecoloredOnward(h, h1, x); }
    }
    forall r | r in h2 && r != x && ModeOf(h2, r).AllWeak? && h2[r].color.Black? ensures r in h && h[r].color.Black? {
      assert MarksAt(h1, h2, x, r);
    }
  }

  lemma SameWhites(h: Heap, h1: Heap, x: Ref)
    requires Recolored(h, h1, x)
    ensures Whites(h1) == Whites(h)
  {
  }

  lemma HeadQueued(h: Heap, ls: Lists)
    requires TriColor(h, ls) && |ls.gray| > 0
    ensures var x := ls.gray[0]; WellFormed(h) && x in h && h[x].color.Gray? && Shaped(h[x]) && FitsAt(h, ls.bound, x) && Bounded(h, ls.bound)
  {
    assert ls.gray[0] in AllLists(ls) && Queued(h, ls.gray[0]) && ListedFits(h, ls, ls.gray[0]);
    assert WellFormedAt(h, ls.gray[0]);
  }

  /** `gray2black` on the object that is about to be traversed, now off the gray list. */
  method TakeHead(g: GlobalState, ghost todo: seq<Ref>) returns (x: Ref)
    requires Invariant(g, todo) && g.gray != []
    modifies g`objs, g`gray
    ensures x == old(g.gray[0]) && g.gray == old(g.gray[1..]) && x in old(g.objs) && x in g.objs && WellFormed(old(g.objs))
    ensures g.objs == old(g.objs)[x := g.objs[x]] && g.objs[x] == old(g.objs)[x].(color := if old(g.objs)[x].kind.Thread? then Gray else Black)
    ensures Recolored(old(g.objs), g.objs, x) && Shaped(g.objs[x]) && WellFormed(g.objs)
    ensures Bounded(g.objs, g.bound) && Fits(g.objs, g.objs[x], ModeOf(g.objs, x), g.bound) && ModeOf(g.objs, x) == ModeOf(old(g.objs), x)
  {
    hide TriColor, Fits, Bounded, WellFormed;
    HeadQueued(g.objs, ListsOf(g, todo));
    x := g.gray[0];
    g.gray := g.gray[1..];
    g.objs := g.objs[x := g.objs[x].(color := if g.objs[x].kind.Thread? then Gray else Black)];
    RecoloredWellFormed(old(g.objs), g.objs, x);
    HeadFits(old(g.objs), g.objs, ListsOf(g, todo), x);
  }

  lemma HeadFits(h: Heap, h1: Heap, ls: Lists, x: Ref)
    requires Recolored(h, h1, x) && FitsAt(h, ls.bound, x) && Bounded(h, ls.bound)
    ensures Bounded(h1, ls.bound) && Fits(h1, h1[x], ModeOf(h1, x), ls.bound) && ModeOf(h1, x) == ModeOf(h, x)
  {
    RecoloredOnward(h, h1, x);
    RecolorBounded(h, h1, x, ls.bound);
    OnwardFitsAt(h, h1, {}, x, ls.bound);
    OnwardMode(h, h1, {}, x);
  }

  /** What `x` refers to is marked, as far as its mode makes it a strong reference and one visit can tell. */
  ghost predicate Shaded(h: Heap, x: Ref) {
    && x in h && IsMarked(h, h[x].meta)
    && match ModeOf(h, x)
       case Strong => ArrayMarked(h, h[x]) && KeysMarked(h, h[x]) && ValsMarked(h, h[x])
       case WeakValues => KeysMarked(h, h[x])
       case Ephemeral => ArrayMarked(h, h[x])
       case AllWeak => true
  }

  /** Progress of the mark phase: the first gray object has been visited, and there is less to do. */
  ghost predicate Progress(h: Heap, gray: seq<Ref>, h': Heap, gray': seq<Ref>) {
    gray != [] && Shaded(h', gray[0]) && |Whites(h')| <= |Whites(h)| && |Whites(h')| + |gray'| < |Whites(h)| + |gray|
  }

  /** `traverseLclosure`, `traverseCclosure`. */
  method PropagateClosure(g: GlobalState, ghost todo: seq<Ref>)
    requires Invariant(g, todo) && g.gray != [] && g.gray[0] in g.objs && g.objs[g.gray[0]].kind.Closure?
    modifies g`objs, g`gray
    ensures Invariant(g, todo) && Onward(old(g.objs), g.objs, {}) && Progress(old(g.objs), old(g.gray), g.objs, g.gray)
    ensures WeakPushed(g.objs, old(ListsOf(g, todo)), ListsOf(g, todo)) && Heeds(old(g.objs), old(g.gray[0]), g.objs)
  {
    hide TriColor, WellFormed, Grows, Onward, Whites, Fits, ArrayWithin, Bounded, Heeds;
    ghost var h, ls := g.objs, ListsOf(g, todo);
    var x := TakeHead(g, todo);
    ghost var h1, g1 := g.objs, g.gray;
    ArrayFits(h1, h1[x], Strong, g.bound);
    MarkSlots(g, x);
    GrowsAny(h1, g1, g.objs, g.gray, x);
    Finished(h, ls, x, h1, g.objs, g.gray, ListsOf(g, todo));
    WeakPushedSame(g.objs, ls, ListsOf(g, todo));
  }

  /** `traverseproto`: a cached closure that is not marked yet is forgotten. */
  method PropagateProto(g: GlobalState, ghost todo: seq<Ref>)
    requires Invariant(g, todo) && g.gray != [] && g.gray[0] in g.objs && g.objs[g.gray[0]].kind.Proto?
    modifies g`objs, g`gray
    ensures Invariant(g, todo) && Onward(old(g.objs), g.objs, {}) && Progress(old(g.objs), old(g.gray), g.objs, g.gray)
    ensures WeakPushed(g.objs, old(ListsOf(g, todo)), ListsOf(g, todo)) && Heeds(old(g.objs), old(g.gray[0]), g.objs)
  {
    hide TriColor, WellFormed, Grows, Onward, Whites, Fits, ArrayWithin, Bounded, Heeds;
    ghost var h, ls := g.objs, ListsOf(g, todo);
    var x := TakeHead(g, todo);
    ghost var h1, g1 := g.objs, g.gray;
    WellFormedParts(h1, x);
    GrowsSame(h1, g1, x);
    if IsWhite(g.objs, g.objs[x].cache) {
      g.objs := g.objs[x := g.objs[x].(cache := Empty)];
      CacheForgotten(h1, g1, g.objs, x);
      TrimBounded(h1, g1, g.objs, x, g.bound);
    }
    GrowsFits(h1, g1, g.objs, g.gray, x, x, Strong, g.bound);
    ArrayFits(g.objs, g.objs[x], Strong, g.bound);
    ghost var h2, g2 := g.objs, g.gray;
    MarkSlots(g, x);
    ProtoDone(h1, g1, h2, g2, g.objs, g.gray, x);
    Finished(h, ls, x, h1, g.objs, g.gray, ListsOf(g, todo));
    WeakPushedSame(g.objs, ls, ListsOf(g, todo));
  }

  lemma CacheForgotten(h1: Heap, g1: seq<Ref>, h2: Heap, x: Ref)
    requires WellFormed(h1) && x in h1 && !h1[x].color.White? && IsWhite(h1, h1[x].cache) && h2 == h1[x := h1[x].(cache := Empty)]
    ensures Grows(h1, g1, h2, g1, x) && WellFormed(h2)
  {
    assert MarksAt(h1, h2, x, x);
    assert g1[|g1| - |g1|..] == g1;
    WellFormedStays(h1, h2, x);
  }

  lemma ProtoDone(h1: Heap, g1: seq<Ref>, h2: Heap, g2: seq<Ref>, h3: Heap, g3: seq<Ref>, x: Ref)
    requires Grows(h1, g1, h2, g2, x) && Grows(h2, g2, h3, g3, -1) && x in h1 && x in h2 && x in h3 && !h1[x].color.White? && WellFormed(h2)
    requires h3[x] == h2[x] && ArrayMarked(h3, h3[x]) && h2[x].kind.Proto? && !IsWhite(h2, h2[x].cache)
    ensures Grows(h1, g1, h3, g3, x) && Complete(h3, h3[x])
  {
    assert WellFormedAt(h2, x) && MarksAt(h1, h2, x, x);
    MarkedStays(h2, h3, -1, h2[x].cache);
    GrowsAny(h2, g2, h3, g3, x);
    GrowsCompose(h1, g1, h2, g2, h3, g3, x, x);
  }

  /** A thread is traversed now and, since its stack has no barriers, again in the atomic phase. */
  method PropagateThread(g: GlobalState, ghost todo: seq<Ref>)
    requires Invariant(g, todo) && g.gray != [] && g.gray[0] in g.objs && g.objs[g.gray[0]].kind.Thread?
    modifies g`objs, g`gray, g`grayagain
    ensures Invariant(g, todo) && Onward(old(g.objs), g.objs, {}) && Progress(old(g.objs), old(g.gray), g.objs, g.gray)
    ensures WeakPushed(g.objs, old(ListsOf(g, todo)), ListsOf(g, todo)) && Heeds(old(g.objs), old(g.gray[0]), g.objs)
    ensures g.grayagain == old([g.gray[0]] + g.grayagain) && !ModeOf(g.objs, old(g.gray[0])).AllWeak?
  {
    hide TriColor, WellFormed, Grows, Onward, Whites, Fits, ArrayWithin, Bounded, Heeds;
    ghost var h, ls := g.objs, ListsOf(g, todo);
    var x := TakeHead(g, todo);
    ghost var h1, g1 := g.objs, g.gray;
    ArrayFits(h1, h1[x], Strong, g.bound);
    g.grayagain := [x] + g.grayagain;
    MarkSlots(g, x);
    GrowsAny(h1, g1, g.objs, g.gray, x);
    assert ListsOf(g, todo).todo == if g.gcstate == GCSinsideatomic then ls.todo else [x] + ls.todo;
    Finished(h, ls, x, h1, g.objs, g.gray, ListsOf(g, todo));
    WeakPushedSame(g.objs, ls, ListsOf(g, todo));
  }

  // ---------- tables ----------

  /** In the middle of `traversetable`: the metatable is marked, and the contents come next. */
  ghost predicate Midway(h: Heap, ls: Lists, x: Ref, k1: Heap, h2: Heap, g2: seq<Ref>)
    requires |ls.gray| > 0
  {
    && TriColor(h, ls) && x == ls.gray[0]
    && Recolored(h, k1, x) && Shaped(k1[x]) && Grows(k1, ls.gray[1..], h2, g2, x)
    && x in h2 && IsMarked(h2, h2[x].meta) && WellFormed(h2) && h2[x].kind.Table? && h2[x].color == k1[x].color && ModeOf(h2, x) == ModeOf(h, x)
    && Bounded(h2, ls.bound) && Fits(h2, h2[x], ModeOf(h, x), ls.bound)
  }

  lemma MetaMarked(h: Heap, ls: Lists, x: Ref, h1: Heap, h2: Heap, g2: seq<Ref>)
    requires |ls.gray| > 0 && TriColor(h, ls) && x == ls.gray[0] && Recolored(h, h1, x) && Shaped(h1[x]) && h1[x].kind.Table? && h1[x].color.Black?
    requires Grows(h1, ls.gray[1..], h2, g2, -1) && x in h1 && IsMarked(h2, h1[x].meta) && WellFormed(h2) && Bounded(h2, ls.bound)
    requires ModeOf(h1, x) == ModeOf(h, x) && Fits(h1, h1[x], ModeOf(h, x), ls.bound)
    ensures x in h2 && h2[x] == h1[x] && Midway(h, ls, x, h1, h2, g2)
    ensures var k1, k2 := h1[x := h1[x].(color := Gray)], h2[x := h2[x].(color := Gray)]; Midway(h, ls, x, k1, k2, g2) && ModeOf(k2, x) == ModeOf(h2, x)
  {
    hide Fits, Bounded, TriColor, WellFormed;
    assert MarksAt(h1, h2, -1, x);
    GrowsFits(h1, ls.gray[1..], h2, g2, -1, x, ModeOf(h, x), ls.bound);
    MarksMode(h1, h2, -1, x);
    GrowsAny(h1, ls.gray[1..], h2, g2, x);
    RecolorCommutes(h1, ls.gray[1..], h2, g2, x, Gray);
    var k2 := h2[x := h2[x].(color := Gray)];
    RecoloredSlot(h2, k2, x, h1[x].meta);
    RecoloredWellFormed(h2, k2, x);
    MidBounded(h2, k2, x, ModeOf(h, x), ls.bound);
  }

  lemma MidBounded(h: Heap, k: Heap, x: Ref, mode: Mode, m: iset<Ref>)
    requires Recolored(h, k, x) && Bounded(h, m) && Fits(h, h[x], mode, m)
    ensures Bounded(k, m) && Fits(k, k[x], mode, m) && ModeOf(k, x) == ModeOf(h, x)
  {
    RecoloredOnward(h, k, x);
    RecolorBounded(h, k, x, m);
    OnwardFits(h, k, {}, x, mode, m);
    OnwardMode(h, k, {}, x);
  }

  /** The contents have been traversed, and the metatable is still marked. */
  lemma MidwayOn(h: Heap, ls: Lists, x: Ref, k1: Heap, h2: Heap, g2: seq<Ref>, h3: Heap, g3: seq<Ref>)
    requires |ls.gray| > 0 && Midway(h, ls, x, k1, h2, g2) && Grows(h2, g2, h3, g3, x) && WellFormed(h3) && Bounded(h3, ls.bound)
    ensures Midway(h, ls, x, k1, h3, g3) && (h3[x].color.Black? || h3[x].color.Gray?) && h3[x].cache.Empty? && ModeOf(h3, x) == ModeOf(h2, x)
  {
    hide Fits, Bounded, TriColor;
    GrowsFits(h2, g2, h3, g3, x, x, ModeOf(h, x), ls.bound);
    MarksMode(h2, h3, x, x);
    assert MarksAt(h2, h3, x, x) && MarksAt(k1, h2, x, x) && WellFormedAt(h3, x);
    GrowsCompose(k1, ls.gray[1..], h2, g2, h3, g3, x, x);
    MarkedStays(h2, h3, x, h2[x].meta);
  }

  lemma AtMostOnePushed(h: Heap, ls: Lists, ls': Lists, x: Ref)
    requires x in h
    requires ls'.weak == ls.weak || (ls'.weak == [x] + ls.weak && ModeOf(h, x).WeakValues?)
    requires ls'.ephemeron == ls.ephemeron || (ls'.ephemeron == [x] + ls.ephemeron && ModeOf(h, x).Ephemeral?)
    requires ls'.allweak == ls.allweak || (ls'.allweak == [x] + ls.allweak && Waits(h, x))
    ensures WeakPushed(h, ls, ls')
  {
    PushedOne(h, {WeakValues}, ls.weak, ls'.weak, x);
    PushedOne(h, {Ephemeral}, ls.ephemeron, ls'.ephemeron, x);
    WaitsPushedOne(h, ls.allweak, ls'.allweak, x);
  }

  method FinishStrong(g: GlobalState, x: Ref, ghost todo: seq<Ref>, ghost h: Heap, ghost ls: Lists, ghost k1: Heap)
    requires |ls.gray| > 0 && Midway(h, ls, x, k1, g.objs, g.gray) && g.objs[x].color.Black? && ListsOf(g, todo) == ls.(gray := g.gray)
    requires ModeOf(g.objs, x).Strong?
    modifies g`objs, g`gray
    ensures Invariant(g, todo) && Onward(h, g.objs, {}) && Progress(h, ls.gray, g.objs, g.gray) && WeakPushed(g.objs, ls, ListsOf(g, todo)) && Heeds(h, x, g.objs)
  {
    hide TriColor, WellFormed, Grows, Onward, Whites, KeysMarked, ValsMarked, ArrayMarked, Recolored, Fits, Bounded, Heeds;
    ghost var h2, g2 := g.objs, g.gray;
    TraverseStrongTable(g, x);
    MidwayOn(h, ls, x, k1, h2, g2, g.objs, g.gray);
    Finished(h, ls, x, k1, g.objs, g.gray, ListsOf(g, todo));
    AtMostOnePushed(g.objs, ls, ListsOf(g, todo), x);
  }

  method FinishWeakValue(g: GlobalState, x: Ref, ghost todo: seq<Ref>, ghost h: Heap, ghost ls: Lists, ghost k1: Heap)
    requires |ls.gray| > 0 && Midway(h, ls, x, k1, g.objs, g.gray) && g.objs[x].color.Gray? && ListsOf(g, todo) == ls.(gray := g.gray)
    requires ModeOf(g.objs, x).WeakValues?
    modifies g`objs, g`gray, g`grayagain, g`weak
    ensures Invariant(g, todo) && Onward(h, g.objs, {}) && Progress(h, ls.gray, g.objs, g.gray) && WeakPushed(g.objs, ls, ListsOf(g, todo)) && Heeds(h, x, g.objs)
    ensures g.gcstate == GCSpropagate ==> g.weak == old(g.weak)
    ensures g.grayagain == old(g.grayagain) || (g.grayagain == [x] + old(g.grayagain) && !ModeOf(g.objs, x).AllWeak?)
  {
    hide TriColor, WellFormed, Grows, Onward, Whites, KeysMarked, ValsMarked, Recolored, Fits, Bounded, Heeds;
    ghost var h2, g2 := g.objs, g.gray;
    TraverseWeakValue(g, x);
    MidwayOn(h, ls, x, k1, h2, g2, g.objs, g.gray);
    WeakValueLinked(g.objs, ls.(gray := g.gray), ListsOf(g, todo), x, g.gcstate, old(g.grayagain), g.grayagain);
    Finished(h, ls, x, k1, g.objs, g.gray, ListsOf(g, todo));
    AtMostOnePushed(g.objs, ls, ListsOf(g, todo), x);
  }

  lemma WeakValueLinked(h: Heap, ls: Lists, ls2: Lists, x: Ref, st: GcState, again: seq<Ref>, again': seq<Ref>)
    requires x in h && IsMarked(h, h[x].meta) && h[x].kind.Table? && KeysMarked(h, h[x]) && ls.atomic == (st != GCSpropagate)
    requires ls2 == ls.(todo := ls2.todo, weak := ls2.weak) && (st == GCSinsideatomic ==> ls2.todo == ls.todo)
    requires st != GCSinsideatomic ==> ls.todo == again && ls2.todo == again'
    requires if st == GCSpropagate then again' == [x] + again && ls2.weak == ls.weak
             else again' == again && (ls2.weak == [x] + ls.weak || (ls2.weak == ls.weak && h[x].slots == [] && ValsMarked(h, h[x])))
    ensures Links(ls, ls2, x) && (x in ls2.todo || Settled(h, ls2, x))
  {
    if st == GCSpropagate {
      assert ls2.todo[0] == x;
    } else if ls2.weak != ls.weak {
      assert ls2.weak[0] == x;
    }
  }

  method FinishEphemeron(g: GlobalState, x: Ref, ghost todo: seq<Ref>, ghost h: Heap, ghost ls: Lists, ghost k1: Heap)
    requires |ls.gray| > 0 && Midway(h, ls, x, k1, g.objs, g.gray) && g.objs[x].color.Gray? && ListsOf(g, todo) == ls.(gray := g.gray)
    requires ModeOf(g.objs, x).Ephemeral?
    modifies g`objs, g`gray, g`grayagain, g`allweak, g`ephemeron
    ensures Invariant(g, todo) && Onward(h, g.objs, {}) && Progress(h, ls.gray, g.objs, g.gray) && WeakPushed(g.objs, ls, ListsOf(g, todo)) && Heeds(h, x, g.objs)
    ensures g.gcstate == GCSpropagate ==> g.ephemeron == old(g.ephemeron) && g.allweak == old(g.allweak)
    ensures g.grayagain == old(g.grayagain) || (g.grayagain == [x] + old(g.grayagain) && !ModeOf(g.objs, x).AllWeak?)
  {
    hide TriColor, WellFormed, Grows, Onward, Whites, KeysMarked, ValsMarked, ArrayMarked, Tidy, EntriesSettled, OnlyStrings, Recolored, Fits, Bounded, Heeds;
    ghost var h2, g2 := g.objs, g.gray;
    var _ := TraverseEphemeron(g, x);
    MidwayOn(h, ls, x, k1, h2, g2, g.objs, g.gray);
    EphemeronLinked(g.objs, ls.(gray := g.gray), ListsOf(g, todo), x, g.gcstate, old(g.grayagain), g.grayagain);
    Finished(h, ls, x, k1, g.objs, g.gray, ListsOf(g, todo));
    AtMostOnePushed(g.objs, ls, ListsOf(g, todo), x);
  }

  lemma EphemeronLinked(h: Heap, ls: Lists, ls2: Lists, x: Ref, st: GcState, again: seq<Ref>, again': seq<Ref>)
    requires x in h && IsMarked(h, h[x].meta) && h[x].kind.Table? && ModeOf(h, x).Ephemeral? && ArrayMarked(h, h[x]) && Tidy(h, h[x]) && ls.atomic == (st != GCSpropagate)
    requires ls2 == ls.(todo := ls2.todo, ephemeron := ls2.ephemeron, allweak := ls2.allweak) && (st == GCSinsideatomic ==> ls2.todo == ls.todo)
    requires st != GCSinsideatomic ==> ls.todo == again && ls2.todo == again'
    requires if st == GCSpropagate then again' == [x] + again && ls2.ephemeron == ls.ephemeron && ls2.allweak == ls.allweak
             else again' == again && LinkedEphemeron(h, x, ls.ephemeron, ls2.ephemeron, ls.allweak, ls2.allweak)
    ensures Links(ls, ls2, x) && (x in ls2.todo || Settled(h, ls2, x)) && (ls2.allweak == ls.allweak || Waits(h, x))
  {
    if st == GCSpropagate {
      assert ls2.todo[0] == x;
    } else if ls2.ephemeron != ls.ephemeron {
      assert ls2.ephemeron[0] == x;
    } else if ls2.allweak != ls.allweak {
      assert ls2.allweak[0] == x;
    }
  }

  method FinishAllWeak(g: GlobalState, x: Ref, ghost todo: seq<Ref>, ghost h: Heap, ghost ls: Lists, ghost k1: Heap)
    requires |ls.gray| > 0 && Midway(h, ls, x, k1, g.objs, g.gray) && g.objs[x].color.Gray? && ListsOf(g, todo) == ls.(gray := g.gray)
    requires ModeOf(g.objs, x).AllWeak?
    modifies g`allweak
    ensures Invariant(g, todo) && Onward(h, g.objs, {}) && Progress(h, ls.gray, g.objs, g.gray) && WeakPushed(g.objs, ls, ListsOf(g, todo)) && Heeds(h, x, g.objs)
    ensures Pushed(g.objs, {AllWeak}, old(g.allweak), g.allweak)
  {
    hide TriColor, WellFormed, Grows, Onward, Whites, Recolored, Fits, Bounded, Heeds;
    g.allweak := [x] + g.allweak;
    assert g.allweak[0] == x;
    PushedOne(g.objs, {AllWeak}, old(g.allweak), g.allweak, x);
    Finished(h, ls, x, k1, g.objs, g.gray, ListsOf(g, todo));
    AtMostOnePushed(g.objs, ls, ListsOf(g, todo), x);
  }

  lemma MetaFits(h: Heap, o: Object, mode: Mode, m: iset<Ref>)
    requires Fits(h, o, mode, m)
    ensures InSet(m, o.meta)
  {
  }

  /** No all-weak table is put into `grayagain` by a traversal. */
  ghost predicate AgainHeeds(h: Heap, x: Ref, again: seq<Ref>, again': seq<Ref>) {
    again' == again || (again' == [x] + again && !ModeOf(h, x).AllWeak?)
  }

  /** The weak cases of `traversetable`. */
  method FinishWeak(g: GlobalState, x: Ref, ghost todo: seq<Ref>, ghost h: Heap, ghost ls: Lists, ghost k1: Heap)
    requires |ls.gray| > 0 && Midway(h, ls, x, k1, g.objs, g.gray) && g.objs[x].color.Gray? && ListsOf(g, todo) == ls.(gray := g.gray)
    requires !ModeOf(g.objs, x).Strong?
    modifies g`objs, g`gray, g`grayagain, g`weak, g`allweak, g`ephemeron
    ensures Invariant(g, todo) && Onward(h, g.objs, {}) && Progress(h, ls.gray, g.objs, g.gray) && WeakPushed(g.objs, ls, ListsOf(g, todo)) && Heeds(h, x, g.objs)
    ensures g.gcstate == GCSpropagate ==> g.weak == old(g.weak) && g.ephemeron == old(g.ephemeron) && Pushed(g.objs, {AllWeak}, old(g.allweak), g.allweak)
    ensures AgainHeeds(g.objs, x, old(g.grayagain), g.grayagain)
  {
    hide TriColor, Onward, Progress, Midway, Heeds, ModeOf, WeakPushed;
    if ModeOf(g.objs, x).WeakValues? {
      FinishWeakValue(g, x, todo, h, ls, k1);
    } else if ModeOf(g.objs, x).Ephemeral? {
      FinishEphemeron(g, x, todo, h, ls, k1);
    } else {
      FinishAllWeak(g, x, todo, h, ls, k1);
    }
    if g.allweak == old(g.allweak) {
      PushedOne(g.objs, {AllWeak}, old(g.allweak), g.allweak, x);
    }
  }

  /** `traversetable`. */
  method PropagateTable(g: GlobalState, ghost todo: seq<Ref>)
    requires Invariant(g, todo) && g.gray != [] && g.gray[0] in g.objs && g.objs[g.gray[0]].kind.Table?
    modifies g`objs, g`gray, g`grayagain, g`weak, g`allweak, g`ephemeron
    ensures Invariant(g, todo) && Onward(old(g.objs), g.objs, {}) && Progress(old(g.objs), old(g.gray), g.objs, g.gray)
    ensures WeakPushed(g.objs, old(ListsOf(g, todo)), ListsOf(g, todo))
    ensures g.gcstate == GCSpropagate ==> g.weak == old(g.weak) && g.ephemeron == old(g.ephemeron) && Pushed(g.objs, {AllWeak}, old(g.allweak), g.allweak)
    ensures Heeds(old(g.objs), old(g.gray[0]), g.objs) && AgainHeeds(g.objs, old(g.gray[0]), old(g.grayagain), g.grayagain)
  {
    hide TriColor, WellFormed, Grows, Onward, Whites, Recolored, Midway, Fits, Bounded, InSet, Heeds, ModeOf, Progress, WeakPushed, Pushed;
    ghost var h, ls := g.objs, ListsOf(g, todo);
    var x := TakeHead(g, todo);
    ghost var h1, g1 := g.objs, g.gray;
    WellFormedParts(h1, x);
    MetaFits(h1, h1[x], ModeOf(h, x), g.bound);
    MarkSlot(g, g.objs[x].meta);
    MetaMarked(h, ls, x, h1, g.objs, g.gray);
    if ModeOf(g.objs, x).Strong? {
      FinishStrong(g, x, todo, h, ls, h1);
      PushedOne(g.objs, {AllWeak}, old(g.allweak), g.allweak, x);
    } else {
      g.objs := g.objs[x := g.objs[x].(color := Gray)];
      FinishWeak(g, x, todo, h, ls, h1[x := h1[x].(color := Gray)]);
    }
  }

  /** `propagatemark`: traverses the first gray object. */
  method PropagateMark(g: GlobalState, ghost todo: seq<Ref>)
    requires Invariant(g, todo) && g.gray != []
    modifies g`objs, g`gray, g`grayagain, g`weak, g`allweak, g`ephemeron
    ensures Invariant(g, todo) && Onward(old(g.objs), g.objs, {}) && Progress(old(g.objs), old(g.gray), g.objs, g.gray)
    ensures WeakPushed(g.objs, old(ListsOf(g, todo)), ListsOf(g, todo))
    ensures g.gcstate == GCSpropagate ==> g.weak == old(g.weak) && g.ephemeron == old(g.ephemeron) && Pushed(g.objs, {AllWeak}, old(g.allweak), g.allweak)
    ensures Heeds(old(g.objs), old(g.gray[0]), g.objs) && AgainHeeds(g.objs, old(g.gray[0]), old(g.grayagain), g.grayagain)
  {
    hide Bounded, FitsAt, TriColor, Onward, WeakPushed, Heeds;
    HeadQueued(g.objs, ListsOf(g, todo));
    var o := g.objs[g.gray[0]];
    ghost var all := g.allweak;
    if o.kind.Table? {
      PropagateTable(g, todo);
    } else if o.kind.Closure? {
      PropagateClosure(g, todo);
    } else if o.kind.Thread? {
      PropagateThread(g, todo);
    } else {
      PropagateProto(g, todo);
    }
    if g.allweak == all {
      PushedOne(g.objs, {AllWeak}, all, g.allweak, 0);
    }
  }

  /** `propagateall`. */
  method PropagateAll(g: GlobalState, ghost todo: seq<Ref>)
    requires Invariant(g, todo)
    modifies g`objs, g`gray, g`grayagain, g`weak, g`allweak, g`ephemeron
    ensures Invariant(g, todo) && Onward(old(g.objs), g.objs, {}) && g.gray == []
    ensures |Whites(g.objs)| <= |Whites(old(g.objs))| && WeakPushed(g.objs, old(ListsOf(g, todo)), ListsOf(g, todo))
  {
    hide TriColor, Onward, Whites, WeakPushed, Heeds;
    ghost var ls := ListsOf(g, todo);
    OnwardSame(g.objs, {});
    WeakPushedSame(g.objs, ls, ls);
    while g.gray != []
      invariant Invariant(g, todo) && Onward(old(g.objs), g.objs, {}) && |Whites(g.objs)| <= |Whites(old(g.objs))|
      invariant WeakPushed(g.objs, ls, ListsOf(g, todo))
      decreases |Whites(g.objs)| + |g.gray|
    {
      ghost var h, ls1 := g.objs, ListsOf(g, todo);
      PropagateMark(g, todo);
      OnwardOn(old(g.objs), h, g.objs, {}, {});
      WeakPushedOn(h, g.objs, {}, ls, ls1, ListsOf(g, todo));
    }
  }
}
