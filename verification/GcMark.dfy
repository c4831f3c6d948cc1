/**
  The mark phase of `lgc.c`: marking objects and traversing them.
 */
module GcMark {
  import opened GcHeap
  import opened GcBound

  datatype GcState = GCSpropagate | GCSatomic | GCSinsideatomic | GCSswpallgc | GCSswpfinobj | GCSswptobefnz | GCSswpend | GCScallfin | GCSpause

  datatype ListId = AllGc | FinObj | ToBeFnz

  /** `sweepgc`: nil, or the `i`-th link of a list, the header being link 0. */
  datatype Sweep = Off | At(list: ListId, i: nat)

  class GlobalState {
    var objs: Heap
    var gray: seq<Ref>
    var grayagain: seq<Ref>
    var weak: seq<Ref>
    var allweak: seq<Ref>
    var ephemeron: seq<Ref>
    var allgc: seq<Ref>
    var finobj: seq<Ref>
    var tobefnz: seq<Ref>
    var sweepgc: Sweep
    var gcstate: GcState
    var white: bool
    /** The registry and the metatables of basic types. */
    var roots: seq<Slot>
    var running: Ref
    const mainthread: Ref
    /** What the collector may reach, for the proof that it marks nothing else. */
    ghost var bound: iset<Ref>

    constructor (main: Ref)
      ensures objs == map[main := Object(Thread, Strong, White(false), false, Empty, [], [], Empty)]
      ensures gray == grayagain == weak == allweak == ephemeron == allgc == finobj == tobefnz == [] && roots == seq(10, i => Empty)
      ensures sweepgc == Off && gcstate == GCSpause && !white && running == mainthread == main
    {
      objs := map[main := Object(Thread, Strong, White(false), false, Empty, [], [], Empty)];
      gray, grayagain, weak, allweak, ephemeron := [], [], [], [], [];
      allgc, finobj, tobefnz, roots := [], [], [], seq(10, i => Empty);
      sweepgc, gcstate, white, running := Off, GCSpause, false, main;
      mainthread := main;
      bound := Everything();
    }
  }

  // ---------- marking an object ----------

  lemma WellFormedParts(h: Heap, r: Ref)
    requires WellFormed(h) && r in h
    ensures Shaped(h[r]) && SlotsInHeap(h, h[r])
  {
    assert WellFormedAt(h, r);
  }

  lemma GrowsKeys(h: Heap, gray: seq<Ref>, h': Heap, gray': seq<Ref>, x: int)
    requires Grows(h, gray, h', gray', x)
    ensures h'.Keys == h.Keys && forall r :: r in h ==> r in h'
  {
  }

  /** `reallymarkobject`. */
  method ReallyMark(g: GlobalState, r: Ref)
    requires WellFormed(g.objs) && r in g.objs && g.objs[r].color.White? && Bounded(g.objs, g.bound) && r in g.bound
    modifies g`objs, g`gray
    ensures Grows(old(g.objs), old(g.gray), g.objs, g.gray, -1) && WellFormed(g.objs) && Bounded(g.objs, g.bound)
    ensures r in g.objs && !g.objs[r].color.White?
    ensures old(g.objs)[r].kind.Str? ==> g.objs == old(g.objs)[r := g.objs[r]]
    ensures |Whites(g.objs)| < |Whites(old(g.objs))|
    decreases |Whites(g.objs)|, 1
  {
    hide WellFormed, Marks, Queues, Grows, Whites, Bounded;
    var o := g.objs[r];
    if o.kind.Udata? {
      MarkUdata(g, r);
    } else {
      g.objs := g.objs[r := o.(color := Marking1(o.kind))];
      if !o.kind.Str? {
        g.gray := [r] + g.gray;
      }
      OneMarked(old(g.objs), old(g.gray), g.objs, g.gray, r);
      RecolorBounded(old(g.objs), g.objs, r, g.bound);
    }
    WhitesFall(old(g.objs), old(g.gray), g.objs, g.gray, r);
  }

  /** An object that is not a userdata is only recoloured, and queued unless it is a string. */
  lemma OneMarked(h: Heap, gr: seq<Ref>, h': Heap, gr': seq<Ref>, r: Ref)
    requires WellFormed(h) && r in h && h[r].color.White? && !h[r].kind.Udata? && h' == h[r := h[r].(color := Marking1(h[r].kind))]
    requires gr' == if h[r].kind.Str? then gr else [r] + gr
    ensures Grows(h, gr, h', gr', -1)
  {
    assert WellFormedAt(h, r);
    if !h[r].kind.Str? {
      assert gr'[1..] == gr && gr'[..1] == [r];
    } else {
      assert gr'[|gr'| - |gr|..] == gr;
    }
    assert MarksAt(h, h', -1, r);
  }

  lemma WhitesFall(h: Heap, gr: seq<Ref>, h': Heap, gr': seq<Ref>, r: Ref)
    requires Grows(h, gr, h', gr', -1) && WellFormed(h) && r in h && h[r].color.White? && r in h' && !h'[r].color.White?
    ensures WellFormed(h') && |Whites(h')| < |Whites(h)|
  {
    FewerWhites(h, h', -1);
    WellFormedStays(h, h', -1);
  }

  /** The case of a userdata: its metatable and user value are marked at once. */
  method MarkUdata(g: GlobalState, r: Ref)
    requires WellFormed(g.objs) && r in g.objs && g.objs[r].color.White? && g.objs[r].kind.Udata? && Bounded(g.objs, g.bound) && r in g.bound
    modifies g`objs, g`gray
    ensures Grows(old(g.objs), old(g.gray), g.objs, g.gray, -1) && Bounded(g.objs, g.bound)
    ensures r in g.objs && !g.objs[r].color.White?
    decreases |Whites(g.objs)|, 0
  {
    hide WellFormed, Marks, Queues, Grows, Whites, Bounded;
    ghost var h0, g0 := g.objs, g.gray;
    var o := g.objs[r];
    WellFormedParts(h0, r);
    UdataFits(h0, r, g.bound);
    g.objs := g.objs[r := o.(color := Black)];
    ghost var h1 := g.objs;
    Blackened(h0, h1, r);
    RecolorBounded(h0, h1, r, g.bound);
    MarkSlot(g, o.meta);
    ghost var h2, g2 := g.objs, g.gray;
    GrowsKeys(h1, g0, h2, g2, -1);
    MarkSlot(g, o.slots[0]);
    UdataMarked(h0, h1, g0, h2, g2, g.objs, g.gray, r);
  }

  lemma UdataFits(h: Heap, r: Ref, m: iset<Ref>)
    requires r in h && h[r].kind.Udata? && |h[r].slots| == 1 && h[r].color.White? && r in m && Bounded(h, m)
    ensures InSet(m, h[r].meta) && InSet(m, h[r].slots[0])
  {
    assert FitsAt(h, m, r);
  }

  lemma Blackened(h0: Heap, h1: Heap, r: Ref)
    requires WellFormed(h0) && r in h0 && h0[r].color.White? && h0[r].kind.Udata? && h1 == h0[r := h0[r].(color := Black)]
    ensures WellFormed(h1) && |Whites(h1)| < |Whites(h0)|
  {
    forall q | q in h1 ensures WellFormedAt(h1, q) {
      assert WellFormedAt(h0, q);
    }
    assert Whites(h1) <= Whites(h0) - {r};
    SubsetSize(Whites(h1), Whites(h0) - {r});
  }

  lemma UdataMarks(h0: Heap, h1: Heap, h3: Heap, r: Ref)
    requires r in h0 && r in h1 && r in h3 && WellFormedAt(h0, r) && h0[r].color.White? && h0[r].kind.Udata? && h1[r] == h0[r].(color := Black)
    requires MarksAt(h1, h3, -1, r) && IsMarked(h3, h0[r].meta) && |h0[r].slots| == 1 && IsMarked(h3, h0[r].slots[0])
    ensures MarksAt(h0, h3, -1, r) && h3[r].color.Black?
  {
  }

  lemma OtherMarks(h0: Heap, h1: Heap, h3: Heap, q: Ref)
    requires q in h0 && q in h1 && q in h3 && h1[q] == h0[q] && MarksAt(h1, h3, -1, q)
    ensures MarksAt(h0, h3, -1, q)
  {
  }

  lemma UdataMarked(h0: Heap, h1: Heap, g0: seq<Ref>, h2: Heap, g2: seq<Ref>, h3: Heap, g3: seq<Ref>, r: Ref)
    requires WellFormed(h0) && r in h0 && h0[r].color.White? && h0[r].kind.Udata? && h1 == h0[r := h0[r].(color := Black)]
    requires Grows(h1, g0, h2, g2, -1) && Grows(h2, g2, h3, g3, -1)
    requires IsMarked(h2, h0[r].meta) && |h0[r].slots| == 1 && IsMarked(h3, h0[r].slots[0])
    ensures Grows(h0, g0, h3, g3, -1) && r in h3 && !h3[r].color.White?
  {
    hide Queues, MarksAt, WellFormedAt;
    GrowsCompose(h1, g0, h2, g2, h3, g3, -1, -1);
    MarkedStays(h2, h3, -1, h0[r].meta);
    assert WellFormedAt(h0, r) && MarksAt(h1, h3, -1, r);
    UdataMarks(h0, h1, h3, r);
    forall q | q in h0 && q in h3 && q != r ensures MarksAt(h0, h3, -1, q) {
      assert MarksAt(h1, h3, -1, q);
      OtherMarks(h0, h1, h3, q);
    }
    QueuesRecolored(h0, h1, g0, h3, g3, r);
  }

  lemma QueuesRecolored(h0: Heap, h1: Heap, g0: seq<Ref>, h3: Heap, g3: seq<Ref>, r: Ref)
    requires r in h0 && r in h1 && h1 == h0[r := h1[r]] && Marks(h1, h3, -1) && Queues(h1, g0, h3, g3) && r in h3 && !h3[r].color.Gray?
    ensures Queues(h0, g0, h3, g3)
  {
    forall q | q in g3[..|g3| - |g0|] ensures q in h0 {
      assert q in h1;
    }
  }

  /** `markvalue` and `markobjectN`. */
  method MarkSlot(g: GlobalState, s: Slot)
    requires WellFormed(g.objs) && InHeap(g.objs, s) && Bounded(g.objs, g.bound) && InSet(g.bound, s)
    modifies g`objs, g`gray
    ensures Grows(old(g.objs), old(g.gray), g.objs, g.gray, -1) && WellFormed(g.objs) && Bounded(g.objs, g.bound)
    ensures IsMarked(g.objs, s)
    ensures |Whites(g.objs)| <= |Whites(old(g.objs))|
    ensures !IsWhite(old(g.objs), s) ==> g.objs == old(g.objs) && g.gray == old(g.gray)
    ensures IsString(old(g.objs), s) ==> g.objs == old(g.objs) || g.objs == old(g.objs)[s.r := g.objs[s.r]]
    ensures IsWhite(old(g.objs), s) ==> |Whites(g.objs)| < |Whites(old(g.objs))|
    decreases |Whites(g.objs)|, 2
  {
    GrowsSame(g.objs, g.gray, -1);
    if IsWhite(g.objs, s) {
      ReallyMark(g, s.r);
    }
  }

  // ---------- traversing an object ----------

  /** `removeentry`: the unmarked key of an empty entry is declared dead. */
  method RemoveEntry(g: GlobalState, x: Ref, i: nat)
    requires WellFormed(g.objs) && x in g.objs && !g.objs[x].color.White? && i < |g.objs[x].nodes| && g.objs[x].nodes[i].val.Empty?
    requires Bounded(g.objs, g.bound)
    modifies g`objs
    ensures Grows(old(g.objs), g.gray, g.objs, g.gray, x) && WellFormed(g.objs) && Bounded(g.objs, g.bound)
    ensures x in g.objs && i < |g.objs[x].nodes| && IsMarked(g.objs, g.objs[x].nodes[i].key) && g.objs[x].nodes[i].val.Empty?
    ensures g.objs == old(g.objs)[x := g.objs[x]]
    ensures g.objs[x] == old(g.objs)[x].(nodes := old(g.objs[x].nodes)[i := g.objs[x].nodes[i]])
    ensures g.objs[x].nodes[i].key == if IsWhite(old(g.objs), old(g.objs)[x].nodes[i].key) then DeadKey else old(g.objs)[x].nodes[i].key
  {
    hide Bounded;
    GrowsSame(g.objs, g.gray, x);
    WellFormedParts(g.objs, x);
    var o := g.objs[x];
    if IsWhite(g.objs, o.nodes[i].key) {
      g.objs := g.objs[x := o.(nodes := o.nodes[i := o.nodes[i].(key := DeadKey)])];
      OneTrimmed(old(g.objs), g.gray, g.objs, x, i);
      TrimBounded(old(g.objs), g.gray, g.objs, x, g.bound);
    }
  }

  /** Trimming the object that is traversed marks nothing. */
  lemma TrimBounded(h: Heap, gr: seq<Ref>, h': Heap, x: Ref, m: iset<Ref>)
    requires Grows(h, gr, h', gr, x) && x in h && x in h' && !h[x].color.White? && h' == h[x := h'[x]] && Bounded(h, m)
    ensures Bounded(h', m)
  {
    MarksOnward(h, h', x);
    OnwardBounded(h, h', {}, m);
  }

  /** What a visit to an object leads to stays where it was. */
  lemma GrowsFits(h: Heap, gr: seq<Ref>, h': Heap, gr': seq<Ref>, x: int, r: Ref, mode: Mode, m: iset<Ref>)
    requires Grows(h, gr, h', gr', x) && r in h && Fits(h, h[r], mode, m)
    ensures r in h' && Fits(h', h'[r], mode, m)
  {
    MarksFits(h, h', x, r, mode, m);
  }

  ghost predicate ArrayWithin(o: Object, m: iset<Ref>) {
    forall i :: 0 <= i < |o.slots| ==> InSet(m, o.slots[i])
  }

  lemma ArrayFits(h: Heap, o: Object, mode: Mode, m: iset<Ref>)
    requires Fits(h, o, mode, m) && (mode.Strong? || mode.Ephemeral?)
    ensures ArrayWithin(o, m)
  {
  }

  lemma NodeFits(h: Heap, o: Object, mode: Mode, m: iset<Ref>, i: nat)
    requires Fits(h, o, mode, m) && i < |o.nodes| && !o.nodes[i].val.Empty?
    ensures mode.Strong? || mode.WeakValues? || IsString(h, o.nodes[i].key) ==> InSet(m, o.nodes[i].key)
    ensures mode.Strong? || IsString(h, o.nodes[i].val) ==> InSet(m, o.nodes[i].val)
    ensures mode.Ephemeral? && (InSet(m, o.nodes[i].key) || IsString(h, o.nodes[i].key)) ==> InSet(m, o.nodes[i].val)
  {
  }

  lemma OneTrimmed(h: Heap, gray: seq<Ref>, h': Heap, x: Ref, i: nat)
    requires WellFormed(h) && x in h && !h[x].color.White? && i < |h[x].nodes| && h[x].nodes[i].val.Empty? && IsWhite(h, h[x].nodes[i].key)
    requires h' == h[x := h[x].(nodes := h[x].nodes[i := h[x].nodes[i].(key := DeadKey)])]
    ensures Grows(h, gray, h', gray, x) && WellFormed(h')
  {
    forall k | 0 <= k < |h[x].nodes| ensures NodeKept(h, h[x].nodes[k], h'[x].nodes[k]) {
    }
    assert MarksAt(h, h', x, x);
    assert gray[|gray| - |gray|..] == gray;
    WellFormedStays(h, h', x);
  }

  /** Marks the first slots of `x`, then all. */
  method MarkSlots(g: GlobalState, x: Ref)
    requires WellFormed(g.objs) && x in g.objs && !g.objs[x].color.White? && Bounded(g.objs, g.bound) && ArrayWithin(g.objs[x], g.bound)
    modifies g`objs, g`gray
    ensures Grows(old(g.objs), old(g.gray), g.objs, g.gray, -1) && WellFormed(g.objs) && Bounded(g.objs, g.bound)
    ensures x in g.objs && g.objs[x] == old(g.objs[x]) && ArrayMarked(g.objs, g.objs[x])
    ensures |Whites(g.objs)| <= |Whites(old(g.objs))|
  {
    hide WellFormed, Marks, Queues, Grows, Whites, MarkedUpTo, Bounded, InSet;
    ghost var h0, g0 := g.objs, g.gray;
    var o := g.objs[x];
    GrowsSame(h0, g0, -1);
    NoneMarked(h0, o.slots);
    var i := 0;
    while i < |o.slots|
      invariant 0 <= i <= |o.slots| && WellFormed(g.objs) && |Whites(g.objs)| <= |Whites(h0)| && Bounded(g.objs, g.bound)
      invariant Grows(h0, g0, g.objs, g.gray, -1) && x in g.objs && g.objs[x] == o && MarkedUpTo(g.objs, o.slots, i)
    {
      ghost var h, gr := g.objs, g.gray;
      WellFormedParts(h, x);
      MarkSlot(g, o.slots[i]);
      AnotherMarked(h0, g0, h, gr, g.objs, g.gray, x, o.slots, i);
      i := i + 1;
    }
    AllSlotsMarked(g.objs, o);
  }

  lemma NoneMarked(h: Heap, s: seq<Slot>)
    ensures MarkedUpTo(h, s, 0)
  {
  }

  lemma AllSlotsMarked(h: Heap, o: Object)
    requires MarkedUpTo(h, o.slots, |o.slots|)
    ensures ArrayMarked(h, o)
  {
  }

  lemma AnotherMarked(h0: Heap, g0: seq<Ref>, h: Heap, gr: seq<Ref>, h': Heap, gr': seq<Ref>, x: Ref, s: seq<Slot>, i: nat)
    requires Grows(h0, g0, h, gr, -1) && Grows(h, gr, h', gr', -1) && x in h && !h[x].color.White?
    requires MarkedUpTo(h, s, i) && i < |s| && IsMarked(h', s[i])
    ensures Grows(h0, g0, h', gr', -1) && MarkedUpTo(h', s, i + 1) && x in h' && h'[x] == h[x]
  {
    GrowsCompose(h0, g0, h, gr, h', gr', -1, -1);
    MarkedUpToStays(h, h', -1, s, i);
    assert MarksAt(h, h', -1, x);
  }

  /** The first `n` nodes have marked keys and, if `vals`, marked values. */
  ghost predicate NodesMarkedUpTo(h: Heap, o: Object, n: nat, vals: bool) {
    forall i :: 0 <= i < n && i < |o.nodes| ==> IsMarked(h, o.nodes[i].key) && (vals ==> IsMarked(h, o.nodes[i].val))
  }

  lemma NodesMarkedStay(h: Heap, gr: seq<Ref>, h': Heap, gr': seq<Ref>, x: Ref, n: nat, vals: bool)
    requires Grows(h, gr, h', gr', x) && x in h && x in h' && !h[x].color.White? && NodesMarkedUpTo(h, h[x], n, vals)
    ensures NodesMarkedUpTo(h', h'[x], n, vals)
  {
    assert MarksAt(h, h', x, x);
    forall i | 0 <= i < n && i < |h'[x].nodes| ensures IsMarked(h', h'[x].nodes[i].key) && (vals ==> IsMarked(h', h'[x].nodes[i].val)) {
      assert h'[x] == h[x] || NodeKept(h, h[x].nodes[i], h'[x].nodes[i]);
      MarkedStays(h, h', x, h[x].nodes[i].key);
      if vals {
        MarkedStays(h, h', x, h[x].nodes[i].val);
      }
    }
  }

  /** One node of a strong table. */
  method TraverseStrongNode(g: GlobalState, x: Ref, i: nat)
    requires WellFormed(g.objs) && x in g.objs && !g.objs[x].color.White? && i < |g.objs[x].nodes|
    requires NodesMarkedUpTo(g.objs, g.objs[x], i, true) && Bounded(g.objs, g.bound) && Fits(g.objs, g.objs[x], Strong, g.bound)
    modifies g`objs, g`gray
    ensures Grows(old(g.objs), old(g.gray), g.objs, g.gray, x) && WellFormed(g.objs) && Bounded(g.objs, g.bound)
    ensures x in g.objs && NodesMarkedUpTo(g.objs, g.objs[x], i + 1, true)
    ensures |Whites(g.objs)| <= |Whites(old(g.objs))|
  {
    hide WellFormed, Marks, Queues, Grows, Whites, Bounded, Fits, InSet;
    ghost var h0, g0 := g.objs, g.gray;
    var n := g.objs[x].nodes[i];
    if n.val.Empty? {
      RemoveEntry(g, x, i);
    } else {
      WellFormedParts(h0, x);
      NodeFits(h0, g.objs[x], Strong, g.bound, i);
      MarkSlot(g, n.key);
      ghost var h1, g1 := g.objs, g.gray;
      GrowsKeys(h0, g0, h1, g1, -1);
      MarkSlot(g, n.val);
      NodeMarked(h0, g0, h1, g1, g.objs, g.gray, x, n);
    }
    WhitesDrop(h0, g0, g.objs, g.gray, x);
    NodesMarkedStay(h0, g0, g.objs, g.gray, x, i, true);
  }

  lemma WhitesDrop(h: Heap, gr: seq<Ref>, h': Heap, gr': seq<Ref>, x: int)
    requires Grows(h, gr, h', gr', x)
    ensures |Whites(h')| <= |Whites(h)|
    ensures h'.Keys == h.Keys
  {
    FewerWhites(h, h', x);
  }

  lemma NodeMarked(h0: Heap, g0: seq<Ref>, h1: Heap, g1: seq<Ref>, h2: Heap, g2: seq<Ref>, x: Ref, n: Node)
    requires Grows(h0, g0, h1, g1, -1) && Grows(h1, g1, h2, g2, -1) && x in h0 && !h0[x].color.White?
    requires IsMarked(h1, n.key) && IsMarked(h2, n.val)
    ensures Grows(h0, g0, h2, g2, x) && IsMarked(h2, n.key) && x in h2 && h2[x] == h0[x]
  {
    MarkedStays(h1, h2, -1, n.key);
    assert MarksAt(h0, h1, -1, x) && MarksAt(h1, h2, -1, x);
    GrowsAny(h0, g0, h1, g1, x);
    GrowsAny(h1, g1, h2, g2, x);
    GrowsCompose(h0, g0, h1, g1, h2, g2, x, x);
  }

  /** Plain marking is marking during a traversal of `x`. */
  lemma GrowsAny(h: Heap, gr: seq<Ref>, h': Heap, gr': seq<Ref>, x: Ref)
    requires Grows(h, gr, h', gr', -1) && x in h && !h[x].color.White?
    ensures Grows(h, gr, h', gr', x)
  {
    forall r | r in h && r in h' ensures MarksAt(h, h', x, r) {
      assert MarksAt(h, h', -1, r);
    }
  }

  /** `traversestrongtable`. */
  method TraverseStrongTable(g: GlobalState, x: Ref)
    requires WellFormed(g.objs) && x in g.objs && !g.objs[x].color.White? && Bounded(g.objs, g.bound) && Fits(g.objs, g.objs[x], Strong, g.bound)
    modifies g`objs, g`gray
    ensures Grows(old(g.objs), old(g.gray), g.objs, g.gray, x) && WellFormed(g.objs) && Bounded(g.objs, g.bound)
    ensures x in g.objs && ArrayMarked(g.objs, g.objs[x]) && KeysMarked(g.objs, g.objs[x]) && ValsMarked(g.objs, g.objs[x])
    ensures |Whites(g.objs)| <= |Whites(old(g.objs))|
  {
    hide WellFormed, Marks, Queues, Grows, Whites, NodesMarkedUpTo, ArrayMarked, Bounded, Fits, ArrayWithin;
    ghost var h0, g0 := g.objs, g.gray;
    ArrayFits(h0, g.objs[x], Strong, g.bound);
    MarkSlots(g, x);
    GrowsFits(h0, g0, g.objs, g.gray, -1, x, Strong, g.bound);
    GrowsAny(h0, g0, g.objs, g.gray, x);
    var i := 0;
    NoNodes(g.objs, g.objs[x]);
    while i < |g.objs[x].nodes|
      invariant x in g.objs && 0 <= i <= |g.objs[x].nodes| && WellFormed(g.objs) && |Whites(g.objs)| <= |Whites(h0)|
      invariant Grows(h0, g0, g.objs, g.gray, x) && !g.objs[x].color.White?
      invariant NodesMarkedUpTo(g.objs, g.objs[x], i, true) && ArrayMarked(g.objs, g.objs[x])
      invariant Bounded(g.objs, g.bound) && Fits(g.objs, g.objs[x], Strong, g.bound)
      decreases |h0[x].nodes| - i
    {
      ghost var h, gr := g.objs, g.gray;
      TraverseStrongNode(g, x, i);
      GrowsOn(h0, g0, h, gr, g.objs, g.gray, x);
      GrowsFits(h, gr, g.objs, g.gray, x, x, Strong, g.bound);
      i := i + 1;
    }
    AllNodesMarked(g.objs, g.objs[x]);
  }

  lemma NoNodes(h: Heap, o: Object)
    ensures forall vals :: NodesMarkedUpTo(h, o, 0, vals)
  {
  }

  lemma AllNodesMarked(h: Heap, o: Object)
    requires exists vals :: NodesMarkedUpTo(h, o, |o.nodes|, vals)
    ensures KeysMarked(h, o)
    ensures NodesMarkedUpTo(h, o, |o.nodes|, true) ==> ValsMarked(h, o)
  {
  }

  /** A traversal of `x` goes on. */
  lemma GrowsOn(h0: Heap, g0: seq<Ref>, h: Heap, gr: seq<Ref>, h': Heap, gr': seq<Ref>, x: Ref)
    requires Grows(h0, g0, h, gr, x) && Grows(h, gr, h', gr', x) && x in h0 && !h0[x].color.White?
    ensures Grows(h0, g0, h', gr', x) && x in h && x in h' && h'[x].color == h[x].color && |h'[x].nodes| == |h[x].nodes| == |h0[x].nodes|
    ensures h'[x].slots == h[x].slots
    ensures ArrayMarked(h, h[x]) ==> ArrayMarked(h', h'[x])
  {
    GrowsCompose(h0, g0, h, gr, h', gr', x, x);
    GrowsKeeps(h, gr, h', gr', x, x);
    GrowsKeeps(h0, g0, h, gr, x, x);
    if ArrayMarked(h, h[x]) {
      forall i | 0 <= i < |h'[x].slots| ensures IsMarked(h', h'[x].slots[i]) {
        MarkedStays(h, h', x, h[x].slots[i]);
      }
    }
  }

  // ---------- weak tables ----------

  /** Only strings have been marked. */
  ghost predicate OnlyStrings(h: Heap, h': Heap) {
    forall r :: r in h && r in h' && h[r].color != h'[r].color ==> h[r].kind.Str?
  }

  /** `iscleared`: strings are values, so they are marked and never cleared. */
  method IsCleared(g: GlobalState, s: Slot) returns (b: bool)
    requires WellFormed(g.objs) && InHeap(g.objs, s) && Bounded(g.objs, g.bound) && (IsString(g.objs, s) ==> InSet(g.bound, s))
    modifies g`objs, g`gray
    ensures Grows(old(g.objs), old(g.gray), g.objs, g.gray, -1) && WellFormed(g.objs) && OnlyStrings(old(g.objs), g.objs) && Bounded(g.objs, g.bound)
    ensures b <==> IsWhite(g.objs, s)
    ensures b ==> g.objs == old(g.objs) && g.gray == old(g.gray) && !IsString(g.objs, s)
    ensures |Whites(g.objs)| <= |Whites(old(g.objs))|
    ensures !b ==> IsMarked(g.objs, s)
  {
    hide WellFormed, Marks, Queues, Grows, Whites, Bounded;
    GrowsSame(g.objs, g.gray, -1);
    if !s.To? {
      return false;
    }
    if g.objs[s.r].kind.Str? {
      MarkSlot(g, s);
      return false;
    }
    b := g.objs[s.r].color.White?;
  }

  /** A node of a table with weak values: the key is marked, the value only looked at. */
  method TraverseWeakNode(g: GlobalState, x: Ref, i: nat, hasclears: bool) returns (hc: bool)
    requires WellFormed(g.objs) && x in g.objs && !g.objs[x].color.White? && i < |g.objs[x].nodes|
    requires NodesMarkedUpTo(g.objs, g.objs[x], i, !hasclears) && Bounded(g.objs, g.bound) && Fits(g.objs, g.objs[x], WeakValues, g.bound)
    modifies g`objs, g`gray
    ensures Grows(old(g.objs), old(g.gray), g.objs, g.gray, x) && WellFormed(g.objs) && Bounded(g.objs, g.bound)
    ensures x in g.objs && NodesMarkedUpTo(g.objs, g.objs[x], i + 1, !hc) && (hasclears ==> hc)
    ensures |Whites(g.objs)| <= |Whites(old(g.objs))|
  {
    hide WellFormed, Marks, Queues, Grows, Whites, Bounded, Fits, InSet, IsString;
    ghost var h0, g0 := g.objs, g.gray;
    var n := g.objs[x].nodes[i];
    hc := hasclears;
    if n.val.Empty? {
      RemoveEntry(g, x, i);
    } else {
      WellFormedParts(h0, x);
      NodeFits(h0, g.objs[x], WeakValues, g.bound, i);
      MarkSlot(g, n.key);
      ghost var h1, g1 := g.objs, g.gray;
      GrowsKeys(h0, g0, h1, g1, -1);
      SameString(h0, g0, h1, g1, n.val);
      GrowsSame(h1, g1, -1);
      if !hasclears {
        hc := IsCleared(g, n.val);
      }
      KeyMarked(h0, g0, h1, g1, g.objs, g.gray, x, n);
    }
    WhitesDrop(h0, g0, g.objs, g.gray, x);
    NodesMarkedStay(h0, g0, g.objs, g.gray, x, i, !hasclears);
  }

  lemma SameString(h: Heap, gr: seq<Ref>, h': Heap, gr': seq<Ref>, s: Slot)
    requires Grows(h, gr, h', gr', -1)
    ensures IsString(h', s) == IsString(h, s)
  {
    MarksOnward(h, h', -1);
    OnwardString(h, h', {}, s);
  }

  lemma KeyMarked(h0: Heap, g0: seq<Ref>, h1: Heap, g1: seq<Ref>, h2: Heap, g2: seq<Ref>, x: Ref, n: Node)
    requires Grows(h0, g0, h1, g1, -1) && Grows(h1, g1, h2, g2, -1) && x in h0 && !h0[x].color.White?
    requires IsMarked(h1, n.key)
    ensures Grows(h0, g0, h2, g2, x) && IsMarked(h2, n.key) && x in h2 && h2[x] == h0[x]
  {
    MarkedStays(h1, h2, -1, n.key);
    assert MarksAt(h0, h1, -1, x) && MarksAt(h1, h2, -1, x);
    GrowsAny(h0, g0, h1, g1, x);
    GrowsAny(h1, g1, h2, g2, x);
    GrowsCompose(h0, g0, h1, g1, h2, g2, x, x);
  }

  /** `traverseweakvalue`. */
  method TraverseWeakValue(g: GlobalState, x: Ref)
    requires WellFormed(g.objs) && x in g.objs && !g.objs[x].color.White? && Bounded(g.objs, g.bound) && Fits(g.objs, g.objs[x], WeakValues, g.bound)
    modifies g`objs, g`gray, g`grayagain, g`weak
    ensures Grows(old(g.objs), old(g.gray), g.objs, g.gray, x) && WellFormed(g.objs) && Bounded(g.objs, g.bound)
    ensures x in g.objs && KeysMarked(g.objs, g.objs[x])
    ensures if g.gcstate == GCSpropagate then g.grayagain == [x] + old(g.grayagain) && g.weak == old(g.weak)
            else g.grayagain == old(g.grayagain) && (g.weak == [x] + old(g.weak) || (g.weak == old(g.weak) && g.objs[x].slots == [] && ValsMarked(g.objs, g.objs[x])))
    ensures |Whites(g.objs)| <= |Whites(old(g.objs))|
  {
    hide WellFormed, Marks, Queues, Grows, Whites, NodesMarkedUpTo, ArrayMarked, KeysMarked, ValsMarked, Bounded, Fits;
    ghost var h0, g0 := g.objs, g.gray;
    var hasclears := |g.objs[x].slots| > 0;
    var i := 0;
    NoNodes(h0, h0[x]);
    GrowsSame(h0, g0, x);
    while i < |g.objs[x].nodes|
      invariant x in g.objs && 0 <= i <= |g.objs[x].nodes| && WellFormed(g.objs) && |Whites(g.objs)| <= |Whites(h0)|
      invariant Grows(h0, g0, g.objs, g.gray, x) && !g.objs[x].color.White?
      invariant NodesMarkedUpTo(g.objs, g.objs[x], i, !hasclears)
      invariant !hasclears ==> g.objs[x].slots == []
      invariant g.grayagain == old(g.grayagain) && g.weak == old(g.weak)
      invariant Bounded(g.objs, g.bound) && Fits(g.objs, g.objs[x], WeakValues, g.bound)
      decreases |h0[x].nodes| - i
    {
      ghost var h, gr := g.objs, g.gray;
      hasclears := TraverseWeakNode(g, x, i, hasclears);
      GrowsOn(h0, g0, h, gr, g.objs, g.gray, x);
      GrowsFits(h, gr, g.objs, g.gray, x, x, WeakValues, g.bound);
      i := i + 1;
    }
    AllNodesMarked(g.objs, g.objs[x]);
    if g.gcstate == GCSpropagate {
      g.grayagain := [x] + g.grayagain;
    } else if hasclears {
      g.weak := [x] + g.weak;
    }
  }

  // ---------- ephemeron tables ----------

  /** The flags of `traverseephemeron` for the nodes seen so far. */
  datatype Flags = Flags(marked: bool, hasclears: bool, hasww: bool)

  ghost predicate EphemeronNode(h: Heap, n: Node, fl: Flags) {
    && (n.val.Empty? || !fl.hasclears ==> IsMarked(h, n.key))
    && (!fl.hasww ==> IsMarked(h, n.val))
    && (!fl.marked && !n.val.Empty? ==> IsMarked(h, n.val) || (IsWhite(h, n.key) && !IsString(h, n.key)))
  }

  ghost predicate EphemeronUpTo(h: Heap, o: Object, n: nat, fl: Flags) {
    forall i :: 0 <= i < n && i < |o.nodes| ==> EphemeronNode(h, o.nodes[i], fl)
  }

  /** Later flags say less. */
  predicate Weaker(a: Flags, b: Flags) {
    (a.marked ==> b.marked) && (a.hasclears ==> b.hasclears) && (a.hasww ==> b.hasww)
  }

  lemma EphemeronNodeStays(h: Heap, h': Heap, x: int, n: Node, n': Node, a: Flags, b: Flags)
    requires Marks(h, h', x) && EphemeronNode(h, n, a) && Weaker(a, b) && (!b.marked ==> OnlyStrings(h, h'))
    requires n' == n || NodeKept(h, n, n')
    ensures EphemeronNode(h', n', b)
  {
    if IsMarked(h, n.key) {
      MarkedStays(h, h', x, n.key);
    }
    if IsMarked(h, n.val) {
      MarkedStays(h, h', x, n.val);
    }
    if !b.marked && IsWhite(h, n.key) {
      assert MarksAt(h, h', x, n.key.r);
    }
  }

  lemma EphemeronStays(h: Heap, gr: seq<Ref>, h': Heap, gr': seq<Ref>, x: Ref, n: nat, a: Flags, b: Flags)
    requires Grows(h, gr, h', gr', x) && x in h && x in h' && !h[x].color.White? && EphemeronUpTo(h, h[x], n, a)
    requires Weaker(a, b) && (!b.marked ==> OnlyStrings(h, h'))
    ensures EphemeronUpTo(h', h'[x], n, b)
  {
    assert MarksAt(h, h', x, x);
    forall i | 0 <= i < n && i < |h'[x].nodes| ensures EphemeronNode(h', h'[x].nodes[i], b) {
      assert h'[x] == h[x] || NodeKept(h, h[x].nodes[i], h'[x].nodes[i]);
      EphemeronNodeStays(h, h', x, h[x].nodes[i], h'[x].nodes[i], a, b);
    }
  }

  lemma OnlyStringsOn(a: Heap, b: Heap, c: Heap, x: int)
    requires Marks(a, b, x) && Marks(b, c, x) && OnlyStrings(a, b) && OnlyStrings(b, c)
    ensures OnlyStrings(a, c)
  {
    forall r | r in a && r in c && a[r].color != c[r].color ensures a[r].kind.Str? {
      assert MarksAt(a, b, x, r) && MarksAt(b, c, x, r);
    }
  }

  /** One node of an ephemeron table: the value is marked if the key is. */
  method TraverseEphemeronNode(g: GlobalState, x: Ref, i: nat, fl: Flags) returns (fl': Flags)
    requires WellFormed(g.objs) && x in g.objs && !g.objs[x].color.White? && i < |g.objs[x].nodes|
    requires EphemeronUpTo(g.objs, g.objs[x], i, fl) && Bounded(g.objs, g.bound) && Fits(g.objs, g.objs[x], Ephemeral, g.bound)
    modifies g`objs, g`gray
    ensures Grows(old(g.objs), old(g.gray), g.objs, g.gray, x) && WellFormed(g.objs) && Bounded(g.objs, g.bound)
    ensures x in g.objs && EphemeronUpTo(g.objs, g.objs[x], i + 1, fl') && Weaker(fl, fl')
    ensures !fl'.marked ==> OnlyStrings(old(g.objs), g.objs)
    ensures |Whites(g.objs)| <= |Whites(old(g.objs))|
    ensures fl'.marked && !fl.marked ==> |Whites(g.objs)| < |Whites(old(g.objs))|
  {
    hide WellFormed, Marks, Queues, Grows, Whites, Bounded, Fits, InSet, IsString;
    ghost var h0, g0 := g.objs, g.gray;
    var n := g.objs[x].nodes[i];
    fl' := fl;
    if n.val.Empty? {
      RemoveEntry(g, x, i);
      TrimOnly(h0, g0, g.objs, g.gray, x);
    } else {
      WellFormedParts(h0, x);
      NodeFits(h0, g.objs[x], Ephemeral, g.bound, i);
      var cleared := IsCleared(g, n.key);
      ghost var h1, g1 := g.objs, g.gray;
      KeyWithin(h1, g.bound, n.key);
      GrowsKeys(h0, g0, h1, g1, -1);
      GrowsSame(h1, g1, -1);
      if cleared {
        fl' := fl'.(hasclears := true, hasww := fl.hasww || IsWhite(g.objs, n.val));
      } else if IsWhite(g.objs, n.val) {
        fl' := fl'.(marked := true);
        MarkSlot(g, n.val);
      }
      EntryDone(h0, g0, h1, g1, g.objs, g.gray, x, n, cleared, fl');
    }
    WhitesDrop(h0, g0, g.objs, g.gray, x);
    EphemeronStays(h0, g0, g.objs, g.gray, x, i, fl, fl');
  }

  lemma KeyWithin(h: Heap, m: iset<Ref>, s: Slot)
    requires Bounded(h, m)
    ensures IsMarked(h, s) ==> InSet(m, s)
  {
  }

  lemma TrimOnly(h: Heap, gr: seq<Ref>, h': Heap, gr': seq<Ref>, x: Ref)
    requires Grows(h, gr, h', gr', x) && x in h && x in h' && h' == h[x := h'[x]] && !h[x].color.White?
    ensures OnlyStrings(h, h')
  {
    assert MarksAt(h, h', x, x);
  }

  lemma EntryDone(h0: Heap, g0: seq<Ref>, h1: Heap, g1: seq<Ref>, h2: Heap, g2: seq<Ref>, x: Ref, n: Node, cleared: bool, fl: Flags)
    requires Grows(h0, g0, h1, g1, -1) && Grows(h1, g1, h2, g2, -1) && x in h0 && !h0[x].color.White? && WellFormed(h1) && InHeap(h1, n.val)
    requires OnlyStrings(h0, h1) && !n.val.Empty?
    requires if cleared then h2 == h1 && IsWhite(h1, n.key) && !IsString(h1, n.key) && fl.hasclears && (IsWhite(h1, n.val) ==> fl.hasww)
             else IsMarked(h1, n.key) && IsMarked(h2, n.val) && (h2 == h1 || fl.marked)
    ensures Grows(h0, g0, h2, g2, x) && x in h2 && h2[x] == h0[x] && EphemeronNode(h2, n, fl)
    ensures !fl.marked ==> OnlyStrings(h0, h2)
  {
    if !cleared {
      MarkedStays(h1, h2, -1, n.key);
    }
    assert MarksAt(h0, h1, -1, x) && MarksAt(h1, h2, -1, x);
    GrowsAny(h0, g0, h1, g1, x);
    GrowsAny(h1, g1, h2, g2, x);
    GrowsCompose(h0, g0, h1, g1, h2, g2, x, x);
  }

  /** The array part of an ephemeron table holds values only. */
  method TraverseEphemeronArray(g: GlobalState, x: Ref) returns (marked: bool)
    requires WellFormed(g.objs) && x in g.objs && !g.objs[x].color.White? && Bounded(g.objs, g.bound) && ArrayWithin(g.objs[x], g.bound)
    modifies g`objs, g`gray
    ensures Grows(old(g.objs), old(g.gray), g.objs, g.gray, -1) && WellFormed(g.objs) && Bounded(g.objs, g.bound)
    ensures x in g.objs && g.objs[x] == old(g.objs[x]) && ArrayMarked(g.objs, g.objs[x])
    ensures |Whites(g.objs)| <= |Whites(old(g.objs))|
    ensures if marked then |Whites(g.objs)| < |Whites(old(g.objs))| else g.objs == old(g.objs)
  {
    hide WellFormed, Marks, Queues, Grows, Whites, MarkedUpTo, Bounded, InSet;
    ghost var h0, g0 := g.objs, g.gray;
    var o := g.objs[x];
    GrowsSame(h0, g0, -1);
    NoneMarked(h0, o.slots);
    marked := false;
    var i := 0;
    while i < |o.slots|
      invariant 0 <= i <= |o.slots| && WellFormed(g.objs) && Bounded(g.objs, g.bound)
      invariant if marked then |Whites(g.objs)| < |Whites(h0)| else g.objs == h0
      invariant Grows(h0, g0, g.objs, g.gray, -1) && x in g.objs && g.objs[x] == o && MarkedUpTo(g.objs, o.slots, i)
    {
      ghost var h, gr := g.objs, g.gray;
      WellFormedParts(h, x);
      marked := marked || IsWhite(g.objs, o.slots[i]);
      MarkSlot(g, o.slots[i]);
      AnotherMarked(h0, g0, h, gr, g.objs, g.gray, x, o.slots, i);
      i := i + 1;
    }
    AllSlotsMarked(g.objs, o);
  }

  /** `traverseephemeron`, before the table is linked into a list. */
  method ScanEphemeron(g: GlobalState, x: Ref) returns (fl: Flags)
    requires WellFormed(g.objs) && x in g.objs && !g.objs[x].color.White? && Bounded(g.objs, g.bound) && Fits(g.objs, g.objs[x], Ephemeral, g.bound)
    modifies g`objs, g`gray
    ensures Grows(old(g.objs), old(g.gray), g.objs, g.gray, x) && WellFormed(g.objs) && Bounded(g.objs, g.bound)
    ensures x in g.objs && ArrayMarked(g.objs, g.objs[x]) && EphemeronUpTo(g.objs, g.objs[x], |g.objs[x].nodes|, fl)
    ensures !fl.marked ==> OnlyStrings(old(g.objs), g.objs)
    ensures |Whites(g.objs)| <= |Whites(old(g.objs))|
    ensures fl.marked ==> |Whites(g.objs)| < |Whites(old(g.objs))|
  {
    hide WellFormed, Marks, Queues, Grows, Whites, ArrayMarked, EphemeronUpTo, OnlyStrings, Bounded, Fits, ArrayWithin;
    ghost var h0, g0 := g.objs, g.gray;
    ArrayFits(h0, g.objs[x], Ephemeral, g.bound);
    var marked := TraverseEphemeronArray(g, x);
    GrowsFits(h0, g0, g.objs, g.gray, -1, x, Ephemeral, g.bound);
    fl := Flags(marked, false, false);
    StartNodes(h0, g0, g.objs, g.gray, x, fl);
    var i := 0;
    while i < |g.objs[x].nodes|
      invariant x in g.objs && 0 <= i <= |g.objs[x].nodes| && WellFormed(g.objs)
      invariant |Whites(g.objs)| <= |Whites(h0)| && (fl.marked ==> |Whites(g.objs)| < |Whites(h0)|)
      invariant Grows(h0, g0, g.objs, g.gray, x) && !g.objs[x].color.White? && ArrayMarked(g.objs, g.objs[x])
      invariant EphemeronUpTo(g.objs, g.objs[x], i, fl) && (!fl.marked ==> OnlyStrings(h0, g.objs))
      invariant Bounded(g.objs, g.bound) && Fits(g.objs, g.objs[x], Ephemeral, g.bound)
      decreases |h0[x].nodes| - i
    {
      ghost var h, gr := g.objs, g.gray;
      fl := TraverseEphemeronNode(g, x, i, fl);
      GrowsOn(h0, g0, h, gr, g.objs, g.gray, x);
      GrowsFits(h, gr, g.objs, g.gray, x, x, Ephemeral, g.bound);
      if !fl.marked {
        StringsOn(h0, g0, h, gr, g.objs, g.gray, x);
      }
      i := i + 1;
    }
  }

  lemma StartNodes(h0: Heap, g0: seq<Ref>, h: Heap, gr: seq<Ref>, x: Ref, fl: Flags)
    requires Grows(h0, g0, h, gr, -1) && x in h0 && !h0[x].color.White? && (fl.marked || h == h0)
    ensures Grows(h0, g0, h, gr, x) && EphemeronUpTo(h, h0[x], 0, fl) && (!fl.marked ==> OnlyStrings(h0, h))
  {
    GrowsAny(h0, g0, h, gr, x);
  }

  lemma StringsOn(h0: Heap, g0: seq<Ref>, h: Heap, gr: seq<Ref>, h': Heap, gr': seq<Ref>, x: Ref)
    requires Grows(h0, g0, h, gr, x) && Grows(h, gr, h', gr', x) && OnlyStrings(h0, h) && OnlyStrings(h, h')
    ensures OnlyStrings(h0, h')
  {
    OnlyStringsOn(h0, h, h', x);
  }

  /** `traverseephemeron`: also links the table to the list it belongs to. */
  method TraverseEphemeron(g: GlobalState, x: Ref) returns (marked: bool)
    requires WellFormed(g.objs) && x in g.objs && !g.objs[x].color.White? && Bounded(g.objs, g.bound) && Fits(g.objs, g.objs[x], Ephemeral, g.bound)
    modifies g`objs, g`gray, g`grayagain, g`allweak, g`ephemeron
    ensures Grows(old(g.objs), old(g.gray), g.objs, g.gray, x) && WellFormed(g.objs) && Bounded(g.objs, g.bound)
    ensures x in g.objs && ArrayMarked(g.objs, g.objs[x]) && Tidy(g.objs, g.objs[x])
    ensures !marked ==> OnlyStrings(old(g.objs), g.objs) && EntriesSettled(g.objs, g.objs[x])
    ensures |Whites(g.objs)| <= |Whites(old(g.objs))|
    ensures marked ==> |Whites(g.objs)| < |Whites(old(g.objs))|
    ensures if g.gcstate == GCSpropagate then g.grayagain == [x] + old(g.grayagain) && g.ephemeron == old(g.ephemeron) && g.allweak == old(g.allweak)
            else g.grayagain == old(g.grayagain) && LinkedEphemeron(g.objs, x, old(g.ephemeron), g.ephemeron, old(g.allweak), g.allweak)
  {
    hide WellFormed, Marks, Queues, Grows, Whites, ArrayMarked, EphemeronUpTo, OnlyStrings, Tidy, EntriesSettled, Bounded, Fits;
    var fl := ScanEphemeron(g, x);
    FlagsMean(g.objs, g.objs[x], fl);
    if g.gcstate == GCSpropagate {
      g.grayagain := [x] + g.grayagain;
    } else if fl.hasww {
      g.ephemeron := [x] + g.ephemeron;
    } else if fl.hasclears {
      g.allweak := [x] + g.allweak;
    }
    marked := fl.marked;
  }

  ghost predicate LinkedEphemeron(h: Heap, x: Ref, eph: seq<Ref>, eph': seq<Ref>, allweak: seq<Ref>, allweak': seq<Ref>)
    requires x in h
  {
    || (eph' == [x] + eph && allweak' == allweak)
    || (eph' == eph && allweak' == [x] + allweak && ValsMarked(h, h[x]))
    || (eph' == eph && allweak' == allweak && KeysMarked(h, h[x]) && ValsMarked(h, h[x]))
  }

  lemma FlagsMean(h: Heap, o: Object, fl: Flags)
    requires EphemeronUpTo(h, o, |o.nodes|, fl)
    ensures Tidy(h, o) && (!fl.hasclears ==> KeysMarked(h, o)) && (!fl.hasww ==> ValsMarked(h, o)) && (!fl.marked ==> EntriesSettled(h, o))
  {
  }
}
