/**
  Runs from a new state that break the invariant of the collector, and what is lost by them.
 */
module GcLosses {
  import opened GcHeap
  import opened GcBound
  import opened GcMark
  import opened GcInvariant
  import opened GcPropagate
  import opened GcAtomic
  import opened GcSweep
  import opened GcCycle
  import opened GcMutator
  import opened GcObjects
  import opened GcRuns

  // ---------- a table that waits in `allweak` ----------

  /**
    The main thread 0; table 1, whose metatable is table 2 and whose one value is table 4.
    Table 2 says that table 1 is all-weak.
   */
  ghost predicate Quad(h: Heap) {
    && (forall r :: r in h <==> r == 0 || r == 1 || r == 2 || r == 4)
    && h[0].kind.Thread? && h[1].kind.Table? && h[2].kind.Table? && h[4].kind.Table?
    && h[0].slots == h[1].slots == h[2].slots == h[4].slots == [] && h[0].nodes == h[2].nodes == h[4].nodes == [] && h[1].nodes == [Node(Plain, To(4))]
    && h[0].meta == h[2].meta == Empty && h[1].meta == To(2) && h[2].gives.AllWeak?
  }

  lemma QuadOnward(h: Heap, h': Heap)
    requires Quad(h) && Onward(h, h', {})
    ensures Quad(h')
  {
    assert OnwardAt(h, h', {}, 0) && OnwardAt(h, h', {}, 1) && OnwardAt(h, h', {}, 2) && OnwardAt(h, h', {}, 4);
    assert NodeOnward(h[1].nodes[0], h'[1].nodes[0], false);
  }

  ghost function Reached(): iset<Ref> {
    iset{0, 1, 2}
  }

  /** Apart from the registry there are no roots. */
  ghost predicate RootedAt(g: GlobalState)
    reads g`running, g`roots
  {
    g.running == g.mainthread == 0 && g.roots == [To(1)] + seq(9, i => Empty)
  }

  lemma QuadEnclosed(g: GlobalState)
    requires Quad(g.objs) && (forall r :: r in g.objs ==> g.objs[r].color.White?) && RootedAt(g) && g.bound == Reached() && g.tobefnz == []
    ensures Encloses(g)
  {
    var h := g.objs;
    assert ModeOf(h, 1).AllWeak?;
    assert FitsAt(h, g.bound, 0) && FitsAt(h, g.bound, 1) && FitsAt(h, g.bound, 2);
    forall i | 0 <= i < |g.roots| ensures InSet(g.bound, g.roots[i]) {
    }
  }

  function Bare(kind: Kind): Object {
    Object(kind, Strong, White(false), false, Empty, [], [], Empty)
  }

  /** Three tables are created. */
  method ThreeTables() returns (g: GlobalState)
    ensures fresh(g) && Inv(g) && g.gcstate == GCSpause && g.running == g.mainthread == 0 && g.roots == seq(10, i => Empty)
    ensures g.finobj == g.tobefnz == [] && !g.white
    ensures g.objs == map[0 := Bare(Thread), 1 := Bare(Table), 2 := Bare(Table), 4 := Bare(Table)]
  {
    hide Inv;
    g := new GlobalState(0);
    StartInv(g);
    NewObject(g, 1, Table, 0);
    assert g.objs[1].slots == [];
    assert g.objs == map[0 := Bare(Thread), 1 := Bare(Table)];
    NewObject(g, 2, Table, 0);
    assert g.objs[2].slots == [];
    assert g.objs == map[0 := Bare(Thread), 1 := Bare(Table), 2 := Bare(Table)];
    NewObject(g, 4, Table, 0);
    assert g.objs[4].slots == [];
  }

  lemma LiveStill(h: Heap, h': Heap, white: bool, r: Ref)
    requires KeepsLive(h, h', white) && Live(h, white, r)
    ensures Live(h', white, r)
  {
  }

  /** Table 2 says all-weak, and is the metatable of table 1. */
  method WithMetatable() returns (g: GlobalState, ghost h1: Heap)
    ensures fresh(g) && Inv(g) && g.gcstate == GCSpause && g.running == g.mainthread == 0 && g.roots == seq(10, i => Empty)
    ensures g.finobj == g.tobefnz == [] && !g.white && Live(g.objs, false, 1) && Live(g.objs, false, 4)
    ensures h1 == map[0 := Bare(Thread), 1 := Bare(Table), 2 := Bare(Table).(gives := AllWeak), 4 := Bare(Table)]
    ensures g.objs == h1[1 := h1[1].(meta := To(2), color := g.objs[1].color)]
  {
    hide Inv, KeepsLive, Stored;
    g := ThreeTables();
    ghost var h0 := g.objs;
    SetGives(g, 2, AllWeak);
    h1 := g.objs;
    assert h1 == map[0 := Bare(Thread), 1 := Bare(Table), 2 := Bare(Table).(gives := AllWeak), 4 := Bare(Table)];
    SetMetatable(g, 1, To(2));
    LiveStill(h1, g.objs, false, 1);
    LiveStill(h1, g.objs, false, 4);
    StoredIs(h1, 1, h1[1].(meta := To(2)), g.objs);
  }

  /** The state is reached by the program's own steps. */
  method QuadState() returns (g: GlobalState)
    ensures fresh(g) && Inv(g) && g.gcstate == GCSpause && Quad(g.objs) && RootedAt(g) && g.finobj == g.tobefnz == [] && !g.white
  {
    hide Inv, KeepsLive, Stored, Quad;
    ghost var h1;
    g, h1 := WithMetatable();
    ghost var h2 := g.objs;
    SetTable(g, 1, [], [Node(Plain, To(4))], Plain, To(4));
    LiveStill(h2, g.objs, false, 1);
    SetRoot(g, 0, To(1));
    QuadMade(h1, h2, g.objs);
  }

  lemma StoredIs(h: Heap, o: Ref, o': Object, h': Heap)
    requires Stored(h, o, o', h')
    ensures o in h' && h'[o] == o'.(color := h'[o].color)
  {
  }

  lemma QuadMade(h1: Heap, h2: Heap, h3: Heap)
    requires h1 == map[0 := Bare(Thread), 1 := Bare(Table), 2 := Bare(Table).(gives := AllWeak), 4 := Bare(Table)]
    requires 1 in h2 && h2 == h1[1 := h1[1].(meta := To(2), color := h2[1].color)]
    requires 1 in h3 && h3 == h2[1 := h2[1].(slots := [], nodes := [Node(Plain, To(4))], color := h3[1].color)]
    ensures Quad(h3)
  {
  }

  /** Table 1 has not been visited: it is not black, nor in `grayagain`. */
  ghost predicate Unvisited(g: GlobalState)
    reads g`objs, g`grayagain
  {
    1 in g.objs && IsMarked(g.objs, To(1)) && !g.objs[1].color.Black? && 1 !in g.grayagain
  }

  /** Marking comes to its end: table 1 has been visited, and waits in `allweak`. */
  method MarkQuad(g: GlobalState)
    requires Inv(g) && g.gcstate == GCSpause && Quad(g.objs) && RootedAt(g) && g.finobj == g.tobefnz == []
    modifies g`objs, g`gray, g`grayagain, g`weak, g`allweak, g`ephemeron, g`gcstate, g`bound
    ensures Inv(g) && g.gcstate == GCSatomic && g.gray == [] && Quad(g.objs) && 1 in g.allweak
    ensures Within(g) && g.bound == Reached()
  {
    hide Inv, Quad, Within, Onward, MarkedUpTo, Heeds, AgainHeeds, Encloses, NoBlackTables;
    ghost var h := g.objs;
    g.bound := Reached();
    ReadyToRestart(g);
    QuadEnclosed(g);
    Restart(g);
    QuadOnward(h, g.objs);
    StartsUnvisited(g);
    while g.gcstate == GCSpropagate
      invariant Inv(g) && (g.gcstate == GCSpropagate || (g.gcstate == GCSatomic && g.gray == [])) && Quad(g.objs) && Unvisited(g)
      invariant Within(g) && g.bound == Reached()
      decreases if g.gcstate == GCSpropagate then 1 else 0, |Whites(g.objs)|, |g.gray|
    {
      SomeGray(g);
      ghost var h1, x, again := g.objs, g.gray[0], g.grayagain;
      PropagateStep(g);
      QuadOnward(h1, g.objs);
      StaysUnvisited(h1, x, again, g);
    }
    WaitsAtLast(g);
  }

  lemma SomeGray(g: GlobalState)
    requires Inv(g) && g.gcstate == GCSpropagate
    ensures g.gray != []
  {
  }

  lemma StartsUnvisited(g: GlobalState)
    requires Quad(g.objs) && RootedAt(g) && MarkedUpTo(g.objs, g.roots, |g.roots|) && NoBlackTables(g.objs) && g.grayagain == []
    ensures Unvisited(g)
  {
    assert IsMarked(g.objs, g.roots[0]);
  }

  lemma StaysUnvisited(h: Heap, x: Ref, again: seq<Ref>, g: GlobalState)
    requires Quad(h) && Quad(g.objs) && Onward(h, g.objs, {}) && Heeds(h, x, g.objs) && AgainHeeds(g.objs, x, again, g.grayagain)
    requires IsMarked(h, To(1)) && !h[1].color.Black? && 1 !in again
    ensures Unvisited(g)
  {
    assert ModeOf(g.objs, 1).AllWeak?;
    OnwardMarked(h, g.objs, {}, To(1));
  }

  lemma WaitsAtLast(g: GlobalState)
    requires Inv(g) && g.gcstate == GCSatomic && g.gray == [] && Unvisited(g)
    ensures 1 in g.allweak
  {
    assert CoveredAt(g.objs, MarkLists(g), 1);
  }

  // ---------- the atomic step and the sweep, whatever waits in `allweak` ----------

  /** What the atomic step needs, but for what it needs of the tables in `allweak`. */
  ghost predicate AtAtomic(g: GlobalState)
    reads g
  {
    && g.gcstate == GCSatomic && g.gray == [] && g.weak == g.ephemeron == [] && g.finobj == g.tobefnz == []
    && TriColor(g.objs, MarkLists(g)) && Within(g) && RootsWithin(g) && RootsInHeap(g) && IsMarked(g.objs, To(g.mainthread))
    && NoneDead(g.objs, g.white) && Owned(g.objs, g.mainthread, g.allgc + [] + [])
  }

  lemma NothingPicked(fin: seq<Ref>, fnz: seq<Ref>)
    requires Separated([], [], fin, fnz)
    ensures fin == fnz == []
  {
    assert fnz[0..] == fnz;
    assert |multiset(fin) + multiset(fnz)| == |fin| + |fnz|;
  }

  /** The unmarked objects outside the bound are freed; marked ones stay, with their metatables. */
  method AtomicAndSweep(g: GlobalState)
    requires AtAtomic(g)
    modifies g
    ensures g.white == !old(g.white) && g.bound == old(g.bound) && g.running == old(g.running) && g.roots == old(g.roots)
    ensures forall r :: r in old(g.objs) && r !in g.bound ==> r !in g.objs
    ensures forall r :: r in old(g.objs) && !old(g.objs)[r].color.White? ==> Live(g.objs, g.white, r) && g.objs[r].meta == old(g.objs)[r].meta
  {
    hide TriColor, Onward, Within, Owned, NoneDead, RootsWithin, Bounded, WellFormed, RootsMarked, Separated, Waiting, Sweeps, WeakModes, SweptTo, Behind, OnlyIn, StepSwept, SliceSwept, Survivors, SliceTaken, SliceEnd;
    ghost var h := g.objs;
    AtomicLists(g);
    NoModes(h, ListsOf(g, []));
    ghost var w := Atomic(g);
    NothingPicked(g.finobj, g.tobefnz);
    ghost var h1 := g.objs;
    MainIsIn(g);
    OnwardOwned(h, h1, w, g.mainthread, g.allgc + [] + []);
    var l, i := SweepList(g, g.allgc, 0, |g.allgc|, [], []) by {
      assert [] + g.allgc + [] == g.allgc + [] + [];
      NothingSwept(h1, g.white, g.allgc);
    }
    g.allgc := l;
    FreedOutside(h, h1, g.objs, w, g.white, g.mainthread, l, i, g.bound);
  }

  lemma NoModes(h: Heap, ls: Lists)
    requires ls.weak == ls.ephemeron == []
    ensures WeakModes(h, ls)
  {
  }

  lemma MainIsIn(g: GlobalState)
    requires Bounded(g.objs, g.bound) && RootsMarked(g)
    ensures g.mainthread in g.bound
  {
  }

  lemma SweptWhite(h: Heap, white: bool, main: Ref, l: seq<Ref>)
    requires Owned(h, main, [] + l + []) && SweptTo(h, white, l, |l|)
    ensures forall r :: r in h && r != main ==> h[r].color == White(white)
  {
    assert [] + l + [] == l;
    forall r | r in h && r != main ensures h[r].color == White(white) {
      var k :| 0 <= k < |l| && l[k] == r;
    }
  }

  lemma FreedOutside(h: Heap, h1: Heap, h2: Heap, w: set<Ref>, white: bool, main: Ref, l: seq<Ref>, i: nat, m: iset<Ref>)
    requires NoneDead(h, !white) && Onward(h, h1, w) && Bounded(h1, m) && Sweeps(h1, h2, white) && main in m
    requires Owned(h2, main, [] + l + []) && i == |l| && SweptTo(h2, white, l, i)
    ensures forall r :: r in h && r !in m ==> r !in h2
    ensures forall r :: r in h && !h[r].color.White? ==> Live(h2, white, r) && h2[r].meta == h[r].meta
  {
    SweptWhite(h2, white, main, l);
    forall r | r in h && r !in m ensures r !in h2 {
      assert OnwardAt(h, h1, w, r) && h1[r].color.White?;
    }
    forall r | r in h && !h[r].color.White? ensures Live(h2, white, r) && h2[r].meta == h[r].meta {
      assert r in h1 && OnwardAt(h, h1, w, r);
    }
  }

  // ---------- the two losses ----------

  /** Of the heap before that. */
  ghost predicate Before(h: Heap, g: GlobalState)
    reads g`allgc, g`white
  {
    Owned(h, 0, g.allgc + [] + []) && NoneDead(h, g.white) && IsMarked(h, To(0)) && IsMarked(h, To(1)) && BareBut(h)
  }

  /** The moment before the atomic step, when table 1 waits in `allweak`, perhaps wrongly. */
  lemma StillAtAtomic(g: GlobalState)
    requires g.gcstate == GCSatomic && g.gray == [] && g.weak == g.ephemeron == [] && g.finobj == g.tobefnz == [] && g.running == g.mainthread == 0
    requires RootedAt(g) && g.bound == Reached() && TriColor(g.objs, MarkLists(g)) && 1 in g.allweak && Before(g.objs, g)
    ensures AtAtomic(g)
  {
    hide TriColor, Owned, Confined;
    assert Within(g) by { BareWithin(g.objs, MarkLists(g)); }
    forall i | 0 <= i < |g.roots| ensures InSet(g.bound, g.roots[i]) && InHeap(g.objs, g.roots[i]) {
    }
  }

  /** What a store does that changes table 1's metatable, or what table 2 says. */
  lemma BeforeStill(h: Heap, g: GlobalState, r: Ref)
    requires Before(h, g) && r in h && r in g.objs && g.objs == h[r := h[r].(meta := g.objs[r].meta, gives := g.objs[r].gives)]
    requires r == 1 || (r == 2 && g.objs[2].meta == h[2].meta)
    ensures Before(g.objs, g)
  {
    hide Owned;
    WriteOwned(h, 0, g.allgc + [] + [], r, g.objs[r]);
  }

  /** Only table 1 holds anything, a table 4; only 0, 1 and 2 may be marked. */
  ghost predicate BareBut(h: Heap) {
    && 0 in h && 1 in h && 4 in h && h[4].kind.Table? && h[1].slots == [] && h[1].nodes == [Node(Plain, To(4))] && h[1].kind.Table?
    && (forall r :: r in h && r != 1 ==> h[r].slots == [] && h[r].nodes == [] && (r == 0 || r == 2 ==> h[r].meta == Empty))
    && (forall r :: r in h && !h[r].color.White? ==> r == 0 || r == 1 || r == 2)
    && !h[1].color.White?
  }

  lemma BareWithin(h: Heap, ls: Lists)
    requires BareBut(h) && TriColor(h, ls) && 1 in ls.allweak && ls.weak == ls.ephemeron == []
    ensures Confined(h, ls.(bound := Reached()))
  {
    var ls' := ls.(bound := Reached());
    WaitingGray(h, ls, 1);
    forall r | r in h && h[r].color.White? && r in Reached() ensures FitsAt(h, Reached(), r) {
    }
    forall r | r in AllLists(ls') ensures ListedFits(h, ls', r) {
      assert r in AllLists(ls) && Queued(h, r);
      assert !IsString(h, To(4));
    }
  }

  /** The moment before the loss: table 1 waits in `allweak`. */
  ghost predicate Poised(g: GlobalState)
    reads g
  {
    && Inv(g) && g.gcstate == GCSatomic && g.gray == [] && g.running == g.mainthread == 0 && RootedAt(g) && g.finobj == g.tobefnz == []
    && 1 in g.allweak && BareBut(g.objs) && !g.white && 4 in g.objs && g.objs[4].color.White?
  }

  method PoisedState() returns (g: GlobalState)
    ensures fresh(g) && Poised(g) && Quad(g.objs)
  {
    hide Inv;
    g := QuadState();
    MarkQuad(g);
    QuadPoised(g);
  }

  lemma QuadPoised(g: GlobalState)
    requires Inv(g) && g.gcstate == GCSatomic && Quad(g.objs) && 1 in g.allweak && Within(g) && g.bound == Reached()
    ensures BareBut(g.objs) && g.objs[4].color.White?
  {
    hide Sound, Owned, RootsLive;
    WaitingGray(g.objs, MarkLists(g), 1);
  }

  /** The same state, with an all-weak table 3 that is new. */
  method PoisedWithNew() returns (g: GlobalState)
    ensures fresh(g) && Poised(g) && 3 in g.objs && g.objs[3].color == White(false) && g.objs[3].gives.AllWeak? && g.objs[3].kind.Table?
  {
    hide Inv, KeepsLive, TriColor, RootedAt;
    g := PoisedState();
    ghost var h := g.objs;
    NewObject(g, 3, Table, 0);
    assert g.objs[3].slots == [];
    SetGives(g, 3, AllWeak);
    StillBare(h, g.objs);
  }

  lemma StillBare(h: Heap, h': Heap)
    requires BareBut(h) && 3 !in h && h' == h[3 := Bare(Table).(gives := AllWeak)]
    ensures BareBut(h')
  {
  }

  lemma PoisedParts(g: GlobalState)
    requires Poised(g)
    ensures Before(g.objs, g) && g.weak == g.ephemeron == [] && Live(g.objs, g.white, 1) && g.objs[1].kind.Table?
  {
    hide Sound, RootsLive, TriColor;
  }

  /** The cycle ends when table 1 waits in `allweak`, perhaps wrongly: only 0, 1 and 2 are left. */
  method EndPoised(g: GlobalState)
    requires g.gcstate == GCSatomic && g.gray == [] && g.weak == g.ephemeron == [] && g.finobj == g.tobefnz == [] && g.running == g.mainthread == 0
    requires RootedAt(g) && TriColor(g.objs, MarkLists(g)) && 1 in g.allweak && Before(g.objs, g) && 1 in g.objs
    modifies g
    ensures Live(g.objs, g.white, 1) && g.objs[1].meta == old(g.objs)[1].meta && g.running == old(g.running) && g.roots == old(g.roots)
    ensures forall r :: r in old(g.objs) && r > 2 ==> r !in g.objs
  {
    hide TriColor, Before, RootedAt, AtAtomic;
    MarkedBefore(g.objs, g);
    g.bound := Reached();
    StillAtAtomic(g);
    AtomicAndSweep(g);
  }

  lemma MarkedBefore(h: Heap, g: GlobalState)
    requires Before(h, g)
    ensures 1 in h && !h[1].color.White?
  {
  }

  /**
    Table 1 gets a new metatable 3, which is all-weak too. Nobody else knows table 3, and
    nobody marks it: when the cycle ends it has been freed, while table 1 is live and still
    has it as its metatable.
   */
  method MetatableLost() returns (g: GlobalState)
    ensures fresh(g) && Live(g.objs, g.white, 1) && g.objs[1].meta == To(3) && 3 !in g.objs
  {
    hide Inv, KeepsLive, TriColor, Before, Stored, RootedAt, BareBut;
    g := PoisedWithNew();
    PoisedParts(g);
    ghost var h := g.objs;
    SetMetatable(g, 1, To(3));
    assert !Inv(g);
    BeforeStill(h, g, 1);
    EndPoised(g);
  }

  /**
    Table 1 loses its metatable, and is strong from now on; so its value, table 4, is
    strongly accessible. It is freed all the same.
   */
  method EntryLost() returns (g: GlobalState, ghost before: Heap)
    ensures fresh(g) && Accessible(before, RootSet(g), 4) && Live(g.objs, g.white, 1) && 4 !in g.objs
  {
    hide Inv, KeepsLive, TriColor, Before, Stored, Accessible, RootedAt, BareBut, Quad;
    g := PoisedState();
    PoisedParts(g);
    ghost var h := g.objs;
    SetMetatable(g, 1, Empty);
    assert !Inv(g);
    before := g.objs;
    RootedSet(g);
    StrongNow(h, before, RootSet(g));
    BeforeStill(h, g, 1);
    EndPoised(g);
  }

  /**
    Table 2, the metatable of table 1, says no longer that table 1 is weak. So the value of
    table 1 is strongly accessible, and it is freed all the same.
   */
  method ModeLost() returns (g: GlobalState, ghost before: Heap)
    ensures fresh(g) && Accessible(before, RootSet(g), 4) && Live(g.objs, g.white, 1) && g.objs[1].meta == To(2) && 4 !in g.objs
  {
    hide Inv, KeepsLive, TriColor, Before, Accessible, RootedAt, BareBut, Quad;
    g := PoisedState();
    PoisedParts(g);
    ghost var h := g.objs;
    QuadTables(g);
    SetGives(g, 2, Strong);
    assert !Inv(g);
    before := g.objs;
    RootedSet(g);
    StrongLater(h, before, RootSet(g));
    BeforeStill(h, g, 2);
    EndPoised(g);
  }

  lemma QuadTables(g: GlobalState)
    requires Poised(g) && Quad(g.objs)
    ensures Live(g.objs, g.white, 2) && g.objs[2].kind.Table? && 1 in g.objs && g.objs[1].meta == To(2) && 4 in g.objs
  {
    hide Sound, Owned, RootsLive, TriColor;
  }

  lemma RootedSet(g: GlobalState)
    requires RootedAt(g)
    ensures 1 in RootSet(g)
  {
    assert g.roots[0].To? && g.roots[0].r == 1;
  }

  lemma StrongNow(h0: Heap, h: Heap, roots: set<Ref>)
    requires 1 in roots && BareBut(h0) && h == h0[1 := h0[1].(meta := Empty)]
    ensures Accessible(h, roots, 4)
  {
    HoldsFour(h, roots);
  }

  lemma StrongLater(h0: Heap, h: Heap, roots: set<Ref>)
    requires 1 in roots && BareBut(h0) && 2 in h0 && h0[1].meta == To(2) && h == h0[2 := h0[2].(gives := Strong)]
    ensures Accessible(h, roots, 4)
  {
    HoldsFour(h, roots);
  }

  /** What a strong table that is a root holds is strongly accessible. */
  lemma HoldsFour(h: Heap, roots: set<Ref>)
    requires 1 in roots && 1 in h && h[1].kind.Table? && h[1].nodes == [Node(Plain, To(4))] && ModeOf(h, 1).Strong?
    ensures Accessible(h, roots, 4)
  {
    forall m: iset<Ref> | (forall q :: q in roots ==> q in m) && StronglyClosed(h, m) ensures 4 in m {
      assert KeepsAlive(h, h[1], Strong, m);
      assert InSet(m, h[1].nodes[0].val);
    }
  }

  // ---------- a finalizer that is called in the middle of the sweep ----------

  /** The main thread 0, and userdata 1 to `n` with finalizers, which nobody refers to. */
  ghost predicate Many(h: Heap, n: nat) {
    && (forall r: Ref :: r in h <==> r <= n)
    && h[0].kind.Thread? && h[0].slots == [] && h[0].nodes == [] && h[0].meta == Empty && !h[0].fin
    && forall r: Ref :: 1 <= r <= n ==> h[r].kind.Udata? && h[r].fin
  }

  lemma NoneYet(h: Heap)
    requires h == map[0 := Bare(Thread)]
    ensures Many(h, 0)
  {
  }

  /** The numbers from `n` down to 1. */
  function Down(n: nat): (l: seq<Ref>)
    ensures |l| == n && Distinct(l) && forall r :: r in l <==> 1 <= r <= n
  {
    if n == 0 then []
    else
      var rest := Down(n - 1);
      assert forall i :: 0 <= i < |rest| ==> rest[i] in rest;
      [n] + rest
  }

  /** `n` userdata are created, and get finalizers. */
  method ManyUdata(n: nat) returns (g: GlobalState)
    ensures fresh(g) && Inv(g) && g.gcstate == GCSpause && g.running == g.mainthread == 0 && g.roots == seq(10, i => Empty)
    ensures Many(g.objs, n) && g.finobj == Down(n) && g.tobefnz == []
  {
    hide Inv, KeepsLive;
    g := new GlobalState(0);
    StartInv(g);
    var k := 0;
    NoneYet(g.objs);
    while k < n
      invariant 0 <= k <= n && fresh(g) && Inv(g) && g.gcstate == GCSpause && g.running == g.mainthread == 0 && g.roots == seq(10, i => Empty)
      invariant Many(g.objs, k) && g.finobj == Down(k) && g.tobefnz == []
    {
      k := k + 1;
      NewObject(g, k, Udata, 1);
      CheckFinalizer(g, k, true);
    }
  }

  lemma ManyEnclosed(g: GlobalState, n: nat)
    requires Many(g.objs, n) && (forall r :: r in g.objs ==> g.objs[r].color.White?) && g.running == g.mainthread == 0 && g.roots == seq(10, i => Empty)
    requires g.bound == iset{0} && g.tobefnz == []
    ensures Encloses(g) && RootsWithin(g)
  {
    assert FitsAt(g.objs, g.bound, 0);
    forall i | 0 <= i < |g.roots| ensures InSet(g.bound, g.roots[i]) {
    }
  }

  /** Nothing else is in `allgc`. */
  lemma ManyAlone(g: GlobalState, n: nat)
    requires Inv(g) && Many(g.objs, n) && g.mainthread == 0 && g.finobj == Down(n) && g.tobefnz == []
    ensures g.allgc == []
  {
    hide Sound, RootsLive, PhaseInv, Distinct;
    var l := g.allgc + g.finobj + g.tobefnz;
    assert l == g.allgc + Down(n);
    ApartParts(g.allgc, Down(n));
    forall r ensures r !in g.allgc {
      assert r in g.allgc ==> r in l;
    }
    HeadIn(g.allgc);
  }

  lemma ManyOnward(h: Heap, h': Heap, n: nat)
    requires Many(h, n) && Onward(h, h', {})
    ensures Many(h', n)
  {
    assert OnwardAt(h, h', {}, 0);
    forall r: Ref | 1 <= r <= n ensures h'[r].kind.Udata? && h'[r].fin {
      assert OnwardAt(h, h', {}, r);
    }
  }

  /** Marking reaches none of them. */
  method ManyUnmarked(n: nat) returns (g: GlobalState)
    ensures fresh(g) && Inv(g) && g.gcstate == GCSatomic && g.finobj == Down(n) && g.tobefnz == g.allgc == []
    ensures Within(g) && RootsWithin(g) && g.bound == iset{0}
  {
    hide Inv, Within, Onward, RootsWithin, Many, Encloses, MarkedUpTo, NoBlackTables;
    g := ManyUdata(n);
    ghost var h := g.objs;
    g.bound := iset{0};
    ReadyToRestart(g);
    ManyEnclosed(g, n);
    Restart(g);
    ghost var h1 := g.objs;
    MarkThrough(g);
    OnwardOn(h, h1, g.objs, {}, {});
    ManyOnward(h, g.objs, n);
    ManyAlone(g, n);
  }

  lemma AllPicked(all: seq<Ref>, fin: seq<Ref>, fnz: seq<Ref>)
    requires Separated(all, [], fin, fnz) && Distinct(all) && forall r :: r in all ==> r in fnz
    ensures fin == [] && |fnz| == |all|
  {
    assert fnz[0..] == fnz;
    assert |multiset(fin) + multiset(fnz)| == |fin| + |fnz|;
    if fin != [] {
      InBothParts(all, fin, fnz, fin[0]);
      DistinctOnce(all, fin[0]);
    }
  }

  lemma InBothParts(all: seq<Ref>, fin: seq<Ref>, fnz: seq<Ref>, r: Ref)
    requires multiset(fin) + multiset(fnz) == multiset(all) && r in fin && forall r :: r in all ==> r in fnz
    ensures multiset(all)[r] >= 2
  {
    assert r in multiset(fin) && r in multiset(all);
    assert r in all && r in multiset(fnz);
  }

  lemma {:induction false} DistinctOnce(l: seq<Ref>, r: Ref)
    requires Distinct(l)
    ensures multiset(l)[r] <= 1
  {
    if l != [] {
      var rest := l[1..];
      assert l == [l[0]] + rest;
      DistinctOnce(rest, r);
      if r == l[0] {
        assert r !in multiset(rest);
      }
    }
  }

  /** So all are marked in the atomic step, for their finalizers. */
  method ManySeparated(n: nat) returns (g: GlobalState)
    ensures fresh(g) && Inv(g) && g.gcstate == GCSswpallgc && g.sweepgc == Off && g.finobj == [] && |g.tobefnz| == n
    ensures forall r :: r in g.tobefnz ==> r in g.objs && !g.objs[r].color.White?
  {
    hide Inv, Within, Separated, LiveWithin, Keeps, RootsWithin;
    g := ManyUnmarked(n);
    AtomicStep(g);
    AllPicked(Down(n), g.finobj, g.tobefnz);
  }

  /** The last object to be finalized has not been swept, and `sweepgc` stands at its link. */
  ghost predicate OneLeft(g: GlobalState, last: Ref)
    reads g`objs, g`gcstate, g`sweepgc, g`tobefnz
  {
    && g.gcstate == GCSswptobefnz && g.tobefnz != [] && g.sweepgc == At(ToBeFnz, |g.tobefnz| - 1)
    && last == g.tobefnz[|g.tobefnz| - 1] && last in g.objs && !g.objs[last].color.White?
  }

  /** One slice sweeps `max` objects, all but the last one. */
  method ManySwept(max: nat) returns (g: GlobalState, last: Ref)
    requires max >= 1
    ensures fresh(g) && Inv(g) && |g.tobefnz| == max + 1 && OneLeft(g, last)
  {
    hide Inv, Sweeps, StepSwept, SliceSwept, Survivors, SliceTaken, SliceEnd;
    g := ManySeparated(max + 1);
    last := g.tobefnz[max];
    SweepStep(g, max);
    HeadIn(g.finobj);
    assert g.finobj == [] && last in g.objs && !g.objs[last].color.White?;
    SweepStep(g, max);
    HeadIn(g.finobj);
    assert g.finobj == [] && last in g.objs && !g.objs[last].color.White?;
    SweepStep(g, max);
  }

  /** Finalizers of swept objects are called, until the one in front of the last is the first. */
  method ManyFinalized(max: nat) returns (g: GlobalState, last: Ref)
    requires max >= 1
    ensures fresh(g) && Inv(g) && |g.tobefnz| == 2 && OneLeft(g, last)
  {
    hide Inv, Owned, KeepsLive, Swept;
    g, last := ManySwept(max);
    while |g.tobefnz| > 2
      invariant fresh(g) && Inv(g) && |g.tobefnz| >= 2 && OneLeft(g, last)
      decreases |g.tobefnz|
    {
      LastDiffers(g);
      var o := Udata2Finalize(g);
    }
  }

  lemma LastDiffers(g: GlobalState)
    requires Inv(g) && |g.tobefnz| >= 2
    ensures g.tobefnz[0] != g.tobefnz[|g.tobefnz| - 1]
  {
    hide Sound, RootsLive;
    DistinctPart(g.allgc + g.finobj, g.tobefnz);
  }

  lemma HalfSwept(g: GlobalState, last: Ref)
    requires Inv(g) && |g.tobefnz| == 2 && OneLeft(g, last)
    ensures !Swept(g.objs, g.white, g.tobefnz[1..]) && g.tobefnz[0] != last
  {
    LastDiffers(g);
    assert g.tobefnz[1..][0] == last;
  }

  /**
    Whatever number `max` of objects the sweep takes at a time: of `max` + 1 userdata that are
    to be finalized one slice leaves one; then the finalizers of the others are called. The
    last of these calls leads the sweep into `allgc`, where it ends. The object that was left
    is still marked then, although every object should be white.
   */
  method FinalizerLost(max: nat) returns (g: GlobalState, last: Ref)
    requires max >= 1
    ensures fresh(g) && g.tobefnz == [last] && last in g.objs && !g.objs[last].color.White? && g.sweepgc == Off
  {
    hide Inv, Sweeps, Owned, Behind, KeepsLive, Swept;
    g, last := ManyFinalized(max);
    HalfSwept(g, last);
    var o := Udata2Finalize(g);
    assert !Inv(g) && g.sweepgc == At(AllGc, 1);
    RestOfSweep(g, max);
  }

  /** The sweep of `allgc` from link 1 on, `max` objects at a time. */
  method RestOfSweep(g: GlobalState, max: nat)
    requires max >= 1 && g.sweepgc == At(AllGc, 1) && g.allgc != [] && SweptTo(g.objs, g.white, g.allgc, 1)
    requires Owned(g.objs, g.mainthread, g.allgc + g.finobj + g.tobefnz)
    modifies g`objs, g`allgc, g`sweepgc
    ensures g.sweepgc == Off && forall r :: r in g.tobefnz && r in old(g.objs) ==> r in g.objs && g.objs[r] == old(g.objs)[r]
  {
    hide Sweeps, Behind, SweptTo, Owned, StepSwept, SliceSwept, Survivors, SliceTaken, SliceEnd;
    while g.sweepgc.At?
      invariant g.sweepgc.At? ==> g.sweepgc.list == AllGc && g.sweepgc.i <= |g.allgc| && SweptTo(g.objs, g.white, g.allgc, g.sweepgc.i)
      invariant Owned(g.objs, g.mainthread, g.allgc + g.finobj + g.tobefnz)
      invariant forall r :: r in g.tobefnz && r in old(g.objs) ==> r in g.objs && g.objs[r] == old(g.objs)[r]
      decreases g.sweepgc.At?, if g.sweepgc.At? then |g.allgc| - g.sweepgc.i else 0
    {
      ghost var all := g.allgc;
      Elsewhere(g);
      assert [] + all + (g.finobj + g.tobefnz) == all + g.finobj + g.tobefnz;
      var l, i := SweepList(g, g.allgc, g.sweepgc.i, max, [], g.finobj + g.tobefnz);
      assert [] + l + (g.finobj + g.tobefnz) == l + g.finobj + g.tobefnz;
      g.allgc := l;
      g.sweepgc := if i == |l| then Off else At(AllGc, i);
    }
  }

  lemma Elsewhere(g: GlobalState)
    requires Owned(g.objs, g.mainthread, g.allgc + g.finobj + g.tobefnz)
    ensures forall r :: r in g.tobefnz ==> r !in g.allgc
  {
    ApartParts(g.allgc + g.finobj, g.tobefnz);
  }
}
