/**
  The steps of a collection cycle in `lgc.c`: marking step by step and the atomic step.
 */
module GcCycle {
  import opened GcHeap
  import opened GcBound
  import opened GcEntries
  import opened GcMark
  import opened GcInvariant
  import opened GcPropagate
  import opened GcAtomic
  import opened GcSweep

  /** While nothing is dead, soundness is well-formedness. */
  lemma SoundIffWellFormed(h: Heap, white: bool)
    requires NoneDead(h, white)
    ensures Sound(h, white) <==> WellFormed(h)
  {
    if Sound(h, white) {
      forall r | r in h ensures WellFormedAt(h, r) {
        assert SoundAt(h, white, r);
      }
    }
    if WellFormed(h) {
      forall r | r in h ensures SoundAt(h, white, r) {
        assert WellFormedAt(h, r);
      }
    }
  }

  lemma OnwardNoneDead(h: Heap, h': Heap, w: set<Ref>, white: bool)
    requires Onward(h, h', w) && NoneDead(h, white)
    ensures NoneDead(h', white)
  {
    forall r | r in h' ensures !IsDead(h'[r], white) {
      assert OnwardAt(h, h', w, r);
    }
  }

  lemma OnwardOwned(h: Heap, h': Heap, w: set<Ref>, main: Ref, lists: seq<Ref>)
    requires Onward(h, h', w) && Owned(h, main, lists)
    ensures Owned(h', main, lists)
  {
  }

  lemma OnwardLive(h: Heap, h': Heap, w: set<Ref>, white: bool, main: Ref, running: Ref, roots: seq<Slot>, fin: seq<Ref>, fnz: seq<Ref>)
    requires Onward(h, h', w) && AllLive(h, white, main, running, roots, fin, fnz)
    ensures AllLive(h', white, main, running, roots, fin, fnz)
  {
    assert forall r :: r in h ==> r in h' && OnwardAt(h, h', w, r);
  }

  /** What marking leaves of the invariant. */
  lemma MarkedOn(h: Heap, g: GlobalState)
    requires Onward(h, g.objs, {}) && NoneDead(h, g.white) && Owned(h, g.mainthread, g.allgc + g.finobj + g.tobefnz)
    requires AllLive(h, g.white, g.mainthread, g.running, g.roots, g.finobj, g.tobefnz) && TriColor(g.objs, MarkLists(g))
    ensures NoneDead(g.objs, g.white) && Sound(g.objs, g.white) && Owned(g.objs, g.mainthread, g.allgc + g.finobj + g.tobefnz) && RootsLive(g)
  {
    hide Sound, Owned, AllLive, TriColor, Onward, NoneDead, WellFormed, RootsLive;
    OnwardNoneDead(h, g.objs, {}, g.white);
    OnwardOwned(h, g.objs, {}, g.mainthread, g.allgc + g.finobj + g.tobefnz);
    OnwardLive(h, g.objs, {}, g.white, g.mainthread, g.running, g.roots, g.finobj, g.tobefnz);
    TriColorFormed(g.objs, MarkLists(g));
    SoundIffWellFormed(g.objs, g.white);
    LiveAsRoots(g);
  }

  // ---------- the bound ----------

  /** In this cycle the collector has kept to the bound, and will keep to it. */
  ghost predicate Within(g: GlobalState)
    reads g`objs, g`gray, g`grayagain, g`allweak, g`bound
  {
    Confined(g.objs, MarkLists(g).(bound := g.bound))
  }

  /** The bound encloses what a cycle starts from. */
  ghost predicate Encloses(g: GlobalState)
    reads g`objs, g`bound, g`running, g`roots, g`tobefnz
  {
    Bounded(g.objs, g.bound) && g.mainthread in g.bound && RootsWithin(g) && FnzWithin(g)
  }

  lemma EverythingWithin(g: GlobalState)
    requires g.bound == Everything()
    ensures Within(g) && Encloses(g)
  {
    Unconfined(g.objs, MarkLists(g).(bound := g.bound));
    EverythingFits(g.objs);
    hide Bounded;
    forall i | 0 <= i < |g.roots| ensures InSet(g.bound, g.roots[i]) {
      assert g.roots[i].To? ==> IsRef(g.roots[i].r);
    }
    IsThere(g.mainthread);
    assert RootsWithin(g) by {
      IsThere(g.running);
    }
  }

  /** A bound that has been left is given up. */
  ghost method KeepBound(g: GlobalState)
    modifies g`bound
    ensures Within(g) && (old(Within(g)) ==> g.bound == old(g.bound))
    ensures old(RootsWithin(g)) ==> RootsWithin(g)
  {
    if !Within(g) {
      g.bound := Everything();
      EverythingWithin(g);
    }
  }

  /** The invariant of marking, with the bound and without. */
  lemma WithBound(g: GlobalState)
    requires TriColor(g.objs, MarkLists(g)) && Within(g)
    ensures TriColor(g.objs, MarkLists(g).(bound := g.bound))
  {
    assert AllLists(MarkLists(g)) == AllLists(MarkLists(g).(bound := g.bound));
    hide Confined;
    forall r | r in g.objs ensures CoveredAt(g.objs, MarkLists(g).(bound := g.bound), r) {
      assert CoveredAt(g.objs, MarkLists(g), r);
    }
  }

  lemma WithoutBound(g: GlobalState, ls: Lists)
    requires TriColor(g.objs, ls) && ls == MarkLists(g).(bound := g.bound)
    ensures TriColor(g.objs, MarkLists(g)) && Within(g)
  {
    Widened(g.objs, ls);
  }

  // ---------- steps ----------

  method PropagateOne(g: GlobalState)
    requires g.gcstate == GCSpropagate && Marking(g) && g.gray != [] && Within(g)
    modifies g`objs, g`gray, g`grayagain, g`weak, g`allweak, g`ephemeron
    ensures TriColor(g.objs, MarkLists(g)) && Within(g) && AllWeakOk(g.objs, g.allweak) && g.weak == g.ephemeron == []
    ensures Onward(old(g.objs), g.objs, {}) && Progress(old(g.objs), old(g.gray), g.objs, g.gray)
    ensures Heeds(old(g.objs), old(g.gray[0]), g.objs) && AgainHeeds(g.objs, old(g.gray[0]), old(g.grayagain), g.grayagain)
  {
    hide TriColor, Onward, NoneDead, WeakPushed, Pushed, Within, AllWeakOk, Heeds, AgainHeeds, Progress;
    ghost var h, ls := g.objs, ListsOf(g, []);
    WithBound(g);
    assert ls == MarkLists(g).(bound := g.bound);
    PropagateMark(g, []);
    WithoutBound(g, ListsOf(g, []));
    StillAllWeak(h, g.objs, ls, ListsOf(g, []));
  }

  /** GCSpropagate: one gray object is traversed. */
  method PropagateStep(g: GlobalState)
    requires Inv(g) && g.gcstate == GCSpropagate
    modifies g`objs, g`gray, g`grayagain, g`weak, g`allweak, g`ephemeron, g`gcstate, g`bound
    ensures Inv(g) && Onward(old(g.objs), g.objs, {}) && Within(g)
    ensures old(Within(g)) ==> g.bound == old(g.bound)
    ensures g.gcstate == GCSpropagate || (g.gcstate == GCSatomic && g.gray == [])
    ensures Progress(old(g.objs), old(g.gray), g.objs, g.gray)
    ensures Heeds(old(g.objs), old(g.gray[0]), g.objs) && AgainHeeds(g.objs, old(g.gray[0]), old(g.grayagain), g.grayagain)
  {
    hide Sound, Owned, AllLive, TriColor, Onward, NoneDead, RootsLive, Within, AllWeakOk, Heeds, AgainHeeds, Progress, IsMarked;
    ghost var h := g.objs;
    RootsAsLive(g);
    KeepBound(g);
    PropagateOne(g);
    MarkedOn(h, g);
    OnwardMarked(h, g.objs, {}, To(g.mainthread));
    if g.gray == [] {
      g.gcstate := GCSatomic;
    }
  }

  lemma StillAllWeak(h: Heap, h': Heap, ls: Lists, ls': Lists)
    requires Onward(h, h', {}) && AllWeakOk(h, ls.allweak) && WeakPushed(h', ls, ls') && Pushed(h', {AllWeak}, ls.allweak, ls'.allweak)
    ensures AllWeakOk(h', ls'.allweak)
  {
    ModesStay(h, h', {AllWeak}, ls.allweak, ls'.allweak, AllWeak);
    AllWeakWaits(h, ls.allweak);
    WaitingPushed(h, h', {}, ls.allweak, ls'.allweak);
  }

  lemma AllWeakWaits(h: Heap, l: seq<Ref>)
    requires AllWeakOk(h, l)
    ensures Waiting(h, l)
  {
  }

  lemma FreshLists(h: Heap, m: iset<Ref>)
    requires WellFormed(h) && (forall r :: r in h ==> h[r].color.White?) && Bounded(h, m)
    ensures TriColor(h, Lists(false, [], [], [], [], [], m))
  {
    hide Bounded;
  }

  lemma AllWhite(g: GlobalState)
    requires Owned(g.objs, g.mainthread, g.allgc + g.finobj + g.tobefnz) && AllSwept(SweepStateOf(g)) && g.objs[g.mainthread].color == White(g.white)
    ensures (forall r :: r in g.objs ==> g.objs[r].color == White(g.white)) && NoneDead(g.objs, g.white)
  {
    forall r | r in g.objs ensures g.objs[r].color == White(g.white) {
      if r != g.mainthread {
        assert r in g.allgc || r in g.finobj || r in g.tobefnz;
      }
    }
  }

  /** `restartcollection`. */
  method RestartCollection(g: GlobalState)
    requires WellFormed(g.objs) && (forall r :: r in g.objs ==> g.objs[r].color.White?) && Encloses(g)
    requires g.mainthread in g.objs && g.objs[g.mainthread].kind.Thread?
    requires (forall i :: 0 <= i < |g.roots| ==> InHeap(g.objs, g.roots[i])) && forall r :: r in g.tobefnz ==> r in g.objs
    modifies g`objs, g`gray, g`grayagain, g`weak, g`allweak, g`ephemeron
    ensures TriColor(g.objs, MarkLists(g).(bound := g.bound)) && g.gray != [] && g.grayagain == g.weak == g.allweak == g.ephemeron == []
    ensures Onward(old(g.objs), g.objs, {}) && IsMarked(g.objs, To(g.mainthread)) && MarkedUpTo(g.objs, g.roots, |g.roots|)
    ensures MarkedUpTo(g.objs, AsSlots(g.tobefnz), |g.tobefnz|)
    ensures NoBlackTables(g.objs)
  {
    hide TriColor, Onward, MarkedUpTo, Grows, WellFormed, Bounded, InSet, NoBlackTables;
    ghost var h := g.objs;
    FreshLists(h, g.bound);
    g.gray, g.grayagain, g.weak, g.allweak, g.ephemeron := [], [], [], [], [];
    ghost var ls := MarkLists(g).(bound := g.bound);
    MarkSlot(g, To(g.mainthread)) by { MainIn(g.mainthread, g.bound); }
    ghost var h1 := g.objs;
    MarkingKeeps(h, ls, h1, g.gray);
    MainQueued(h, [], h1, g.gray, g.mainthread);
    WhiteTables(h);
    TablesGray(h, [], h1, g.gray);
    SlotsThere(h, h1, g.roots, g.tobefnz, g.bound);
    MarkEach(g, g.roots, MarkLists(g).(bound := g.bound));
    ghost var h2 := g.objs;
    OnwardOn(h, h1, h2, {}, {});
    SlotsThere(h, h2, g.roots, g.tobefnz, g.bound);
    MarkEach(g, AsSlots(g.tobefnz), MarkLists(g).(bound := g.bound));
    RootsStay(h2, g.objs, {}, g.roots);
    OnwardOn(h1, h2, g.objs, {}, {});
    OnwardOn(h, h1, g.objs, {}, {});
    OnwardMarked(h1, g.objs, {}, To(g.mainthread));
  }

  lemma WhiteTables(h: Heap)
    requires forall r :: r in h ==> h[r].color.White?
    ensures NoBlackTables(h)
  {
  }

  lemma MainIn(main: Ref, m: iset<Ref>)
    requires main in m
    ensures InSet(m, To(main))
  {
  }

  /** GCSpause: a new cycle starts. */
  method Restart(g: GlobalState)
    requires Inv(g) && g.gcstate == GCSpause
    modifies g`objs, g`gray, g`grayagain, g`weak, g`allweak, g`ephemeron, g`gcstate, g`bound
    ensures Inv(g) && g.gcstate == GCSpropagate && Onward(old(g.objs), g.objs, {}) && Within(g)
    ensures old(Encloses(g)) ==> g.bound == old(g.bound)
    ensures IsMarked(g.objs, To(g.mainthread)) && MarkedUpTo(g.objs, AsSlots(g.tobefnz), |g.tobefnz|)
    ensures MarkedUpTo(g.objs, g.roots, |g.roots|) && g.grayagain == g.allweak == [] && NoBlackTables(g.objs)
  {
    hide Sound, Owned, AllLive, TriColor, Onward, NoneDead, RootsLive, Within, Encloses, MarkedUpTo, AllSwept, WellFormed, IsMarked, NoBlackTables, AllWeakOk, InHeap, Inv, PhaseInv, Marking, SweepInv, RootsWithin;
    ghost var h := g.objs;
    AtPause(g);
    RootsAsLive(g);
    ReadyToRestart(g);
    if !Encloses(g) {
      g.bound := Everything();
      EverythingWithin(g);
    }
    RestartCollection(g);
    WithoutBound(g, MarkLists(g).(bound := g.bound));
    g.gcstate := GCSpropagate;
    MarkedOn(h, g);
    NoneWaiting(g.objs);
    NowMarking(g);
  }

  lemma AtPause(g: GlobalState)
    requires Inv(g) && g.gcstate == GCSpause
    ensures Sound(g.objs, g.white) && Owned(g.objs, g.mainthread, g.allgc + g.finobj + g.tobefnz) && RootsLive(g) && g.sweepgc == Off
  {
    hide Sound, Owned, RootsLive, AllSwept;
  }

  lemma NowMarking(g: GlobalState)
    requires g.gcstate == GCSpropagate && g.gray != [] && g.sweepgc == Off && g.weak == g.ephemeron == [] && NoneDead(g.objs, g.white)
    requires Sound(g.objs, g.white) && Owned(g.objs, g.mainthread, g.allgc + g.finobj + g.tobefnz) && RootsLive(g)
    requires TriColor(g.objs, MarkLists(g)) && AllWeakOk(g.objs, g.allweak) && IsMarked(g.objs, To(g.mainthread))
    ensures Inv(g)
  {
    hide Sound, Owned, RootsLive, TriColor, AllWeakOk, NoneDead;
  }

  lemma NoneWaiting(h: Heap)
    ensures AllWeakOk(h, [])
  {
  }

  lemma ReadyToRestart(g: GlobalState)
    requires Inv(g) && g.gcstate == GCSpause
    ensures WellFormed(g.objs) && (forall r :: r in g.objs ==> g.objs[r].color.White?) && NoneDead(g.objs, g.white)
    ensures g.mainthread in g.objs && g.objs[g.mainthread].kind.Thread?
    ensures (forall i :: 0 <= i < |g.roots| ==> InHeap(g.objs, g.roots[i])) && forall r :: r in g.tobefnz ==> r in g.objs
  {
    hide Sound, Owned, AllSwept, RootsLive, NoneDead;
    AllWhite(g);
    SoundIffWellFormed(g.objs, g.white);
    RootsThere(g);
    MainThere(g.objs, g.mainthread, g.allgc + g.finobj + g.tobefnz);
  }

  lemma RootsThere(g: GlobalState)
    requires RootsLive(g)
    ensures InHeap(g.objs, To(g.mainthread)) && (forall i :: 0 <= i < |g.roots| ==> InHeap(g.objs, g.roots[i])) && forall r :: r in g.tobefnz ==> r in g.objs
  {
  }

  lemma SlotsThere(h: Heap, h': Heap, roots: seq<Slot>, fnz: seq<Ref>, m: iset<Ref>)
    requires Onward(h, h', {}) && (forall i :: 0 <= i < |roots| ==> InHeap(h, roots[i])) && forall r :: r in fnz ==> r in h && r in m
    ensures (forall i :: 0 <= i < |roots| ==> InHeap(h', roots[i])) && forall i :: 0 <= i < |fnz| ==> InHeap(h', AsSlots(fnz)[i]) && InSet(m, AsSlots(fnz)[i])
  {
    forall i | 0 <= i < |fnz| ensures InHeap(h', AsSlots(fnz)[i]) && InSet(m, AsSlots(fnz)[i]) {
      assert fnz[i] in fnz;
    }
  }

  lemma MainQueued(h: Heap, gr: seq<Ref>, h': Heap, gr': seq<Ref>, main: Ref)
    requires Grows(h, gr, h', gr', -1) && main in h && h[main].color.White? && IsMarked(h', To(main)) && h[main].kind.Thread?
    ensures |gr'| > |gr| && Onward(h, h', {})
  {
    assert MarksAt(h, h', -1, main);
    assert main in gr'[..|gr'| - |gr|];
    MarksOnward(h, h', -1);
  }

  // ---------- the atomic step ----------

  lemma DistinctCounts(s: seq<Ref>)
    ensures Distinct(s) <==> forall r :: multiset(s)[r] <= 1
  {
    if s != [] {
      var init, last := s[..|s| - 1], s[|s| - 1];
      assert s == init + [last];
      DistinctCounts(init);
      if Distinct(s) {
        assert forall i, j :: 0 <= i < j < |init| ==> s[i] != s[j];
        assert forall i :: 0 <= i < |init| ==> s[i] != s[|s| - 1];
        assert last !in init;
        forall r ensures multiset(s)[r] <= 1 {
          assert multiset(s)[r] == multiset(init)[r] + multiset([last])[r];
        }
      }
      if forall r :: multiset(s)[r] <= 1 {
        forall r ensures multiset(init)[r] <= 1 {
          assert multiset(s)[r] == multiset(init)[r] + multiset([last])[r];
        }
        assert multiset(s)[last] == multiset(init)[last] + multiset([last])[last];
        assert last !in init;
        forall i, j | 0 <= i < j < |s| ensures s[i] != s[j] {
          if j < |init| {
            assert init[i] != init[j];
          } else {
            assert init[i] in init;
          }
        }
      }
    }
  }

  lemma OwnedAgain(h: Heap, main: Ref, all: seq<Ref>, fin: seq<Ref>, fnz: seq<Ref>, fin': seq<Ref>, fnz': seq<Ref>)
    requires Owned(h, main, all + fin + fnz) && Separated(fin, fnz, fin', fnz')
    ensures Owned(h, main, all + fin' + fnz')
    ensures forall r :: r in fin' ==> r in fin
    ensures forall r :: r in fin' || r in fnz' <==> r in fin || r in fnz
  {
    var a, b := all + fin + fnz, all + fin' + fnz';
    assert fnz' == fnz + fnz'[|fnz|..];
    assert multiset(a) == multiset(all) + multiset(fin) + multiset(fnz);
    assert multiset(b) == multiset(all) + multiset(fin') + (multiset(fnz) + multiset(fnz'[|fnz|..]));
    assert multiset(a) == multiset(b);
    DistinctCounts(a);
    DistinctCounts(b);
    assert forall r :: r in a <==> r in multiset(a);
    assert forall r :: r in b <==> r in multiset(b);
    assert forall r :: r in fin' ==> r in multiset(fin);
    forall r ensures r in fin' || r in fnz' <==> r in fin || r in fnz {
      assert r in fin <==> r in multiset(fin);
      assert r in fin' <==> r in multiset(fin');
      assert r in fnz'[|fnz|..] <==> r in multiset(fnz'[|fnz|..]);
      assert r in fnz' <==> r in fnz || r in fnz'[|fnz|..];
    }
  }

  /** After the flip the dead are exactly the unmarked. */
  lemma FlipSound(h0: Heap, h: Heap, w: set<Ref>, white: bool)
    requires NoneDead(h0, white) && Onward(h0, h, w) && AllComplete(h) && WellFormed(h)
    ensures forall r :: r in h ==> (IsDead(h[r], !white) <==> h[r].color.White?)
    ensures Sound(h, !white)
  {
    forall r | r in h ensures IsDead(h[r], !white) <==> h[r].color.White? {
      assert OnwardAt(h0, h, w, r);
    }
    forall r | r in h ensures SoundAt(h, !white, r) {
      assert WellFormedAt(h, r);
      if !IsDead(h[r], !white) {
        assert Complete(h, h[r]);
      }
    }
  }

  lemma FlipRoots(g: GlobalState, h0: Heap, fin: seq<Ref>)
    requires RootsMarked(g) && (forall r :: r in g.tobefnz ==> IsMarked(g.objs, To(r)))
    requires forall r :: r in g.objs ==> (IsDead(g.objs[r], g.white) <==> g.objs[r].color.White?)
    requires (forall r :: r in g.finobj ==> r in fin) && (forall r :: r in fin ==> r in g.objs && !g.objs[r].kind.Str?)
    requires FinOk(g.objs, g.finobj, g.tobefnz)
    ensures RootsLive(g)
  {
    forall i | 0 <= i < |g.roots| ensures SlotLive(g.objs, g.white, g.roots[i]) {
      assert IsMarked(g.objs, g.roots[i]);
    }
    forall r | r in g.tobefnz ensures Live(g.objs, g.white, r) {
      assert IsMarked(g.objs, To(r));
    }
  }

  /** Objects strongly accessible in `h` from `roots` are live. */
  ghost predicate Keeps(h: Heap, roots: set<Ref>, h': Heap, white: bool) {
    forall r :: Accessible(h, roots, r) ==> Live(h', white, r)
  }

  /** Only objects of the bound are live. */
  ghost predicate LiveWithin(g: GlobalState)
    reads g`objs, g`white, g`bound
  {
    forall r :: Live(g.objs, g.white, r) ==> r in g.bound
  }

  /**
    GCSatomic: what is strongly accessible then stays, and so does what is to be finalized; what
    lies outside an enclosing bound is dead, and nothing live refers to anything dead.
   */
  method AtomicStep(g: GlobalState)
    requires Inv(g) && g.gcstate == GCSatomic
    modifies g`gcstate, g`objs, g`gray, g`grayagain, g`weak, g`allweak, g`ephemeron, g`finobj, g`tobefnz, g`white, g`allgc, g`sweepgc, g`bound
    ensures Inv(g) && g.gcstate == GCSswpallgc && g.white == !old(g.white)
    ensures Keeps(old(g.objs), RootSet(g), g.objs, g.white) && g.objs.Keys <= old(g.objs).Keys
    ensures LiveWithin(g) && (old(Within(g) && RootsWithin(g)) && (forall r :: r in g.tobefnz ==> r in old(g.bound)) ==> g.bound == old(g.bound))
    ensures Separated(old(g.finobj), old(g.tobefnz), g.finobj, g.tobefnz)
    ensures old(Within(g) && RootsWithin(g)) ==> forall r :: r in old(g.finobj) && r !in old(g.bound) ==> r in g.tobefnz
    ensures old(g.allgc) == [] ==> g.sweepgc == Off && forall r :: r in g.tobefnz ==> r in g.objs && !g.objs[r].color.White?
    ensures EntriesGoneBy(old(g.objs), g.objs, RootSet(g), old(BoundUsed(g)), LiveSet(g.objs, g.white))
  {
    hide Sound, Owned, RootsLive, Separated, Sweeps, Keeps, Within, RootsWithin, Survives, Bounded, LiveWithin, OnlyIn, Inv, EntriesGoneBy, BoundUsed, MarkedSet, LiveSet;
    ghost var h0 := g.objs;
    Flip(g);
    ghost var h2 := g.objs;
    EnterSweep(g);
    AllKept(h0, h2, g.objs, RootSet(g), g.white);
    SweepsKeys(h2, g.objs, g.white);
    LeftOutside(h2, g);
    FnzUnswept(h2, g.objs, old(g.allgc), g.tobefnz);
    GoneSwept(h0, h2, g.objs, RootSet(g), old(BoundUsed(g)), g.white);
  }

  ghost function LiveSet(h: Heap, white: bool): iset<Ref> {
    iset r | Live(h, white, r)
  }

  /** The bound for what is reached in the atomic phase. */
  ghost function BoundUsed(g: GlobalState): iset<Ref>
    reads g
  {
    if Within(g) && RootsWithin(g) then g.bound else Everything()
  }

  lemma GoneSwept(h0: Heap, h2: Heap, h3: Heap, roots: set<Ref>, bound: iset<Ref>, white: bool)
    requires Sweeps(h2, h3, white) && (forall r :: r in h2 ==> (IsDead(h2[r], white) <==> h2[r].color.White?))
    requires EntriesGoneBy(h0, h2, roots, bound, MarkedSet(h2))
    ensures EntriesGoneBy(h0, h3, roots, bound, LiveSet(h3, white))
  {
    hide Left, Reached, EntriesLeft;
    assert LiveSet(h3, white) == MarkedSet(h2);
    var m: iset<Ref> :| Reached(h0, roots, bound, m) && m <= MarkedSet(h2) && Purged(h0, h2, m, MarkedSet(h2));
    var k := MarkedSet(h2);
    forall r | r in h0 && r in h3 && r in k ensures EntriesLeft(h0, r, if r in m then m else k, k, h0[r], h3[r]) {
      Uncoloured(h0, r, if r in m then m else k, k, h0[r], h2[r], h3[r]);
    }
    assert Purged(h0, h3, m, k);
  }

  lemma Uncoloured(h: Heap, r: Ref, m: iset<Ref>, k: iset<Ref>, a: Object, b: Object, c: Object)
    requires EntriesLeft(h, r, m, k, a, b) && c == b.(color := c.color)
    ensures EntriesLeft(h, r, m, k, a, c)
  {
    assert c.slots == b.slots && c.nodes == b.nodes;
  }

  /** Marking before does not matter, and the bound may be larger. */
  lemma GoneBefore(h0: Heap, h1: Heap, h: Heap, roots: set<Ref>, bound: iset<Ref>, bound': iset<Ref>, k: iset<Ref>)
    requires Onward(h0, h1, {}) && EntriesGoneBy(h1, h, roots, bound, k) && bound <= bound'
    ensures EntriesGoneBy(h0, h, roots, bound', k)
  {
    hide Onward, Accessible, Purged, StronglyClosed;
    var m: iset<Ref> :| Reached(h1, roots, bound, m) && m <= k && Purged(h1, h, m, k);
    PurgedBefore(h0, h1, h, m, k);
    forall r | Accessible(h0, roots, r) ensures r in m {
      AccessibleLater(h0, h1, roots, r);
    }
    assert Reached(h0, roots, bound', m);
  }

  lemma AccessibleLater(h0: Heap, h1: Heap, roots: set<Ref>, r: Ref)
    requires Onward(h0, h1, {}) && Accessible(h0, roots, r)
    ensures Accessible(h1, roots, r)
  {
    forall m: iset<Ref> | (forall q :: q in roots ==> q in m) && StronglyClosed(h1, m) ensures r in m {
      ClosedBefore(h0, h1, m);
    }
  }

  ghost function AccessibleSet(h: Heap, roots: set<Ref>): iset<Ref> {
    iset r | Accessible(h, roots, r)
  }

  /**
    Where marking has a bound that strings apart holds only what is strongly accessible, strong
    accessibility itself decides which values went first: those of objects that were only brought
    back to be finalized are gone.
   */
  lemma GoneByAccess(h0: Heap, h: Heap, roots: set<Ref>, bound: iset<Ref>, k: iset<Ref>)
    requires EntriesGoneBy(h0, h, roots, bound, k)
    requires forall r :: r in bound && r in h0 && !h0[r].kind.Str? ==> Accessible(h0, roots, r)
    ensures Purged(h0, h, AccessibleSet(h0, roots), k)
  {
    hide Left, Accessible;
    var a := AccessibleSet(h0, roots);
    var m: iset<Ref> :| Reached(h0, roots, bound, m) && m <= k && Purged(h0, h, m, k);
    forall r | r in h0 && r in h && r in k ensures EntriesLeft(h0, r, if r in a then a else k, k, h0[r], h[r]) {
      assert r in a ==> r in m;
      if h0[r].kind.Str? {
        Stringlike(h0, r, if r in m then m else k, if r in a then a else k, k, h0[r], h[r]);
      } else if r in m {
        assert r in a;
        SameButStrings(h0, r, m, a, k, h0[r], h[r]);
      }
    }
  }

  lemma Stringlike(h: Heap, r: Ref, m: iset<Ref>, m': iset<Ref>, k: iset<Ref>, a: Object, b: Object)
    requires EntriesLeft(h, r, m, k, a, b) && r in h && h[r].kind.Str?
    ensures EntriesLeft(h, r, m', k, a, b)
  {
    forall i | 0 <= i < |a.nodes| ensures NodeLeft(h, m', k, a.nodes[i], b.nodes[i], false, false) {
      assert NodeLeft(h, m, k, a.nodes[i], b.nodes[i], false, false);
    }
  }

  lemma SameButStrings(h: Heap, r: Ref, m: iset<Ref>, m': iset<Ref>, k: iset<Ref>, a: Object, b: Object)
    requires EntriesLeft(h, r, m, k, a, b) && m' <= m && forall q :: q in m && q in h && !h[q].kind.Str? ==> q in m'
    ensures EntriesLeft(h, r, m', k, a, b)
  {
    assert forall s :: Dropped(h, m, s) == Dropped(h, m', s);
    hide Dropped;
    var values, keys := WeakValued(ModeOf(h, r)), WeakKeyed(ModeOf(h, r));
    forall i | 0 <= i < |a.nodes| ensures NodeLeft(h, m', k, a.nodes[i], b.nodes[i], values, keys) {
      assert NodeLeft(h, m, k, a.nodes[i], b.nodes[i], values, keys);
    }
  }

  lemma InEverything(m: iset<Ref>)
    ensures m <= Everything()
  {
    forall r | r in m ensures r in Everything() {
      IsThere(r);
    }
  }

  /** `propagateall` and `atomic`: after the flip the dead are the unmarked. */
  method Flip(g: GlobalState)
    requires Inv(g) && g.gcstate == GCSatomic
    modifies g`gcstate, g`objs, g`gray, g`grayagain, g`weak, g`allweak, g`ephemeron, g`finobj, g`tobefnz, g`white, g`sweepgc, g`bound
    ensures Sound(g.objs, g.white) && Owned(g.objs, g.mainthread, g.allgc + g.finobj + g.tobefnz) && RootsLive(g) && g.sweepgc == Off && g.white == !old(g.white)
    ensures forall r :: r in g.objs ==> (IsDead(g.objs[r], g.white) <==> g.objs[r].color.White?)
    ensures Survives(old(g.objs), g.objs, RootSet(g)) && Bounded(g.objs, g.bound) && g.objs.Keys == old(g.objs).Keys
    ensures old(Within(g) && RootsWithin(g)) && (forall r :: r in g.tobefnz ==> r in old(g.bound)) ==> g.bound == old(g.bound)
    ensures Separated(old(g.finobj), old(g.tobefnz), g.finobj, g.tobefnz) && forall r :: r in g.tobefnz ==> IsMarked(g.objs, To(r))
    ensures old(Within(g) && RootsWithin(g)) ==> forall r :: r in old(g.finobj) && r !in old(g.bound) ==> r in g.tobefnz
    ensures EntriesGoneBy(old(g.objs), g.objs, RootSet(g), old(BoundUsed(g)), MarkedSet(g.objs))
  {
    hide Sound, Owned, TriColor, Onward, NoneDead, RootsLive, Separated, WellFormed, WeakModes, Within, RootsWithin, Waiting, Collected,
         Bounded, Inv, Survives, AllComplete, FinOk, EntriesGoneBy, MarkedSet;
    ghost var h0 := g.objs;
    AtomicPrelude(g);
    ghost var h1, fin, bound := g.objs, g.finobj, g.bound;
    ghost var w := Atomic(g);
    g.sweepgc := Off;
    CollectedParts(h1, g.objs, RootSet(g), w);
    AtomicSound(h0, h1, g, w, old(g.allgc), fin, old(g.tobefnz));
    SurvivesBefore(h0, h1, g.objs, RootSet(g));
    InEverything(bound);
    GoneBefore(h0, h1, g.objs, RootSet(g), bound, old(BoundUsed(g)), MarkedSet(g.objs));
    OnwardKeys(h0, h1, {});
    OnwardKeys(h1, g.objs, w);
  }

  lemma OnwardKeys(h: Heap, h': Heap, w: set<Ref>)
    requires Onward(h, h', w)
    ensures h'.Keys == h.Keys
  {
  }

  lemma SweepsKeys(h: Heap, h': Heap, white: bool)
    requires Sweeps(h, h', white)
    ensures h'.Keys <= h.Keys
  {
  }

  lemma CollectedParts(h0: Heap, h: Heap, roots: set<Ref>, w: set<Ref>)
    requires Collected(h0, h, roots, w)
    ensures AllComplete(h) && Survives(h0, h, roots)
  {
  }

  /** What is outside the bound is not marked, hence dead. */
  lemma LeftOutside(h: Heap, g: GlobalState)
    requires Bounded(h, g.bound) && Sweeps(h, g.objs, g.white) && forall r :: r in h ==> (IsDead(h[r], g.white) <==> h[r].color.White?)
    ensures LiveWithin(g)
  {
  }

  lemma FnzUnswept(h: Heap, h': Heap, l: seq<Ref>, fnz: seq<Ref>)
    requires OnlyIn(h, h', l) && forall r :: r in fnz ==> IsMarked(h, To(r))
    ensures l == [] ==> forall r :: r in fnz ==> r in h' && !h'[r].color.White?
  {
    forall r | r in fnz && l == [] ensures r in h' && !h'[r].color.White? {
      assert IsMarked(h, To(r));
    }
  }

  /** Makes sure the gray list is empty, and that the bound holds. */
  method AtomicPrelude(g: GlobalState)
    requires Inv(g) && g.gcstate == GCSatomic
    modifies g`objs, g`gray, g`grayagain, g`weak, g`allweak, g`ephemeron, g`bound
    ensures Invariant(g, []) && g.gray == [] && RootsInHeap(g) && IsMarked(g.objs, To(g.mainthread)) && WeakModes(g.objs, ListsOf(g, []))
    ensures RootsWithin(g) && Waiting(g.objs, g.allweak) && (old(Within(g) && RootsWithin(g)) ==> g.bound == old(g.bound))
    ensures (forall r :: r in g.finobj || r in g.tobefnz ==> r in g.objs) && forall r :: r in g.finobj ==> !g.objs[r].kind.Str?
    ensures FinOk(g.objs, g.finobj, g.tobefnz)
    ensures Onward(old(g.objs), g.objs, {}) && NoneDead(g.objs, g.white) && Owned(g.objs, g.mainthread, g.allgc + g.finobj + g.tobefnz)
  {
    hide Sound, Owned, TriColor, Onward, NoneDead, WeakPushed, AllLive, RootsLive, Within, Encloses, RootsWithin, Waiting, WeakModes, AllWeakOk, FinOk, IsMarked, InHeap;
    ghost var h := g.objs;
    RootsAsLive(g);
    if !Within(g) || !RootsWithin(g) {
      g.bound := Everything();
      EverythingWithin(g);
      RootsEnclosed(g);
    }
    AtomicLists(g);
    ghost var ls := ListsOf(g, []);
    StartModes(h, ls);
    PropagateAll(g, []);
    ghost var ls' := ListsOf(g, []);
    WeakModesStay(h, g.objs, ls, ls');
    WaitingOnward(h, g.objs, ls, ls');
    OnwardNoneDead(h, g.objs, {}, g.white);
    OnwardOwned(h, g.objs, {}, g.mainthread, g.allgc + g.finobj + g.tobefnz);
    OnwardMarked(h, g.objs, {}, To(g.mainthread));
    OnwardLive(h, g.objs, {}, g.white, g.mainthread, g.running, g.roots, g.finobj, g.tobefnz);
    LiveInHeap(g);
  }

  lemma RootsEnclosed(g: GlobalState)
    requires Encloses(g)
    ensures RootsWithin(g)
  {
  }

  lemma WaitingOnward(h: Heap, h': Heap, ls: Lists, ls': Lists)
    requires Onward(h, h', {}) && Waiting(h, ls.allweak) && WeakPushed(h', ls, ls')
    ensures Waiting(h', ls'.allweak)
  {
    WaitingPushed(h, h', {}, ls.allweak, ls'.allweak);
  }

  lemma LiveInHeap(g: GlobalState)
    requires AllLive(g.objs, g.white, g.mainthread, g.running, g.roots, g.finobj, g.tobefnz)
    ensures RootsInHeap(g) && (forall r :: r in g.finobj || r in g.tobefnz ==> r in g.objs) && forall r :: r in g.finobj ==> !g.objs[r].kind.Str?
    ensures FinOk(g.objs, g.finobj, g.tobefnz)
  {
  }

  /** In the atomic phase fewer gray objects have to wait in lists. */
  lemma AtomicLists(g: GlobalState)
    requires g.gcstate == GCSatomic && TriColor(g.objs, MarkLists(g)) && g.weak == g.ephemeron == [] && Within(g)
    ensures Invariant(g, [])
  {
    hide Confined;
    var ls, ls' := MarkLists(g), ListsOf(g, []);
    assert AllLists(ls) == AllLists(ls');
    forall r | r in g.objs ensures CoveredAt(g.objs, ls', r) {
      assert CoveredAt(g.objs, ls, r);
    }
    StillConfined(g.objs, ls.(bound := g.bound), ls');
  }

  lemma StillConfined(h: Heap, ls: Lists, ls': Lists)
    requires Confined(h, ls) && ls' == ls.(atomic := true)
    ensures Confined(h, ls')
  {
    OnwardSame(h, {});
    ConfinedOnward(h, h, {}, ls, ls');
  }

  lemma StartModes(h: Heap, ls: Lists)
    requires ls.weak == ls.ephemeron == [] && AllWeakOk(h, ls.allweak)
    ensures WeakModes(h, ls) && Waiting(h, ls.allweak)
  {
  }

  lemma AtomicSound(h0: Heap, h1: Heap, g: GlobalState, w: set<Ref>, all: seq<Ref>, fin: seq<Ref>, fnz: seq<Ref>)
    requires NoneDead(h1, !g.white) && Owned(h1, g.mainthread, all + fin + fnz) && Onward(h1, g.objs, w) && AllComplete(g.objs) && WellFormed(g.objs)
    requires g.allgc == all && Separated(fin, fnz, g.finobj, g.tobefnz) && RootsMarked(g) && forall r :: r in g.tobefnz ==> IsMarked(g.objs, To(r))
    requires FinOk(h1, fin, fnz) && forall r :: r in fin ==> r in h1 && !h1[r].kind.Str?
    ensures Sound(g.objs, g.white) && Owned(g.objs, g.mainthread, g.allgc + g.finobj + g.tobefnz) && RootsLive(g)
    ensures forall r :: r in g.objs ==> (IsDead(g.objs[r], g.white) <==> g.objs[r].color.White?)
  {
    hide Sound, Owned, Separated, RootsLive, RootsMarked, AllComplete, FinOk;
    FlipSound(h1, g.objs, w, !g.white);
    OnwardOwned(h1, g.objs, w, g.mainthread, all + fin + fnz);
    OwnedAgain(g.objs, g.mainthread, all, fin, fnz, g.finobj, g.tobefnz);
    forall r | r in fin ensures r in g.objs && !g.objs[r].kind.Str? {
      assert r in g.objs && OnwardAt(h1, g.objs, w, r);
    }
    OnwardFin(h1, g.objs, w, fin, fnz, g.finobj, g.tobefnz);
    FlipRoots(g, h1, fin);
  }

  lemma OnwardFin(h: Heap, h': Heap, w: set<Ref>, fin: seq<Ref>, fnz: seq<Ref>, fin': seq<Ref>, fnz': seq<Ref>)
    requires Onward(h, h', w) && FinOk(h, fin, fnz) && forall r :: r in fin' || r in fnz' <==> r in fin || r in fnz
    ensures FinOk(h', fin', fnz')
  {
    forall r | r in h' ensures h'[r].fin <==> r in fin' || r in fnz' {
      assert OnwardAt(h, h', w, r);
    }
  }

  lemma SurvivesBefore(h0: Heap, h1: Heap, h2: Heap, roots: set<Ref>)
    requires Onward(h0, h1, {}) && Survives(h1, h2, roots)
    ensures Survives(h0, h2, roots)
  {
    hide Onward, Accessible;
    forall r | Accessible(h0, roots, r) ensures r in h2 && !h2[r].color.White? {
      AccessibleLater(h0, h1, roots, r);
    }
  }

  lemma AllKept(h0: Heap, h2: Heap, h3: Heap, roots: set<Ref>, white: bool)
    requires Survives(h0, h2, roots) && Sweeps(h2, h3, white) && Sound(h2, white)
    requires forall r :: r in h2 ==> (IsDead(h2[r], white) <==> h2[r].color.White?)
    ensures Keeps(h0, roots, h3, white)
  {
    hide Sound, Sweeps, Accessible;
    SweepsSound(h2, h3, white);
    forall r | Accessible(h0, roots, r) ensures Live(h3, white, r) {
      assert Live(h2, white, r);
    }
  }
}
