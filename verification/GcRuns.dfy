/**
  Runs of the collector together with a program.
 */
module GcRuns {
  import opened GcHeap
  import opened GcBound
  import opened GcMark
  import opened GcInvariant
  import opened GcPropagate
  import opened GcAtomic
  import opened GcSweep
  import opened GcCycle
  import opened GcMutator
  import opened GcObjects

  // ---------- how much is left of a cycle ----------

  /** Steps of the sweep that may be left. */
  ghost function SweepLeft(s: SweepState): int {
    match s.st
    case GCSswpallgc => 5 + Rest(s) + |s.finobj| + 2 * |s.tobefnz|
    case GCSswpfinobj => 4 + Rest(s) + 2 * |s.tobefnz|
    case GCSswptobefnz => 3 + Rest(s) + |s.tobefnz|
    case GCSswpend => 2 + |s.tobefnz|
    case GCScallfin => 1 + |s.tobefnz|
    case _ => 0
  }

  /** A bound for the steps that are left of the cycle. */
  ghost function StepsLeft(g: GlobalState): int
    reads g
  {
    if g.gcstate == GCSpropagate then 7 + |Whites(g.objs)| + |g.gray| + 2 * |g.objs|
    else if g.gcstate == GCSatomic then 6 + 2 * |g.objs|
    else SweepLeft(SweepStateOf(g))
  }

  lemma StepsLeftNat(g: GlobalState)
    requires Inv(g)
    ensures StepsLeft(g) >= 0 && (StepsLeft(g) == 0 <==> g.gcstate == GCSpause)
  {
    hide Sound, Owned, RootsLive, Swept, SweptTo, Marking, Whites;
  }

  lemma SameSize(h: Heap, h': Heap)
    requires h'.Keys <= h.Keys
    ensures |h'| <= |h| && (h'.Keys == h.Keys ==> |h'| == |h|)
  {
    SubsetSize(h'.Keys, h.Keys);
  }

  /** Each object but the main thread is in one of the three lists. */
  lemma OwnedSize(h: Heap, main: Ref, lists: seq<Ref>)
    requires Owned(h, main, lists)
    ensures |lists| + 1 == |h|
  {
    DistinctElements(lists);
    assert h.Keys == Members(lists) + {main};
  }

  lemma AfterAtomic(g: GlobalState)
    requires Inv(g) && g.gcstate == GCSswpallgc
    ensures StepsLeft(g) < 6 + 2 * |g.objs|
  {
    hide Sound, Owned, RootsLive, Swept, SweptTo;
    OwnedSize(g.objs, g.mainthread, g.allgc + g.finobj + g.tobefnz);
  }

  /** The sweep goes through the list of its state, or through `allgc` if it has been led there. */
  ghost predicate SweepsOwn(s: SweepState) {
    && s.st in {GCSswpallgc, GCSswpfinobj, GCSswptobefnz}
    && (s.at.At? ==> s.at.i <= |ListIn(s, s.at.list)|)
    && (s.at.At? && s.st == GCSswpallgc ==> s.at.list == AllGc) && (s.at.At? && s.st == GCSswpfinobj ==> s.at.list == FinObj)
  }

  lemma OwnSweep(g: GlobalState)
    requires Inv(g) && g.gcstate in {GCSswpallgc, GCSswpfinobj, GCSswptobefnz}
    ensures SweepsOwn(SweepStateOf(g))
  {
    hide Sound, Owned, RootsLive, Swept, SweptTo;
  }

  lemma LessAfterSlice(s: SweepState, s': SweepState, max: nat)
    requires StepSwept(s, s', max) && max > 0 && s'.tobefnz == s.tobefnz && SweepsOwn(s)
    ensures SweepLeft(s') < SweepLeft(s)
  {
    hide SliceSwept, Survivors;
  }

  // ---------- `singlestep` ----------

  /** GCScallfin: the cycle ends once nothing is left to be finalized. */
  method EndCycle(g: GlobalState)
    requires Inv(g) && g.gcstate == GCScallfin
    modifies g`gcstate
    ensures Inv(g) && g.gcstate == GCSpause && StepsLeft(g) == 0
  {
    hide Sound, Owned, RootsLive, AllLive, Swept;
    RootsAsLive(g);
    g.gcstate := GCSpause;
    LiveAsRoots(g);
  }

  /**
    `singlestep`: whatever the state, the invariant is kept, live objects stay, and at the
    atomic step those stay that are strongly accessible. In state GCScallfin it takes the
    first object to be finalized, whose finalizer is then called, and only when there is
    none (or in an emergency) does the cycle end. Every step brings the end of the cycle nearer.
   */
  method SingleStep(g: GlobalState, max: nat, emergency: bool)
    requires Inv(g)
    modifies g
    ensures Inv(g) && g.running == old(g.running) && g.roots == old(g.roots)
    ensures old(g.gcstate) != GCSatomic ==> g.white == old(g.white) && KeepsLive(old(g.objs), g.objs, g.white)
    ensures old(g.gcstate) == GCSatomic ==> g.white != old(g.white) && Keeps(old(g.objs), RootSet(g), g.objs, g.white)
    ensures old(g.gcstate) == GCScallfin ==> g.gcstate == if old(g.tobefnz) != [] && !emergency then GCScallfin else GCSpause
    ensures old(g.gcstate) == GCScallfin && old(g.tobefnz) != [] && !emergency ==> g.tobefnz == old(g.tobefnz[1..])
    ensures old(g.gcstate) == GCSpause ==> g.gcstate == GCSpropagate && RootsShaded(g) && Onward(old(g.objs), g.objs, {})
    ensures old(g.gcstate) == GCSpropagate ==>
              Within(g) && (old(Within(g)) ==> g.bound == old(g.bound)) && g.finobj == old(g.finobj) && g.tobefnz == old(g.tobefnz)
    ensures old(g.gcstate) == GCSatomic && old(StaysWithin(g)) ==> forall r :: Live(g.objs, g.white, r) ==> r in old(g.bound)
    ensures old(g.gcstate) == GCSpropagate ==>
              Progress(old(g.objs), old(g.gray), g.objs, g.gray) && g.gcstate == (if g.gray == [] then GCSatomic else GCSpropagate)
              && Onward(old(g.objs), g.objs, {})
    ensures old(g.gcstate) == GCSatomic ==> g.gcstate == GCSswpallgc && g.objs.Keys <= old(g.objs).Keys
    ensures old(g.gcstate) == GCSatomic ==> EntriesGoneBy(old(g.objs), g.objs, RootSet(g), old(BoundUsed(g)), LiveSet(g.objs, g.white))
    ensures IsSweeping(old(g.gcstate)) ==> StepSwept(old(SweepStateOf(g)), SweepStateOf(g), max)
    ensures IsSweeping(old(g.gcstate)) || old(g.gcstate) == GCSswpend || (old(g.gcstate) == GCScallfin && emergency) ==>
              Sweeps(old(g.objs), g.objs, g.white) && IsPastMarking(g.gcstate)
    ensures old(g.gcstate) == GCSswpend ==> g.gcstate == GCScallfin
    ensures old(g.gcstate) in {GCSswpend, GCScallfin} ==> g.objs.Keys == old(g.objs).Keys
    ensures old(g.gcstate) != GCSpause && (max > 0 || !IsSweeping(old(g.gcstate))) ==> StepsLeft(g) < old(StepsLeft(g))
  {
    hide Sound, Owned, RootsLive, SweepInv, Marking, KeepsLive, Keeps, Sweeps, Onward, Inv, Within, LiveWithin, Separated, OnlyIn, Swept,
         Progress, StepSwept, SweepLeft, StepsLeft, MarkedUpTo, EntriesGoneBy, BoundUsed, LiveSet;
    ghost var h, s, st := g.objs, SweepStateOf(g), g.gcstate;
    SameLive(h, g.white);
    match g.gcstate
    case GCSpause =>
      Restart(g);
      OnwardKeepsLive(h, g.objs, g.white);
    case GCSpropagate =>
      ghost var gray := g.gray;
      LeftMarking(g);
      PropagateStep(g);
      OnwardKeepsLive(h, g.objs, g.white);
      GrayWhileMarking(g);
      LessAfterMarking(h, gray, g);
    case GCSatomic =>
      LeftMarking(g);
      ghost var fin, fnz, bound, within := g.finobj, g.tobefnz, g.bound, StaysWithin(g);
      AtomicStep(g);
      if within {
        FnzEnclosed(fin, fnz, g.finobj, g.tobefnz, bound);
        InBound(g);
      }
      SameSize(h, g.objs);
      AfterAtomic(g);
    case GCSinsideatomic =>
      NotInside(g);
    case GCSswpallgc =>
      OneSweep(g, max);
    case GCSswpfinobj =>
      OneSweep(g, max);
    case GCSswptobefnz =>
      OneSweep(g, max);
    case GCSswpend =>
      LastOfSweep(g);
    case GCScallfin =>
      CallOrEnd(g, emergency);
  }

  /** What is marked, what will be, and what has a finalizer is in the bound. */
  ghost predicate StaysWithin(g: GlobalState)
    reads g
  {
    Within(g) && RootsWithin(g) && forall r :: r in g.finobj || r in g.tobefnz ==> r in g.bound
  }

  lemma InBound(g: GlobalState)
    requires LiveWithin(g)
    ensures forall r :: Live(g.objs, g.white, r) ==> r in g.bound
  {
  }

  /** GCSswpend. */
  method LastOfSweep(g: GlobalState)
    requires Inv(g) && g.gcstate == GCSswpend
    modifies g`objs, g`gcstate
    ensures Inv(g) && g.gcstate == GCScallfin && KeepsLive(old(g.objs), g.objs, g.white) && StepsLeft(g) < old(StepsLeft(g))
    ensures g.objs.Keys == old(g.objs).Keys && Sweeps(old(g.objs), g.objs, g.white)
  {
    hide Inv, KeepsLive, Sweeps;
    ghost var h := g.objs;
    SameLive(h, g.white);
    FinishSweep(g);
    SweepKeepsLive(h, h, g.objs, g.white);
  }

  /** GCScallfin. */
  method CallOrEnd(g: GlobalState, emergency: bool)
    requires Inv(g) && g.gcstate == GCScallfin
    modifies g`objs, g`allgc, g`tobefnz, g`sweepgc, g`gcstate
    ensures Inv(g) && KeepsLive(old(g.objs), g.objs, g.white) && StepsLeft(g) < old(StepsLeft(g)) && g.objs.Keys == old(g.objs).Keys
    ensures g.gcstate == if old(g.tobefnz) != [] && !emergency then GCScallfin else GCSpause
    ensures old(g.tobefnz) != [] && !emergency ==> g.tobefnz == old(g.tobefnz[1..])
    ensures old(g.tobefnz) == [] || emergency ==> g.objs == old(g.objs) && g.tobefnz == old(g.tobefnz) && Sweeps(old(g.objs), g.objs, g.white)
  {
    hide Inv, KeepsLive, Owned, Sweeps;
    SweepsSame(g.objs, g.white);
    SameLive(g.objs, g.white);
    if g.tobefnz != [] && !emergency {
      NothingToSweep(g);
      var _ := Udata2Finalize(g);
    } else {
      EndCycle(g);
    }
  }

  predicate IsSweeping(st: GcState) {
    st in {GCSswpallgc, GCSswpfinobj, GCSswptobefnz}
  }

  predicate IsPastMarking(st: GcState) {
    IsSweeping(st) || st in {GCSswpend, GCScallfin, GCSpause}
  }

  /** Marking has started: the roots, the main thread and what is to be finalized are marked. */
  ghost predicate RootsShaded(g: GlobalState)
    reads g`objs, g`roots, g`tobefnz
  {
    IsMarked(g.objs, To(g.mainthread)) && MarkedUpTo(g.objs, g.roots, |g.roots|) && MarkedUpTo(g.objs, AsSlots(g.tobefnz), |g.tobefnz|)
  }

  /** A slice of the sweep. */
  method OneSweep(g: GlobalState, max: nat)
    requires Inv(g) && IsSweeping(g.gcstate)
    modifies g`objs, g`allgc, g`finobj, g`tobefnz, g`sweepgc, g`gcstate
    ensures Inv(g) && KeepsLive(old(g.objs), g.objs, g.white) && StepSwept(old(SweepStateOf(g)), SweepStateOf(g), max)
    ensures Sweeps(old(g.objs), g.objs, g.white) && IsPastMarking(g.gcstate)
    ensures max > 0 ==> StepsLeft(g) < old(StepsLeft(g))
  {
    hide Inv, KeepsLive, Sweeps, StepSwept, OnlyIn, SweepLeft;
    ghost var h, s := g.objs, SweepStateOf(g);
    SameLive(h, g.white);
    OwnSweep(g);
    LeftSweeping(s, g);
    SweepStep(g, max);
    SweepKeepsLive(h, h, g.objs, g.white);
    StillSweeping(s, SweepStateOf(g), max);
    LeftSweeping(SweepStateOf(g), g);
    if max > 0 {
      LessAfterSlice(s, SweepStateOf(g), max);
    }
  }

  lemma StillSweeping(s: SweepState, s': SweepState, max: nat)
    requires StepSwept(s, s', max) && IsSweeping(s.st)
    ensures IsPastMarking(s'.st)
  {
  }

  lemma LeftSweeping(s: SweepState, g: GlobalState)
    requires s == SweepStateOf(g) && s.st != GCSpropagate && s.st != GCSatomic
    ensures StepsLeft(g) == SweepLeft(s)
  {
  }

  lemma LeftMarking(g: GlobalState)
    ensures g.gcstate == GCSpropagate ==> StepsLeft(g) == 7 + |Whites(g.objs)| + |g.gray| + 2 * |g.objs|
    ensures g.gcstate == GCSatomic ==> StepsLeft(g) == 6 + 2 * |g.objs|
  {
  }

  lemma GrayWhileMarking(g: GlobalState)
    requires Inv(g)
    ensures g.gcstate == GCSpropagate ==> g.gray != []
  {
  }

  lemma LessAfterMarking(h: Heap, gray: seq<Ref>, g: GlobalState)
    requires Progress(h, gray, g.objs, g.gray) && Onward(h, g.objs, {}) && g.gcstate in {GCSpropagate, GCSatomic}
    ensures StepsLeft(g) < 7 + |Whites(h)| + |gray| + 2 * |h|
  {
    OnwardKeys(h, g.objs, {});
    SameSize(h, g.objs);
    hide Onward, Shaded;
  }

  lemma NothingToSweep(g: GlobalState)
    requires Inv(g) && g.gcstate == GCScallfin
    ensures g.sweepgc == Off
  {
  }

  lemma NotInside(g: GlobalState)
    requires Inv(g)
    ensures g.gcstate != GCSinsideatomic
  {
  }

  lemma OnwardKeepsLive(h: Heap, h': Heap, white: bool)
    requires Onward(h, h', {})
    ensures KeepsLive(h, h', white)
  {
    forall r | Live(h, white, r) ensures Live(h', white, r) {
      assert r in h' && OnwardAt(h, h', {}, r);
    }
  }

  /** `luaC_fullgc` in the middle of marking: everything is swept back to white, and nothing is lost. */
  method AbandonMarking(g: GlobalState)
    requires Inv(g) && KeepInvariant(g.gcstate)
    modifies g`objs, g`allgc, g`sweepgc, g`gcstate
    ensures Inv(g) && g.gcstate == GCSswpallgc && g.objs.Keys == old(g.objs).Keys && KeepsLive(old(g.objs), g.objs, g.white)
    ensures Sweeps(old(g.objs), g.objs, g.white)
  {
    hide Sound, Owned, RootsLive, Sweeps, SweepInv, OnlyIn;
    ghost var h := g.objs;
    SameLive(h, g.white);
    EnterSweep(g);
    SweepKeepsLive(h, h, g.objs, g.white);
    NothingFreed(h, g.objs, g.white);
  }

  lemma NothingFreed(h: Heap, h': Heap, white: bool)
    requires NoneDead(h, white) && Sweeps(h, h', white)
    ensures h'.Keys == h.Keys
  {
  }

  /** A new state satisfies the invariant. */
  lemma StartInv(g: GlobalState)
    requires g.objs == map[g.mainthread := Object(Thread, Strong, White(false), false, Empty, [], [], Empty)]
    requires g.allgc == g.finobj == g.tobefnz == [] && g.roots == seq(10, i => Empty) && g.sweepgc == Off && g.gcstate == GCSpause && !g.white
    requires g.running == g.mainthread
    ensures Inv(g)
  {
  }

  // ---------- a full collection ----------

  function Rank(st: GcState): nat {
    match st
    case GCSswpallgc => 5
    case GCSswpfinobj => 4
    case GCSswptobefnz => 3
    case GCSswpend => 2
    case GCScallfin => 1
    case GCSpause => 0
    case GCSpropagate => 8
    case GCSatomic => 7
    case GCSinsideatomic => 6
  }

  lemma Sooner(s: SweepState, s': SweepState, max: nat)
    requires max > 0 && s.st in {GCSswpallgc, GCSswpfinobj, GCSswptobefnz}
    requires (Advanced(s, s', max) && s'.at.At?) || (Rest(s) <= max && (s'.st, s'.at) == NextSweep(s.st))
    ensures Rank(s'.st) < Rank(s.st) || (s'.st == s.st && 0 <= Rest(s') < Rest(s))
  {
  }

  /** `luaC_runtilstate(L, bitmask(GCSpause))` from a sweep phase, without finalizers. */
  method FinishCycle(g: GlobalState, max: nat)
    requires Inv(g) && Rank(g.gcstate) < 6 && max > 0
    modifies g`objs, g`allgc, g`finobj, g`tobefnz, g`sweepgc, g`gcstate
    ensures Inv(g) && g.gcstate == GCSpause && Sweeps(old(g.objs), g.objs, g.white) && g.tobefnz == old(g.tobefnz)
  {
    hide Sound, Owned, RootsLive, Sweeps, Inv, Advanced, OnlyIn;
    ghost var h0 := g.objs;
    SweepsSame(h0, g.white);
    while g.gcstate != GCSpause
      invariant Inv(g) && Rank(g.gcstate) < 6 && Sweeps(h0, g.objs, g.white) && g.tobefnz == old(g.tobefnz)
      decreases Rank(g.gcstate), Rest(SweepStateOf(g))
    {
      ghost var h, s := g.objs, SweepStateOf(g);
      SweepsSame(h, g.white);
      if g.gcstate == GCSswpend {
        FinishSweep(g);
      } else if g.gcstate == GCScallfin {
        EndCycle(g);
      } else {
        SweepStep(g, max);
        Sooner(s, SweepStateOf(g), max);
      }
      SweepsOn(h0, h, g.objs, g.white);
    }
  }

  /** Marks until state GCSatomic. */
  method MarkThrough(g: GlobalState)
    requires Inv(g) && g.gcstate == GCSpropagate && Within(g)
    modifies g`objs, g`gray, g`grayagain, g`weak, g`allweak, g`ephemeron, g`gcstate, g`bound
    ensures Inv(g) && g.gcstate == GCSatomic && Onward(old(g.objs), g.objs, {}) && Within(g) && g.bound == old(g.bound)
  {
    hide Inv, Onward, Within, Heeds, AgainHeeds;
    ghost var h0 := g.objs;
    OnwardSame(h0, {});
    while g.gcstate == GCSpropagate
      invariant Inv(g) && (g.gcstate == GCSpropagate || g.gcstate == GCSatomic) && Onward(h0, g.objs, {}) && Within(g) && g.bound == old(g.bound)
      decreases if g.gcstate == GCSpropagate then 1 else 0, |Whites(g.objs)|, |g.gray|
    {
      ghost var h := g.objs;
      PropagateStep(g);
      OnwardOn(h0, h, g.objs, {}, {});
    }
  }

  /** The set `m` encloses everything that can be reached in heap `h`, and what has a finalizer. */
  ghost predicate Surrounds(h: Heap, m: iset<Ref>, main: Ref, running: Ref, roots: seq<Slot>, fin: seq<Ref>, fnz: seq<Ref>) {
    && (forall r :: r in m ==> FitsAt(h, m, r))
    && main in m && running in m && (forall i :: 0 <= i < |roots| ==> InSet(m, roots[i]))
    && (forall r :: r in fin || r in fnz ==> r in m)
  }

  /** What a live object holds, and how weak it is, does not change when the dead are freed. */
  lemma SweptObject(h: Heap, h': Heap, white: bool, r: Ref)
    requires Sweeps(h, h', white) && r in h' && r in h && Sound(h', white) && !IsDead(h'[r], white)
    ensures ModeOf(h', r) == ModeOf(h, r)
    ensures h'[r] == h[r].(color := h'[r].color)
    ensures forall s :: IsString(h', s) ==> IsString(h, s)
    ensures ContentsLive(h', white, h'[r])
  {
    assert SoundAt(h', white, r);
  }

  lemma SweptFits(h: Heap, h': Heap, white: bool, r: Ref, m: iset<Ref>)
    requires Sweeps(h, h', white) && r in h' && r in h && Sound(h', white) && !IsDead(h'[r], white) && FitsAt(h, m, r)
    ensures FitsAt(h', m, r)
  {
    SweptObject(h, h', white, r);
    hide Sweeps, Sound, ContentsLive, ModeOf, IsString;
  }

  /** At the end of a cycle such a set still is one. */
  lemma StillEncloses(h: Heap, g: GlobalState, fin: seq<Ref>, fnz: seq<Ref>)
    requires Surrounds(h, g.bound, g.mainthread, g.running, g.roots, fin, fnz) && FinOk(h, fin, fnz)
    requires Sweeps(h, g.objs, g.white) && Inv(g) && g.gcstate == GCSpause && g.tobefnz == fnz
    ensures Encloses(g) && forall r :: r in g.finobj || r in g.tobefnz ==> r in g.bound
  {
    hide Sound, Owned, AllSwept, FitsAt, Sweeps, InSet;
    AllWhite(g);
    forall r | r in g.objs && r in g.bound ensures FitsAt(g.objs, g.bound, r) {
      SweptThere(h, g.objs, g.white, r);
      NotDead(g.objs, g.white, r);
      SweptFits(h, g.objs, g.white, r, g.bound);
    }
    forall r | r in g.finobj ensures r in g.bound {
      SweptThere(h, g.objs, g.white, r);
    }
  }

  lemma SweptThere(h: Heap, h': Heap, white: bool, r: Ref)
    requires Sweeps(h, h', white) && r in h'
    ensures r in h && h'[r].fin == h[r].fin
  {
  }

  /** What is strongly accessible still is when the dead are gone. */
  lemma AccessibleSwept(h: Heap, h': Heap, white: bool, roots: set<Ref>, r: Ref)
    requires Sweeps(h, h', white) && Sound(h', white) && NoneDead(h', white) && (forall q :: q in roots ==> q in h') && Accessible(h, roots, r)
    ensures Accessible(h', roots, r)
  {
    hide Sweeps, Sound, KeepsAlive, NoneDead, StronglyClosed;
    var all := iset q | q in h';
    forall m: iset<Ref> | (forall q :: q in roots ==> q in m) && StronglyClosed(h', m) ensures r in m {
      ClosedSwept(h, h', white, m);
      assert forall q :: q in roots ==> q in m * all;
      assert r in m * all;
    }
  }

  lemma AccessibleOnward(h: Heap, h': Heap, roots: set<Ref>, r: Ref)
    requires Onward(h, h', {}) && Accessible(h, roots, r)
    ensures Accessible(h', roots, r)
  {
    hide Onward, StronglyClosed;
    forall m: iset<Ref> | (forall q :: q in roots ==> q in m) && StronglyClosed(h', m) ensures r in m {
      ClosedBefore(h, h', m);
    }
  }

  lemma ClosedSwept(h: Heap, h': Heap, white: bool, m: iset<Ref>)
    requires Sweeps(h, h', white) && Sound(h', white) && NoneDead(h', white)
    ensures StronglyClosed(h', m) ==> StronglyClosed(h, m * iset q | q in h')
  {
    var m' := m * iset q | q in h';
    forall r | StronglyClosed(h', m) && r in m' && r in h ensures KeepsAlive(h, h[r], ModeOf(h, r), m') {
      SweptObject(h, h', white, r);
      KeptBoth(h, h', white, h'[r], h[r], ModeOf(h, r), m, m');
    }
  }

  lemma KeptBoth(h: Heap, h': Heap, white: bool, o': Object, o: Object, mode: Mode, m: iset<Ref>, m': iset<Ref>)
    requires Sweeps(h, h', white) && KeepsAlive(h', o', mode, m) && o' == o.(color := o'.color) && ContentsLive(h', white, o')
    requires m' == m * iset q | q in h'
    ensures KeepsAlive(h, o, mode, m')
  {
    forall i | 0 <= i < |o.slots| ensures o'.slots[i].To? ==> o'.slots[i].r in h' {
      assert SlotLive(h', white, o'.slots[i]);
    }
    forall i | 0 <= i < |o.nodes| ensures (o'.nodes[i].key.To? ==> o'.nodes[i].key.r in h') && (o'.nodes[i].val.To? ==> o'.nodes[i].val.r in h')
                                          && (IsString(h, o'.nodes[i].key) ==> IsString(h', o'.nodes[i].key)) {
      assert SlotLive(h', white, o'.nodes[i].key) && SlotLive(h', white, o'.nodes[i].val);
    }
  }

  /** `separatetobefnz` moves objects of the set only. */
  lemma FnzEnclosed(fin: seq<Ref>, fnz: seq<Ref>, fin': seq<Ref>, fnz': seq<Ref>, m: iset<Ref>)
    requires Separated(fin, fnz, fin', fnz') && forall r :: r in fin || r in fnz ==> r in m
    ensures forall r :: r in fnz' ==> r in m
  {
    assert fnz' == fnz + fnz'[|fnz|..];
    forall r | r in fnz'[|fnz|..] ensures r in m {
      assert r in multiset(fnz'[|fnz|..]);
      assert r in multiset(fin);
    }
  }

  /** At the end of a cycle nothing is dead. */
  lemma PauseClean(g: GlobalState)
    requires Inv(g) && g.gcstate == GCSpause
    ensures Sound(g.objs, g.white) && NoneDead(g.objs, g.white) && forall q :: q in RootSet(g) ==> q in g.objs
  {
    hide Sound, Owned, AllSwept;
    AllWhite(g);
    RootsThere(g);
    forall q | q in RootSet(g) ensures q in g.objs {
      if q != g.running && q != g.mainthread {
        var i :| 0 <= i < |g.roots| && g.roots[i].To? && g.roots[i].r == q;
        assert InHeap(g.objs, g.roots[i]);
      }
    }
  }

  /** What is left at the end was live after the atomic step; and what was live then is left. */
  lemma LeftAtEnd(h: Heap, h': Heap, white: bool)
    requires Sweeps(h, h', white) && NoneDead(h', white)
    ensures forall r :: r in h' <==> Live(h, white, r)
  {
  }

  lemma FinKnown(g: GlobalState)
    requires Inv(g)
    ensures FinOk(g.objs, g.finobj, g.tobefnz) && Rank(g.gcstate) != 6
  {
  }

  /** The cycle that is under way is given up or finished. */
  method ToPause(g: GlobalState, max: nat)
    requires Inv(g) && max > 0
    modifies g`objs, g`allgc, g`finobj, g`tobefnz, g`sweepgc, g`gcstate
    ensures Inv(g) && g.gcstate == GCSpause && Sweeps(old(g.objs), g.objs, g.white) && g.tobefnz == old(g.tobefnz)
  {
    hide Inv, Sweeps, KeepsLive;
    ghost var h0 := g.objs;
    SweepsSame(h0, g.white);
    FinKnown(g);
    if KeepInvariant(g.gcstate) {
      AbandonMarking(g);
    }
    ghost var h1 := g.objs;
    FinishCycle(g, max);
    SweepsOn(h0, h1, g.objs, g.white);
  }

  /** The bound encloses what a cycle starts from, and what has a finalizer. */
  ghost predicate Neat(g: GlobalState)
    reads g`objs, g`bound, g`running, g`roots, g`tobefnz, g`finobj
  {
    Encloses(g) && forall r :: r in g.finobj || r in g.tobefnz ==> r in g.bound
  }

  /** Half a cycle, from GCSpause to the beginning of the sweep. */
  method UntilSweep(g: GlobalState)
    requires Inv(g) && g.gcstate == GCSpause
    modifies g
    ensures Inv(g) && g.gcstate == GCSswpallgc && g.running == old(g.running) && g.roots == old(g.roots)
    ensures forall r :: Accessible(old(g.objs), RootSet(g), r) ==> Live(g.objs, g.white, r)
    ensures old(Neat(g)) ==> forall r :: Live(g.objs, g.white, r) ==> r in old(g.bound)
  {
    hide Inv, Onward, Within, Encloses, Separated, Accessible, RootsWithin, MarkedUpTo, IsMarked, NoBlackTables, AsSlots, Keeps, Sweeps, OnlyIn;
    ghost var h2, fin, fnz, b, neat := g.objs, g.finobj, g.tobefnz, g.bound, Neat(g);
    if neat {
      EnclosedRoots(g);
    }
    Restart(g);
    ghost var h3 := g.objs;
    MarkThrough(g);
    ghost var h4 := g.objs;
    OnwardOn(h2, h3, h4, {}, {});
    AtomicStep(g);
    if neat {
      FnzEnclosed(fin, fnz, g.finobj, g.tobefnz, b);
    }
    StillLive(h2, h4, g.objs, g.white, RootSet(g));
  }

  /** A whole cycle from GCSpause to GCSpause. */
  method Cycle(g: GlobalState, max: nat)
    requires Inv(g) && g.gcstate == GCSpause && max > 0
    modifies g
    ensures Inv(g) && g.gcstate == GCSpause && g.running == old(g.running) && g.roots == old(g.roots)
    ensures forall r :: Accessible(old(g.objs), RootSet(g), r) ==> r in g.objs
    ensures old(Neat(g)) ==> forall r :: r in g.objs ==> r in old(g.bound)
  {
    hide Inv, Sweeps, Neat, Accessible, NoneDead, Sound;
    UntilSweep(g);
    ghost var h := g.objs;
    FinishCycle(g, max);
    PauseClean(g);
    LeftAtEnd(h, g.objs, g.white);
  }

  lemma StillLive(h: Heap, h1: Heap, h2: Heap, white: bool, roots: set<Ref>)
    requires Onward(h, h1, {}) && Keeps(h1, roots, h2, white)
    ensures forall r :: Accessible(h, roots, r) ==> Live(h2, white, r)
  {
    hide Onward, Accessible;
    forall r | Accessible(h, roots, r) ensures Live(h2, white, r) {
      AccessibleOnward(h, h1, roots, r);
    }
  }

  lemma EnclosedRoots(g: GlobalState)
    requires Encloses(g)
    ensures RootsWithin(g)
  {
  }

  /**
    `luaC_fullgc` in an emergency, when no finalizers are called: what is strongly accessible
    stays; and if a set encloses everything that can be reached, and what has a finalizer,
    then in the end nothing outside it is left.
   */
  method FullGc(g: GlobalState, max: nat)
    requires Inv(g) && max > 0
    modifies g
    ensures Inv(g) && g.gcstate == GCSpause && g.running == old(g.running) && g.roots == old(g.roots)
    ensures forall r :: Accessible(old(g.objs), RootSet(g), r) ==> r in g.objs
    ensures old(Surrounds(g.objs, g.bound, g.mainthread, g.running, g.roots, g.finobj, g.tobefnz)) ==> forall r :: r in g.objs ==> r in old(g.bound)
  {
    hide Inv, Sweeps, Encloses, Surrounds, Accessible, NoneDead, Sound;
    ghost var h0, roots, fin, fnz := g.objs, RootSet(g), g.finobj, g.tobefnz;
    FinKnown(g);
    ToPause(g, max);
    PauseClean(g);
    ghost var h2, white := g.objs, g.white;
    if Surrounds(h0, g.bound, g.mainthread, g.running, g.roots, fin, fnz) {
      StillEncloses(h0, g, fin, fnz);
    }
    Cycle(g, max);
    forall r | Accessible(h0, roots, r) ensures r in g.objs {
      AccessibleSwept(h0, h2, white, roots, r);
    }
  }

  // ---------- steps alone ----------

  /** Steps in an emergency, from a state past the atomic one: exactly the dead are freed. */
  method SweepOut(g: GlobalState, max: nat) returns (n: nat)
    requires Inv(g) && IsPastMarking(g.gcstate) && max > 0
    modifies g
    ensures Inv(g) && g.gcstate == GCSpause && n <= old(StepsLeft(g)) && g.white == old(g.white)
    ensures g.running == old(g.running) && g.roots == old(g.roots)
    ensures forall r :: r in g.objs <==> Live(old(g.objs), g.white, r)
  {
    hide Inv, Sweeps, StepSwept, StepsLeft, KeepsLive, RootsShaded, Progress, Onward, NoneDead, Sound;
    ghost var h0, left := g.objs, StepsLeft(g);
    SweepsSame(h0, g.white);
    n := 0;
    while g.gcstate != GCSpause
      invariant Inv(g) && IsPastMarking(g.gcstate) && g.white == old(g.white) && Sweeps(h0, g.objs, g.white) && n + StepsLeft(g) <= left
      invariant g.running == old(g.running) && g.roots == old(g.roots)
      decreases StepsLeft(g)
    {
      ghost var h := g.objs;
      StepsLeftNat(g);
      SingleStep(g, max, true);
      SweepsOn(h0, h, g.objs, g.white);
      n := n + 1;
    }
    StepsLeftNat(g);
    PauseClean(g);
    LeftAtEnd(h0, g.objs, g.white);
  }

  /** Steps of the mark phase, and the atomic step: what is strongly accessible is live then. */
  method MarkOut(g: GlobalState, max: nat) returns (n: nat)
    requires Inv(g) && KeepInvariant(g.gcstate)
    modifies g
    ensures Inv(g) && g.gcstate == GCSswpallgc && n + StepsLeft(g) <= old(StepsLeft(g)) && g.objs.Keys <= old(g.objs).Keys
    ensures g.running == old(g.running) && g.roots == old(g.roots)
    ensures forall r :: Accessible(old(g.objs), RootSet(g), r) ==> Live(g.objs, g.white, r)
    ensures old(StaysWithin(g)) ==> forall r :: Live(g.objs, g.white, r) ==> r in old(g.bound)
  {
    hide Inv, Sweeps, StepSwept, StepsLeft, KeepsLive, RootsShaded, Progress, Onward, Accessible, Within, RootsWithin, Live, BoundUsed, EntriesGoneBy;
    ghost var h0, left, roots := g.objs, StepsLeft(g), RootSet(g);
    FinKnown(g);
    OnwardSame(h0, {});
    n := 0;
    while g.gcstate == GCSpropagate
      invariant Inv(g) && g.gcstate in {GCSpropagate, GCSatomic} && Onward(h0, g.objs, {}) && n + StepsLeft(g) <= left
      invariant g.running == old(g.running) && g.roots == old(g.roots)
      invariant old(StaysWithin(g)) ==> StaysWithin(g) && g.bound == old(g.bound)
      decreases StepsLeft(g)
    {
      ghost var h := g.objs;
      StepsLeftNat(g);
      SingleStep(g, max, true);
      OnwardOn(h0, h, g.objs, {}, {});
      n := n + 1;
    }
    ghost var h := g.objs;
    SingleStep(g, max, true);
    OnwardKeys(h0, h, {});
    n := n + 1;
    forall r | Accessible(h0, roots, r) ensures Live(g.objs, g.white, r) {
      AccessibleOnward(h0, h, roots, r);
    }
  }

  /** Past the atomic step what is strongly accessible is live. */
  lemma AccessibleLive(g: GlobalState, r: Ref)
    requires Inv(g) && Accessible(g.objs, RootSet(g), r)
    ensures Live(g.objs, g.white, r)
  {
    hide Owned, Swept, SweptTo, Marking, FinOk;
    var m := iset q | Live(g.objs, g.white, q);
    forall q | q in m && q in g.objs ensures KeepsAlive(g.objs, g.objs[q], ModeOf(g.objs, q), m) {
      assert SoundAt(g.objs, g.white, q);
      LiveKept(g.objs, g.white, g.objs[q], ModeOf(g.objs, q), m);
    }
    RootsAlive(g, m);
    assert StronglyClosed(g.objs, m) && r in m;
  }

  lemma LiveKept(h: Heap, white: bool, o: Object, mode: Mode, m: iset<Ref>)
    requires ContentsLive(h, white, o) && m == iset q | Live(h, white, q)
    ensures KeepsAlive(h, o, mode, m)
  {
    forall i | 0 <= i < |o.slots| ensures InSet(m, o.slots[i]) {
      assert SlotLive(h, white, o.slots[i]);
    }
    forall i | 0 <= i < |o.nodes| ensures InSet(m, o.nodes[i].key) && InSet(m, o.nodes[i].val) {
      assert SlotLive(h, white, o.nodes[i].key) && SlotLive(h, white, o.nodes[i].val);
    }
  }

  lemma RootsAlive(g: GlobalState, m: iset<Ref>)
    requires RootsLive(g) && m == iset q | Live(g.objs, g.white, q)
    ensures forall q :: q in RootSet(g) ==> q in m
  {
    forall q | q in RootSet(g) ensures q in m {
      if q != g.running && q != g.mainthread {
        var i :| 0 <= i < |g.roots| && g.roots[i].To? && g.roots[i].r == q;
        assert SlotLive(g.objs, g.white, g.roots[i]);
      }
    }
  }

  /**
    Steps alone, in an emergency: from every state at most `StepsLeft` of them lead to GCSpause.
    Exactly those objects are left that were live at the time `at`: when the sweep began, or at
    the start if that was later. What is strongly accessible is live then, and nothing outside
    a bound of what is marked and will be is left, when marking is still under way at the start.
   */
  method StepsToPause(g: GlobalState, max: nat) returns (n: nat, ghost at: Heap)
    requires Inv(g) && max > 0
    modifies g
    ensures Inv(g) && g.gcstate == GCSpause && n <= old(StepsLeft(g)) && g.running == old(g.running) && g.roots == old(g.roots)
    ensures forall r :: r in g.objs <==> Live(at, g.white, r)
    ensures at.Keys <= old(g.objs).Keys && forall r :: Accessible(old(g.objs), RootSet(g), r) ==> Live(at, g.white, r)
    ensures !KeepInvariant(old(g.gcstate)) ==> at == old(g.objs) && g.white == old(g.white)
    ensures KeepInvariant(old(g.gcstate)) && old(StaysWithin(g)) ==> forall r :: r in g.objs ==> r in old(g.bound)
  {
    hide Inv, StepsLeft, Accessible;
    ghost var h0 := g.objs;
    FinKnown(g);
    n := 0;
    if KeepInvariant(g.gcstate) {
      n := MarkOut(g, max);
    } else {
      forall r | Accessible(g.objs, RootSet(g), r) ensures Live(g.objs, g.white, r) {
        AccessibleLive(g, r);
      }
    }
    at := g.objs;
    var k := SweepOut(g, max);
    n := n + k;
  }

  /** The bound is linear in the number of objects. */
  lemma StepsBounded(g: GlobalState)
    requires Inv(g)
    ensures StepsLeft(g) <= 7 + 4 * |g.objs|
  {
    hide Sound, Owned, RootsLive, Swept, SweptTo;
    if g.gcstate == GCSpropagate {
      GrayOnce(g);
      SubsetSize(Whites(g.objs), g.objs.Keys);
    } else if IsPastMarking(g.gcstate) {
      OwnedSize(g.objs, g.mainthread, g.allgc + g.finobj + g.tobefnz);
      RestBounded(SweepStateOf(g));
    }
  }

  lemma GrayOnce(g: GlobalState)
    requires Marking(g)
    ensures |g.gray| <= |g.objs|
  {
    var ls := MarkLists(g);
    assert AllLists(ls)[..|g.gray|] == g.gray;
    forall i, j | 0 <= i < j < |g.gray| ensures g.gray[i] != g.gray[j] {
      assert AllLists(ls)[i] != AllLists(ls)[j];
    }
    DistinctElements(g.gray);
    forall r | r in Members(g.gray) ensures r in g.objs.Keys {
      assert r in AllLists(ls) && Queued(g.objs, r);
    }
    SubsetSize(Members(g.gray), g.objs.Keys);
  }

  lemma RestBounded(s: SweepState)
    ensures Rest(s) <= |s.allgc| + |s.finobj| + |s.tobefnz|
  {
  }

  // ---------- runs ----------

  /** One step of the collector or of the program. */
  datatype Step =
    | Collect(max: nat, emergency: bool)
    | Abandon
    | Create(r: Ref, kind: Kind, n: nat)
    | Find(r: Ref)
    | StoreSlot(o: Ref, i: nat, v: Slot)
    | StoreTable(o: Ref, slots: seq<Slot>, nodes: seq<Node>, k: Slot, v: Slot)
    | StoreMeta(o: Ref, v: Slot)
    | StoreMode(o: Ref, gives: Mode)
    | StoreStack(o: Ref, slots: seq<Slot>)
    | Cache(o: Ref, c: Ref)
    | StoreRoot(i: nat, v: Slot)
    | Resume(o: Ref)
    | GiveFinalizer(o: Ref, has: bool)
    | CallFinalizer

  /** What the program can do: it has only live objects in its hands. */
  predicate Possible(g: GlobalState, step: Step)
    reads g
  {
    match step
    case Collect(max, _) => max > 0
    case Abandon => KeepInvariant(g.gcstate)
    case Create(r, kind, n) => r !in g.objs && (kind.Udata? ==> n == 1) && (kind.Str? ==> n == 0)
    case Find(r) => r in g.objs && g.objs[r].kind.Str?
    case StoreSlot(o, i, v) => Live(g.objs, g.white, o) && g.objs[o].kind in {Closure, Proto, Udata} && i < |g.objs[o].slots| && SlotLive(g.objs, g.white, v)
    case StoreTable(o, slots, nodes, k, v) => Live(g.objs, g.white, o) && g.objs[o].kind.Table? && SlotLive(g.objs, g.white, k) && SlotLive(g.objs, g.white, v)
                                              && ContentsFrom(g.objs[o], {k, v}, slots, nodes)
    case StoreMeta(o, v) => Live(g.objs, g.white, o) && g.objs[o].kind in {Table, Udata} && SlotLive(g.objs, g.white, v)
    case StoreMode(o, _) => Live(g.objs, g.white, o) && g.objs[o].kind.Table?
    case StoreStack(o, slots) => Live(g.objs, g.white, o) && g.objs[o].kind.Thread? && forall i :: 0 <= i < |slots| ==> SlotLive(g.objs, g.white, slots[i])
    case Cache(o, c) => Live(g.objs, g.white, o) && g.objs[o].kind.Proto? && Live(g.objs, g.white, c)
    case StoreRoot(i, v) => i < |g.roots| && SlotLive(g.objs, g.white, v)
    case Resume(o) => Live(g.objs, g.white, o) && g.objs[o].kind.Thread?
    case GiveFinalizer(o, _) => Live(g.objs, g.white, o) && g.objs[o].kind in {Table, Udata}
    case CallFinalizer => g.tobefnz != []
  }

  /** The three kinds of steps that the collector withstands only under a condition. */
  predicate Harmless(g: GlobalState, step: Step)
    requires Possible(g, step)
    reads g
  {
    match step
    case StoreMeta(o, v) => !(KeepInvariant(g.gcstate) && o in g.allweak && (IsWhite(g.objs, v) || !GivenBy(g.objs, v).AllWeak?))
    case StoreMode(o, gives) => !(KeepInvariant(g.gcstate) && !gives.AllWeak? && exists r :: r in g.allweak && r in g.objs && g.objs[r].meta == To(o))
    case CallFinalizer => FinalizerSafe(g)
    case _ => true
  }

  /** What of a state matters to the life of objects, and to the end of the cycle. */
  datatype Moment = Moment(objs: Heap, white: bool, st: GcState, roots: set<Ref>, slots: seq<Slot>, running: Ref, fnz: seq<Ref>, left: int)

  ghost function MomentOf(g: GlobalState): Moment
    reads g
  {
    Moment(g.objs, g.white, g.gcstate, RootSet(g), g.roots, g.running, g.tobefnz, StepsLeft(g))
  }

  /** What each step does: a step of the collector brings the end of its cycle nearer, and a store stores. */
  ghost predicate Does(a: Moment, step: Step, b: Moment) {
    match step
    case Collect(_, _) => Same(a, b) && if a.st == GCSpause then b.st == GCSpropagate else b.left < a.left
    case Abandon => Same(a, b) && b.st == GCSswpallgc && b.objs.Keys == a.objs.Keys
    case Create(r, kind, n) => Same(a, b) && b.objs == a.objs[r := Object(kind, Strong, White(a.white), false, Empty, seq(n, i => Empty), [], Empty)]
    case Find(r) => Same(a, b) && r in a.objs && Live(b.objs, b.white, r) && b.objs == a.objs[r := a.objs[r].(color := b.objs[r].color)]
    case StoreSlot(o, i, v) => Same(a, b) && o in a.objs && i < |a.objs[o].slots| && Stored(a.objs, o, a.objs[o].(slots := a.objs[o].slots[i := v]), b.objs)
    case StoreTable(o, slots, nodes, _, _) =>
      Same(a, b) && o in a.objs && o in b.objs && b.objs == a.objs[o := a.objs[o].(slots := slots, nodes := nodes, color := b.objs[o].color)]
    case StoreMeta(o, v) => Same(a, b) && o in a.objs && Stored(a.objs, o, a.objs[o].(meta := v), b.objs)
    case StoreMode(o, gives) => Same(a, b) && o in a.objs && b.objs == a.objs[o := a.objs[o].(gives := gives)]
    case StoreStack(o, slots) => Same(a, b) && o in a.objs && b.objs == a.objs[o := a.objs[o].(slots := slots)]
    case Cache(o, c) => Same(a, b) && o in a.objs && b.objs == if a.objs[o].color.Black? then a.objs else a.objs[o := a.objs[o].(cache := To(c))]
    case StoreRoot(i, v) => b.objs == a.objs && i < |a.slots| && b.slots == a.slots[i := v] && b.running == a.running
    case Resume(o) => b.objs == a.objs && b.slots == a.slots && b.running == o
    case GiveFinalizer(o, has) => Same(a, b) && o in a.objs && o in b.objs && (has ==> b.objs[o].fin) && (!has || a.objs[o].fin ==> b.objs == a.objs)
    case CallFinalizer => Same(a, b) && a.fnz != [] && b.fnz == a.fnz[1..] && a.fnz[0] in b.objs && !b.objs[a.fnz[0]].fin
  }

  ghost predicate Same(a: Moment, b: Moment) {
    b.slots == a.slots && b.running == a.running
  }

  /** From one moment to the next live objects stay, or it was the atomic step, at which those stay that are strongly accessible. */
  ghost predicate Passes(a: Moment, b: Moment) {
    if b.white == a.white then KeepsLive(a.objs, b.objs, a.white) else a.st == GCSatomic && Keeps(a.objs, a.roots, b.objs, b.white)
  }

  lemma WaitingInHeap(g: GlobalState)
    requires Inv(g) && KeepInvariant(g.gcstate)
    ensures forall r :: r in g.allweak ==> r in g.objs
  {
  }

  /** Steps of the collector, and of the program on objects as a whole. */
  method DoCollect(g: GlobalState, step: Step)
    requires Inv(g) && Possible(g, step) && Harmless(g, step)
    requires step.Collect? || step.Abandon? || step.Create? || step.Find? || step.GiveFinalizer? || step.CallFinalizer?
    modifies g
    ensures Inv(g) && Passes(old(MomentOf(g)), MomentOf(g)) && Does(old(MomentOf(g)), step, MomentOf(g))
  {
    hide Inv, KeepsLive, Keeps, Sweeps, FinalizerSafe, StepSwept, Progress, Onward, StepsLeft, RootsShaded, Owned;
    ghost var h := g.objs;
    match step
    case Collect(max, emergency) =>
      SingleStep(g, max, emergency);
    case Abandon =>
      AbandonMarking(g);
    case Create(r, kind, n) =>
      NewObject(g, r, kind, n);
      AddedLive(h, g.white, r, g.objs[r]);
    case Find(r) =>
      Resurrect(g, r);
    case GiveFinalizer(o, has) =>
      CheckFinalizer(g, o, has);
    case CallFinalizer =>
      var _ := Udata2Finalize(g);
  }

  lemma AddedLive(h: Heap, white: bool, r: Ref, o: Object)
    requires r !in h
    ensures KeepsLive(h, h[r := o], white)
  {
  }

  /** Steps of the program that store something. */
  method DoStore(g: GlobalState, step: Step)
    requires Inv(g) && Possible(g, step) && Harmless(g, step)
    requires !(step.Collect? || step.Abandon? || step.Create? || step.Find? || step.GiveFinalizer? || step.CallFinalizer?)
    modifies g
    ensures Inv(g) && Passes(old(MomentOf(g)), MomentOf(g)) && Does(old(MomentOf(g)), step, MomentOf(g))
  {
    hide Inv, KeepsLive, Keeps, Sweeps, FinalizerSafe, ContentsFrom, RootSet, TriColor, StepsLeft, Stored;
    ghost var h := g.objs;
    SameLive(h, g.white);
    match step
    case StoreSlot(o, i, v) =>
      SetSlot(g, o, i, v);
    case StoreTable(o, slots, nodes, k, v) =>
      SetTable(g, o, slots, nodes, k, v);
    case StoreMeta(o, v) =>
      SetMetatable(g, o, v);
    case StoreMode(o, gives) =>
      if KeepInvariant(g.gcstate) {
        WaitingInHeap(g);
      }
      SetGives(g, o, gives);
    case StoreStack(o, slots) =>
      SetStack(g, o, slots);
      QuietLive(h, g.white, o, g.objs[o]);
    case Cache(o, c) =>
      CacheClosure(g, o, c);
      QuietLive(h, g.white, o, g.objs[o]);
    case StoreRoot(i, v) =>
      SetRoot(g, i, v);
    case Resume(o) =>
      SwitchThread(g, o);
  }

  /**
    Every run whose steps are possible and harmless keeps the invariant. The trace has the
    moments between the steps, and each step has done what it is for.
   */
  method Run(g: GlobalState, steps: seq<Step>) returns (n: nat, ghost trace: seq<Moment>)
    requires Inv(g)
    modifies g
    ensures Inv(g) && n <= |steps| && |trace| == n + 1 && trace[0] == old(MomentOf(g)) && trace[n] == MomentOf(g)
    ensures forall i :: 0 <= i < n ==> Passes(trace[i], trace[i + 1]) && Does(trace[i], steps[i], trace[i + 1])
    ensures n < |steps| ==> !Possible(g, steps[n]) || !Harmless(g, steps[n])
  {
    hide Inv, Passes, Does, Possible, Harmless, MomentOf;
    n, trace := 0, [MomentOf(g)];
    while n < |steps| && Possible(g, steps[n]) && Harmless(g, steps[n])
      invariant Inv(g) && n <= |steps| && |trace| == n + 1 && trace[0] == old(MomentOf(g)) && trace[n] == MomentOf(g)
      invariant forall i :: 0 <= i < n ==> Passes(trace[i], trace[i + 1]) && Does(trace[i], steps[i], trace[i + 1])
      decreases |steps| - n
    {
      var step := steps[n];
      if step.Collect? || step.Abandon? || step.Create? || step.Find? || step.GiveFinalizer? || step.CallFinalizer? {
        DoCollect(g, step);
      } else {
        DoStore(g, step);
      }
      trace := trace + [MomentOf(g)];
      n := n + 1;
    }
  }

  ghost predicate Passing(trace: seq<Moment>) {
    forall i :: 0 <= i < |trace| - 1 ==> Passes(trace[i], trace[i + 1])
  }

  /** No object that is live dies before the next atomic step. */
  lemma {:induction false} LivesOn(trace: seq<Moment>, i: nat, j: nat, r: Ref)
    requires Passing(trace) && i <= j < |trace| && (forall k :: i <= k < j ==> trace[k + 1].white == trace[k].white)
    requires Live(trace[i].objs, trace[i].white, r)
    ensures Live(trace[j].objs, trace[j].white, r)
  {
    hide Live;
    if i < j {
      LivesOn(trace, i, j - 1, r);
      assert Passes(trace[j - 1], trace[j - 1 + 1]);
    }
  }

  /** An object that is strongly accessible at one atomic step lives until the next, and is not freed. */
  lemma {:induction false} OutlivesAtomic(trace: seq<Moment>, i: nat, j: nat, r: Ref)
    requires Passing(trace) && i < j < |trace| && trace[i + 1].white != trace[i].white && (forall k :: i < k < j ==> trace[k + 1].white == trace[k].white)
    requires Accessible(trace[i].objs, trace[i].roots, r)
    ensures r in trace[j].objs && Live(trace[j].objs, trace[j].white, r)
  {
    assert Passes(trace[i], trace[i + 1]);
    LivesOn(trace, i + 1, j, r);
  }
}
