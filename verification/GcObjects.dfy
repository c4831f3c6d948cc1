/**
  Objects that come and go between the lists of the collector: new objects, strings
  found again, and objects with finalizers.
 */
module GcObjects {
  import opened GcHeap
  import opened GcBound
  import opened GcMark
  import opened GcInvariant
  import opened GcAtomic
  import opened GcSweep
  import opened GcCycle
  import opened GcMutator

  // ---------- objects come and go between the lists ----------

  /** An object has been put at the head of list `id`: a pointer into the list moves along. */
  function Shifted(at: Sweep, id: ListId): Sweep {
    if at.At? && at.list == id && at.i > 0 then At(id, at.i + 1) else at
  }

  lemma SweptHead(h: Heap, white: bool, r: Ref, l: seq<Ref>)
    requires r in h && h[r].color == White(white)
    ensures forall n: nat :: SweptTo(h, white, l, n) ==> SweptTo(h, white, [r] + l, n + 1)
    ensures Swept(h, white, l) ==> Swept(h, white, [r] + l)
  {
    forall n: nat | SweptTo(h, white, l, n) ensures SweptTo(h, white, [r] + l, n + 1) {
      forall i | 0 <= i < n + 1 && i < |[r] + l| ensures ([r] + l)[i] in h && h[([r] + l)[i]].color == White(white) {
        if i > 0 {
          assert ([r] + l)[i] == l[i - 1];
        }
      }
    }
  }

  /** A white object at the head of a list has been swept. */
  lemma SweepInvHead(s: SweepState, id: ListId, r: Ref)
    requires SweepInv(s) && r in s.objs && s.objs[r].color == White(s.white)
    requires id != ToBeFnz
    ensures SweepInv(if id == AllGc then s.(allgc := [r] + s.allgc, at := Shifted(s.at, id)) else s.(finobj := [r] + s.finobj, at := Shifted(s.at, id)))
  {
    SweptHead(s.objs, s.white, r, s.allgc);
    SweptHead(s.objs, s.white, r, s.finobj);
    NothingSwept(s.objs, s.white, [r] + s.allgc);
    NothingSwept(s.objs, s.white, [r] + s.finobj);
    hide SweptTo;
  }

  lemma OwnedNew(h: Heap, main: Ref, lists: seq<Ref>, r: Ref, o: Object)
    requires Owned(h, main, lists) && r !in h
    ensures Owned(h[r := o], main, [r] + lists)
  {
    var l := [r] + lists;
    assert forall q :: q in lists ==> q in h;
    forall i, j | 0 <= i < j < |l| ensures l[i] != l[j] {
      if i > 0 {
        assert lists[i - 1] != lists[j - 1];
      } else {
        assert l[j] == lists[j - 1] && lists[j - 1] in lists;
      }
    }
  }

  lemma NewSound(h: Heap, white: bool, r: Ref, o: Object)
    requires Sound(h, white) && r !in h && Shaped(o) && !IsDead(o, white) && ContentsLive(h, white, o)
    ensures Sound(h[r := o], white)
  {
    var h' := h[r := o];
    forall q | q in h' ensures SoundAt(h', white, q) {
      assert q in h ==> SoundAt(h, white, q);
    }
  }

  lemma NewTriColor(h: Heap, ls: Lists, r: Ref, o: Object)
    requires TriColor(h, ls) && r !in h && Shaped(o) && o.color.White? && SlotsInHeap(h, o) && ls.bound == Everything()
    ensures TriColor(h[r := o], ls) && (AllWeakOk(h, ls.allweak) ==> AllWeakOk(h[r := o], ls.allweak))
  {
    var h' := h[r := o];
    Unconfined(h', ls);
    hide Confined;
    assert forall s :: IsMarked(h, s) ==> IsMarked(h', s);
    forall q | q in h' ensures WellFormedAt(h', q) && (h'[q].color.Black? ==> Complete(h', h'[q])) && CoveredAt(h', ls, q) {
      if q in h {
        assert WellFormedAt(h, q) && CoveredAt(h, ls, q);
      }
    }
    forall q | q in AllLists(ls) ensures Queued(h', q) {
      assert Queued(h, q);
    }
  }

  lemma NewLive(h: Heap, white: bool, main: Ref, running: Ref, roots: seq<Slot>, fin: seq<Ref>, fnz: seq<Ref>, r: Ref, o: Object)
    requires AllLive(h, white, main, running, roots, fin, fnz) && r !in h && !o.fin && !IsDead(o, white)
    ensures AllLive(h[r := o], white, main, running, roots, fin, fnz)
  {
  }

  /** `luaC_newobj`: a new object is white and first in `allgc`. */
  method NewObject(g: GlobalState, r: Ref, kind: Kind, n: nat)
    requires Inv(g) && r !in g.objs && (kind.Udata? ==> n == 1) && (kind.Str? ==> n == 0)
    modifies g`objs, g`allgc, g`sweepgc
    ensures Inv(g) && Live(g.objs, g.white, r) && g.allgc == [r] + old(g.allgc)
    ensures g.objs == old(g.objs)[r := Object(kind, Strong, White(g.white), false, Empty, seq(n, i => Empty), [], Empty)]
  {
    hide Sound, Owned, TriColor, NoneDead, SweepInv, AllLive, FinOk, Swept, SweptTo, RootsLive, AllWeakOk;
    ghost var h, s, ls := g.objs, SweepStateOf(g), MarkLists(g);
    var o := Object(kind, Strong, White(g.white), false, Empty, seq(n, i => Empty), [], Empty);
    RootsAsLive(g);
    NewSound(h, g.white, r, o);
    OwnedNew(h, g.mainthread, g.allgc + g.finobj + g.tobefnz, r, o);
    NewLive(h, g.white, g.mainthread, g.running, g.roots, g.finobj, g.tobefnz, r, o);
    g.objs := g.objs[r := o];
    g.allgc := [r] + g.allgc;
    g.sweepgc := Shifted(g.sweepgc, AllGc);
    assert g.allgc + g.finobj + g.tobefnz == [r] + (old(g.allgc) + g.finobj + g.tobefnz);
    if KeepInvariant(g.gcstate) {
      NewTriColor(h, ls, r, o);
      NewNoneDead(h, g.white, r, o);
    } else {
      SweepInvNew(s, r, o);
      SweepInvHead(s.(objs := g.objs), AllGc, r);
      assert SweepStateOf(g) == s.(objs := g.objs, allgc := g.allgc, at := g.sweepgc);
    }
    LiveAsRoots(g);
  }

  lemma NewNoneDead(h: Heap, white: bool, r: Ref, o: Object)
    requires NoneDead(h, white) && !IsDead(o, white)
    ensures NoneDead(h[r := o], white)
  {
  }

  lemma SweepInvNew(s: SweepState, r: Ref, o: Object)
    requires SweepInv(s) && r !in s.objs
    ensures SweepInv(s.(objs := s.objs[r := o]))
  {
  }

  /** `internshrstr` finds a string that is dead but not freed yet, and resurrects it. */
  method Resurrect(g: GlobalState, r: Ref)
    requires Inv(g) && r in g.objs && g.objs[r].kind.Str?
    modifies g`objs
    ensures Inv(g) && Live(g.objs, g.white, r) && KeepsLive(old(g.objs), g.objs, g.white)
    ensures g.objs == old(g.objs)[r := old(g.objs)[r].(color := g.objs[r].color)]
  {
    hide Sound, Owned, TriColor, NoneDead, SweepInv, AllLive, FinOk, Swept, SweptTo, RootsLive;
    if IsDead(g.objs[r], g.white) {
      ghost var h, s := g.objs, SweepStateOf(g);
      var o := g.objs[r].(color := White(g.white));
      DeadOnlySwept(g, r);
      WriteReady(g, r, o);
      StringSound(h, g.white, r, o);
      g.objs := g.objs[r := o];
      PhaseStays(s, r, o);
      assert SweepStateOf(g) == s.(objs := g.objs);
      LiveAsRoots(g);
    }
  }

  lemma DeadOnlySwept(g: GlobalState, r: Ref)
    requires PhaseInv(g) && r in g.objs && IsDead(g.objs[r], g.white)
    ensures !KeepInvariant(g.gcstate)
  {
  }

  lemma StringSound(h: Heap, white: bool, r: Ref, o: Object)
    requires Sound(h, white) && r in h && h[r].kind.Str? && o == h[r].(color := White(white))
    ensures Sound(h[r := o], white) && KeepsLive(h, h[r := o], white)
  {
    var h' := h[r := o];
    forall q | q in h' ensures SoundAt(h', white, q) {
      assert SoundAt(h, white, q) && SoundAt(h, white, r);
    }
  }

  // ---------- objects with finalizers ----------

  lemma OwnedPermuted(h: Heap, main: Ref, a: seq<Ref>, b: seq<Ref>)
    requires Owned(h, main, a) && multiset(a) == multiset(b)
    ensures Owned(h, main, b)
  {
    DistinctCounts(a);
    DistinctCounts(b);
    assert forall r :: r in a <==> r in multiset(a);
    assert forall r :: r in b <==> r in multiset(b);
  }

  function Without(l: seq<Ref>, k: nat): seq<Ref>
    requires k < |l|
  {
    l[..k] + l[k + 1..]
  }

  /** The element before link `k + 1` is unlinked: later links move up. */
  function Unshifted(at: Sweep, k: nat): Sweep {
    if at.At? && at.list == AllGc && at.i > k then At(AllGc, at.i - 1) else at
  }

  lemma SweptWithout(h: Heap, white: bool, l: seq<Ref>, k: nat)
    requires k < |l|
    ensures forall n: nat :: SweptTo(h, white, l, n) ==> SweptTo(h, white, Without(l, k), if n > k then n - 1 else n)
    ensures Swept(h, white, l) ==> Swept(h, white, Without(l, k))
  {
    var t := Without(l, k);
    forall n: nat | SweptTo(h, white, l, n) ensures SweptTo(h, white, t, if n > k then n - 1 else n) {
      forall i | 0 <= i < (if n > k then n - 1 else n) && i < |t| ensures t[i] in h && h[t[i]].color == White(white) {
        assert t[i] == l[if i < k then i else i + 1];
      }
    }
  }

  lemma SweepInvWithout(s: SweepState, k: nat)
    requires SweepInv(s) && k < |s.allgc|
    ensures SweepInv(s.(allgc := Without(s.allgc, k), at := Unshifted(s.at, k)))
  {
    SweptWithout(s.objs, s.white, s.allgc, k);
    hide SweptTo;
  }

  /** `for (p = &g->allgc; *p != o; p = &(*p)->next)`. */
  method FindInAllGc(g: GlobalState, o: Ref) returns (k: nat)
    requires o in g.allgc
    ensures k < |g.allgc| && g.allgc[k] == o
  {
    k := 0;
    while g.allgc[k] != o
      invariant k < |g.allgc| && o !in g.allgc[..k]
      decreases |g.allgc| - k
    {
      k := k + 1;
      assert o in g.allgc[k..] by {
        assert g.allgc == g.allgc[..k] + g.allgc[k..];
        assert g.allgc[..k] == g.allgc[..k - 1] + [g.allgc[k - 1]];
      }
    }
  }

  /** `sweeptolive`: moves `sweepgc` past a live object, or to the end. */
  method SweepToLive(g: GlobalState)
    requires Inv(g) && g.sweepgc.At? && g.sweepgc.list == AllGc && g.gcstate in {GCSswpallgc, GCSswpfinobj, GCSswptobefnz}
    modifies g`objs, g`allgc, g`finobj, g`tobefnz, g`sweepgc
    ensures Inv(g) && Sweeps(old(g.objs), g.objs, g.white) && g.sweepgc != old(g.sweepgc)
    ensures old(g.sweepgc.i) <= |old(g.allgc)| && old(g.sweepgc.i) <= |g.allgc| && g.allgc[..old(g.sweepgc.i)] == old(g.allgc)[..old(g.sweepgc.i)]
    ensures g.sweepgc.At? ==> g.sweepgc.list == AllGc && g.sweepgc.i > old(g.sweepgc.i)
    ensures g.finobj == old(g.finobj) && g.tobefnz == old(g.tobefnz)
  {
    hide Inv, Sweeps;
    ghost var h0, all0 := g.objs, g.allgc;
    var start := g.sweepgc;
    SweepSome(g, 1);
    while g.sweepgc == start
      invariant Inv(g) && Sweeps(h0, g.objs, g.white)
      invariant start.i <= |all0| && start.i <= |g.allgc| && g.allgc[..start.i] == all0[..start.i]
      invariant g.sweepgc.At? ==> g.sweepgc.list == AllGc && g.sweepgc.i >= start.i
      invariant g.finobj == old(g.finobj) && g.tobefnz == old(g.tobefnz)
      decreases if g.sweepgc == start then |g.allgc| + 1 else 0
    {
      ghost var h := g.objs;
      SweepSome(g, 1);
      SweepsOn(h0, h, g.objs, g.white);
    }
  }

  /** In a sweep phase the object is taken as swept, and `sweepgc` must not stay in its link. */
  method SettleForMove(g: GlobalState, o: Ref, k: nat)
    requires Inv(g) && Live(g.objs, g.white, o) && k < |g.allgc| && g.allgc[k] == o && IsSweepPhase(g.gcstate) && g.objs[o].kind in {Table, Udata}
    requires !g.objs[o].fin
    modifies g`objs, g`allgc, g`finobj, g`tobefnz, g`sweepgc
    ensures Inv(g) && KeepsLive(old(g.objs), g.objs, g.white)
    ensures o in g.objs && g.objs[o] == old(g.objs)[o].(color := White(g.white)) && k < |g.allgc| && g.allgc[k] == o
    ensures g.sweepgc != At(AllGc, k + 1) && g.finobj == old(g.finobj) && g.tobefnz == old(g.tobefnz)
  {
    hide Sound, Owned, RootsLive, Sweeps, KeepsLive, ContentsLive;
    var o' := g.objs[o];
    TableSound(g, o);
    StoreElsewhere(g, o, o', if o'.color.White? then o'.color else White(g.white));
    ghost var h := g.objs;
    SweepsSame(h, g.white);
    if g.sweepgc == At(AllGc, k + 1) {
      SweepingSomewhere(g);
      assert g.allgc[..k + 1][k] == o;
      SweepToLive(g);
      assert g.allgc[..k + 1][k] == o;
      StillThere(g, h, o, k);
    }
    SweepKeepsLive(old(g.objs), h, g.objs, g.white);
  }

  lemma SweepingSomewhere(g: GlobalState)
    requires PhaseInv(g) && g.sweepgc.At?
    ensures g.gcstate in {GCSswpallgc, GCSswpfinobj, GCSswptobefnz}
  {
  }

  lemma StillThere(g: GlobalState, h: Heap, o: Ref, k: nat)
    requires Sweeps(h, g.objs, g.white) && Owned(g.objs, g.mainthread, g.allgc + g.finobj + g.tobefnz) && k < |g.allgc| && g.allgc[k] == o
    requires o in h && h[o].color == White(g.white)
    ensures o in g.objs && g.objs[o] == h[o]
  {
    assert (g.allgc + g.finobj + g.tobefnz)[k] == o;
  }

  lemma SweepKeepsLive(h0: Heap, h: Heap, h': Heap, white: bool)
    requires KeepsLive(h0, h, white) && Sweeps(h, h', white)
    ensures KeepsLive(h0, h', white)
  {
  }

  /** `luaC_checkfinalizer`: an object that gets a finalizer moves from `allgc` to `finobj`. */
  method CheckFinalizer(g: GlobalState, o: Ref, hasfinalizer: bool)
    requires Inv(g) && Live(g.objs, g.white, o) && g.objs[o].kind in {Table, Udata}
    modifies g`objs, g`allgc, g`finobj, g`tobefnz, g`sweepgc
    ensures Inv(g) && KeepsLive(old(g.objs), g.objs, g.white) && Live(g.objs, g.white, o)
    ensures hasfinalizer ==> g.objs[o].fin
    ensures !hasfinalizer || old(g.objs)[o].fin ==> g.objs == old(g.objs) && g.finobj == old(g.finobj)
    ensures hasfinalizer && !old(g.objs)[o].fin ==> g.finobj == [o] + old(g.finobj) && o !in g.allgc && g.tobefnz == old(g.tobefnz)
    ensures hasfinalizer && !old(g.objs)[o].fin && !IsSweepPhase(g.gcstate) ==> g.objs == old(g.objs)[o := old(g.objs)[o].(fin := true)]
  {
    hide Sound, Owned, RootsLive, FinOk, KeepsLive, ContentsLive, SweepInv;
    SameLive(g.objs, g.white);
    if g.objs[o].fin || !hasfinalizer {
      return;
    }
    InAllGc(g, o);
    var k := FindInAllGc(g, o);
    if IsSweepPhase(g.gcstate) {
      SettleForMove(g, o, k);
      StillLive(g, o);
    }
    ghost var h := g.objs;
    MoveToFinObj(g, o, k);
    KeepsLiveOn(old(g.objs), h, g.objs, g.white);
  }

  lemma KeepsLiveOn(h0: Heap, h1: Heap, h2: Heap, white: bool)
    requires KeepsLive(h0, h1, white) && KeepsLive(h1, h2, white)
    ensures KeepsLive(h0, h2, white)
  {
  }

  lemma StillLive(g: GlobalState, o: Ref)
    requires o in g.objs && g.objs[o].color == White(g.white)
    ensures Live(g.objs, g.white, o)
  {
  }

  lemma SameLive(h: Heap, white: bool)
    ensures KeepsLive(h, h, white)
  {
  }

  lemma InAllGc(g: GlobalState, o: Ref)
    requires Owned(g.objs, g.mainthread, g.allgc + g.finobj + g.tobefnz) && RootsLive(g) && o in g.objs && !g.objs[o].fin && !g.objs[o].kind.Thread?
    ensures o in g.allgc
  {
  }

  method MoveToFinObj(g: GlobalState, o: Ref, k: nat)
    requires Inv(g) && Live(g.objs, g.white, o) && k < |g.allgc| && g.allgc[k] == o && g.objs[o].kind in {Table, Udata} && !g.objs[o].fin
    requires IsSweepPhase(g.gcstate) ==> g.objs[o].color == White(g.white)
    modifies g`objs, g`allgc, g`finobj, g`sweepgc
    ensures Inv(g) && KeepsLive(old(g.objs), g.objs, g.white) && Live(g.objs, g.white, o)
    ensures g.objs == old(g.objs)[o := old(g.objs)[o].(fin := true)] && g.finobj == [o] + old(g.finobj) && o !in g.allgc
  {
    hide Sound, Owned, RootsLive, FinOk, TriColor, NoneDead, ContentsLive, SweepInv, AllLive, Marking, AllWeakOk, KeepsLive, Shaped, Distinct;
    ghost var h, s, all, fin, fnz := g.objs, SweepStateOf(g), g.allgc, g.finobj, g.tobefnz;
    var o' := g.objs[o].(fin := true);
    RootsAsLive(g);
    MovedOwned(h, g.mainthread, all, fin, fnz, k);
    MovedLive(h, g.white, g.mainthread, g.running, g.roots, fin, fnz, o, o');
    FinSound(h, g.white, o, o');
    if KeepInvariant(g.gcstate) {
      RelabelMarking(g, o, o');
    } else {
      MovedInv(s, k, o, o');
    }
    g.allgc := g.allgc[..k] + g.allgc[k + 1..];
    g.sweepgc := Unshifted(g.sweepgc, k);
    g.finobj := [o] + g.finobj;
    g.sweepgc := Shifted(g.sweepgc, FinObj);
    g.objs := g.objs[o := o'];
    WriteOwned(h, g.mainthread, g.allgc + g.finobj + g.tobefnz, o, o');
    LiveAsRoots(g);
    if KeepInvariant(g.gcstate) {
      AsMarking(g);
    } else {
      assert SweepStateOf(g) == s.(objs := g.objs, allgc := g.allgc, finobj := g.finobj, at := g.sweepgc);
    }
  }

  lemma MovedInv(s: SweepState, k: nat, o: Ref, o': Object)
    requires SweepInv(s) && k < |s.allgc| && s.allgc[k] == o && o in s.objs && o' == s.objs[o].(fin := true)
    requires IsSweepPhase(s.st) ==> s.objs[o].color == White(s.white)
    ensures SweepInv(s.(objs := s.objs[o := o'], allgc := Without(s.allgc, k), finobj := [o] + s.finobj, at := Shifted(Unshifted(s.at, k), FinObj)))
  {
    AllWhiteHere(s, o);
    hide SweepInv;
    SweepInvWithout(s, k);
    var s1 := s.(allgc := Without(s.allgc, k), at := Unshifted(s.at, k));
    SweepInvHead(s1, FinObj, o);
    var s2 := s1.(finobj := [o] + s.finobj, at := Shifted(s1.at, FinObj));
    PhaseStays(s2, o, o');
  }

  /** Outside the mark and sweep phases everything is white. */
  lemma AllWhiteHere(s: SweepState, o: Ref)
    requires SweepInv(s) && o in s.allgc && (IsSweepPhase(s.st) ==> o in s.objs && s.objs[o].color == White(s.white))
    ensures o in s.objs && s.objs[o].color == White(s.white)
  {
    var i :| 0 <= i < |s.allgc| && s.allgc[i] == o;
  }

  lemma MovedOwned(h: Heap, main: Ref, all: seq<Ref>, fin: seq<Ref>, fnz: seq<Ref>, k: nat)
    requires Owned(h, main, all + fin + fnz) && k < |all|
    ensures Owned(h, main, (all[..k] + all[k + 1..]) + ([all[k]] + fin) + fnz)
    ensures all[k] !in all[..k] + all[k + 1..]
  {
    var o := all[k];
    assert all == all[..k] + [o] + all[k + 1..];
    assert all + fin + fnz == [] + all + (fin + fnz);
    OwnedRemoved(h, main, [], all, fin + fnz, k);
    OwnedPermuted(h, main, all + fin + fnz, (all[..k] + all[k + 1..]) + ([o] + fin) + fnz);
  }

  lemma MovedLive(h: Heap, white: bool, main: Ref, running: Ref, roots: seq<Slot>, fin: seq<Ref>, fnz: seq<Ref>, o: Ref, o': Object)
    requires AllLive(h, white, main, running, roots, fin, fnz) && o in h && o' == h[o].(fin := true) && !o'.kind.Str? && !IsDead(o', white)
    ensures AllLive(h[o := o'], white, main, running, roots, [o] + fin, fnz)
  {
  }

  lemma FinSound(h: Heap, white: bool, o: Ref, o': Object)
    requires Sound(h, white) && o in h && o' == h[o].(fin := o'.fin)
    ensures Sound(h[o := o'], white) && KeepsLive(h, h[o := o'], white)
  {
    var h' := h[o := o'];
    forall q | q in h' ensures SoundAt(h', white, q) {
      assert SoundAt(h, white, q) && SoundAt(h, white, o);
    }
  }

  lemma FinTriColor(h: Heap, ls: Lists, o: Ref, o': Object)
    requires TriColor(h, ls) && o in h && o' == h[o].(fin := o'.fin) && ls.bound == Everything()
    ensures TriColor(h[o := o'], ls) && (AllWeakOk(h, ls.allweak) ==> AllWeakOk(h[o := o'], ls.allweak))
  {
    hide TriColor, AllWeakOk;
    RelabelledTriColor(h, ls, o, o');
    if AllWeakOk(h, ls.allweak) {
      SameMeta(h, o, o', ls.allweak);
    }
  }

  /** Taking the first element off `tobefnz`: a pointer into its link goes along to `allgc`. */
  function Retracted(at: Sweep): Sweep {
    if at == At(ToBeFnz, 1) then At(AllGc, 1)
    else if at.At? && at.list == ToBeFnz && at.i > 1 then At(ToBeFnz, at.i - 1)
    else Shifted(at, AllGc)
  }

  lemma SweptTail(h: Heap, white: bool, l: seq<Ref>)
    requires l != []
    ensures forall n: nat :: SweptTo(h, white, l, n) ==> SweptTo(h, white, l[1..], if n > 0 then n - 1 else 0)
    ensures Swept(h, white, l) ==> Swept(h, white, l[1..])
  {
  }

  /** The sweep invariant once the first object to be finalized, now white, is back in `allgc`. */
  lemma SweepInvRetracted(s: SweepState, o: Ref)
    requires SweepInv(s) && s.tobefnz != [] && o in s.objs && s.objs[o].color == White(s.white)
    ensures var s' := s.(allgc := [o] + s.allgc, tobefnz := s.tobefnz[1..], at := Retracted(s.at));
            SweepInv(s') <==> (s.at != At(ToBeFnz, 1) || Swept(s.objs, s.white, s.tobefnz[1..]))
  {
    SweptHead(s.objs, s.white, o, s.allgc);
    SweptTail(s.objs, s.white, s.tobefnz);
    NothingSwept(s.objs, s.white, [o] + s.allgc);
    NothingSwept(s.objs, s.white, s.tobefnz[1..]);
    hide SweptTo;
  }

  lemma FirstToFinalize(g: GlobalState)
    requires Inv(g) && g.tobefnz != []
    ensures var o := g.tobefnz[0]; Live(g.objs, g.white, o) && g.objs[o].fin
    ensures !KeepInvariant(g.gcstate) && !IsSweepPhase(g.gcstate) ==> g.objs[g.tobefnz[0]].color == White(g.white)
    ensures !(KeepInvariant(g.gcstate)) ==> SweepInv(SweepStateOf(g))
  {
    assert g.tobefnz[0] in g.tobefnz;
    if !KeepInvariant(g.gcstate) && !IsSweepPhase(g.gcstate) {
      assert Swept(g.objs, g.white, g.tobefnz);
    }
  }

  lemma RetractedOwned(h: Heap, main: Ref, all: seq<Ref>, fin: seq<Ref>, fnz: seq<Ref>)
    requires Owned(h, main, all + fin + fnz) && fnz != []
    ensures Owned(h, main, ([fnz[0]] + all) + fin + fnz[1..])
    ensures fnz[0] !in fin && fnz[0] !in fnz[1..]
  {
    assert fnz == [fnz[0]] + fnz[1..];
    OwnedPermuted(h, main, all + fin + fnz, ([fnz[0]] + all) + fin + fnz[1..]);
    OwnedPermuted(h, main, all + fin + fnz, [fnz[0]] + (all + fin + fnz[1..]));
    ApartParts([fnz[0]], all + fin + fnz[1..]);
    assert fnz[0] in [fnz[0]];
  }

  lemma RetractedLive(h: Heap, white: bool, main: Ref, running: Ref, roots: seq<Slot>, fin: seq<Ref>, fnz: seq<Ref>, o': Object)
    requires AllLive(h, white, main, running, roots, fin, fnz) && fnz != [] && fnz[0] in h && o' == h[fnz[0]].(fin := false, color := o'.color) && !IsDead(o', white)
    requires fnz[0] !in fin && fnz[0] !in fnz[1..]
    ensures AllLive(h[fnz[0] := o'], white, main, running, roots, fin, fnz[1..])
  {
    var h' := h[fnz[0] := o'];
    assert fnz == [fnz[0]] + fnz[1..];
    assert FinOk(h, fin, fnz);
    forall r | r in h' ensures h'[r].fin <==> r in fin || r in fnz[1..] {
      assert r in fnz <==> r == fnz[0] || r in fnz[1..];
    }
    forall r | r in fnz[1..] ensures Live(h', white, r) {
      assert r in fnz;
    }
  }

  lemma RecolorSound(h: Heap, white: bool, o: Ref, o': Object)
    requires Sound(h, white) && Live(h, white, o) && o' == h[o].(fin := o'.fin, color := o'.color) && !IsDead(o', white) && Shaped(o')
    ensures Sound(h[o := o'], white) && KeepsLive(h, h[o := o'], white)
  {
    var h' := h[o := o'];
    forall q | q in h' ensures SoundAt(h', white, q) {
      assert SoundAt(h, white, q) && SoundAt(h, white, o);
    }
  }

  /** `sweepgc` does not stand at the first object to be finalized, or nothing is left to sweep behind it. */
  predicate FinalizerSafe(g: GlobalState)
    requires g.tobefnz != []
    reads g`objs, g`white, g`tobefnz, g`sweepgc
  {
    g.sweepgc != At(ToBeFnz, 1) || Swept(g.objs, g.white, g.tobefnz[1..])
  }

  /**
    `udata2finalize`: the first object to be finalized is an ordinary one again, for its
    finalizer to be called with. If the sweep has stopped at that very object's link in
    `tobefnz`, it goes on in `allgc` instead, and what was left of `tobefnz` is not swept.
   */
  method Udata2Finalize(g: GlobalState) returns (o: Ref)
    requires Inv(g) && g.tobefnz != []
    modifies g`objs, g`allgc, g`tobefnz, g`sweepgc
    ensures Inv(g) <==> old(FinalizerSafe(g))
    ensures o == old(g.tobefnz[0]) && g.tobefnz == old(g.tobefnz[1..]) && g.allgc == [o] + old(g.allgc) && g.sweepgc == Retracted(old(g.sweepgc))
    ensures o in old(g.objs) && Live(g.objs, g.white, o) && KeepsLive(old(g.objs), g.objs, g.white)
    ensures g.objs == old(g.objs)[o := old(g.objs)[o].(fin := false, color := if IsSweepPhase(g.gcstate) then White(g.white) else old(g.objs)[o].color)]
    ensures Owned(g.objs, g.mainthread, g.allgc + g.finobj + g.tobefnz)
  {
    hide Sound, Owned, RootsLive, FinOk, TriColor, NoneDead, ContentsLive, SweepInv, AllLive, Swept, KeepsLive, Marking, AllWeakOk, Distinct;
    ghost var h, s, all, fin, fnz := g.objs, SweepStateOf(g), g.allgc, g.finobj, g.tobefnz;
    FirstToFinalize(g);
    TableSound(g, g.tobefnz[0]);
    o := g.tobefnz[0];
    var o' := g.objs[o].(fin := false, color := if IsSweepPhase(g.gcstate) then White(g.white) else g.objs[o].color);
    RetractedReady(g, o');
    if KeepInvariant(g.gcstate) {
      RelabelMarking(g, o, o');
    } else {
      RetractedInv(s, o, o');
      SweptApart(h, g.white, g.tobefnz[1..], o, o');
    }
    g.tobefnz := g.tobefnz[1..];
    g.allgc := [o] + g.allgc;
    g.sweepgc := Retracted(g.sweepgc);
    g.objs := g.objs[o := o'];
    LiveAsRoots(g);
    assert SweepStateOf(g) == s.(objs := g.objs, allgc := g.allgc, tobefnz := g.tobefnz, at := g.sweepgc);
    if KeepInvariant(g.gcstate) {
      AsMarking(g);
    }
  }

  lemma RetractedReady(g: GlobalState, o': Object)
    requires Sound(g.objs, g.white) && Owned(g.objs, g.mainthread, g.allgc + g.finobj + g.tobefnz) && RootsLive(g) && g.tobefnz != []
    requires var o := g.tobefnz[0]; Live(g.objs, g.white, o) && o' == g.objs[o].(fin := false, color := o'.color) && !IsDead(o', g.white) && Shaped(o')
    ensures g.tobefnz[0] !in g.tobefnz[1..]
    ensures var o, h' := g.tobefnz[0], g.objs[g.tobefnz[0] := o'];
            && Owned(h', g.mainthread, ([o] + g.allgc) + g.finobj + g.tobefnz[1..]) && Sound(h', g.white) && KeepsLive(g.objs, h', g.white)
            && AllLive(h', g.white, g.mainthread, g.running, g.roots, g.finobj, g.tobefnz[1..])
  {
    hide Sound, Owned, RootsLive, AllLive, KeepsLive, Shaped;
    var o := g.tobefnz[0];
    RootsAsLive(g);
    RetractedOwned(g.objs, g.mainthread, g.allgc, g.finobj, g.tobefnz);
    RetractedLive(g.objs, g.white, g.mainthread, g.running, g.roots, g.finobj, g.tobefnz, o');
    RecolorSound(g.objs, g.white, o, o');
    WriteOwned(g.objs, g.mainthread, ([o] + g.allgc) + g.finobj + g.tobefnz[1..], o, o');
  }

  /** What `Marking` says, of the parts of a state. */
  ghost predicate MarkingAt(h: Heap, white: bool, ls: Lists, main: Ref) {
    NoneDead(h, white) && TriColor(h, ls) && AllWeakOk(h, ls.allweak) && IsMarked(h, To(main))
  }

  lemma AsMarking(g: GlobalState)
    requires g.weak == g.ephemeron == [] && g.sweepgc == Off && MarkingAt(g.objs, g.white, MarkLists(g), g.mainthread)
    ensures Marking(g)
  {
  }

  /** A change of `fin` does not disturb marking. */
  lemma RelabelMarking(g: GlobalState, o: Ref, o': Object)
    requires Marking(g) && o in g.objs && o' == g.objs[o].(fin := o'.fin)
    ensures MarkingAt(g.objs[o := o'], g.white, MarkLists(g), g.mainthread) && g.weak == g.ephemeron == [] && g.sweepgc == Off
  {
    hide TriColor, NoneDead, AllWeakOk;
    FinTriColor(g.objs, MarkLists(g), o, o');
    assert !IsDead(o', g.white) by {
      NotDead(g.objs, g.white, o);
    }
    WriteNoneDead(g.objs, g.white, o, o');
    MainMarked(g.objs, g.mainthread, o, o');
  }

  lemma NotDead(h: Heap, white: bool, o: Ref)
    requires NoneDead(h, white) && o in h
    ensures !IsDead(h[o], white)
  {
  }

  lemma SweptApart(h: Heap, white: bool, l: seq<Ref>, o: Ref, o': Object)
    requires o !in l
    ensures Swept(h[o := o'], white, l) == Swept(h, white, l)
  {
  }

  lemma RetractedInv(s: SweepState, o: Ref, o': Object)
    requires SweepInv(s) && s.tobefnz != [] && o in s.objs && o'.color == White(s.white)
    ensures var s' := s.(objs := s.objs[o := o'], allgc := [o] + s.allgc, tobefnz := s.tobefnz[1..], at := Retracted(s.at));
            SweepInv(s') <==> (s.at != At(ToBeFnz, 1) || Swept(s'.objs, s.white, s.tobefnz[1..]))
  {
    hide SweepInv, Swept;
    PhaseStays(s, o, o');
    SweepInvRetracted(s.(objs := s.objs[o := o']), o);
  }
}
