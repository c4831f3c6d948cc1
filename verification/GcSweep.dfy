/**
  The invariant of every state of the collector of `lgc.c`, and sweeping.
 */
module GcSweep {
  import opened GcHeap
  import opened GcBound
  import opened GcMark
  import opened GcInvariant

  // ---------- the invariant ----------

  /** Dead objects carry the white that is not current. */
  predicate IsDead(o: Object, white: bool) {
    o.color == White(!white)
  }

  predicate Live(h: Heap, white: bool, r: Ref) {
    r in h && !IsDead(h[r], white)
  }

  predicate SlotLive(h: Heap, white: bool, s: Slot) {
    s.To? ==> Live(h, white, s.r)
  }

  ghost predicate ContentsLive(h: Heap, white: bool, o: Object) {
    && SlotLive(h, white, o.meta) && SlotLive(h, white, o.cache)
    && (forall i :: 0 <= i < |o.slots| ==> SlotLive(h, white, o.slots[i]))
    && (forall i :: 0 <= i < |o.nodes| ==> SlotLive(h, white, o.nodes[i].key) && SlotLive(h, white, o.nodes[i].val))
  }

  ghost predicate SoundAt(h: Heap, white: bool, r: Ref)
    requires r in h
  {
    Shaped(h[r]) && (!IsDead(h[r], white) ==> ContentsLive(h, white, h[r]))
  }

  /** No live object refers to a dead or freed one, not even weakly. */
  ghost predicate Sound(h: Heap, white: bool) {
    forall r :: r in h ==> SoundAt(h, white, r)
  }

  ghost predicate NoneDead(h: Heap, white: bool) {
    forall r :: r in h ==> !IsDead(h[r], white)
  }

  /** The objects, each in one of the three lists, but for the main thread. */
  ghost predicate Owned(h: Heap, main: Ref, lists: seq<Ref>) {
    && Distinct(lists)
    && main in h && h[main].kind.Thread? && main !in lists
    && (forall r :: r in h <==> r == main || r in lists)
  }

  ghost predicate RootsLive(g: GlobalState)
    reads g`objs, g`white, g`running, g`roots, g`finobj, g`tobefnz
  {
    && Live(g.objs, g.white, g.mainthread) && Live(g.objs, g.white, g.running)
    && (forall i :: 0 <= i < |g.roots| ==> SlotLive(g.objs, g.white, g.roots[i]))
    && (forall r :: r in g.tobefnz ==> Live(g.objs, g.white, r))
    && (forall r :: r in g.finobj ==> r in g.objs && !g.objs[r].kind.Str?)
    && FinOk(g.objs, g.finobj, g.tobefnz)
  }

  /** FINALIZEDBIT marks the objects of the two lists of objects with finalizers. */
  ghost predicate FinOk(h: Heap, fin: seq<Ref>, fnz: seq<Ref>) {
    forall r :: r in h ==> (h[r].fin <==> r in fin || r in fnz)
  }

  /** The gray lists while the mutator runs, which may lead the collector anywhere. */
  ghost function MarkLists(g: GlobalState): Lists
    reads g`gray, g`grayagain, g`allweak
  {
    Lists(false, g.gray, g.grayagain, [], g.allweak, [], Everything())
  }

  predicate SweptTo(h: Heap, white: bool, l: seq<Ref>, n: nat) {
    forall i :: 0 <= i < n && i < |l| ==> l[i] in h && h[l[i]].color == White(white)
  }

  predicate Swept(h: Heap, white: bool, l: seq<Ref>) {
    SweptTo(h, white, l, |l|)
  }

  /** The sweep has come as far as `sweepgc` in list `id`. */
  ghost predicate Sweeping(h: Heap, white: bool, id: ListId, l: seq<Ref>, at: Sweep) {
    match at
    case Off => Swept(h, white, l)
    case At(list, i) => list == id && i <= |l| && SweptTo(h, white, l, i)
  }

  /** The part of the state that matters while sweeping. */
  datatype SweepState = SweepState(objs: Heap, white: bool, st: GcState, main: Ref, allgc: seq<Ref>, finobj: seq<Ref>, tobefnz: seq<Ref>, at: Sweep)

  ghost function SweepStateOf(g: GlobalState): SweepState
    reads g`objs, g`white, g`gcstate, g`allgc, g`finobj, g`tobefnz, g`sweepgc
  {
    SweepState(g.objs, g.white, g.gcstate, g.mainthread, g.allgc, g.finobj, g.tobefnz, g.sweepgc)
  }

  /** How far the sweep has come, state by state; after it everything has the current white. */
  ghost predicate SweepInv(s: SweepState) {
    match s.st
    case GCSpropagate => false
    case GCSatomic => false
    case GCSinsideatomic => false
    case GCSswpallgc => Sweeping(s.objs, s.white, AllGc, s.allgc, s.at)
    case GCSswpfinobj => Swept(s.objs, s.white, s.allgc) && Sweeping(s.objs, s.white, FinObj, s.finobj, s.at)
    case GCSswptobefnz => Swept(s.objs, s.white, s.allgc) && Swept(s.objs, s.white, s.finobj)
                          && (Sweeping(s.objs, s.white, ToBeFnz, s.tobefnz, s.at) || Overtaken(s))
    case GCSswpend => AllSwept(s) && s.at == Off
    case GCScallfin => AllSwept(s) && s.at == Off && s.objs[s.main].color == White(s.white)
    case GCSpause => AllSwept(s) && s.at == Off && s.objs[s.main].color == White(s.white)
  }

  /** The sweep has been led into `allgc`, which does no harm if there is nothing left to sweep. */
  ghost predicate Overtaken(s: SweepState) {
    s.at.At? && s.at.list == AllGc && s.at.i <= |s.allgc| && Swept(s.objs, s.white, s.tobefnz)
  }

  ghost predicate AllSwept(s: SweepState) {
    s.main in s.objs && Swept(s.objs, s.white, s.allgc) && Swept(s.objs, s.white, s.finobj) && Swept(s.objs, s.white, s.tobefnz)
  }

  ghost predicate PhaseInv(g: GlobalState)
    reads g`objs, g`white, g`gcstate, g`allgc, g`finobj, g`tobefnz, g`sweepgc, g`gray, g`grayagain, g`allweak, g`weak, g`ephemeron
  {
    if g.gcstate == GCSpropagate then Marking(g) && g.gray != []
    else if g.gcstate == GCSatomic then Marking(g)
    else SweepInv(SweepStateOf(g))
  }

  /** While the mutator runs, tables in `allweak` are all-weak, and have marked metatables. */
  ghost predicate AllWeakOk(h: Heap, l: seq<Ref>) {
    forall r :: r in l ==> r in h && ModeOf(h, r).AllWeak? && IsMarked(h, h[r].meta)
  }

  /** While marking: nothing is dead, and black objects refer to marked ones only. */
  ghost predicate Marking(g: GlobalState)
    reads g`objs, g`white, g`sweepgc, g`gray, g`grayagain, g`allweak, g`weak, g`ephemeron
  {
    && NoneDead(g.objs, g.white)
    && TriColor(g.objs, MarkLists(g))
    && g.weak == [] && g.ephemeron == []
    && AllWeakOk(g.objs, g.allweak)
    && IsMarked(g.objs, To(g.mainthread))
    && g.sweepgc == Off
  }

  /** What holds whenever the mutator runs. */
  ghost predicate Inv(g: GlobalState)
    reads g`objs, g`white, g`gcstate, g`allgc, g`finobj, g`tobefnz, g`sweepgc, g`gray, g`grayagain, g`allweak, g`weak, g`ephemeron, g`running, g`roots
  {
    && Sound(g.objs, g.white)
    && Owned(g.objs, g.mainthread, g.allgc + g.finobj + g.tobefnz)
    && RootsLive(g)
    && PhaseInv(g)
  }

  // ---------- sweeping ----------

  /** From `h` to `h'` only dead objects have been freed, and the others at most turned white. */
  ghost predicate Sweeps(h: Heap, h': Heap, white: bool) {
    && (forall r :: r in h' ==> r in h)
    && (forall r :: r in h && r !in h' ==> IsDead(h[r], white))
    && (forall r :: r in h && r in h' ==> h'[r] == h[r] || (!IsDead(h[r], white) && h'[r] == h[r].(color := White(white))))
  }

  lemma SweepsOn(a: Heap, b: Heap, c: Heap, white: bool)
    requires Sweeps(a, b, white) && Sweeps(b, c, white)
    ensures Sweeps(a, c, white)
  {
  }

  lemma SweepsSound(h: Heap, h': Heap, white: bool)
    requires Sound(h, white) && Sweeps(h, h', white)
    ensures Sound(h', white)
    ensures forall r :: Live(h, white, r) <==> Live(h', white, r)
  {
    hide ContentsLive;
    forall r | r in h' ensures SoundAt(h', white, r) {
      assert SoundAt(h, white, r);
      if !IsDead(h'[r], white) {
        ContentsStay(h, h', white, h[r]);
        Recoloured(h', white, h[r], h'[r]);
      }
    }
  }

  lemma ContentsStay(h: Heap, h': Heap, white: bool, o: Object)
    requires Sweeps(h, h', white) && ContentsLive(h, white, o)
    ensures ContentsLive(h', white, o)
  {
  }

  lemma Recoloured(h: Heap, white: bool, o: Object, o': Object)
    requires o' == o.(color := o'.color) && ContentsLive(h, white, o)
    ensures ContentsLive(h, white, o')
  {
  }

  /** Objects outside the swept list are as they were. */
  ghost predicate OnlyIn(h: Heap, h': Heap, l: seq<Ref>) {
    forall r :: r in h && r !in l ==> r in h' && h'[r] == h[r]
  }

  lemma OwnedRemoved(h: Heap, main: Ref, a: seq<Ref>, l: seq<Ref>, b: seq<Ref>, i: nat)
    requires Owned(h, main, a + l + b) && i < |l|
    ensures Owned(h - {l[i]}, main, a + (l[..i] + l[i + 1..]) + b)
    ensures l[i] !in l[..i] + l[i + 1..] && l[i] !in a && l[i] !in b && l[i] != main
  {
    var all, k := a + l + b, |a| + i;
    var rest := a + (l[..i] + l[i + 1..]) + b;
    assert rest == all[..k] + all[k + 1..] && all[k] == l[i];
    DistinctRemove(all, k);
    assert l[i] in all;
  }

  lemma DistinctRemove(s: seq<Ref>, k: nat)
    requires Distinct(s) && k < |s|
    ensures Distinct(s[..k] + s[k + 1..]) && forall r :: r in s[..k] + s[k + 1..] <==> r in s && r != s[k]
  {
    var t := s[..k] + s[k + 1..];
    forall i, j | 0 <= i < j < |t| ensures t[i] != t[j] {
      assert s[if i < k then i else i + 1] != s[if j < k then j else j + 1];
    }
    forall i | 0 <= i < |s| && i != k ensures s[i] in t && s[i] != s[k] {
      assert t[if i < k then i else i - 1] == s[i];
      assert if i < k then s[i] != s[k] else s[k] != s[i];
    }
    forall r | r in t ensures r in s && r != s[k] {
      var i :| 0 <= i < |t| && t[i] == r;
      assert if i < k then s[i] != s[k] else s[k] != s[i + 1];
    }
  }

  /** The objects of `s` that are not dead, in order. */
  ghost function Survivors(h: Heap, white: bool, s: seq<Ref>): seq<Ref> {
    if s == [] then []
    else
      var last := s[|s| - 1];
      Survivors(h, white, s[..|s| - 1]) + if last in h && IsDead(h[last], white) then [] else [last]
  }

  /** Exactly the dead among the objects `part` have been freed, and the others have become white. */
  ghost predicate SliceSwept(h: Heap, h': Heap, white: bool, part: seq<Ref>) {
    && (forall r :: r in h' <==> r in h && !(r in part && IsDead(h[r], white)))
    && forall r :: r in h && r in h' ==> h'[r] == if r in part then h[r].(color := White(white)) else h[r]
  }

  /** From link `i0` of the list `l0` on, `k` objects have been swept; what is left is the list `l`, with the sweep at link `i`. */
  ghost predicate Sliced(h: Heap, h': Heap, white: bool, l0: seq<Ref>, i0: nat, k: int, l: seq<Ref>, i: int) {
    && 0 <= k && i0 + k <= |l0|
    && var part := l0[i0..i0 + k];
       SliceSwept(h, h', white, part) && l == l0[..i0] + Survivors(h, white, part) + l0[i0 + k..] && i == i0 + |Survivors(h, white, part)|
  }

  lemma SlicedNone(h: Heap, white: bool, l: seq<Ref>, i: nat)
    requires i <= |l|
    ensures Sliced(h, h, white, l, i, 0, l, i)
  {
    assert l == l[..i] + [] + l[i..];
  }

  lemma SlicedHere(h: Heap, h': Heap, white: bool, l0: seq<Ref>, i0: nat, k: nat, l: seq<Ref>, i: nat)
    requires Sliced(h, h', white, l0, i0, k, l, i) && i < |l|
    ensures i0 + k < |l0| && l[i] == l0[i0 + k] && l[..i] == l0[..i0] + Survivors(h, white, l0[i0..i0 + k]) && l[i + 1..] == l0[i0 + k + 1..]
  {
  }

  /** One object more. */
  lemma SlicedOn(h: Heap, h': Heap, h2: Heap, white: bool, l0: seq<Ref>, i0: nat, k: nat, l: seq<Ref>, i: nat, l2: seq<Ref>, i2: nat)
    requires Sliced(h, h', white, l0, i0, k, l, i) && i < |l| && l[i] in h' && l[i] in h && h'[l[i]] == h[l[i]] && l[i] !in l0[i0..i0 + k]
    requires if IsDead(h'[l[i]], white) then l2 == l[..i] + l[i + 1..] && h2 == h' - {l[i]} && i2 == i
             else l2 == l && h2 == h'[l[i] := h'[l[i]].(color := White(white))] && i2 == i + 1
    ensures Sliced(h, h2, white, l0, i0, k + 1, l2, i2)
  {
    hide Survivors, SliceSwept;
    SlicedHere(h, h', white, l0, i0, k, l, i);
    var part, x := l0[i0..i0 + k], l[i];
    assert l0[i0..i0 + (k + 1)] == part + [x];
    SliceSweptOn(h, h', h2, white, part, x);
    SurvivorsOn(h, white, part, x);
    ListOn(l, i, l0[..i0], Survivors(h, white, part), x, l0[i0 + k + 1..], IsDead(h[x], white), l2);
  }

  lemma ListOn(l: seq<Ref>, i: nat, a: seq<Ref>, s: seq<Ref>, x: Ref, b: seq<Ref>, dead: bool, l2: seq<Ref>)
    requires i < |l| && l[..i] == a + s && l[i] == x && l[i + 1..] == b && l2 == if dead then l[..i] + l[i + 1..] else l
    ensures l2 == a + (s + if dead then [] else [x]) + b
  {
    assert l == l[..i] + [l[i]] + l[i + 1..];
  }

  lemma SliceSweptOn(h: Heap, h': Heap, h2: Heap, white: bool, part: seq<Ref>, x: Ref)
    requires SliceSwept(h, h', white, part) && x in h && x in h' && h'[x] == h[x] && x !in part
    requires h2 == if IsDead(h[x], white) then h' - {x} else h'[x := h[x].(color := White(white))]
    ensures SliceSwept(h, h2, white, part + [x])
  {
    forall r ensures r in part + [x] <==> r in part || r == x {
    }
  }

  lemma SurvivorsOn(h: Heap, white: bool, part: seq<Ref>, x: Ref)
    ensures Survivors(h, white, part + [x]) == Survivors(h, white, part) + if x in h && IsDead(h[x], white) then [] else [x]
  {
    assert (part + [x])[..|part|] == part;
  }

  /** The slice that a sweep of `count` objects takes. */
  function SliceOf(l: seq<Ref>, i: nat, count: nat): int {
    if count <= |l| - i then count else |l| - i
  }

  lemma NotTwice(h: Heap, main: Ref, a: seq<Ref>, l: seq<Ref>, b: seq<Ref>, i: nat, j: nat)
    requires Owned(h, main, a + l + b) && i <= j < |l|
    ensures l[j] !in l[i..j]
  {
    forall k | i <= k < j ensures l[k] != l[j] {
      assert (a + l + b)[|a| + k] == l[k] && (a + l + b)[|a| + j] == l[j];
    }
  }

  /** Link `i` of the list: the object there is freed if it is dead, and gets the current white otherwise. */
  method SweepLink(g: GlobalState, l: seq<Ref>, i: nat, ghost a: seq<Ref>, ghost b: seq<Ref>, ghost h0: Heap, ghost l0: seq<Ref>, ghost i0: nat, ghost k: nat)
    returns (l': seq<Ref>, i': nat)
    requires Owned(g.objs, g.mainthread, a + l + b) && i < |l| && SweptTo(g.objs, g.white, l, i) && Owned(h0, g.mainthread, a + l0 + b)
    requires Sweeps(h0, g.objs, g.white) && OnlyIn(h0, g.objs, l0) && l[i] in l0 && Behind(h0, g.objs, l, i)
    requires Sliced(h0, g.objs, g.white, l0, i0, k, l, i)
    modifies g`objs
    ensures Owned(g.objs, g.mainthread, a + l' + b) && i' <= |l'| && SweptTo(g.objs, g.white, l', i')
    ensures Sweeps(h0, g.objs, g.white) && OnlyIn(h0, g.objs, l0) && Behind(h0, g.objs, l', i')
    ensures Sliced(h0, g.objs, g.white, l0, i0, k + 1, l', i')
    ensures (i' == i + 1 && l' == l) || (i' == i && l' == l[..i] + l[i + 1..] && !NoneDeadIn(h0, g.white, l0))
  {
    hide Owned, Sweeps, NoneDeadIn, Sliced, Behind, SweptTo, OnlyIn, Survivors, IsDead;
    SliceGoesOn(h0, g.objs, g.white, g.mainthread, a, l0, b, i0, k, l, i);
    var curr := l[i];
    ghost var h := g.objs;
    OwnedIn(h, g.mainthread, a, l, b, i);
    if IsDead(g.objs[curr], g.white) {
      DeadBefore(h0, h, g.white, l0, curr);
      l', i' := l[..i] + l[i + 1..], i;
      g.objs := g.objs - {curr};
      DeadFreed(h0, h, g.objs, g.mainthread, g.white, a, l, b, l', i);
    } else {
      g.objs := g.objs[curr := g.objs[curr].(color := White(g.white))];
      WhitenedOne(h, g.objs, g.mainthread, g.white, a, l, b, i);
      BehindWhite(h0, h, g.objs, g.mainthread, a, l, b, i);
      l', i' := l, i + 1;
    }
    SweepsOn(h0, h, g.objs, g.white);
    SlicedOn(h0, h, g.objs, g.white, l0, i0, k, l, i, l', i');
    OnlyOneMore(h0, h, g.objs, l0, curr);
  }

  /** `sweeplist`, from link `i` of the list `l`: frees the dead, turns the others white. */
  method SweepList(g: GlobalState, l0: seq<Ref>, i0: nat, count: nat, ghost a: seq<Ref>, ghost b: seq<Ref>) returns (l: seq<Ref>, i: nat)
    requires Owned(g.objs, g.mainthread, a + l0 + b) && i0 <= |l0| && SweptTo(g.objs, g.white, l0, i0)
    modifies g`objs
    ensures Owned(g.objs, g.mainthread, a + l + b) && i <= |l| && SweptTo(g.objs, g.white, l, i)
    ensures Sweeps(old(g.objs), g.objs, g.white) && OnlyIn(old(g.objs), g.objs, l0)
    ensures forall r :: r in l ==> r in l0
    ensures i == |l| || |l| - i + count == |l0| - i0
    ensures i0 <= i && l[..i0] == l0[..i0]
    ensures NoneDeadIn(old(g.objs), g.white, l0) ==> l == l0
    ensures |l0| - i0 <= |l| - i + count && Behind(old(g.objs), g.objs, l, i)
    ensures Sliced(old(g.objs), g.objs, g.white, l0, i0, SliceOf(l0, i0, count), l, i)
  {
    hide Owned, Sweeps, NoneDeadIn, Sliced, Behind, SweptTo, OnlyIn, Survivors, IsDead;
    ghost var h0 := g.objs;
    l, i := l0, i0;
    var n := count;
    SweepsSame(h0, g.white);
    BehindStart(h0, g.mainthread, a, l, b, i);
    SlicedNone(h0, g.white, l, i);
    SameOnly(h0, l0);
    while i < |l| && n > 0
      invariant Owned(g.objs, g.mainthread, a + l + b) && i <= |l| && SweptTo(g.objs, g.white, l, i)
      invariant Sweeps(h0, g.objs, g.white) && OnlyIn(h0, g.objs, l0) && (forall r :: r in l ==> r in l0)
      invariant 0 <= n <= count && |l| - i + (count - n) == |l0| - i0
      invariant i0 <= i && l[..i0] == l0[..i0]
      invariant NoneDeadIn(h0, g.white, l0) ==> l == l0
      invariant Behind(h0, g.objs, l, i)
      invariant Sliced(h0, g.objs, g.white, l0, i0, count - n, l, i)
      decreases n
    {
      l, i := SweepLink(g, l, i, a, b, h0, l0, i0, count - n);
      n := n - 1;
    }
  }

  lemma DeadFreed(h0: Heap, h: Heap, h': Heap, main: Ref, white: bool, a: seq<Ref>, l: seq<Ref>, b: seq<Ref>, l': seq<Ref>, i: nat)
    requires Owned(h, main, a + l + b) && i < |l| && l[i] in h && IsDead(h[l[i]], white) && h' == h - {l[i]} && l' == l[..i] + l[i + 1..]
    requires SweptTo(h, white, l, i) && Behind(h0, h, l, i)
    ensures Owned(h', main, a + l' + b) && Sweeps(h, h', white) && SweptTo(h', white, l', i) && Behind(h0, h', l', i)
    ensures |l'| == |l| - 1 && l'[..i] == l[..i] && forall r :: r in l' ==> r in l
  {
    hide Owned, Sweeps, SweptTo, Behind, IsDead;
    OwnedRemoved(h, main, a, l, b, i);
    FreedOne(h, h', white, l, l', i);
    BehindFreed(h0, h, h', l, l', i);
  }

  lemma OnlyOneMore(h0: Heap, h: Heap, h': Heap, l0: seq<Ref>, x: Ref)
    requires OnlyIn(h0, h, l0) && x in l0 && (h' == h - {x} || (x in h' && h' == h[x := h'[x]]))
    ensures OnlyIn(h0, h', l0)
  {
  }

  lemma SliceGoesOn(h0: Heap, h: Heap, white: bool, main: Ref, a: seq<Ref>, l0: seq<Ref>, b: seq<Ref>, i0: nat, k: nat, l: seq<Ref>, i: nat)
    requires Sliced(h0, h, white, l0, i0, k, l, i) && i < |l| && Owned(h0, main, a + l0 + b) && Behind(h0, h, l, i)
    ensures l[i] in h && l[i] in h0 && h[l[i]] == h0[l[i]] && l[i] !in l0[i0..i0 + k]
  {
    SlicedHere(h0, h, white, l0, i0, k, l, i);
    NotTwice(h0, main, a, l0, b, i0, i0 + k);
  }

  /** Objects that the sweep has not come to yet are as they were. */
  ghost predicate Behind(h: Heap, h': Heap, l: seq<Ref>, i: int) {
    forall k :: i <= k < |l| && 0 <= k ==> l[k] in h && l[k] in h' && h'[l[k]] == h[l[k]]
  }

  lemma BehindStart(h: Heap, main: Ref, a: seq<Ref>, l: seq<Ref>, b: seq<Ref>, i: nat)
    requires Owned(h, main, a + l + b)
    ensures Behind(h, h, l, i)
  {
    forall k | i <= k < |l| ensures l[k] in h {
      OwnedIn(h, main, a, l, b, k);
    }
  }

  lemma BehindFreed(h0: Heap, h: Heap, h': Heap, l: seq<Ref>, l': seq<Ref>, i: nat)
    requires Behind(h0, h, l, i) && i < |l| && l' == l[..i] + l[i + 1..] && h' == h - {l[i]} && l[i] !in l'
    ensures Behind(h0, h', l', i)
  {
    forall k | i <= k < |l'| ensures l'[k] in h0 && l'[k] in h' && h'[l'[k]] == h0[l'[k]] {
      assert l'[k] == l[k + 1] && l'[k] in l';
    }
  }

  lemma BehindWhite(h0: Heap, h: Heap, h': Heap, main: Ref, a: seq<Ref>, l: seq<Ref>, b: seq<Ref>, i: nat)
    requires Behind(h0, h, l, i) && i < |l| && Owned(h, main, a + l + b) && l[i] in h' && h' == h[l[i] := h'[l[i]]]
    ensures Behind(h0, h', l, i + 1)
  {
    forall k | i + 1 <= k < |l| ensures l[k] in h0 && l[k] in h' && h'[l[k]] == h0[l[k]] {
      assert (a + l + b)[|a| + i] == l[i] && (a + l + b)[|a| + k] == l[k];
    }
  }

  ghost predicate NoneDeadIn(h: Heap, white: bool, l: seq<Ref>) {
    forall r :: r in l ==> Live(h, white, r)
  }

  lemma DeadBefore(h0: Heap, h: Heap, white: bool, l0: seq<Ref>, r: Ref)
    requires Sweeps(h0, h, white) && r in l0 && r in h && IsDead(h[r], white)
    ensures !NoneDeadIn(h0, white, l0)
  {
  }

  lemma SweepsSame(h: Heap, white: bool)
    ensures Sweeps(h, h, white)
  {
  }

  lemma OwnedIn(h: Heap, main: Ref, a: seq<Ref>, l: seq<Ref>, b: seq<Ref>, i: nat)
    requires Owned(h, main, a + l + b) && i < |l|
    ensures l[i] in h && l[i] != main
  {
    assert l[i] in a + l + b;
  }

  lemma FreedOne(h: Heap, h': Heap, white: bool, l: seq<Ref>, l': seq<Ref>, i: nat)
    requires i < |l| && l[i] in h && IsDead(h[l[i]], white) && h' == h - {l[i]} && l' == l[..i] + l[i + 1..] && l[i] !in l'
    requires SweptTo(h, white, l, i)
    ensures Sweeps(h, h', white) && SweptTo(h', white, l', i) && (forall r :: r in l' ==> r in l)
    ensures forall r :: r in h && r !in l ==> r in h' && h'[r] == h[r]
  {
    forall k | 0 <= k < i ensures l'[k] in h' && h'[l'[k]].color == White(white) {
      assert l'[k] == l[k] && l'[k] in l';
    }
  }

  lemma WhitenedOne(h: Heap, h': Heap, main: Ref, white: bool, a: seq<Ref>, l: seq<Ref>, b: seq<Ref>, i: nat)
    requires Owned(h, main, a + l + b) && i < |l| && l[i] in h && !IsDead(h[l[i]], white) && h' == h[l[i] := h[l[i]].(color := White(white))]
    requires SweptTo(h, white, l, i)
    ensures Sweeps(h, h', white) && SweptTo(h', white, l, i + 1) && Owned(h', main, a + l + b)
  {
  }

  lemma SweptStays(h: Heap, h': Heap, white: bool, l: seq<Ref>)
    requires Sweeps(h, h', white) && Swept(h, white, l)
    ensures Swept(h', white, l)
  {
  }

  lemma SweptPart(h: Heap, white: bool, l: seq<Ref>, i: nat)
    requires i <= |l|
    ensures Swept(h, white, l) ==> SweptTo(h, white, l, i)
  {
  }

  lemma SweptSub(h: Heap, h': Heap, white: bool, l: seq<Ref>, l': seq<Ref>)
    requires Sweeps(h, h', white) && forall r :: r in l' ==> r in l
    ensures Swept(h, white, l) ==> Swept(h', white, l')
  {
    if Swept(h, white, l) {
      forall i | 0 <= i < |l'| ensures l'[i] in h' && h'[l'[i]].color == White(white) {
        assert l'[i] in l;
        var k :| 0 <= k < |l| && l[k] == l'[i];
        assert l[k] in h;
      }
    }
  }

  lemma AsFarAs(h: Heap, white: bool, id: ListId, l: seq<Ref>, i: nat)
    requires i <= |l| && SweptTo(h, white, l, i)
    ensures Sweeping(h, white, id, l, if i == |l| then Off else At(id, i))
  {
  }

  /** The roots of `g`, in terms of its fields. */
  ghost predicate AllLive(h: Heap, white: bool, main: Ref, running: Ref, roots: seq<Slot>, fin: seq<Ref>, fnz: seq<Ref>) {
    && Live(h, white, main) && Live(h, white, running)
    && (forall i :: 0 <= i < |roots| ==> SlotLive(h, white, roots[i]))
    && (forall r :: r in fnz ==> Live(h, white, r))
    && (forall r :: r in fin ==> r in h && !h[r].kind.Str?)
    && FinOk(h, fin, fnz)
  }

  lemma SweepsLive(h: Heap, h': Heap, white: bool, main: Ref, running: Ref, roots: seq<Slot>, fin: seq<Ref>, fnz: seq<Ref>,
                   all: seq<Ref>, all': seq<Ref>, fin': seq<Ref>, fnz': seq<Ref>)
    requires AllLive(h, white, main, running, roots, fin, fnz) && Sweeps(h, h', white) && Sound(h, white) && Owned(h, main, all + fin + fnz)
    requires Owned(h', main, all' + fin' + fnz') && (forall r :: r in fin' ==> r in fin) && (forall r :: r in fnz' ==> r in fnz)
    requires forall r :: r in all' ==> r in all
    ensures AllLive(h', white, main, running, roots, fin', fnz') && Sound(h', white)
  {
    SweepsSound(h, h', white);
    forall r | r in fin' ensures r in h' && !h'[r].kind.Str? {
      assert r in all' + fin' + fnz';
    }
    forall r | r in h' ensures h'[r].fin <==> r in fin' || r in fnz' {
      assert r in h;
      NotInBoth(all, fin, fnz, main, h, r);
    }
  }

  /** An object in `allgc`, or the main thread, is not in the other lists. */
  lemma NotInBoth(all: seq<Ref>, fin: seq<Ref>, fnz: seq<Ref>, main: Ref, h: Heap, r: Ref)
    requires Owned(h, main, all + fin + fnz)
    ensures r in all || r == main ==> r !in fin && r !in fnz
    ensures r in fin ==> r !in fnz
  {
    assert all + fin + fnz == all + (fin + fnz);
    ApartParts(all, fin + fnz);
    DistinctPart(all, fin + fnz);
    ApartParts(fin, fnz);
  }

  ghost function ListIn(s: SweepState, id: ListId): seq<Ref> {
    match id
    case AllGc => s.allgc
    case FinObj => s.finobj
    case ToBeFnz => s.tobefnz
  }

  /** The objects that the next slice of the sweep takes. */
  ghost function NextSlice(s: SweepState, max: nat): seq<Ref>
    requires s.at.At? && s.at.i <= |ListIn(s, s.at.list)|
  {
    var l := ListIn(s, s.at.list);
    l[s.at.i..s.at.i + SliceOf(l, s.at.i, max)]
  }

  /** A slice has been swept: exactly its dead objects are gone, from the heap and from their list. */
  ghost predicate SliceTaken(s: SweepState, s': SweepState, max: nat) {
    && s.at.At?
    && var l, l' := ListIn(s, s.at.list), ListIn(s', s.at.list);
       && s.at.i <= |l|
       && var part := NextSlice(s, max);
          && SliceSwept(s.objs, s'.objs, s.white, part)
          && l' == l[..s.at.i] + Survivors(s.objs, s.white, part) + l[s.at.i + |part|..]
          && (s.at.list != AllGc ==> s'.allgc == s.allgc) && (s.at.list != FinObj ==> s'.finobj == s.finobj)
          && (s.at.list != ToBeFnz ==> s'.tobefnz == s.tobefnz)
  }

  /** Where the sweep is after such a slice. */
  ghost function SliceEnd(s: SweepState, max: nat): Sweep
    requires s.at.At? && s.at.i <= |ListIn(s, s.at.list)|
  {
    var part := NextSlice(s, max);
    if s.at.i + |part| == |ListIn(s, s.at.list)| then Off else At(s.at.list, s.at.i + |Survivors(s.objs, s.white, part)|)
  }

  /** A step of the sweep: a slice of the list, and the next state if that was the end of it. */
  ghost predicate StepSwept(s: SweepState, s': SweepState, max: nat) {
    if s.at == Off then s' == s.(st := NextSweep(s.st).0, at := NextSweep(s.st).1)
    else SliceTaken(s, s', max) && (s'.st, s'.at) == if SliceEnd(s, max) == Off then NextSweep(s.st) else (s.st, SliceEnd(s, max))
  }

  /** The sweep of the list `s.at.list` has gone on, or come to its end. */
  ghost predicate Advanced(s: SweepState, s': SweepState, max: nat) {
    && s.at.At? && s'.st == s.st
    && (s.at.list != AllGc ==> s'.allgc == s.allgc) && (s.at.list != FinObj ==> s'.finobj == s.finobj) && s'.tobefnz == s.tobefnz
    && var l, l' := ListIn(s, s.at.list), ListIn(s', s.at.list);
       && s.at.i <= |l| && s.at.i <= |l'| && l'[..s.at.i] == l[..s.at.i]
       && (s'.at.At? ==> s'.at.list == s.at.list && s.at.i <= s'.at.i <= |l'| && |l'| - s'.at.i + max == |l| - s.at.i)
       && (s'.at.At? ==> Behind(s.objs, s'.objs, l', s'.at.i)) && (s'.at == Off ==> |l| - s.at.i <= max)
  }

  ghost predicate Fewer(l: seq<Ref>, l': seq<Ref>) {
    forall r :: r in l' ==> r in l
  }

  /** `sweeplist` on the list that `sweepgc` points into. */
  method SweepOnce(g: GlobalState, max: nat)
    requires g.sweepgc.At? && Inv(g) && g.gcstate in {GCSswpallgc, GCSswpfinobj, GCSswptobefnz}
    modifies g`objs, g`allgc, g`finobj, g`tobefnz, g`sweepgc
    ensures Sweeps(old(g.objs), g.objs, g.white) && Advanced(old(SweepStateOf(g)), SweepStateOf(g), max)
    ensures OnlyIn(old(g.objs), g.objs, ListIn(old(SweepStateOf(g)), old(g.sweepgc).list))
    ensures Owned(g.objs, g.mainthread, g.allgc + g.finobj + g.tobefnz)
    ensures Fewer(old(g.allgc), g.allgc) && Fewer(old(g.finobj), g.finobj) && Fewer(old(g.tobefnz), g.tobefnz)
    ensures Sweeping(g.objs, g.white, old(g.sweepgc).list, ListIn(SweepStateOf(g), old(g.sweepgc).list), g.sweepgc)
    ensures SliceTaken(old(SweepStateOf(g)), SweepStateOf(g), max) && g.sweepgc == SliceEnd(old(SweepStateOf(g)), max)
  {
    hide Sound, Owned, Sweeps, Swept, SweptTo, AllLive, RootsLive, NoneDeadIn, OnlyIn, Sweeping, Behind, FinOk, Marking, Advanced, Fewer, SweepInv, Sliced, SliceOf, SliceTaken, SliceEnd;
    ghost var h, all, fin, fnz, s := g.objs, g.allgc, g.finobj, g.tobefnz, SweepStateOf(g);
    var i := g.sweepgc.i;
    var id := g.sweepgc.list;
    var l: seq<Ref>;
    SweptHere(g);
    RootsAsLive(g);
    FnzAlive(h, g.white, g.mainthread, g.running, g.roots, fin, fnz);
    if id == AllGc {
      assert [] + all + (fin + fnz) == all + fin + fnz;
      l, i := SweepList(g, g.allgc, i, max, [], fin + fnz);
      assert [] + l + (fin + fnz) == l + fin + fnz;
      g.allgc := l;
    } else if id == FinObj {
      l, i := SweepList(g, g.finobj, i, max, all, fnz);
      g.finobj := l;
    } else {
      assert all + fin + fnz + [] == all + fin + fnz;
      l, i := SweepList(g, g.tobefnz, i, max, all + fin, []);
      assert all + fin + l + [] == all + fin + l;
      g.tobefnz := l;
    }
    AsFarAs(g.objs, g.white, id, l, i);
    g.sweepgc := if i == |l| then Off else At(id, i);
    NowAdvanced(s, SweepStateOf(g), l, i, max);
    NoMore(s, SweepStateOf(g), l);
    NowTaken(s, SweepStateOf(g), l, i, max);
  }

  lemma NowTaken(s: SweepState, s': SweepState, l: seq<Ref>, i: nat, max: nat)
    requires s.at.At? && s'.st == s.st && l == ListIn(s', s.at.list) && s.at.i <= |ListIn(s, s.at.list)|
    requires (s.at.list != AllGc ==> s'.allgc == s.allgc) && (s.at.list != FinObj ==> s'.finobj == s.finobj) && (s.at.list != ToBeFnz ==> s'.tobefnz == s.tobefnz)
    requires var l0 := ListIn(s, s.at.list); Sliced(s.objs, s'.objs, s.white, l0, s.at.i, SliceOf(l0, s.at.i, max), l, i)
    requires s'.at == if i == |l| then Off else At(s.at.list, i)
    ensures SliceTaken(s, s', max) && s'.at == SliceEnd(s, max)
  {
    hide Survivors, SliceSwept;
  }

  lemma NowAdvanced(s: SweepState, s': SweepState, l: seq<Ref>, i: nat, max: nat)
    requires s.at.At? && s'.st == s.st && s'.tobefnz == s.tobefnz && l == ListIn(s', s.at.list) && s'.at == if i == |l| then Off else At(s.at.list, i)
    requires (s.at.list != AllGc ==> s'.allgc == s.allgc) && (s.at.list != FinObj ==> s'.finobj == s.finobj)
    requires var l0 := ListIn(s, s.at.list);
             && s.at.i <= |l0| && s.at.i <= i <= |l| && l[..s.at.i] == l0[..s.at.i] && Behind(s.objs, s'.objs, l, i)
             && (i == |l| || |l| - i + max == |l0| - s.at.i) && |l0| - s.at.i <= |l| - i + max
    ensures Advanced(s, s', max)
  {
    hide Behind;
  }

  lemma NoMore(s: SweepState, s': SweepState, l: seq<Ref>)
    requires s.at.At? && s'.tobefnz == s.tobefnz && l == ListIn(s', s.at.list) && forall r :: r in l ==> r in ListIn(s, s.at.list)
    requires (s.at.list != AllGc ==> s'.allgc == s.allgc) && (s.at.list != FinObj ==> s'.finobj == s.finobj)
    ensures Fewer(s.allgc, s'.allgc) && Fewer(s.finobj, s'.finobj) && Fewer(s.tobefnz, s'.tobefnz)
  {
  }

  lemma SweptHere(g: GlobalState)
    requires PhaseInv(g) && g.sweepgc.At?
    ensures var s := SweepStateOf(g); g.sweepgc.i <= |ListIn(s, s.at.list)| && SweptTo(g.objs, g.white, ListIn(s, s.at.list), g.sweepgc.i)
  {
    if g.sweepgc.i <= |g.allgc| {
      SweptPart(g.objs, g.white, g.allgc, g.sweepgc.i);
    }
  }

  lemma TakenFrom(g: GlobalState)
    requires g.sweepgc.At? && Inv(g)
    ensures g.sweepgc.i <= |ListIn(SweepStateOf(g), g.sweepgc.list)|
  {
    hide Sound, Owned, Swept, SweptTo, AllLive, RootsLive;
  }

  method SweepSome(g: GlobalState, max: nat)
    requires g.sweepgc.At? && Inv(g) && g.gcstate in {GCSswpallgc, GCSswpfinobj, GCSswptobefnz}
    modifies g`objs, g`allgc, g`finobj, g`tobefnz, g`sweepgc
    ensures Inv(g) && Sweeps(old(g.objs), g.objs, g.white) && Advanced(old(SweepStateOf(g)), SweepStateOf(g), max)
    ensures OnlyIn(old(g.objs), g.objs, ListIn(old(SweepStateOf(g)), old(g.sweepgc).list)) && Fewer(old(g.finobj), g.finobj)
    ensures SliceTaken(old(SweepStateOf(g)), SweepStateOf(g), max) && g.sweepgc == SliceEnd(old(SweepStateOf(g)), max)
  {
    hide Sound, Owned, Sweeps, Swept, SweptTo, AllLive, RootsLive, OnlyIn, Behind, SliceTaken, SliceEnd;
    TakenFrom(g);
    ghost var h, all, fin, fnz := g.objs, g.allgc, g.finobj, g.tobefnz;
    RootsAsLive(g);
    SweepOnce(g, max);
    SweepsLive(h, g.objs, g.white, g.mainthread, g.running, g.roots, fin, fnz, all, g.allgc, g.finobj, g.tobefnz);
    SweptSub(h, g.objs, g.white, all, g.allgc);
    SweptSub(h, g.objs, g.white, fin, g.finobj);
    SweptSub(h, g.objs, g.white, fnz, g.tobefnz);
    LiveAsRoots(g);
  }

  lemma FnzAlive(h: Heap, white: bool, main: Ref, running: Ref, roots: seq<Slot>, fin: seq<Ref>, fnz: seq<Ref>)
    requires AllLive(h, white, main, running, roots, fin, fnz)
    ensures NoneDeadIn(h, white, fnz)
  {
  }

  lemma RootsAsLive(g: GlobalState)
    requires RootsLive(g)
    ensures AllLive(g.objs, g.white, g.mainthread, g.running, g.roots, g.finobj, g.tobefnz)
  {
  }

  lemma LiveAsRoots(g: GlobalState)
    requires AllLive(g.objs, g.white, g.mainthread, g.running, g.roots, g.finobj, g.tobefnz)
    ensures RootsLive(g)
  {
  }

  /** The state that follows once the list of state `st` has been swept, and the list to be swept next. */
  function NextSweep(st: GcState): (GcState, Sweep) {
    if st == GCSswpallgc then (GCSswpfinobj, At(FinObj, 0))
    else if st == GCSswpfinobj then (GCSswptobefnz, At(ToBeFnz, 0))
    else (GCSswpend, Off)
  }

  /** The list that is being swept, and how many links of it are left. */
  ghost function Current(s: SweepState): seq<Ref> {
    if s.at.At? then ListIn(s, s.at.list) else []
  }

  ghost function Rest(s: SweepState): int {
    if s.at.At? then |ListIn(s, s.at.list)| - s.at.i else 0
  }

  lemma SameOnly(h: Heap, l: seq<Ref>)
    ensures OnlyIn(h, h, l)
  {
  }

  /** `sweepstep`. */
  method SweepStep(g: GlobalState, max: nat)
    requires Inv(g) && g.gcstate in {GCSswpallgc, GCSswpfinobj, GCSswptobefnz}
    modifies g`objs, g`allgc, g`finobj, g`tobefnz, g`sweepgc, g`gcstate
    ensures Inv(g) && Sweeps(old(g.objs), g.objs, g.white) && g.tobefnz == old(g.tobefnz)
    ensures || (Advanced(old(SweepStateOf(g)), SweepStateOf(g), max) && g.sweepgc.At?)
            || (Rest(old(SweepStateOf(g))) <= max && (g.gcstate, g.sweepgc) == NextSweep(old(g.gcstate)))
    ensures StepSwept(old(SweepStateOf(g)), SweepStateOf(g), max)
    ensures OnlyIn(old(g.objs), g.objs, Current(old(SweepStateOf(g)))) && Fewer(old(g.finobj), g.finobj)
  {
    hide Sound, Owned, Sweeps, Swept, RootsLive, OnlyIn, Behind, SliceSwept, Survivors, NextSlice;
    SweepsSame(g.objs, g.white);
    SameOnly(g.objs, Current(SweepStateOf(g)));
    if g.sweepgc.At? {
      SweepSome(g, max);
      if g.sweepgc.At? {
        return;
      }
    }
    NextState(g);
  }

  method NextState(g: GlobalState)
    requires Inv(g) && g.gcstate in {GCSswpallgc, GCSswpfinobj, GCSswptobefnz} && g.sweepgc == Off
    modifies g`sweepgc, g`gcstate
    ensures Inv(g) && (g.gcstate, g.sweepgc) == NextSweep(old(g.gcstate))
  {
    hide Sound, Owned, RootsLive, Swept, SweptTo;
    MainThere(g.objs, g.mainthread, g.allgc + g.finobj + g.tobefnz);
    NothingSwept(g.objs, g.white, g.finobj);
    NothingSwept(g.objs, g.white, g.tobefnz);
    if g.gcstate == GCSswpallgc {
      g.gcstate, g.sweepgc := GCSswpfinobj, At(FinObj, 0);
    } else if g.gcstate == GCSswpfinobj {
      g.gcstate, g.sweepgc := GCSswptobefnz, At(ToBeFnz, 0);
    } else {
      g.gcstate := GCSswpend;
    }
  }

  /** GCSswpend: the main thread is swept. */
  method FinishSweep(g: GlobalState)
    requires Inv(g) && g.gcstate == GCSswpend
    modifies g`objs, g`gcstate
    ensures Inv(g) && Sweeps(old(g.objs), g.objs, g.white) && g.gcstate == GCScallfin
    ensures g.mainthread in old(g.objs) && g.objs == old(g.objs)[g.mainthread := old(g.objs)[g.mainthread].(color := White(g.white))]
  {
    hide Sound, Owned, Sweeps, Swept, AllLive, RootsLive, FinOk, Marking, Shaped;
    ghost var h := g.objs;
    RootsAsLive(g);
    MainThere(h, g.mainthread, g.allgc + g.finobj + g.tobefnz);
    g.objs := g.objs[g.mainthread := g.objs[g.mainthread].(color := White(g.white))];
    MainSwept(h, g.objs, g.white, g.mainthread, g.allgc + g.finobj + g.tobefnz);
    SweepsLive(h, g.objs, g.white, g.mainthread, g.running, g.roots, g.finobj, g.tobefnz, g.allgc, g.allgc, g.finobj, g.tobefnz);
    SweptStays(h, g.objs, g.white, g.allgc);
    SweptStays(h, g.objs, g.white, g.finobj);
    SweptStays(h, g.objs, g.white, g.tobefnz);
    g.gcstate := GCScallfin;
    LiveAsRoots(g);
  }

  lemma MainThere(h: Heap, main: Ref, lists: seq<Ref>)
    requires Owned(h, main, lists)
    ensures main in h && h[main].kind.Thread?
  {
  }

  lemma MainSwept(h: Heap, h': Heap, white: bool, main: Ref, lists: seq<Ref>)
    requires Owned(h, main, lists) && Live(h, white, main) && h' == h[main := h[main].(color := White(white))]
    ensures Sweeps(h, h', white) && Owned(h', main, lists)
  {
  }

  // ---------- the collector's steps ----------

  /** `entersweep`. */
  method EnterSweep(g: GlobalState)
    requires Sound(g.objs, g.white) && Owned(g.objs, g.mainthread, g.allgc + g.finobj + g.tobefnz) && RootsLive(g) && g.sweepgc == Off
    modifies g`objs, g`allgc, g`sweepgc, g`gcstate
    ensures Inv(g) && g.gcstate == GCSswpallgc && Sweeps(old(g.objs), g.objs, g.white) && OnlyIn(old(g.objs), g.objs, old(g.allgc))
    ensures old(g.allgc) == [] ==> g.allgc == [] && g.sweepgc == Off
  {
    hide Sound, Owned, Sweeps, AllLive, Swept, SweptTo, RootsLive, NoneDeadIn, OnlyIn, Behind, Sliced, SliceOf;
    ghost var h, all := g.objs, g.allgc;
    RootsAsLive(g);
    g.gcstate := GCSswpallgc;
    assert [] + all + (g.finobj + g.tobefnz) == all + g.finobj + g.tobefnz;
    var l, i := SweepList(g, g.allgc, 0, 1, [], g.finobj + g.tobefnz) by { NothingSwept(h, g.white, all); }
    assert [] + l + (g.finobj + g.tobefnz) == l + g.finobj + g.tobefnz;
    assert l != [] ==> l[0] in l;
    g.allgc := l;
    SweepsLive(h, g.objs, g.white, g.mainthread, g.running, g.roots, g.finobj, g.tobefnz, all, g.allgc, g.finobj, g.tobefnz);
    AsFarAs(g.objs, g.white, AllGc, l, i);
    g.sweepgc := if i == |l| then Off else At(AllGc, i);
    LiveAsRoots(g);
  }

  lemma NothingSwept(h: Heap, white: bool, l: seq<Ref>)
    ensures SweptTo(h, white, l, 0)
  {
  }
}
