/**
  The tri-colour invariant of `lgc.c` and why traversing a gray object keeps it.
 */
module GcInvariant {
  import opened GcHeap
  import opened GcBound

  /**
    The gray lists. In the atomic phase (`atomic`) weak tables and threads need not
    be visited again; `todo` is the list still to be visited after `gray`. What marking
    may reach is in `bound`.
   */
  datatype Lists = Lists(atomic: bool, gray: seq<Ref>, todo: seq<Ref>, weak: seq<Ref>, allweak: seq<Ref>, ephemeron: seq<Ref>, bound: iset<Ref>)

  ghost function AllLists(ls: Lists): seq<Ref> {
    ls.gray + ls.todo + ls.weak + ls.allweak + ls.ephemeron
  }

  /** Black objects refer to marked ones only. */
  ghost predicate BlackDone(h: Heap) {
    forall r :: r in h && h[r].color.Black? ==> Complete(h, h[r])
  }

  /** A gray object that need not be traversed again: what is not marked yet in it is to be cleared. */
  ghost predicate Settled(h: Heap, ls: Lists, r: Ref)
    requires r in h
  {
    || r in ls.allweak
    || (&& IsMarked(h, h[r].meta) && ls.atomic
        && (|| (h[r].kind.Thread? && ArrayMarked(h, h[r]))
            || (h[r].kind.Table? && r in ls.weak && KeysMarked(h, h[r]))
            || (h[r].kind.Table? && r in ls.ephemeron && ArrayMarked(h, h[r]) && Tidy(h, h[r]))
            || (h[r].kind.Table? && ArrayMarked(h, h[r]) && KeysMarked(h, h[r]) && ValsMarked(h, h[r]))))
  }

  /**
    A table that rightly waits in `allweak`: its metatable is marked, and its mode is such
    that it keeps nothing else alive.
   */
  ghost predicate Waits(h: Heap, r: Ref) {
    && r in h && IsMarked(h, h[r].meta)
    && (ModeOf(h, r).AllWeak? || (ModeOf(h, r).Ephemeral? && ArrayMarked(h, h[r]) && ValsMarked(h, h[r])))
  }

  ghost predicate Waiting(h: Heap, l: seq<Ref>) {
    forall r :: r in l ==> Waits(h, r)
  }

  ghost predicate CoveredAt(h: Heap, ls: Lists, r: Ref)
    requires r in h
  {
    h[r].color.Gray? ==> r in ls.gray || r in ls.todo || Settled(h, ls, r)
  }

  /** Every gray object is in a list that will be visited. */
  ghost predicate Covered(h: Heap, ls: Lists) {
    forall r :: r in h ==> CoveredAt(h, ls, r)
  }

  ghost predicate Queued(h: Heap, r: Ref) {
    r in h && h[r].color.Gray?
  }

  /** Listed objects are gray, and each is in one list only. */
  ghost predicate ListsOk(h: Heap, ls: Lists) {
    && Distinct(AllLists(ls))
    && (forall r :: r in AllLists(ls) ==> Queued(h, r))
    && (forall r :: r in ls.weak || r in ls.allweak || r in ls.ephemeron ==> r in h && h[r].kind.Table?)
  }

  /** Listed objects that will be visited. */
  ghost predicate ToVisit(ls: Lists, r: Ref) {
    r in ls.gray || r in ls.todo || r in ls.ephemeron
  }

  ghost predicate ListedFits(h: Heap, ls: Lists, r: Ref) {
    r in h ==> StringsIn(h, h[r], ls.bound) && (ToVisit(ls, r) ==> FitsAt(h, ls.bound, r))
  }

  /** Marking goes on inside the bound. */
  ghost predicate Confined(h: Heap, ls: Lists) {
    Bounded(h, ls.bound) && forall r :: r in AllLists(ls) ==> ListedFits(h, ls, r)
  }

  /** The invariant of the mark phase. */
  ghost predicate TriColor(h: Heap, ls: Lists) {
    WellFormed(h) && BlackDone(h) && Covered(h, ls) && ListsOk(h, ls) && Confined(h, ls)
  }

  lemma ConfinedOnward(h: Heap, h': Heap, w: set<Ref>, ls: Lists, ls': Lists)
    requires Onward(h, h', w) && Confined(h, ls) && ls'.bound == ls.bound && Bounded(h', ls.bound)
    requires forall r :: r in AllLists(ls') ==> FitsAt(h', ls.bound, r) || (r in AllLists(ls) && (ToVisit(ls', r) ==> ToVisit(ls, r)))
    ensures Confined(h', ls')
  {
    hide Onward, Fits, Bounded, AllLists;
    forall r | r in AllLists(ls') ensures ListedFits(h', ls', r) {
      if r in h' && !FitsAt(h', ls.bound, r) {
        OnwardThere(h, h', w, r);
        assert ListedFits(h, ls, r);
        OnwardFits(h, h', w, r, Strong, ls.bound);
        if ToVisit(ls, r) {
          OnwardFitsAt(h, h', w, r, ls.bound);
        }
      } else if r in h' {
        FitsStrings(h', h'[r], ModeOf(h', r), ls.bound);
      }
    }
  }

  lemma OnwardThere(h: Heap, h': Heap, w: set<Ref>, r: Ref)
    requires Onward(h, h', w) && r in h'
    ensures r in h
  {
  }

  lemma FitsStrings(h: Heap, o: Object, mode: Mode, m: iset<Ref>)
    requires Fits(h, o, mode, m)
    ensures StringsIn(h, o, m)
  {
  }

  /** Everything is a bound. */
  lemma Unconfined(h: Heap, ls: Lists)
    requires ls.bound == Everything()
    ensures Confined(h, ls)
  {
    EverythingFits(h);
  }

  /** Newly marked objects are in the bound, and lead nowhere else. */
  lemma ConfinedMarks(h: Heap, h': Heap, x: int, ls: Lists, gray': seq<Ref>)
    requires Marks(h, h', x) && Queues(h, ls.gray, h', gray') && Confined(h, ls) && Bounded(h', ls.bound)
    ensures Confined(h', ls.(gray := gray'))
  {
    MarksOnward(h, h', x);
    var ls', n := ls.(gray := gray'), |gray'| - |ls.gray|;
    assert gray' == gray'[..n] + ls.gray;
    forall r | r in AllLists(ls') ensures FitsAt(h', ls.bound, r) || (r in AllLists(ls) && (ToVisit(ls', r) ==> ToVisit(ls, r))) {
      if r in gray'[..n] && r in h' {
        assert h[r].color.White? && r in ls.bound && FitsAt(h, ls.bound, r);
        OnwardFitsAt(h, h', {}, r, ls.bound);
      }
    }
    ConfinedOnward(h, h', {}, ls, ls');
  }

  lemma ApartParts(a: seq<Ref>, b: seq<Ref>)
    requires Distinct(a + b)
    ensures forall r :: r in a ==> r !in b
  {
    forall r | r in a ensures r !in b {
      var i :| 0 <= i < |a| && a[i] == r;
      forall j | 0 <= j < |b| ensures b[j] != r {
        assert (a + b)[i] != (a + b)[|a| + j];
      }
    }
  }

  lemma DistinctPart(a: seq<Ref>, b: seq<Ref>)
    requires Distinct(a + b)
    ensures Distinct(a) && Distinct(b)
  {
    forall i, j | 0 <= i < j < |b| ensures b[i] != b[j] {
      assert (a + b)[|a| + i] != (a + b)[|a| + j];
    }
    forall i, j | 0 <= i < j < |a| ensures a[i] != a[j] {
      assert (a + b)[i] != (a + b)[j];
    }
  }

  // ---------- recolouring a marked object changes nothing for the others ----------

  ghost predicate Recolored(h: Heap, h': Heap, x: Ref) {
    x in h && !h[x].color.White? && x in h' && !h'[x].color.White? && h' == h[x := h[x].(color := h'[x].color)]
  }

  lemma RecoloredSlot(h: Heap, h': Heap, x: Ref, s: Slot)
    requires Recolored(h, h', x)
    ensures IsMarked(h', s) == IsMarked(h, s) && IsWhite(h', s) == IsWhite(h, s) && IsString(h', s) == IsString(h, s) && InHeap(h', s) == InHeap(h, s)
  {
  }

  lemma RecoloredObject(h: Heap, h': Heap, x: Ref, o: Object)
    requires Recolored(h, h', x)
    ensures Complete(h', o) == Complete(h, o) && ArrayMarked(h', o) == ArrayMarked(h, o) && KeysMarked(h', o) == KeysMarked(h, o)
    ensures ValsMarked(h', o) == ValsMarked(h, o) && Tidy(h', o) == Tidy(h, o) && SlotsInHeap(h', o) == SlotsInHeap(h, o)
    ensures EntriesSettled(h', o) == EntriesSettled(h, o)
  {
    forall s ensures IsMarked(h', s) == IsMarked(h, s) && IsWhite(h', s) == IsWhite(h, s) && IsString(h', s) == IsString(h, s)
                     && InHeap(h', s) == InHeap(h, s) {
      RecoloredSlot(h, h', x, s);
    }
  }

  lemma RecoloredWellFormed(h: Heap, h': Heap, x: Ref)
    requires Recolored(h, h', x) && WellFormed(h) && Shaped(h'[x])
    ensures WellFormed(h') && Whites(h') == Whites(h)
  {
    forall r | r in h' ensures WellFormedAt(h', r) {
      assert WellFormedAt(h, r);
      RecoloredObject(h, h', x, h[r]);
    }
  }

  // ---------- what marking keeps ----------

  /** `ls'` has everything that `ls` has, apart from gray lists. */
  ghost predicate Wider(ls: Lists, ls': Lists) {
    && (ls.atomic ==> ls'.atomic)
    && (forall r :: r in ls.weak ==> r in ls'.weak)
    && (forall r :: r in ls.allweak ==> r in ls'.allweak)
    && (forall r :: r in ls.ephemeron ==> r in ls'.ephemeron)
  }

  lemma TrimmedStays(h: Heap, h': Heap, x: int, o: Object, o': Object)
    requires Marks(h, h', x) && Trimmed(h, o, o')
    ensures ArrayMarked(h, o) ==> ArrayMarked(h', o')
    ensures KeysMarked(h, o) ==> KeysMarked(h', o')
    ensures ValsMarked(h, o) ==> ValsMarked(h', o')
    ensures Tidy(h, o) ==> Tidy(h', o')
    ensures IsMarked(h, o.meta) ==> IsMarked(h', o'.meta)
  {
    forall i | 0 <= i < |o.slots| && IsMarked(h, o.slots[i]) ensures IsMarked(h', o'.slots[i]) {
      MarkedStays(h, h', x, o.slots[i]);
    }
    forall i | 0 <= i < |o.nodes| ensures (IsMarked(h, o.nodes[i].key) ==> IsMarked(h', o'.nodes[i].key))
                                          && (IsMarked(h, o.nodes[i].val) ==> IsMarked(h', o'.nodes[i].val))
                                          && o'.nodes[i].val == o.nodes[i].val {
      assert NodeKept(h, o.nodes[i], o'.nodes[i]);
      if IsMarked(h, o.nodes[i].key) {
        MarkedStays(h, h', x, o.nodes[i].key);
      }
      if IsMarked(h, o.nodes[i].val) {
        MarkedStays(h, h', x, o.nodes[i].val);
      }
    }
    if IsMarked(h, o.meta) {
      MarkedStays(h, h', x, o.meta);
    }
  }

  lemma SettledStays(h: Heap, h': Heap, x: int, ls: Lists, ls': Lists, r: Ref)
    requires Marks(h, h', x) && r in h && r in h' && !h[r].color.White? && Settled(h, ls, r) && Wider(ls, ls')
    ensures Settled(h', ls', r)
  {
    assert MarksAt(h, h', x, r);
    TrimmedSame(h, h[r]);
    TrimmedStays(h, h', x, h[r], h'[r]);
  }

  /** Newly marked black objects are complete: strings have no contents, userdata were marked through. */
  lemma BlackStays(h: Heap, h': Heap, x: int)
    requires Marks(h, h', x) && WellFormed(h)
    requires forall r :: r in h && r != x && h[r].color.Black? ==> Complete(h, h[r])
    requires x in h' && h'[x].color.Black? ==> Complete(h', h'[x])
    ensures BlackDone(h')
  {
    forall r | r in h' && h'[r].color.Black? ensures Complete(h', h'[r]) {
      assert MarksAt(h, h', x, r) && WellFormedAt(h, r);
      if r != x && h'[r] == h[r] {
        CompleteStays(h, h', x, h[r]);
      }
    }
  }

  lemma CoveredStays(h: Heap, h': Heap, x: int, ls: Lists, ls': Lists)
    requires Marks(h, h', x) && Queues(h, ls.gray, h', ls'.gray) && Wider(ls, ls')
    requires forall r :: r in h && r != x ==> CoveredAt(h, ls, r)
    requires x in h' ==> CoveredAt(h', ls', x)
    requires forall r :: r in ls.todo ==> r in ls'.todo || r == x
    ensures Covered(h', ls')
  {
    forall r | r in h' ensures CoveredAt(h', ls', r) {
      if r != x && h'[r].color.Gray? {
        assert MarksAt(h, h', x, r) && CoveredAt(h, ls, r);
        if h[r].color.White? {
          assert r in ls'.gray[..|ls'.gray| - |ls.gray|];
        } else if r in ls.gray {
          assert r in ls'.gray[|ls'.gray| - |ls.gray|..];
        } else if r !in ls.todo {
          SettledStays(h, h', x, ls, ls', r);
        }
      }
    }
  }

  lemma ListsStay(h: Heap, h': Heap, x: int, ls: Lists, gray': seq<Ref>)
    requires Marks(h, h', x) && Queues(h, ls.gray, h', gray') && ListsOk(h, ls)
    ensures ListsOk(h', ls.(gray := gray'))
  {
    var n := |gray'| - |ls.gray|;
    var rest := AllLists(ls);
    assert gray' == gray'[..n] + ls.gray;
    assert AllLists(ls.(gray := gray')) == gray'[..n] + rest;
    forall r | r in rest ensures Queued(h', r) {
      assert Queued(h, r) && MarksAt(h, h', x, r);
    }
    forall i, j | 0 <= i < j < n + |rest| ensures (gray'[..n] + rest)[i] != (gray'[..n] + rest)[j] {
      if i < n <= j {
        assert gray'[..n][i] in gray'[..n] && rest[j - n] in rest && Queued(h, rest[j - n]);
      } else if i >= n {
        assert rest[i - n] != rest[j - n];
      }
    }
    forall r | r in ls.weak || r in ls.allweak || r in ls.ephemeron ensures r in h' && h'[r].kind.Table? {
      assert MarksAt(h, h', x, r);
    }
  }

  /** Plain marking keeps the invariant. */
  lemma MarkingKeeps(h: Heap, ls: Lists, h': Heap, gray': seq<Ref>)
    requires TriColor(h, ls) && Grows(h, ls.gray, h', gray', -1) && Bounded(h', ls.bound)
    ensures TriColor(h', ls.(gray := gray'))
  {
    hide Confined, Bounded;
    ConfinedMarks(h, h', -1, ls, gray');
    WellFormedStays(h, h', -1);
    BlackStays(h, h', -1);
    CoveredStays(h, h', -1, ls, ls.(gray := gray'));
    ListsStay(h, h', -1, ls, gray');
  }

  // ---------- traversing the first object of the gray list ----------

  /** `x` has been linked into at most one of the lists. */
  ghost predicate Links(ls: Lists, ls': Lists, x: Ref) {
    && ls'.atomic == ls.atomic && ls'.gray == ls.gray && ls'.bound == ls.bound
    && (|| ls' == ls
        || ls' == ls.(todo := [x] + ls.todo)
        || ls' == ls.(weak := [x] + ls.weak)
        || ls' == ls.(allweak := [x] + ls.allweak)
        || ls' == ls.(ephemeron := [x] + ls.ephemeron))
  }

  lemma LinkedOk(h: Heap, ls: Lists, ls': Lists, x: Ref)
    requires ListsOk(h, ls) && Links(ls, ls', x) && x !in AllLists(ls) && x in h
    requires ls' != ls ==> h[x].color.Gray? && (h[x].kind.Table? || ls'.todo != ls.todo)
    ensures ListsOk(h, ls')
  {
    if ls' != ls {
      var k := LinkedAt(ls, ls', x);
      DistinctInsert(AllLists(ls), k, x);
      hide Distinct, AllLists;
    }
  }

  lemma LinkedAt(ls: Lists, ls': Lists, x: Ref) returns (k: nat)
    requires Links(ls, ls', x) && ls' != ls
    ensures k <= |AllLists(ls)| && AllLists(ls') == AllLists(ls)[..k] + [x] + AllLists(ls)[k..]
    ensures forall r :: r in ls'.weak || r in ls'.allweak || r in ls'.ephemeron ==> r in ls.weak || r in ls.allweak || r in ls.ephemeron || r == x
    ensures ls'.todo != ls.todo ==> ls'.weak == ls.weak && ls'.allweak == ls.allweak && ls'.ephemeron == ls.ephemeron
  {
    if ls'.todo != ls.todo {
      k := |ls.gray|;
      InsertedBefore(ls.gray, ls.todo, ls.weak, ls.allweak, ls.ephemeron, x);
    } else if ls'.weak != ls.weak {
      k := |ls.gray + ls.todo|;
      InsertedBefore(ls.gray + ls.todo, ls.weak, ls.allweak, ls.ephemeron, [], x);
    } else if ls'.allweak != ls.allweak {
      k := |ls.gray + ls.todo + ls.weak|;
      InsertedBefore(ls.gray + ls.todo + ls.weak, ls.allweak, ls.ephemeron, [], [], x);
    } else {
      k := |ls.gray + ls.todo + ls.weak + ls.allweak|;
      InsertedBefore(ls.gray + ls.todo + ls.weak + ls.allweak, ls.ephemeron, [], [], [], x);
    }
  }

  lemma InsertedBefore(a: seq<Ref>, b: seq<Ref>, c: seq<Ref>, d: seq<Ref>, e: seq<Ref>, x: Ref)
    ensures var all := a + b + c + d + e; a + ([x] + b) + c + d + e == all[..|a|] + [x] + all[|a|..]
    ensures a + b + c + [] == a + b + c && a + b + [] == a + b && a + ([x] + b) + c + [] == a + ([x] + b) + c && a + ([x] + b) + [] == a + ([x] + b)
    ensures a + b + c + d + [] == a + b + c + d && a + ([x] + b) + c + d + [] == a + ([x] + b) + c + d
  {
    var rest := b + c + d + e;
    assert a + b + c + d + e == a + rest;
    assert a + ([x] + b) + c + d + e == a + [x] + rest;
    assert (a + rest)[..|a|] == a && (a + rest)[|a|..] == rest;
  }

  lemma DistinctInsert(a: seq<Ref>, k: nat, x: Ref)
    requires Distinct(a) && k <= |a| && x !in a
    ensures Distinct(a[..k] + [x] + a[k..]) && forall r :: r in a[..k] + [x] + a[k..] <==> r in a || r == x
  {
    var b := a[..k] + [x] + a[k..];
    forall i, j | 0 <= i < j < |b| ensures b[i] != b[j] {
      var i', j' := if i < k then i else i - 1, if j < k then j else j - 1;
      if i != k && j != k {
        assert a[i'] != a[j'];
      }
    }
    forall r | r in a ensures r in b {
      var i :| 0 <= i < |a| && a[i] == r;
      assert b[if i < k then i else i + 1] == r;
    }
  }

  /** The invariant but for `x`, which is in no list. */
  ghost predicate TriColorBut(h: Heap, ls: Lists, x: Ref) {
    && WellFormed(h) && ListsOk(h, ls) && x !in AllLists(ls)
    && x in h && !h[x].color.White?
    && (forall r :: r in h && r != x && h[r].color.Black? ==> Complete(h, h[r]))
    && (forall r :: r in h && r != x ==> CoveredAt(h, ls, r))
    && Confined(h, ls) && FitsAt(h, ls.bound, x)
  }

  /** `x` has been traversed: it is black and complete, or gray and waits in a list. */
  ghost predicate Placed(h2: Heap, ls1: Lists, gray2: seq<Ref>, ls2: Lists, x: Ref) {
    && Links(ls1.(gray := gray2), ls2, x)
    && x in h2
    && (ls2 != ls1.(gray := gray2) ==> h2[x].color.Gray? && (ls2.todo == ls1.todo ==> h2[x].kind.Table?))
    && if h2[x].color.Black? then Complete(h2, h2[x]) else x in ls2.todo || Settled(h2, ls2, x)
  }

  lemma TraversalKeeps(h1: Heap, ls1: Lists, x: Ref, h2: Heap, gray2: seq<Ref>, ls2: Lists)
    requires TriColorBut(h1, ls1, x) && Grows(h1, ls1.gray, h2, gray2, x) && Placed(h2, ls1, gray2, ls2, x) && Bounded(h2, ls1.bound)
    ensures TriColor(h2, ls2)
  {
    hide Confined, Bounded, FitsAt;
    ConfinedMarks(h1, h2, x, ls1, gray2);
    PlacedFits(h1, ls1, x, h2, gray2, ls2);
    WellFormedStays(h1, h2, x);
    BlackStays(h1, h2, x);
    CoveredStays(h1, h2, x, ls1, ls2);
    ListsStay(h1, h2, x, ls1, gray2);
    NotListed(h1, ls1, h2, gray2, x);
    LinkedOk(h2, ls1.(gray := gray2), ls2, x);
  }

  lemma PlacedFits(h1: Heap, ls1: Lists, x: Ref, h2: Heap, gray2: seq<Ref>, ls2: Lists)
    requires Confined(h2, ls1.(gray := gray2)) && Marks(h1, h2, x) && FitsAt(h1, ls1.bound, x) && Links(ls1.(gray := gray2), ls2, x)
    ensures Confined(h2, ls2)
  {
    var ls := ls1.(gray := gray2);
    MarksOnward(h1, h2, x);
    OnwardFitsAt(h1, h2, {}, x, ls1.bound);
    forall r | r in AllLists(ls2) ensures FitsAt(h2, ls.bound, r) || (r in AllLists(ls) && (ToVisit(ls2, r) ==> ToVisit(ls, r))) {
      if ls2 != ls {
        var k := LinkedAt(ls, ls2, x);
      }
    }
    ConfinedOnward(h2, h2, {}, ls, ls2) by { OnwardSame(h2, {}); }
  }

  /** Taking the head off the gray list. */
  lemma Popped(h: Heap, ls: Lists, x: Ref, h1: Heap)
    requires TriColor(h, ls) && |ls.gray| > 0 && x == ls.gray[0] && Recolored(h, h1, x) && Shaped(h1[x])
    ensures TriColorBut(h1, ls.(gray := ls.gray[1..]), x)
  {
    hide Confined, FitsAt;
    var ls1 := ls.(gray := ls.gray[1..]);
    PoppedConfined(h, h1, ls, ls1, x) by { assert ls.gray == [x] + ls1.gray; assert AllLists(ls) == [x] + AllLists(ls1); }
    RecoloredWellFormed(h, h1, x);
    assert AllLists(ls) == [x] + AllLists(ls1);
    TailOk(h, h1, ls, ls1, x);
    forall r | r in h1 && r != x ensures (h1[r].color.Black? ==> Complete(h1, h1[r])) && CoveredAt(h1, ls1, r) {
      RecoloredObject(h, h1, x, h[r]);
      RecoloredSlot(h, h1, x, h[r].meta);
      assert CoveredAt(h, ls, r);
    }
  }

  lemma PoppedConfined(h: Heap, h1: Heap, ls: Lists, ls1: Lists, x: Ref)
    requires Confined(h, ls) && Recolored(h, h1, x) && AllLists(ls) == [x] + AllLists(ls1) && ls1 == ls.(gray := ls1.gray, todo := ls1.todo)
    requires ToVisit(ls, x) && forall r :: r in ls1.gray || r in ls1.todo ==> r in ls.gray || r in ls.todo
    ensures Confined(h1, ls1) && FitsAt(h1, ls.bound, x)
  {
    RecoloredOnward(h, h1, x);
    RecolorBounded(h, h1, x, ls.bound);
    assert x in AllLists(ls) && ListedFits(h, ls, x);
    OnwardFitsAt(h, h1, {}, x, ls.bound);
    ConfinedOnward(h, h1, {}, ls, ls1);
  }

  lemma TailOk(h: Heap, h1: Heap, ls: Lists, ls1: Lists, x: Ref)
    requires ListsOk(h, ls) && AllLists(ls) == [x] + AllLists(ls1) && Recolored(h, h1, x)
    requires ls1 == ls.(gray := ls1.gray, todo := ls1.todo)
    ensures ListsOk(h1, ls1) && x !in AllLists(ls1)
  {
    forall i, j | 0 <= i < j < |AllLists(ls1)| ensures AllLists(ls1)[i] != AllLists(ls1)[j] {
      assert AllLists(ls)[i + 1] != AllLists(ls)[j + 1];
    }
    forall i | 0 <= i < |AllLists(ls1)| ensures AllLists(ls1)[i] != x && Queued(h1, AllLists(ls1)[i]) {
      assert AllLists(ls)[0] != AllLists(ls)[i + 1];
      assert AllLists(ls)[i + 1] in AllLists(ls);
    }
  }

  /** Taking the head off the list that is to be visited after the gray list. */
  lemma PoppedTodo(h: Heap, ls: Lists, x: Ref)
    requires TriColor(h, ls) && ls.gray == [] && |ls.todo| > 0 && x == ls.todo[0]
    ensures TriColorBut(h, ls.(todo := ls.todo[1..]), x)
  {
    hide Confined, FitsAt;
    var ls1 := ls.(todo := ls.todo[1..]);
    assert ls.todo == [x] + ls1.todo;
    assert AllLists(ls) == [x] + AllLists(ls1);
    assert x in AllLists(ls) && Queued(h, x);
    assert h == h[x := h[x].(color := h[x].color)];
    TailOk(h, h, ls, ls1, x);
    PoppedConfined(h, h, ls, ls1, x);
    forall r | r in h && r != x ensures CoveredAt(h, ls1, r) {
      assert CoveredAt(h, ls, r);
    }
  }

  lemma NotListed(h1: Heap, ls1: Lists, h2: Heap, gray2: seq<Ref>, x: Ref)
    requires Grows(h1, ls1.gray, h2, gray2, x) && x in h1 && !h1[x].color.White? && x !in AllLists(ls1)
    ensures x !in AllLists(ls1.(gray := gray2))
  {
    var n := |gray2| - |ls1.gray|;
    assert gray2 == gray2[..n] + ls1.gray;
    assert x !in gray2[..n];
  }

  /** Marking goes the same way whichever colour the marked object `x` has. */
  lemma RecolorCommutes(h1: Heap, gr: seq<Ref>, h2: Heap, gr': seq<Ref>, x: Ref, c: Color)
    requires Grows(h1, gr, h2, gr', x) && x in h1 && !h1[x].color.White? && !c.White? && x in h2
    ensures Grows(h1[x := h1[x].(color := c)], gr, h2[x := h2[x].(color := c)], gr', x)
  {
    hide MarksAt;
    GrowsKeeps(h1, gr, h2, gr', x, x);
    var k1, k2 := h1[x := h1[x].(color := c)], h2[x := h2[x].(color := c)];
    forall r | r in k1 && r in k2 ensures MarksAt(k1, k2, x, r) {
      assert MarksAt(h1, h2, x, r);
      if r == x {
        RecoloredTrim(h1, h2, x, c);
      } else {
        RecoloredMark(h1, h2, x, r, c);
      }
    }
    assert MarksAt(h1, h2, x, x);
    RecolorQueues(h1, gr, h2, gr', x, c);
  }

  lemma RecoloredMark(h1: Heap, h2: Heap, x: Ref, r: Ref, c: Color)
    requires r in h1 && r in h2 && r != x && MarksAt(h1, h2, x, r) && x in h1 && x in h2 && !h2[x].color.White? && !c.White?
    ensures MarksAt(h1[x := h1[x].(color := c)], h2[x := h2[x].(color := c)], x, r)
  {
    hide Complete;
    var k2 := h2[x := h2[x].(color := c)];
    assert Complete(k2, h2[r]) == Complete(h2, h2[r]) by {
      RecoloredObject(h2, k2, x, h2[r]);
    }
  }

  lemma RecoloredTrim(h1: Heap, h2: Heap, x: Ref, c: Color)
    requires x in h1 && x in h2 && !h1[x].color.White? && !c.White? && MarksAt(h1, h2, x, x)
    ensures MarksAt(h1[x := h1[x].(color := c)], h2[x := h2[x].(color := c)], x, x)
  {
    var k1, k2 := h1[x := h1[x].(color := c)], h2[x := h2[x].(color := c)];
    TrimmedSame(h1, h1[x]);
    assert Trimmed(h1, h1[x], h2[x]);
    forall i | 0 <= i < |k1[x].nodes| ensures NodeKept(k1, k1[x].nodes[i], k2[x].nodes[i]) {
      assert NodeKept(h1, h1[x].nodes[i], h2[x].nodes[i]);
    }
  }

  lemma RecolorQueues(h1: Heap, gr: seq<Ref>, h2: Heap, gr': seq<Ref>, x: Ref, c: Color)
    requires Grows(h1, gr, h2, gr', x) && x in h1 && x in h2 && !h1[x].color.White? && !c.White? && MarksAt(h1, h2, x, x)
    ensures Queues(h1[x := h1[x].(color := c)], gr, h2[x := h2[x].(color := c)], gr')
  {
    assert x !in gr'[..|gr'| - |gr|];
  }

  // ---------- what the collector has done so far ----------

  lemma RecoloredOnward(h: Heap, h': Heap, x: Ref)
    requires Recolored(h, h', x)
    ensures Onward(h, h', {})
  {
  }

  lemma TraversalOnward(h: Heap, h1: Heap, h2: Heap, gr: seq<Ref>, gr': seq<Ref>, x: Ref)
    requires Recolored(h, h1, x) && Grows(h1, gr, h2, gr', x)
    ensures Onward(h, h2, {})
  {
    RecoloredOnward(h, h1, x);
    MarksOnward(h1, h2, x);
    OnwardOn(h, h1, h2, {}, {});
  }

  /** Either fewer objects are white, or nothing was queued. */
  lemma QueuesWhites(h: Heap, gr: seq<Ref>, h': Heap, gr': seq<Ref>, x: int)
    requires Grows(h, gr, h', gr', x)
    ensures |Whites(h')| + |gr'| <= |Whites(h)| + |gr| && |Whites(h')| <= |Whites(h)|
  {
    FewerWhites(h, h', x);
    var queued := gr'[..|gr'| - |gr|];
    var ms := Members(queued);
    forall r | r in ms ensures r in Whites(h) && r !in Whites(h') {
      assert r in queued;
      assert MarksAt(h, h', x, r);
    }
    assert Distinct(queued) && |queued| == |gr'| - |gr|;
    hide Grows, Whites, Distinct;
    DistinctElements(queued);
    SubsetSize(Whites(h') + ms, Whites(h));
    assert |Whites(h') + ms| == |Whites(h')| + |ms|;
  }

  ghost function Members(s: seq<Ref>): set<Ref> {
    set r | r in s
  }

  lemma {:induction false} DistinctElements(s: seq<Ref>)
    requires Distinct(s)
    ensures |Members(s)| == |s|
  {
    if s != [] {
      var init, last := s[..|s| - 1], s[|s| - 1];
      forall i, j | 0 <= i < j < |init| ensures init[i] != init[j] {
        assert s[i] != s[j];
      }
      DistinctElements(init);
      forall i | 0 <= i < |init| ensures init[i] != last {
        assert s[i] != s[|s| - 1];
      }
      assert s == init + [last];
      assert Members(s) == Members(init) + {last};
      assert last !in Members(init);
    }
  }

  // ---------- which tables are put on the weak lists ----------

  /** `s'` is `s` behind new tables of the modes `ms`. */
  ghost predicate Pushed(h: Heap, ms: set<Mode>, s: seq<Ref>, s': seq<Ref>) {
    && |s| <= |s'|
    && s'[|s'| - |s|..] == s
    && forall r :: r in s'[..|s'| - |s|] ==> r in h && ModeOf(h, r) in ms
  }

  /** `s'` is `s` behind tables that rightly wait in `allweak`. */
  ghost predicate WaitsPushed(h: Heap, s: seq<Ref>, s': seq<Ref>) {
    |s| <= |s'| && s'[|s'| - |s|..] == s && Waiting(h, s'[..|s'| - |s|])
  }

  ghost predicate WeakPushed(h: Heap, ls: Lists, ls': Lists) {
    && Pushed(h, {WeakValues}, ls.weak, ls'.weak)
    && Pushed(h, {Ephemeral}, ls.ephemeron, ls'.ephemeron)
    && WaitsPushed(h, ls.allweak, ls'.allweak)
  }

  lemma PushedOne(h: Heap, ms: set<Mode>, s: seq<Ref>, s': seq<Ref>, x: Ref)
    requires s' == s || (s' == [x] + s && x in h && ModeOf(h, x) in ms)
    ensures Pushed(h, ms, s, s')
  {
  }

  lemma WaitsPushedOne(h: Heap, s: seq<Ref>, s': seq<Ref>, x: Ref)
    requires s' == s || (s' == [x] + s && Waits(h, x))
    ensures WaitsPushed(h, s, s')
  {
  }

  lemma PushedOn(h: Heap, h': Heap, w: set<Ref>, ms: set<Mode>, a: seq<Ref>, b: seq<Ref>, c: seq<Ref>)
    requires Pushed(h, ms, a, b) && Onward(h, h', w) && Pushed(h', ms, b, c)
    ensures Pushed(h', ms, a, c)
  {
    var n, n1, n2 := |c| - |a|, |b| - |a|, |c| - |b|;
    assert c[..n] == c[..n2] + b[..n1];
    assert c[n..] == b[n1..];
    forall r | r in c[..n] ensures r in h' && ModeOf(h', r) in ms {
      if r in b[..n1] {
        OnwardMode(h, h', w, r);
      }
    }
  }

  lemma WaitsPushedOn(h: Heap, h': Heap, w: set<Ref>, a: seq<Ref>, b: seq<Ref>, c: seq<Ref>)
    requires WaitsPushed(h, a, b) && Onward(h, h', w) && WaitsPushed(h', b, c)
    ensures WaitsPushed(h', a, c)
  {
    hide Waits;
    var n, n1, n2 := |c| - |a|, |b| - |a|, |c| - |b|;
    assert c[..n] == c[..n2] + b[..n1];
    assert c[n..] == b[n1..];
    forall r | r in c[..n] ensures Waits(h', r) {
      if r in b[..n1] {
        WaitsOn(h, h', w, r);
      }
    }
  }

  lemma WaitsOn(h: Heap, h': Heap, w: set<Ref>, r: Ref)
    requires Waits(h, r) && Onward(h, h', w)
    ensures Waits(h', r)
  {
    OnwardKeeps(h, h', w, r);
  }

  lemma WaitingOn(h: Heap, h': Heap, w: set<Ref>, l: seq<Ref>)
    requires Waiting(h, l) && Onward(h, h', w)
    ensures Waiting(h', l)
  {
    hide Waits;
    forall r | r in l ensures Waits(h', r) {
      WaitsOn(h, h', w, r);
    }
  }

  lemma WaitingPushed(h: Heap, h': Heap, w: set<Ref>, l: seq<Ref>, l': seq<Ref>)
    requires Waiting(h, l) && Onward(h, h', w) && WaitsPushed(h', l, l')
    ensures Waiting(h', l')
  {
    hide Waits;
    WaitingOn(h, h', w, l);
    assert l' == l'[..|l'| - |l|] + l;
  }

  lemma WeakPushedOn(h: Heap, h': Heap, w: set<Ref>, a: Lists, b: Lists, c: Lists)
    requires WeakPushed(h, a, b) && Onward(h, h', w) && WeakPushed(h', b, c)
    ensures WeakPushed(h', a, c)
  {
    PushedOn(h, h', w, {WeakValues}, a.weak, b.weak, c.weak);
    PushedOn(h, h', w, {Ephemeral}, a.ephemeron, b.ephemeron, c.ephemeron);
    WaitsPushedOn(h, h', w, a.allweak, b.allweak, c.allweak);
  }

  lemma WeakPushedSame(h: Heap, a: Lists, b: Lists)
    requires b == a.(gray := b.gray, todo := b.todo)
    ensures WeakPushed(h, a, b)
  {
  }

  // ---------- contents stay marked ----------

  lemma OnwardMarked(h: Heap, h': Heap, w: set<Ref>, s: Slot)
    requires Onward(h, h', w) && IsMarked(h, s)
    ensures IsMarked(h', s)
  {
    if s.To? {
      assert OnwardAt(h, h', w, s.r);
    }
  }

  lemma OnwardKeeps(h: Heap, h': Heap, w: set<Ref>, r: Ref)
    requires Onward(h, h', w) && r in h
    ensures r in h' && h'[r].kind == h[r].kind && ModeOf(h', r) == ModeOf(h, r) && h'[r].meta == h[r].meta
    ensures ArrayMarked(h, h[r]) ==> ArrayMarked(h', h'[r])
    ensures ValsMarked(h, h[r]) ==> ValsMarked(h', h'[r])
    ensures KeysMarked(h, h[r]) ==> KeysMarked(h', h'[r])
    ensures IsMarked(h, h[r].meta) ==> IsMarked(h', h'[r].meta)
    ensures IsMarked(h, h[r].cache) ==> IsMarked(h', h'[r].cache)
    ensures !h[r].color.White? ==> !h'[r].color.White?
  {
    assert r in h' && OnwardAt(h, h', w, r);
    OnwardMode(h, h', w, r);
    var o, o' := h[r], h'[r];
    forall i | 0 <= i < |o.slots| && IsMarked(h, o.slots[i]) ensures IsMarked(h', o'.slots[i]) {
      OnwardMarked(h, h', w, o.slots[i]);
    }
    forall i | 0 <= i < |o.nodes|
      ensures (IsMarked(h, o.nodes[i].key) ==> IsMarked(h', o'.nodes[i].key)) && (IsMarked(h, o.nodes[i].val) ==> IsMarked(h', o'.nodes[i].val)) {
      assert NodeOnward(o.nodes[i], o'.nodes[i], r in w);
      if IsMarked(h, o.nodes[i].key) {
        OnwardMarked(h, h', w, o.nodes[i].key);
      }
      if IsMarked(h, o.nodes[i].val) {
        OnwardMarked(h, h', w, o.nodes[i].val);
      }
    }
    if IsMarked(h, o.meta) {
      OnwardMarked(h, h', w, o.meta);
    }
    if IsMarked(h, o.cache) {
      OnwardMarked(h, h', w, o.cache);
    }
  }
}
