/**
  The atomic phase of `lgc.c`: convergence of ephemeron tables, clearing of weak
  tables, and the proof that no marked object is left with an unmarked reference.
 */
module GcAtomic {
  import opened GcHeap
  import opened GcBound
  import opened GcEntries
  import opened GcMark
  import opened GcInvariant
  import opened GcPropagate

  // ---------- convergence ----------

  /** The listed ephemeron tables have reached their fixpoint: a marked key has a marked value. */
  ghost predicate AllEntriesSettled(h: Heap, s: seq<Ref>) {
    forall r :: r in s ==> r in h && EntriesSettled(h, h[r])
  }

  ghost predicate MetasMarked(h: Heap, s: seq<Ref>) {
    forall r :: r in s ==> r in h && h[r].kind.Table? && ModeOf(h, r).Ephemeral? && IsMarked(h, h[r].meta)
  }

  /** Gray tables that wait for convergence. */
  lemma EphemeronsWait(h: Heap, ls: Lists)
    requires TriColor(h, ls) && ls.gray == [] && ls.todo == [] && forall r :: r in ls.ephemeron ==> r in h && ModeOf(h, r).Ephemeral?
    ensures MetasMarked(h, ls.ephemeron)
    ensures TriColor(h, ls.(todo := ls.ephemeron, ephemeron := []))
  {
    var ls' := ls.(todo := ls.ephemeron, ephemeron := []);
    assert Confined(h, ls') by {
      OnwardSame(h, {});
      ConfinedOnward(h, h, {}, ls, ls');
    }
    hide Confined;
    assert AllLists(ls) == ls.weak + ls.allweak + ls.ephemeron;
    ApartParts(ls.weak + ls.allweak, ls.ephemeron);
    forall r | r in ls.ephemeron ensures r in h && h[r].kind.Table? && IsMarked(h, h[r].meta) {
      assert r in AllLists(ls) && Queued(h, r) && CoveredAt(h, ls, r) && r !in ls.allweak;
    }
    forall r | r in h ensures CoveredAt(h, ls', r) {
      assert CoveredAt(h, ls, r);
    }
    Permuted(h, ls, ls');
  }

  lemma Permuted(h: Heap, ls: Lists, ls': Lists)
    requires ListsOk(h, ls) && ls.todo == [] && ls' == ls.(todo := ls.ephemeron, ephemeron := [])
    ensures ListsOk(h, ls')
  {
    var a, b, c := ls.gray, ls.weak + ls.allweak, ls.ephemeron;
    assert AllLists(ls) == a + b + c;
    assert AllLists(ls') == a + c + b;
    forall i, j | 0 <= i < j < |a + c + b| ensures (a + c + b)[i] != (a + c + b)[j] {
      var i' := if i < |a| then i else if i < |a| + |c| then i + |b| else i - |c|;
      var j' := if j < |a| then j else if j < |a| + |c| then j + |b| else j - |c|;
      assert (a + b + c)[i'] == (a + c + b)[i] && (a + b + c)[j'] == (a + c + b)[j];
      assert if i' < j' then (a + b + c)[i'] != (a + b + c)[j'] else (a + b + c)[j'] != (a + b + c)[i'];
    }
  }

  lemma EntriesStay(h: Heap, gr: seq<Ref>, h': Heap, gr': seq<Ref>, x: Ref, s: seq<Ref>)
    requires Grows(h, gr, h', gr', x) && OnlyStrings(h, h') && x !in s && AllEntriesSettled(h, s)
    ensures AllEntriesSettled(h', s)
  {
    forall r | r in s ensures r in h' && EntriesSettled(h', h'[r]) {
      assert r in h' && MarksAt(h, h', x, r) && EntriesSettled(h, h[r]);
      forall i | 0 <= i < |h'[r].nodes| && !h'[r].nodes[i].val.Empty?
        ensures IsMarked(h', h'[r].nodes[i].val) || (IsWhite(h', h'[r].nodes[i].key) && !IsString(h', h'[r].nodes[i].key)) {
        var n := h[r].nodes[i];
        if IsMarked(h, n.val) {
          MarkedStays(h, h', x, n.val);
        } else {
          assert MarksAt(h, h', x, n.key.r);
        }
      }
    }
  }

  /** Marking strings queues nothing. */
  lemma NothingQueued(h: Heap, gr: seq<Ref>, h': Heap, gr': seq<Ref>, x: Ref)
    requires Grows(h, gr, h', gr', x) && OnlyStrings(h, h') && x in h && !h[x].color.White?
    ensures gr' == gr
  {
    var added := gr'[..|gr'| - |gr|];
    forall r ensures r !in added {
      if r in h && r in h' {
        assert MarksAt(h, h', x, r);
      }
    }
    HeadIn(added);
    assert gr' == added + gr;
  }

  lemma HeadIn(s: seq<Ref>)
    ensures s == [] || s[0] in s
  {
  }

  /** One ephemeron table of the pass: traversed again, and linked where it now belongs. */
  method Reconverge(g: GlobalState, w: Ref, ghost next: seq<Ref>) returns (marked: bool)
    requires g.gcstate == GCSinsideatomic && g.gray == [] && Invariant(g, [w] + next) && MetasMarked(g.objs, [w] + next)
    modifies g`objs, g`gray, g`grayagain, g`weak, g`allweak, g`ephemeron
    ensures Invariant(g, next) && Onward(old(g.objs), g.objs, {}) && g.gray == [] && MetasMarked(g.objs, next)
    ensures WeakPushed(g.objs, old(ListsOf(g, [w] + next)), ListsOf(g, next))
    ensures |Whites(g.objs)| <= |Whites(old(g.objs))|
    ensures marked ==> |Whites(g.objs)| < |Whites(old(g.objs))|
    ensures !marked && AllEntriesSettled(old(g.objs), old(g.ephemeron)) ==> AllEntriesSettled(g.objs, g.ephemeron)
  {
    hide TriColor, WellFormed, Grows, Onward, Whites, KeysMarked, ValsMarked, ArrayMarked, Tidy, EntriesSettled, OnlyStrings,
         AllEntriesSettled, MetasMarked, WeakPushed, TriColorBut, Placed, Bounded, Fits;
    ghost var h, g0, ls := g.objs, g.gray, ListsOf(g, [w] + next);
    ghost var ls1 := ls.(todo := next);
    assert ls.todo[1..] == next;
    PoppedTodo(h, ls, w);
    ButParts(h, ls1, w);
    NextEphemeron(h, ls, w, next);
    marked := TraverseEphemeron(g, w);
    ghost var h2, g2, ls2 := g.objs, g.gray, ListsOf(g, next);
    EphemeronPlaced(h, g0, h2, g2, ls1, ls2, w, next);
    TraversalKeeps(h, ls1, w, h2, g2, ls2);
    MarksOnwardToo(h, g0, h2, g2, w);
    MetasStay(h, h2, {}, [w] + next, next);
    OnwardKeeps(h, h2, {}, w);
    MetasStay(h, h2, {}, [w] + next, [w] + next);
    EphemeronPushed(h2, ls, ls1, ls2, w) by { MetaOf(h2, w, next); }
    if marked {
      PropagateAll(g, next);
      OnwardOn(h, h2, g.objs, {}, {});
      WeakPushedOn(h2, g.objs, {}, ls, ls2, ListsOf(g, next));
      MetasStay(h2, g.objs, {}, next, next);
    } else {
      NothingQueued(h, g0, h2, g2, w);
      if AllEntriesSettled(h, ls.ephemeron) {
        EntriesStay(h, g0, h2, g2, w, ls.ephemeron) by { NotInEphemeron(h, ls1, w); }
        AnotherSettled(h2, ls.ephemeron, g.ephemeron, w);
      }
    }
  }

  lemma ButParts(h: Heap, ls: Lists, x: Ref)
    requires TriColorBut(h, ls, x)
    ensures WellFormed(h) && x in h && !h[x].color.White? && Bounded(h, ls.bound) && Fits(h, h[x], ModeOf(h, x), ls.bound)
  {
  }

  lemma NextEphemeron(h: Heap, ls: Lists, w: Ref, next: seq<Ref>)
    requires TriColor(h, ls) && ls.todo == [w] + next && MetasMarked(h, [w] + next)
    ensures Queued(h, w) && ModeOf(h, w).Ephemeral?
  {
    assert w in [w] + next && w in ls.todo && w in AllLists(ls);
  }

  lemma NotInEphemeron(h: Heap, ls1: Lists, w: Ref)
    requires TriColorBut(h, ls1, w)
    ensures w !in ls1.ephemeron
  {
  }

  lemma AnotherSettled(h: Heap, s: seq<Ref>, s': seq<Ref>, w: Ref)
    requires AllEntriesSettled(h, s) && w in h && EntriesSettled(h, h[w]) && (s' == s || s' == [w] + s)
    ensures AllEntriesSettled(h, s')
  {
  }

  lemma MarksOnwardToo(h: Heap, gr: seq<Ref>, h': Heap, gr': seq<Ref>, x: int)
    requires Grows(h, gr, h', gr', x)
    ensures Onward(h, h', {})
  {
    MarksOnward(h, h', x);
  }

  lemma MetasStay(h: Heap, h': Heap, w: set<Ref>, s: seq<Ref>, s': seq<Ref>)
    requires Onward(h, h', w) && MetasMarked(h, s) && forall r :: r in s' ==> r in s
    ensures MetasMarked(h', s')
  {
    forall r | r in s' ensures r in h' && h'[r].kind.Table? && ModeOf(h', r).Ephemeral? && IsMarked(h', h'[r].meta) {
      OnwardKeeps(h, h', w, r);
    }
  }

  lemma EphemeronPlaced(h: Heap, g0: seq<Ref>, h2: Heap, g2: seq<Ref>, ls1: Lists, ls2: Lists, w: Ref, next: seq<Ref>)
    requires Grows(h, g0, h2, g2, w) && TriColorBut(h, ls1, w) && MetasMarked(h, [w] + next) && w in h2
    requires ArrayMarked(h2, h2[w]) && Tidy(h2, h2[w]) && ls1.atomic && Queued(h, w)
    requires ls2 == ls1.(gray := g2, ephemeron := ls2.ephemeron, allweak := ls2.allweak)
    requires LinkedEphemeron(h2, w, ls1.ephemeron, ls2.ephemeron, ls1.allweak, ls2.allweak)
    ensures Placed(h2, ls1, g2, ls2, w)
  {
    assert w in [w] + next && MarksAt(h, h2, w, w);
    MarkedStays(h, h2, w, h[w].meta);
    if ls2.ephemeron != ls1.ephemeron {
      assert ls2.ephemeron[0] == w;
    } else if ls2.allweak != ls1.allweak {
      assert ls2.allweak[0] == w;
    }
  }

  lemma MetaOf(h: Heap, w: Ref, next: seq<Ref>)
    requires MetasMarked(h, [w] + next)
    ensures w in h && IsMarked(h, h[w].meta) && ModeOf(h, w).Ephemeral?
  {
    assert w in [w] + next;
  }

  lemma EphemeronPushed(h2: Heap, ls: Lists, ls1: Lists, ls2: Lists, w: Ref)
    requires ls1 == ls.(todo := ls1.todo)
    requires w in h2 && ModeOf(h2, w).Ephemeral? && ls2.weak == ls1.weak && IsMarked(h2, h2[w].meta) && ArrayMarked(h2, h2[w])
    requires LinkedEphemeron(h2, w, ls1.ephemeron, ls2.ephemeron, ls1.allweak, ls2.allweak)
    ensures WeakPushed(h2, ls, ls2)
  {
    AtMostOnePushed(h2, ls, ls2, w);
  }

  /** `convergeephemerons`: it ends, and every marked key of a waiting ephemeron table then has a marked value. */
  method ConvergeEphemerons(g: GlobalState)
    requires g.gcstate == GCSinsideatomic && g.gray == [] && Invariant(g, []) && forall r :: r in g.ephemeron ==> r in g.objs && ModeOf(g.objs, r).Ephemeral?
    modifies g`objs, g`gray, g`grayagain, g`weak, g`allweak, g`ephemeron
    ensures Invariant(g, []) && Onward(old(g.objs), g.objs, {}) && g.gray == []
    ensures AllEntriesSettled(g.objs, g.ephemeron)
    ensures forall r :: r in g.ephemeron ==> r in g.objs && ModeOf(g.objs, r).Ephemeral?
    ensures Pushed(g.objs, {WeakValues}, old(g.weak), g.weak) && WaitsPushed(g.objs, old(g.allweak), g.allweak)
  {
    hide TriColor, Onward, Whites, AllEntriesSettled, MetasMarked, Pushed;
    ghost var h0, weak0, all0 := g.objs, g.weak, g.allweak;
    OnwardSame(h0, {});
    PushedSame(h0, {WeakValues}, weak0);
    PushedSame(h0, {WeakValues}, all0);
    var changed := true;
    while changed
      invariant g.gray == [] && Invariant(g, []) && Onward(h0, g.objs, {})
      invariant forall r :: r in g.ephemeron ==> r in g.objs && ModeOf(g.objs, r).Ephemeral?
      invariant Pushed(g.objs, {WeakValues}, weak0, g.weak) && WaitsPushed(g.objs, all0, g.allweak)
      invariant !changed ==> AllEntriesSettled(g.objs, g.ephemeron)
      decreases |Whites(g.objs)|, changed
    {
      changed := ConvergePass(g, h0, weak0, all0);
    }
  }

  lemma PushedSame(h: Heap, ms: set<Mode>, s: seq<Ref>)
    ensures Pushed(h, ms, s, s) && WaitsPushed(h, s, s)
  {
  }

  /** One pass over the ephemeron tables that wait. */
  method ConvergePass(g: GlobalState, ghost h0: Heap, ghost weak0: seq<Ref>, ghost all0: seq<Ref>) returns (changed: bool)
    requires g.gcstate == GCSinsideatomic && g.gray == [] && Invariant(g, []) && Onward(h0, g.objs, {})
    requires forall r :: r in g.ephemeron ==> r in g.objs && ModeOf(g.objs, r).Ephemeral?
    requires Pushed(g.objs, {WeakValues}, weak0, g.weak) && WaitsPushed(g.objs, all0, g.allweak)
    modifies g`objs, g`gray, g`grayagain, g`weak, g`allweak, g`ephemeron
    ensures g.gray == [] && Invariant(g, []) && Onward(h0, g.objs, {})
    ensures forall r :: r in g.ephemeron ==> r in g.objs && ModeOf(g.objs, r).Ephemeral?
    ensures Pushed(g.objs, {WeakValues}, weak0, g.weak) && WaitsPushed(g.objs, all0, g.allweak)
    ensures if changed then |Whites(g.objs)| < |Whites(old(g.objs))| else AllEntriesSettled(g.objs, g.ephemeron) && |Whites(g.objs)| <= |Whites(old(g.objs))|
  {
    hide TriColor, Onward, Whites, MetasMarked, AllEntriesSettled, Pushed;
    ghost var w0 := |Whites(g.objs)|;
    EphemeronsWait(g.objs, ListsOf(g, []));
    var next := g.ephemeron;
    g.ephemeron := [];
    changed := false;
    PassStarts(g, next);
    while next != []
      invariant g.gray == [] && Invariant(g, next) && Onward(h0, g.objs, {}) && MetasMarked(g.objs, next)
      invariant Pushed(g.objs, {WeakValues}, weak0, g.weak) && WaitsPushed(g.objs, all0, g.allweak)
      invariant Pushed(g.objs, {Ephemeral}, [], g.ephemeron)
      invariant if changed then |Whites(g.objs)| < w0 else AllEntriesSettled(g.objs, g.ephemeron) && |Whites(g.objs)| <= w0
      decreases |next|
    {
      ghost var h, weak, all, eph := g.objs, g.weak, g.allweak, g.ephemeron;
      var w := next[0];
      assert [w] + next[1..] == next;
      next := next[1..];
      var marked := Reconverge(g, w, next);
      OnwardOn(h0, h, g.objs, {}, {});
      PushedThree(g, h, weak0, all0, weak, all, eph, [w] + next, next);
      changed := changed || marked;
    }
    AllPushed(g.objs, g.ephemeron);
  }

  lemma AllPushed(h: Heap, s: seq<Ref>)
    requires Pushed(h, {Ephemeral}, [], s)
    ensures forall r :: r in s ==> r in h && ModeOf(h, r).Ephemeral?
  {
    assert s[..|s| - 0] == s;
  }

  lemma PassStarts(g: GlobalState, next: seq<Ref>)
    requires g.gcstate == GCSinsideatomic && g.ephemeron == []
    ensures ListsOf(g, next) == ListsOf(g, []).(todo := next) && ListsOf(g, []).ephemeron == []
    ensures AllEntriesSettled(g.objs, []) && Pushed(g.objs, {Ephemeral}, [], [])
  {
  }

  lemma PushedThree(g: GlobalState, h: Heap, weak0: seq<Ref>, all0: seq<Ref>, weak: seq<Ref>, all: seq<Ref>, eph: seq<Ref>,
                    todo: seq<Ref>, todo': seq<Ref>)
    requires Onward(h, g.objs, {}) && g.gcstate == GCSinsideatomic
    requires Pushed(h, {WeakValues}, weak0, weak) && WaitsPushed(h, all0, all) && Pushed(h, {Ephemeral}, [], eph)
    requires WeakPushed(g.objs, Lists(true, [], todo, weak, all, eph, g.bound), ListsOf(g, todo'))
    ensures Pushed(g.objs, {WeakValues}, weak0, g.weak) && WaitsPushed(g.objs, all0, g.allweak)
    ensures Pushed(g.objs, {Ephemeral}, [], g.ephemeron)
  {
    PushedOn(h, g.objs, {}, {WeakValues}, weak0, weak, g.weak);
    WaitsPushedOn(h, g.objs, {}, all0, all, g.allweak);
    PushedOn(h, g.objs, {}, {Ephemeral}, [], eph, g.ephemeron);
  }

  // ---------- clearing weak tables ----------

  /** A value that `clearvalues` removes: an unmarked object that is not a string. */
  ghost predicate Clearable(h: Heap, s: Slot) {
    IsWhite(h, s) && !IsString(h, s)
  }

  /** The values of the weak table `o` have been cleared, giving `o'`. */
  ghost predicate ValuesCleared(h: Heap, o: Object, o': Object) {
    && |o'.slots| == |o.slots| && |o'.nodes| == |o.nodes|
    && (forall i :: 0 <= i < |o.slots| ==> o'.slots[i] == if Clearable(h, o.slots[i]) then Empty else o.slots[i])
    && (forall i :: 0 <= i < |o.nodes| ==> o'.nodes[i].val == if Clearable(h, o.nodes[i].val) then Empty else o.nodes[i].val)
  }

  /** The entries of `o` with unmarked keys have been removed, giving `o'`. */
  ghost predicate KeysCleared(h: Heap, o: Object, o': Object) {
    && o'.slots == o.slots && |o'.nodes| == |o.nodes|
    && (forall i :: 0 <= i < |o.nodes| ==> o'.nodes[i].val == if Clearable(h, o.nodes[i].key) then Empty else o.nodes[i].val)
  }

  /** Table `x` has lost entries, strings have been marked, and that is all. */
  ghost predicate Clears(h: Heap, h': Heap, x: Ref) {
    && h'.Keys == h.Keys && x in h && x in h'
    && (forall r :: r in h && r in h' && r != x ==> h'[r] == h[r] || (h[r].kind.Str? && h[r].color.White? && h'[r] == h[r].(color := Black)))
    && OnwardAt(h, h', {x}, x) && h'[x].color == h[x].color && h'[x].cache == h[x].cache
    && (forall i :: 0 <= i < |h[x].nodes| && h'[x].nodes[i] != h[x].nodes[i] ==> IsMarked(h', h'[x].nodes[i].key) && h'[x].nodes[i].val.Empty?)
  }

  lemma ClearsSame(h: Heap, x: Ref)
    requires x in h
    ensures Clears(h, h, x)
  {
  }

  lemma ClearsOn(a: Heap, b: Heap, c: Heap, x: Ref)
    requires Clears(a, b, x) && Clears(b, c, x)
    ensures Clears(a, c, x)
  {
    forall i | 0 <= i < |a[x].nodes| ensures NodeOnward(a[x].nodes[i], c[x].nodes[i], true) {
      assert NodeOnward(a[x].nodes[i], b[x].nodes[i], true) && NodeOnward(b[x].nodes[i], c[x].nodes[i], true);
    }
    forall i | 0 <= i < |a[x].nodes| && c[x].nodes[i] != a[x].nodes[i]
      ensures IsMarked(c, c[x].nodes[i].key) && c[x].nodes[i].val.Empty? {
      assert NodeOnward(b[x].nodes[i], c[x].nodes[i], true);
      if c[x].nodes[i] == b[x].nodes[i] {
        ClearsMarked(b, c, x, b[x].nodes[i].key);
      }
    }
  }

  lemma ClearsMarked(h: Heap, h': Heap, x: Ref, s: Slot)
    requires Clears(h, h', x) && IsMarked(h, s)
    ensures IsMarked(h', s)
  {
  }

  lemma ClearsClearable(h: Heap, h': Heap, x: Ref, s: Slot)
    requires Clears(h, h', x)
    ensures Clearable(h', s) == Clearable(h, s)
  {
  }

  lemma ClearsOnward(h: Heap, h': Heap, x: Ref, w: set<Ref>)
    requires Clears(h, h', x) && x in w
    ensures Onward(h, h', w)
  {
    forall r | r in h && r in h' ensures OnwardAt(h, h', w, r) {
      if r != x {
        assert h'[r] == h[r].(color := h'[r].color);
      }
    }
  }

  /** Clearing keeps the invariant: what is marked stays marked, and what is removed needs no mark. */
  lemma ClearsKeeps(h: Heap, h': Heap, x: Ref, ls: Lists)
    requires TriColor(h, ls) && Clears(h, h', x) && h[x].color.Gray? && Bounded(h', ls.bound)
    ensures TriColor(h', ls)
  {
    hide Settled, Complete, Confined, Bounded;
    ClearsOnward(h, h', x, {x});
    ConfinedOnward(h, h', {x}, ls, ls);
    ClearsWellFormed(h, h', x);
    forall r | r in h' && h'[r].color.Black? ensures Complete(h', h'[r]) {
      assert WellFormedAt(h, r) && OnwardAt(h, h', {x}, r);
      CompleteCleared(h, h', x, r);
    }
    forall r | r in h' ensures CoveredAt(h', ls, r) {
      assert CoveredAt(h, ls, r) && OnwardAt(h, h', {x}, r);
      if Settled(h, ls, r) {
        SettledCleared(h, h', x, ls, r);
      }
    }
    forall r | r in AllLists(ls) ensures Queued(h', r) {
      assert Queued(h, r);
    }
  }

  lemma ClearsWellFormed(h: Heap, h': Heap, x: Ref)
    requires WellFormed(h) && Clears(h, h', x)
    ensures WellFormed(h')
  {
    forall r | r in h' ensures WellFormedAt(h', r) {
      assert WellFormedAt(h, r);
      if r == x {
        forall i | 0 <= i < |h'[r].nodes| ensures InHeap(h', h'[r].nodes[i].key) && InHeap(h', h'[r].nodes[i].val) {
          assert NodeOnward(h[r].nodes[i], h'[r].nodes[i], true);
        }
      }
    }
  }

  lemma CompleteCleared(h: Heap, h': Heap, x: Ref, r: Ref)
    requires Clears(h, h', x) && Onward(h, h', {x}) && r in h && r in h' && WellFormedAt(h, r)
    requires h[r].color.Black? ==> Complete(h, h[r])
    ensures h'[r].color.Black? ==> Complete(h', h'[r])
  {
    OnwardKeeps(h, h', {x}, r);
  }

  lemma SettledCleared(h: Heap, h': Heap, x: Ref, ls: Lists, r: Ref)
    requires Clears(h, h', x) && Onward(h, h', {x}) && r in h && r in h' && Settled(h, ls, r)
    ensures Settled(h', ls, r)
  {
    hide Clears, Onward, ArrayMarked, KeysMarked, ValsMarked;
    OnwardKeeps(h, h', {x}, r);
    TidyCleared(h, h', x, r);
  }

  lemma TidyCleared(h: Heap, h': Heap, x: Ref, r: Ref)
    requires Clears(h, h', x) && r in h && r in h'
    ensures Tidy(h, h[r]) ==> Tidy(h', h'[r])
  {
    if Tidy(h, h[r]) {
      if r == x {
        TidyStays(h, h', x);
      } else {
        forall i | 0 <= i < |h'[r].nodes| && h'[r].nodes[i].val.Empty? ensures IsMarked(h', h'[r].nodes[i].key) {
          ClearsMarked(h, h', x, h[r].nodes[i].key);
        }
      }
    }
  }

  lemma TidyStays(h: Heap, h': Heap, x: Ref)
    requires Clears(h, h', x) && Tidy(h, h[x])
    ensures Tidy(h', h'[x])
  {
    forall i | 0 <= i < |h'[x].nodes| && h'[x].nodes[i].val.Empty? ensures IsMarked(h', h'[x].nodes[i].key) {
      if h'[x].nodes[i] == h[x].nodes[i] {
        ClearsMarked(h, h', x, h[x].nodes[i].key);
      }
    }
  }

  lemma StringsClear(h: Heap, gr: seq<Ref>, h': Heap, gr': seq<Ref>, x: Ref)
    requires Grows(h, gr, h', gr', -1) && OnlyStrings(h, h') && x in h && h[x].color.Gray?
    ensures Clears(h, h', x) && gr' == gr && h'[x] == h[x]
  {
    assert MarksAt(h, h', -1, x);
    forall r | r in h && r in h' && r != x ensures h'[r] == h[r] || (h[r].kind.Str? && h[r].color.White? && h'[r] == h[r].(color := Black)) {
      assert MarksAt(h, h', -1, r);
    }
    GrowsAny(h, gr, h', gr', x);
    NothingQueued(h, gr, h', gr', x);
  }

  /** The first `n` slots have been cleared. */
  ghost predicate SlotsClearedTo(h0: Heap, o0: Object, h: Heap, o: Object, n: nat) {
    && |o.slots| == |o0.slots|
    && (forall i :: 0 <= i < n && i < |o.slots| ==> IsMarked(h, o.slots[i]) && o.slots[i] == if Clearable(h0, o0.slots[i]) then Empty else o0.slots[i])
    && (forall i :: n <= i < |o.slots| ==> o.slots[i] == o0.slots[i])
  }

  method ClearSlots(g: GlobalState, x: Ref)
    requires WellFormed(g.objs) && x in g.objs && g.objs[x].color.Gray? && g.objs[x].kind.Table?
    requires Bounded(g.objs, g.bound) && StringsIn(g.objs, g.objs[x], g.bound)
    modifies g`objs, g`gray
    ensures Clears(old(g.objs), g.objs, x) && WellFormed(g.objs) && g.gray == old(g.gray) && Bounded(g.objs, g.bound)
    ensures g.objs[x].nodes == old(g.objs[x]).nodes && SlotsClearedTo(old(g.objs), old(g.objs[x]), g.objs, g.objs[x], |g.objs[x].slots|)
  {
    hide WellFormed, Grows, Clears, OnlyStrings, Bounded, StringsIn, InSet, IsString;
    ghost var h0, o0 := g.objs, g.objs[x];
    ClearsSame(h0, x);
    var i := 0;
    while i < |g.objs[x].slots|
      invariant Bounded(g.objs, g.bound) && x in g.objs && StringsIn(g.objs, g.objs[x], g.bound)
      invariant x in g.objs && 0 <= i <= |g.objs[x].slots| && WellFormed(g.objs) && Clears(h0, g.objs, x) && g.gray == old(g.gray)
      invariant g.objs[x] == o0.(slots := g.objs[x].slots) && SlotsClearedTo(h0, o0, g.objs, g.objs[x], i)
    {
      ghost var h, gr := g.objs, g.gray;
      WellFormedParts(h, x);
      StringSlot(h, h[x], g.bound, i);
      var cleared := IsCleared(g, g.objs[x].slots[i]);
      ghost var h1 := g.objs;
      StringsClear(h, gr, h1, g.gray, x);
      if cleared {
        g.objs := g.objs[x := g.objs[x].(slots := g.objs[x].slots[i := Empty])];
      }
      SlotEmptied(h1, g.objs, x, i);
      ClearsBounded(h, h1, g.objs, x, g.bound);
      SlotCleared(h0, o0, h, h1, g.objs, x, i, cleared);
      i := i + 1;
    }
  }

  lemma StringSlot(h: Heap, o: Object, m: iset<Ref>, i: nat)
    requires StringsIn(h, o, m)
    ensures i < |o.slots| && IsString(h, o.slots[i]) ==> InSet(m, o.slots[i])
    ensures i < |o.nodes| && IsString(h, o.nodes[i].key) ==> InSet(m, o.nodes[i].key)
    ensures i < |o.nodes| && IsString(h, o.nodes[i].val) ==> InSet(m, o.nodes[i].val)
  {
  }

  /** Removing an entry keeps the bound. */
  lemma ClearsBounded(h: Heap, h1: Heap, h2: Heap, x: Ref, m: iset<Ref>)
    requires Clears(h, h1, x) && Clears(h1, h2, x) && h2 == h1[x := h2[x]] && Bounded(h1, m) && StringsIn(h, h[x], m)
    ensures Bounded(h2, m) && StringsIn(h2, h2[x], m)
  {
    hide Fits, StringsIn;
    ClearsOnward(h, h1, x, {x});
    ClearsOnward(h1, h2, x, {x});
    OnwardFits(h, h1, {x}, x, Strong, m);
    OnwardFits(h1, h2, {x}, x, Strong, m);
    OnwardBounded(h1, h2, {x}, m);
  }

  lemma SlotCleared(h0: Heap, o0: Object, h: Heap, h1: Heap, h2: Heap, x: Ref, i: nat, cleared: bool)
    requires Clears(h0, h, x) && Clears(h, h1, x) && h1[x] == h[x] && WellFormed(h1) && i < |h[x].slots| && h[x].kind.Table?
    requires SlotsClearedTo(h0, o0, h, h[x], i)
    requires cleared <==> IsWhite(h1, h[x].slots[i])
    requires cleared ==> !IsString(h1, h[x].slots[i])
    requires !cleared ==> IsMarked(h1, h[x].slots[i])
    requires h2 == if cleared then h1[x := h1[x].(slots := h1[x].slots[i := Empty])] else h1
    ensures Clears(h0, h2, x) && WellFormed(h2) && SlotsClearedTo(h0, o0, h2, h2[x], i + 1)
  {
    hide SlotsClearedTo, WellFormed, OnwardAt;
    SlotEmptied(h1, h2, x, i);
    ClearsOn(h0, h, h1, x);
    ClearsOn(h0, h1, h2, x);
    ClearsClearable(h0, h1, x, h[x].slots[i]);
    AnotherSlotCleared(h0, o0, h, h1, h2, x, i, cleared);
  }

  lemma SlotEmptied(h1: Heap, h2: Heap, x: Ref, i: nat)
    requires WellFormed(h1) && x in h1 && h1[x].kind.Table? && i < |h1[x].slots|
    requires h2 == h1 || h2 == h1[x := h1[x].(slots := h1[x].slots[i := Empty])]
    ensures Clears(h1, h2, x) && WellFormed(h2)
  {
    forall r | r in h2 ensures WellFormedAt(h2, r) {
      assert WellFormedAt(h1, r);
    }
  }

  lemma AnotherSlotCleared(h0: Heap, o0: Object, h: Heap, h1: Heap, h2: Heap, x: Ref, i: nat, cleared: bool)
    requires Clears(h, h1, x) && Clears(h1, h2, x) && h1[x] == h[x] && i < |h[x].slots| && SlotsClearedTo(h0, o0, h, h[x], i)
    requires cleared <==> Clearable(h0, h[x].slots[i])
    requires !cleared ==> IsMarked(h1, h[x].slots[i])
    requires h2 == if cleared then h1[x := h1[x].(slots := h1[x].slots[i := Empty])] else h1
    ensures SlotsClearedTo(h0, o0, h2, h2[x], i + 1)
  {
    forall k | 0 <= k < i + 1 && k < |h2[x].slots| ensures IsMarked(h2, h2[x].slots[k]) && h2[x].slots[k] == if Clearable(h0, o0.slots[k]) then Empty else o0.slots[k] {
      if k < i {
        ClearsMarked(h, h1, x, h[x].slots[k]);
        ClearsMarked(h1, h2, x, h[x].slots[k]);
      } else if !cleared {
        ClearsMarked(h1, h2, x, h[x].slots[k]);
      }
    }
  }

  // The nodes of a weak table, by value or by key.

  /** What becomes of a node: its value goes if it, or with `keys` its key, is cleared. */
  ghost predicate NodeCleared(h0: Heap, n0: Node, h: Heap, n: Node, keys: bool) {
    && n.val == (if Clearable(h0, if keys then n0.key else n0.val) then Empty else n0.val)
    && if keys then IsMarked(h, n.key) else IsMarked(h, n.val)
  }

  ghost predicate NodesClearedTo(h0: Heap, o0: Object, h: Heap, o: Object, n: nat, keys: bool) {
    && |o.nodes| == |o0.nodes|
    && (forall i :: 0 <= i < n && i < |o.nodes| ==> NodeCleared(h0, o0.nodes[i], h, o.nodes[i], keys))
    && (forall i :: n <= i < |o.nodes| ==> o.nodes[i] == o0.nodes[i])
  }

  /** One round of the loop. */
  method ClearValueAt(g: GlobalState, x: Ref, i: nat, ghost h0: Heap, ghost o0: Object)
    requires x in g.objs && i < |g.objs[x].nodes| && WellFormed(g.objs) && Clears(h0, g.objs, x) && g.objs[x].color.Gray? && g.objs[x].kind.Table?
    requires g.objs[x] == o0.(nodes := g.objs[x].nodes) && NodesClearedTo(h0, o0, g.objs, g.objs[x], i, false)
    requires Bounded(g.objs, g.bound) && StringsIn(g.objs, g.objs[x], g.bound)
    modifies g`objs, g`gray
    ensures x in g.objs && |g.objs[x].nodes| == |old(g.objs)[x].nodes| && WellFormed(g.objs) && Clears(h0, g.objs, x) && g.gray == old(g.gray)
    ensures g.objs[x] == o0.(nodes := g.objs[x].nodes) && NodesClearedTo(h0, o0, g.objs, g.objs[x], i + 1, false)
    ensures Bounded(g.objs, g.bound) && StringsIn(g.objs, g.objs[x], g.bound)
  {
    hide WellFormed, Grows, Clears, OnlyStrings, NodesClearedTo, Bounded, StringsIn, InSet, IsString, OnwardAt, WellFormedAt;
    ghost var h, gr := g.objs, g.gray;
    WellFormedParts(h, x);
    NodesLeft(h0, o0, h, x, i, false);
    StringSlot(h, h[x], g.bound, i);
    var n := g.objs[x].nodes[i];
    GrowsSame(h, gr, -1);
    StringsNone(h);
    var cleared := false;
    if !n.val.Empty? {
      cleared := IsCleared(g, n.val);
    }
    ghost var h1 := g.objs;
    StringsClear(h, gr, h1, g.gray, x);
    if cleared {
      g.objs := g.objs[x := g.objs[x].(nodes := g.objs[x].nodes[i := n.(val := Empty)])];
      EntryEmptied(h1, x, i, g.bound);
      RemoveEntry(g, x, i);
    }
    assert g.objs[x] == h1[x].(nodes := h1[x].nodes[i := g.objs[x].nodes[i]]);
    assert g.objs == h1[x := g.objs[x]];
    NodeDone(h0, o0, h, h1, g.objs, x, i, n, cleared, false);
    StringsStay(h, h1, g.objs, x, g.bound);
  }

  /** The nodes of a table in `clearvalues`. */
  method ClearNodeValues(g: GlobalState, x: Ref)
    requires WellFormed(g.objs) && x in g.objs && g.objs[x].color.Gray? && g.objs[x].kind.Table?
    requires Bounded(g.objs, g.bound) && StringsIn(g.objs, g.objs[x], g.bound)
    modifies g`objs, g`gray
    ensures Clears(old(g.objs), g.objs, x) && WellFormed(g.objs) && g.gray == old(g.gray) && Bounded(g.objs, g.bound)
    ensures g.objs[x].slots == old(g.objs[x]).slots && NodesClearedTo(old(g.objs), old(g.objs[x]), g.objs, g.objs[x], |g.objs[x].nodes|, false)
  {
    hide WellFormed, Clears, NodesClearedTo, Bounded, StringsIn;
    ghost var h0, o0 := g.objs, g.objs[x];
    ClearsSame(h0, x);
    NoneCleared(h0, x, false);
    var i := 0;
    while i < |g.objs[x].nodes|
      invariant x in g.objs && 0 <= i <= |g.objs[x].nodes| && WellFormed(g.objs) && Clears(h0, g.objs, x) && g.gray == old(g.gray)
      invariant |g.objs[x].nodes| == |o0.nodes| && g.objs[x] == o0.(nodes := g.objs[x].nodes) && NodesClearedTo(h0, o0, g.objs, g.objs[x], i, false)
      invariant Bounded(g.objs, g.bound) && StringsIn(g.objs, g.objs[x], g.bound)
      decreases |o0.nodes| - i
    {
      ClearValueAt(g, x, i, h0, o0);
      i := i + 1;
    }
  }

  /** One round of the loop. */
  method ClearKeyAt(g: GlobalState, x: Ref, i: nat, ghost h0: Heap, ghost o0: Object)
    requires x in g.objs && i < |g.objs[x].nodes| && WellFormed(g.objs) && Clears(h0, g.objs, x) && g.objs[x].color.Gray? && g.objs[x].kind.Table?
    requires g.objs[x] == o0.(nodes := g.objs[x].nodes) && NodesClearedTo(h0, o0, g.objs, g.objs[x], i, true)
    requires Bounded(g.objs, g.bound) && StringsIn(g.objs, g.objs[x], g.bound)
    modifies g`objs, g`gray
    ensures x in g.objs && |g.objs[x].nodes| == |old(g.objs)[x].nodes| && WellFormed(g.objs) && Clears(h0, g.objs, x) && g.gray == old(g.gray)
    ensures g.objs[x] == o0.(nodes := g.objs[x].nodes) && NodesClearedTo(h0, o0, g.objs, g.objs[x], i + 1, true)
    ensures Bounded(g.objs, g.bound) && StringsIn(g.objs, g.objs[x], g.bound)
  {
    hide WellFormed, Grows, Clears, OnlyStrings, NodesClearedTo, Bounded, StringsIn, InSet, IsString, OnwardAt, WellFormedAt;
    ghost var h, gr := g.objs, g.gray;
    WellFormedParts(h, x);
    NodesLeft(h0, o0, h, x, i, true);
    StringSlot(h, h[x], g.bound, i);
    var n := g.objs[x].nodes[i];
    GrowsSame(h, gr, -1);
    StringsNone(h);
    var cleared := false;
    if !n.val.Empty? {
      cleared := IsCleared(g, n.key);
    }
    ghost var h1 := g.objs;
    StringsClear(h, gr, h1, g.gray, x);
    if cleared {
      g.objs := g.objs[x := g.objs[x].(nodes := g.objs[x].nodes[i := n.(val := Empty)])];
      EntryEmptied(h1, x, i, g.bound);
    }
    if g.objs[x].nodes[i].val.Empty? {
      RemoveEntry(g, x, i);
    }
    assert g.objs[x] == h1[x].(nodes := h1[x].nodes[i := g.objs[x].nodes[i]]);
    assert g.objs == h1[x := g.objs[x]];
    NodeDone(h0, o0, h, h1, g.objs, x, i, n, cleared, true);
    StringsStay(h, h1, g.objs, x, g.bound);
  }

  /** A table in `clearkeys`. */
  method ClearNodeKeys(g: GlobalState, x: Ref)
    requires WellFormed(g.objs) && x in g.objs && g.objs[x].color.Gray? && g.objs[x].kind.Table?
    requires Bounded(g.objs, g.bound) && StringsIn(g.objs, g.objs[x], g.bound)
    modifies g`objs, g`gray
    ensures Clears(old(g.objs), g.objs, x) && WellFormed(g.objs) && g.gray == old(g.gray) && Bounded(g.objs, g.bound)
    ensures g.objs[x].slots == old(g.objs[x]).slots && NodesClearedTo(old(g.objs), old(g.objs[x]), g.objs, g.objs[x], |g.objs[x].nodes|, true)
  {
    hide WellFormed, Clears, NodesClearedTo, Bounded, StringsIn;
    ghost var h0, o0 := g.objs, g.objs[x];
    ClearsSame(h0, x);
    NoneCleared(h0, x, true);
    var i := 0;
    while i < |g.objs[x].nodes|
      invariant x in g.objs && 0 <= i <= |g.objs[x].nodes| && WellFormed(g.objs) && Clears(h0, g.objs, x) && g.gray == old(g.gray)
      invariant |g.objs[x].nodes| == |o0.nodes| && g.objs[x] == o0.(nodes := g.objs[x].nodes) && NodesClearedTo(h0, o0, g.objs, g.objs[x], i, true)
      invariant Bounded(g.objs, g.bound) && StringsIn(g.objs, g.objs[x], g.bound)
      decreases |o0.nodes| - i
    {
      ClearKeyAt(g, x, i, h0, o0);
      i := i + 1;
    }
  }

  lemma NoneCleared(h: Heap, x: Ref, keys: bool)
    requires x in h
    ensures NodesClearedTo(h, h[x], h, h[x], 0, keys)
  {
  }

  lemma NodesLeft(h0: Heap, o0: Object, h: Heap, x: Ref, i: nat, keys: bool)
    requires x in h && NodesClearedTo(h0, o0, h, h[x], i, keys)
    ensures |h[x].nodes| == |o0.nodes| && (i < |h[x].nodes| ==> h[x].nodes[i] == o0.nodes[i])
  {
  }

  lemma StringsNone(h: Heap)
    ensures OnlyStrings(h, h)
  {
  }

  lemma StringsStay(h: Heap, h1: Heap, h2: Heap, x: Ref, m: iset<Ref>)
    requires Clears(h, h1, x) && Clears(h1, h2, x) && StringsIn(h, h[x], m)
    ensures StringsIn(h2, h2[x], m)
  {
    hide Fits, StringsIn;
    ClearsOnward(h, h1, x, {x});
    ClearsOnward(h1, h2, x, {x});
    OnwardFits(h, h1, {x}, x, Strong, m);
    OnwardFits(h1, h2, {x}, x, Strong, m);
  }

  lemma EntryEmptied(h: Heap, x: Ref, i: nat, m: iset<Ref>)
    requires WellFormed(h) && x in h && h[x].kind.Table? && !h[x].color.White? && i < |h[x].nodes| && Bounded(h, m)
    ensures var h' := h[x := h[x].(nodes := h[x].nodes[i := h[x].nodes[i].(val := Empty)])]; WellFormed(h') && Bounded(h', m)
  {
    var h' := h[x := h[x].(nodes := h[x].nodes[i := h[x].nodes[i].(val := Empty)])];
    OnwardBounded(h, h', {x}, m) by { EntryOnward(h, h', x, i); }
    forall r | r in h' ensures WellFormedAt(h', r) {
      assert WellFormedAt(h, r);
    }
  }

  lemma EntryOnward(h: Heap, h': Heap, x: Ref, i: nat)
    requires x in h && i < |h[x].nodes| && h' == h[x := h[x].(nodes := h[x].nodes[i := h[x].nodes[i].(val := Empty)])]
    ensures Onward(h, h', {x})
  {
    forall k | 0 <= k < |h[x].nodes| ensures NodeOnward(h[x].nodes[k], h'[x].nodes[k], true) {
    }
  }

  lemma NodeDone(h0: Heap, o0: Object, h: Heap, h1: Heap, h2: Heap, x: Ref, i: nat, n: Node, cleared: bool, keys: bool)
    requires Clears(h0, h, x) && Clears(h, h1, x) && h1[x] == h[x] && i < |h[x].nodes| && i < |o0.nodes| && n == h[x].nodes[i] == o0.nodes[i]
    requires NodesClearedTo(h0, o0, h, h[x], i, keys) && WellFormed(h1) && WellFormed(h2)
    requires cleared ==> !n.val.Empty? && IsWhite(h1, if keys then n.key else n.val) && !IsString(h1, if keys then n.key else n.val)
    requires !cleared && !n.val.Empty? ==> IsMarked(h1, if keys then n.key else n.val)
    requires x in h2 && |h2[x].nodes| == |h1[x].nodes| && h2 == h1[x := h1[x].(nodes := h1[x].nodes[i := h2[x].nodes[i]])]
    requires h2[x].nodes[i].val == if cleared then Empty else n.val
    requires h2[x].nodes[i].key == if cleared || (keys && n.val.Empty?) then (if IsWhite(h1, n.key) then DeadKey else n.key) else n.key
    ensures Clears(h0, h2, x) && Clears(h1, h2, x) && NodesClearedTo(h0, o0, h2, h2[x], i + 1, keys)
  {
    hide NodesClearedTo, OnwardAt;
    assert WellFormedAt(h1, x);
    OneNodeCleared(h1, h2, x, i);
    ClearsOn(h0, h, h1, x);
    ClearsOn(h0, h1, h2, x);
    ClearsClearable(h0, h1, x, n.key);
    ClearsClearable(h0, h1, x, n.val);
    AnotherNodeCleared(h0, o0, h, h1, h2, x, i, n, cleared, keys);
  }

  lemma OneNodeCleared(h1: Heap, h2: Heap, x: Ref, i: nat)
    requires x in h1 && x in h2 && i < |h1[x].nodes| == |h2[x].nodes| && InHeap(h1, h1[x].nodes[i].key)
    requires h2 == h1[x := h1[x].(nodes := h1[x].nodes[i := h2[x].nodes[i]])]
    requires h2[x].nodes[i] == h1[x].nodes[i]
             || (h2[x].nodes[i].val.Empty? && h2[x].nodes[i].key == if IsWhite(h1, h1[x].nodes[i].key) then DeadKey else h1[x].nodes[i].key)
    ensures Clears(h1, h2, x)
  {
    forall k | 0 <= k < |h1[x].nodes| ensures NodeOnward(h1[x].nodes[k], h2[x].nodes[k], true) {
    }
  }

  lemma AnotherNodeCleared(h0: Heap, o0: Object, h: Heap, h1: Heap, h2: Heap, x: Ref, i: nat, n: Node, cleared: bool, keys: bool)
    requires Clears(h, h1, x) && Clears(h1, h2, x) && h1[x] == h[x] && i < |h[x].nodes| && i < |o0.nodes| && n == h[x].nodes[i] == o0.nodes[i]
    requires NodesClearedTo(h0, o0, h, h[x], i, keys) && InHeap(h1, n.key)
    requires cleared <==> !n.val.Empty? && Clearable(h0, if keys then n.key else n.val)
    requires !cleared && !n.val.Empty? ==> IsMarked(h1, if keys then n.key else n.val)
    requires |h2[x].nodes| == |h1[x].nodes| && h2[x].nodes == h1[x].nodes[i := h2[x].nodes[i]]
    requires h2[x].nodes[i].val == if cleared then Empty else n.val
    requires h2[x].nodes[i].key == if cleared || (keys && n.val.Empty?) then (if IsWhite(h1, n.key) then DeadKey else n.key) else n.key
    ensures NodesClearedTo(h0, o0, h2, h2[x], i + 1, keys)
  {
    forall k | 0 <= k < i + 1 && k < |h2[x].nodes| ensures NodeCleared(h0, o0.nodes[k], h2, h2[x].nodes[k], keys) {
      if k < i {
        assert NodeCleared(h0, o0.nodes[k], h, h[x].nodes[k], keys);
        ClearsMarked(h, h1, x, if keys then h[x].nodes[k].key else h[x].nodes[k].val);
        ClearsMarked(h1, h2, x, if keys then h[x].nodes[k].key else h[x].nodes[k].val);
      } else if IsMarked(h1, if keys then n.key else n.val) {
        ClearsMarked(h1, h2, x, if keys then n.key else n.val);
      }
    }
  }

  // ---------- clearing a list of tables ----------

  /** Only the tables `w` have lost entries, and only strings have been marked. */
  ghost predicate ClearsAll(h: Heap, h': Heap, w: set<Ref>) {
    && h'.Keys == h.Keys
    && (forall r :: r in h && r in h' && r !in w ==> h'[r] == h[r] || (h[r].kind.Str? && h[r].color.White? && h'[r] == h[r].(color := Black)))
    && (forall r :: r in h && r in h' && r in w ==> OnwardAt(h, h', w, r) && h'[r].color == h[r].color)
  }

  lemma AllClearable(h: Heap, h': Heap, w: set<Ref>, s: Slot)
    requires ClearsAll(h, h', w) && forall r :: r in w ==> r in h && h[r].kind.Table?
    ensures Clearable(h', s) == Clearable(h, s)
  {
    assert s.To? && s.r in h && s.r in w ==> OnwardAt(h, h', w, s.r);
  }

  lemma ClearedTwice(h0: Heap, h: Heap, h': Heap, w: set<Ref>, r: Ref)
    requires r in h0 && r in h && r in h' && r in w && h0[r].kind.Table? && OnwardAt(h0, h, w, r) && OnwardAt(h, h', w, r)
    requires h[r].color == h0[r].color == h'[r].color
    ensures OnwardAt(h0, h', w, r)
  {
    forall i | 0 <= i < |h0[r].nodes| ensures NodeOnward(h0[r].nodes[i], h'[r].nodes[i], true) {
      assert NodeOnward(h0[r].nodes[i], h[r].nodes[i], true) && NodeOnward(h[r].nodes[i], h'[r].nodes[i], true);
    }
  }

  lemma Recoloured(h: Heap, h': Heap, w: set<Ref>, r: Ref)
    requires r in h && r in h' && r !in w && (h'[r] == h[r] || (h[r].kind.Str? && h[r].color.White? && h'[r] == h[r].(color := Black)))
    ensures OnwardAt(h, h', w, r)
  {
    assert h'[r] == h[r].(color := h'[r].color);
  }

  /** One object, after one more table has been cleared. */
  lemma ClearsStep(h0: Heap, h: Heap, h': Heap, w: set<Ref>, x: Ref, r: Ref)
    requires ClearsAll(h0, h, w) && Clears(h, h', x) && x in w && r in h0 && r in h'
    requires r in w ==> h0[r].kind.Table? && OnwardAt(h, h', w, r)
    ensures OnwardAt(h0, h', w, r) && (r in w ==> h'[r].color == h0[r].color)
    ensures r !in w ==> h'[r] == h0[r] || (h0[r].kind.Str? && h0[r].color.White? && h'[r] == h0[r].(color := Black))
  {
    hide OnwardAt;
    assert r in h.Keys && h'.Keys == h.Keys;
    if r in w {
      TableKind(h0, h, w, r);
      ClearedTwice(h0, h, h', w, r);
    } else {
      Recoloured(h0, h', w, r);
    }
  }

  lemma TableKind(h0: Heap, h: Heap, w: set<Ref>, r: Ref)
    requires r in h0 && r in h && h0[r].kind.Table? && OnwardAt(h0, h, w, r)
    ensures h[r].kind.Table?
  {
  }

  lemma ClearsAllOn(h0: Heap, h: Heap, h': Heap, w: set<Ref>, x: Ref)
    requires ClearsAll(h0, h, w) && Clears(h, h', x) && x in w && forall r :: r in w ==> r in h0 && h0[r].kind.Table?
    ensures ClearsAll(h0, h', w) && Onward(h0, h', w)
    ensures forall s :: Clearable(h', s) == Clearable(h0, s)
  {
    ClearsOnward(h, h', x, w);
    hide OnwardAt, Clearable;
    assert h'.Keys == h.Keys == h0.Keys;
    forall r | r in h0 && r in h'
      ensures OnwardAt(h0, h', w, r) && (r in w ==> h'[r].color == h0[r].color)
      ensures r !in w ==> h'[r] == h0[r] || (h0[r].kind.Str? && h0[r].color.White? && h'[r] == h0[r].(color := Black))
    {
      ClearsStep(h0, h, h', w, x, r);
    }
    hide Clears;
    forall s ensures Clearable(h', s) == Clearable(h0, s) {
      ClearsClearable(h, h', x, s);
      AllClearable(h0, h, w, s);
    }
  }

  lemma ClearsAllSame(h: Heap, w: set<Ref>)
    ensures ClearsAll(h, h, w) && Onward(h, h, w)
  {
    forall r | r in h ensures OnwardAt(h, h, w, r) {
    }
  }

  /** Table `r` after `clearvalues`: exactly the unmarked objects among its values are gone. */
  ghost predicate ValuesGone(h0: Heap, h: Heap, r: Ref)
    requires r in h0 && r in h
  {
    ArrayMarked(h, h[r]) && ValsMarked(h, h[r]) && ValuesCleared(h0, h0[r], h[r])
  }

  /** Table `r` after `clearkeys`: exactly the entries with unmarked objects as keys are gone. */
  ghost predicate KeysGone(h0: Heap, h: Heap, r: Ref)
    requires r in h0 && r in h
  {
    KeysMarked(h, h[r]) && KeysCleared(h0, h0[r], h[r])
  }

  ghost predicate Gone(h0: Heap, h: Heap, r: Ref, keys: bool)
    requires r in h0 && r in h
  {
    if keys then KeysGone(h0, h, r) else ValuesGone(h0, h, r)
  }

  ghost predicate GoneUpTo(h0: Heap, h: Heap, l: seq<Ref>, n: nat, keys: bool) {
    && (forall i :: 0 <= i < n && i < |l| ==> l[i] in h0 && l[i] in h && Gone(h0, h, l[i], keys))
    && (forall i :: n <= i < |l| ==> l[i] in h0 && l[i] in h && h[l[i]] == h0[l[i]])
  }

  lemma GoneStays(h0: Heap, h: Heap, h': Heap, w: set<Ref>, x: Ref, r: Ref, keys: bool)
    requires Clears(h, h', x) && Onward(h, h', w) && r != x && r in h0 && r in h && r in h' && h[r].kind.Table? && Gone(h0, h, r, keys)
    ensures Gone(h0, h', r, keys)
  {
    OnwardKeeps(h, h', w, r);
  }

  lemma GoneOn(h0: Heap, h: Heap, h': Heap, l: seq<Ref>, n: nat, keys: bool, w: set<Ref>)
    requires n < |l| && Distinct(l) && Clears(h, h', l[n]) && Onward(h, h', w) && GoneUpTo(h0, h, l, n, keys)
    requires forall i :: 0 <= i < |l| ==> l[i] in h0 && h0[l[i]].kind.Table?
    requires h0.Keys == h.Keys == h'.Keys && (forall i :: 0 <= i < |l| ==> h[l[i]].kind.Table?)
    requires l[n] in h' && Gone(h0, h', l[n], keys)
    ensures GoneUpTo(h0, h', l, n + 1, keys)
  {
    forall i | 0 <= i < n + 1 && i < |l| ensures l[i] in h0 && l[i] in h' && Gone(h0, h', l[i], keys) {
      if i < n {
        assert l[i] != l[n];
        GoneStays(h0, h, h', w, l[n], l[i], keys);
      }
    }
    forall i | n + 1 <= i < |l| ensures l[i] in h0 && l[i] in h' && h'[l[i]] == h0[l[i]] {
      assert l[i] != l[n];
    }
  }

  /** `clearvalues` on one table. */
  method ClearTableValues(g: GlobalState, x: Ref)
    requires g.gcstate == GCSinsideatomic && Invariant(g, []) && Queued(g.objs, x) && g.objs[x].kind.Table? && x in AllLists(ListsOf(g, []))
    modifies g`objs, g`gray
    ensures Invariant(g, []) && Clears(old(g.objs), g.objs, x) && g.gray == old(g.gray) && x in g.objs && ValuesGone(old(g.objs), g.objs, x)
  {
    hide WellFormed, Grows, Clears, Bounded, StringsIn;
    ghost var h0, ls := g.objs, ListsOf(g, []);
    ListedStrings(h0, ls, x);
    ClearSlots(g, x);
    ghost var h1 := g.objs;
    StillTable(h0, h1, x);
    OneStringsStay(h0, h1, x, g.bound);
    ClearNodeValues(g, x);
    ClearsOn(h0, h1, g.objs, x);
    ClearsKeeps(h0, g.objs, x, ls);
    BothCleared(h0, h1, g.objs, x);
  }

  lemma ListedStrings(h: Heap, ls: Lists, x: Ref)
    requires TriColor(h, ls) && x in AllLists(ls) && x in h
    ensures WellFormed(h) && Bounded(h, ls.bound) && StringsIn(h, h[x], ls.bound)
  {
    assert ListedFits(h, ls, x);
  }

  lemma OneStringsStay(h: Heap, h': Heap, x: Ref, m: iset<Ref>)
    requires Clears(h, h', x) && StringsIn(h, h[x], m)
    ensures StringsIn(h', h'[x], m)
  {
    ClearsSame(h', x);
    StringsStay(h, h', h', x, m);
  }

  lemma StillTable(h: Heap, h': Heap, x: Ref)
    requires Clears(h, h', x)
    ensures x in h' && h'[x].color == h[x].color && h'[x].kind == h[x].kind
  {
  }

  lemma BothCleared(h0: Heap, h1: Heap, h2: Heap, x: Ref)
    requires Clears(h0, h1, x) && Clears(h1, h2, x) && h1[x].nodes == h0[x].nodes && h2[x].slots == h1[x].slots
    requires SlotsClearedTo(h0, h0[x], h1, h1[x], |h1[x].slots|) && NodesClearedTo(h1, h1[x], h2, h2[x], |h2[x].nodes|, false)
    ensures ValuesGone(h0, h2, x)
  {
    forall i | 0 <= i < |h2[x].slots| ensures IsMarked(h2, h2[x].slots[i]) {
      ClearsMarked(h1, h2, x, h1[x].slots[i]);
    }
    forall i | 0 <= i < |h2[x].nodes|
      ensures IsMarked(h2, h2[x].nodes[i].val) && h2[x].nodes[i].val == if Clearable(h0, h0[x].nodes[i].val) then Empty else h0[x].nodes[i].val {
      assert NodeCleared(h1, h1[x].nodes[i], h2, h2[x].nodes[i], false);
      ClearsClearable(h0, h1, x, h0[x].nodes[i].val);
    }
  }

  /** `clearkeys` on one table. */
  method ClearTableKeys(g: GlobalState, x: Ref)
    requires g.gcstate == GCSinsideatomic && Invariant(g, []) && Queued(g.objs, x) && g.objs[x].kind.Table? && x in AllLists(ListsOf(g, []))
    modifies g`objs, g`gray
    ensures Invariant(g, []) && Clears(old(g.objs), g.objs, x) && g.gray == old(g.gray) && x in g.objs && KeysGone(old(g.objs), g.objs, x)
  {
    hide WellFormed, Grows, Clears, Bounded, StringsIn;
    ghost var h0, ls := g.objs, ListsOf(g, []);
    ListedStrings(h0, ls, x);
    ClearNodeKeys(g, x);
    ClearsKeeps(h0, g.objs, x, ls);
    StillTable(h0, g.objs, x);
    AllKeysGone(h0, g.objs, x);
  }

  lemma AllKeysGone(h0: Heap, h: Heap, x: Ref)
    requires x in h0 && x in h && h[x].slots == h0[x].slots && NodesClearedTo(h0, h0[x], h, h[x], |h[x].nodes|, true)
    ensures KeysGone(h0, h, x)
  {
    forall i | 0 <= i < |h[x].nodes| ensures IsMarked(h, h[x].nodes[i].key) && h[x].nodes[i].val == if Clearable(h0, h0[x].nodes[i].key) then Empty else h0[x].nodes[i].val {
      assert NodeCleared(h0, h0[x].nodes[i], h, h[x].nodes[i], true);
    }
  }

  lemma GoneFrom(h0: Heap, h: Heap, h': Heap, x: Ref, keys: bool)
    requires x in h0 && x in h && x in h' && h[x] == h0[x] && (forall s :: Clearable(h, s) == Clearable(h0, s)) && Gone(h, h', x, keys)
    ensures Gone(h0, h', x, keys)
  {
  }

  lemma SameClearable(h: Heap)
    ensures forall s :: Clearable(h, s) == Clearable(h, s)
  {
  }

  /** Tables waiting to be cleared. */
  ghost predicate ToClear(h: Heap, l: seq<Ref>) {
    Distinct(l) && forall i :: 0 <= i < |l| ==> Queued(h, l[i]) && h[l[i]].kind.Table?
  }

  lemma ToClearStays(h: Heap, h': Heap, x: Ref, l: seq<Ref>)
    requires ToClear(h, l) && Clears(h, h', x)
    ensures ToClear(h', l)
  {
    forall i | 0 <= i < |l| ensures Queued(h', l[i]) && h'[l[i]].kind.Table? {
      assert Queued(h, l[i]);
    }
  }

  lemma StepGone(h0: Heap, h: Heap, h': Heap, l: seq<Ref>, n: nat, keys: bool)
    requires ToClear(h0, l) && ToClear(h, l) && n < |l| && ClearsAll(h0, h, Members(l)) && Clears(h, h', l[n]) && GoneUpTo(h0, h, l, n, keys)
    requires (forall s :: Clearable(h, s) == Clearable(h0, s)) && l[n] in h' && Gone(h, h', l[n], keys)
    ensures ClearsAll(h0, h', Members(l)) && Onward(h0, h', Members(l)) && (forall s :: Clearable(h', s) == Clearable(h0, s))
    ensures GoneUpTo(h0, h', l, n + 1, keys) && ToClear(h', l)
  {
    hide Gone, Clearable, ClearsAll, Clears, Onward;
    assert forall i :: 0 <= i < |l| ==> Queued(h, l[i]) && Queued(h0, l[i]);
    KeysSame(h0, h, h', l[n], Members(l));
    ClearsAllOn(h0, h, h', Members(l), l[n]);
    ClearsOnward(h, h', l[n], Members(l));
    GoneFrom(h0, h, h', l[n], keys);
    GoneOn(h0, h, h', l, n, keys, Members(l));
    ToClearStays(h, h', l[n], l);
  }

  lemma KeysSame(h0: Heap, h: Heap, h': Heap, x: Ref, w: set<Ref>)
    requires ClearsAll(h0, h, w) && Clears(h, h', x)
    ensures h0.Keys == h.Keys == h'.Keys
  {
  }

  /** `clearvalues` (or, with `keys`, `clearkeys`) on the tables of a list. */
  method ClearList(g: GlobalState, l: seq<Ref>, keys: bool)
    requires g.gcstate == GCSinsideatomic && g.gray == [] && Invariant(g, []) && ToClear(g.objs, l)
    requires forall r :: r in l ==> r in g.weak || r in g.allweak || r in g.ephemeron
    modifies g`objs, g`gray
    ensures Invariant(g, []) && g.gray == [] && Onward(old(g.objs), g.objs, Members(l)) && ClearsAll(old(g.objs), g.objs, Members(l))
    ensures GoneUpTo(old(g.objs), g.objs, l, |l|, keys)
    ensures !keys ==> ValuesLeft(old(g.objs), MarkedSet(old(g.objs)), old(g.objs), g.objs, Members(l))
    ensures keys ==> KeysLeft(old(g.objs), MarkedSet(old(g.objs)), old(g.objs), g.objs, Members(l))
    ensures SameDropped(old(g.objs), g.objs)
  {
    hide TriColor, Onward, ClearsAll, Clears, Gone, GoneUpTo, ToClear, Clearable, Members, ValuesLeft, KeysLeft, SameDropped;
    ghost var h0 := g.objs;
    ClearsAllSame(h0, Members(l));
    NoneGone(h0, l, keys);
    SameClearable(h0);
    var i := 0;
    while i < |l|
      invariant 0 <= i <= |l| && Invariant(g, []) && g.gray == [] && Onward(h0, g.objs, Members(l)) && ClearsAll(h0, g.objs, Members(l))
      invariant GoneUpTo(h0, g.objs, l, i, keys) && ToClear(g.objs, l) && (forall s :: Clearable(g.objs, s) == Clearable(h0, s))
    {
      ghost var h := g.objs;
      TakeOne(h, l, i);
      assert l[i] in l && l[i] in AllLists(ListsOf(g, []));
      if keys {
        ClearTableKeys(g, l[i]);
      } else {
        ClearTableValues(g, l[i]);
      }
      assert Gone(h, g.objs, l[i], keys) by { AsGone(h, g.objs, l[i], keys); }
      StepGone(h0, h, g.objs, l, i, keys);
      i := i + 1;
    }
    ListedLeft(h0, g.objs, l, keys);
    AlikeDropped(h0, g.objs);
  }

  /** The same objects would be dropped. */
  ghost predicate SameDropped(h: Heap, h': Heap) {
    forall s :: Dropped(h', MarkedSet(h'), s) == Dropped(h, MarkedSet(h), s)
  }

  lemma AlikeDropped(h: Heap, h': Heap)
    requires forall s :: Clearable(h', s) == Clearable(h, s)
    ensures SameDropped(h, h')
  {
    forall s ensures Dropped(h', MarkedSet(h'), s) == Dropped(h, MarkedSet(h), s) {
      assert Clearable(h', s) == Clearable(h, s);
    }
  }

  /** The tables of the list have lost exactly these entries, and other objects none. */
  lemma ListedLeft(h: Heap, h': Heap, l: seq<Ref>, keys: bool)
    requires ClearsAll(h, h', Members(l)) && GoneUpTo(h, h', l, |l|, keys)
    ensures !keys ==> ValuesLeft(h, MarkedSet(h), h, h', Members(l))
    ensures keys ==> KeysLeft(h, MarkedSet(h), h, h', Members(l))
  {
    hide Left, Gone, OnwardAt;
    forall r | r in h && r in h'
      ensures Left(h, MarkedSet(h), MarkedSet(h), h[r], h'[r], !keys && r in Members(l), keys && r in Members(l)) {
      if r in Members(l) {
        var i :| 0 <= i < |l| && l[i] == r;
        OneLeft(h, h', Members(l), r, keys);
      } else {
        SameLeft(h, MarkedSet(h), h[r], h'[r]);
      }
    }
  }

  lemma SameLeft(h: Heap, m: iset<Ref>, o: Object, o': Object)
    requires o'.slots == o.slots && o'.nodes == o.nodes
    ensures Left(h, m, m, o, o', false, false)
  {
  }

  lemma OneLeft(h: Heap, h': Heap, w: set<Ref>, r: Ref, keys: bool)
    requires r in h && r in h' && Gone(h, h', r, keys) && OnwardAt(h, h', w, r)
    ensures Left(h, MarkedSet(h), MarkedSet(h), h[r], h'[r], !keys, keys)
  {
    var o, o' := h[r], h'[r];
    forall i | 0 <= i < |o.nodes| ensures NodeLeft(h, MarkedSet(h), MarkedSet(h), o.nodes[i], o'.nodes[i], !keys, keys) {
      assert NodeOnward(o.nodes[i], o'.nodes[i], r in w);
    }
  }

  /** The set may be taken where it was before other tables were cleared. */
  lemma SameValues(h: Heap, h1: Heap, a: Heap, b: Heap, l: set<Ref>)
    requires SameDropped(h, h1)
    ensures ValuesLeft(h1, MarkedSet(h1), a, b, l) == ValuesLeft(h, MarkedSet(h), a, b, l)
    ensures KeysLeft(h1, MarkedSet(h1), a, b, l) == KeysLeft(h, MarkedSet(h), a, b, l)
  {
    hide Dropped;
    forall o, o', values, keys
      ensures Left(h1, MarkedSet(h1), MarkedSet(h1), o, o', values, keys) == Left(h, MarkedSet(h), MarkedSet(h), o, o', values, keys) {
      LeftAlike(h, h1, o, o', values, keys);
    }
    hide Left;
  }

  lemma LeftAlike(h: Heap, h1: Heap, o: Object, o': Object, values: bool, keys: bool)
    requires SameDropped(h, h1)
    ensures Left(h1, MarkedSet(h1), MarkedSet(h1), o, o', values, keys) == Left(h, MarkedSet(h), MarkedSet(h), o, o', values, keys)
  {
    hide Dropped;
    forall n, n' ensures NodeLeft(h1, MarkedSet(h1), MarkedSet(h1), n, n', values, keys) == NodeLeft(h, MarkedSet(h), MarkedSet(h), n, n', values, keys) {
    }
  }

  lemma SameOn(a: Heap, b: Heap, c: Heap)
    requires SameDropped(a, b) && SameDropped(b, c)
    ensures SameDropped(a, c)
  {
    hide Dropped;
  }

  lemma AsGone(h: Heap, h': Heap, x: Ref, keys: bool)
    requires x in h && x in h' && if keys then KeysGone(h, h', x) else ValuesGone(h, h', x)
    ensures Gone(h, h', x, keys)
  {
  }

  lemma NoneGone(h: Heap, l: seq<Ref>, keys: bool)
    requires ToClear(h, l)
    ensures GoneUpTo(h, h, l, 0, keys)
  {
    assert forall i :: 0 <= i < |l| ==> Queued(h, l[i]);
  }

  lemma TakeOne(h: Heap, l: seq<Ref>, i: nat)
    requires ToClear(h, l) && i < |l|
    ensures Queued(h, l[i]) && h[l[i]].kind.Table?
  {
  }

  // ---------- what is strongly accessible ----------

  lemma MarkedInSet(h: Heap, s: Slot)
    requires InHeap(h, s)
    ensures InSet(MarkedSet(h), s) <==> IsMarked(h, s)
  {
  }

  /** Once marking has converged, the marked objects are closed under strong references. */
  lemma MarkedStronglyClosed(h: Heap, ls: Lists)
    requires TriColor(h, ls) && ls.gray == [] && ls.todo == [] && AllEntriesSettled(h, ls.ephemeron) && Waiting(h, ls.allweak)
    requires forall r :: r in ls.weak ==> r in h && ModeOf(h, r).WeakValues?
    requires forall r :: r in ls.ephemeron ==> r in h && ModeOf(h, r).Ephemeral?
    ensures StronglyClosed(h, MarkedSet(h))
  {
    forall r | r in MarkedSet(h) && r in h ensures KeepsAlive(h, h[r], ModeOf(h, r), MarkedSet(h)) {
      assert WellFormedAt(h, r) && CoveredAt(h, ls, r);
      if h[r].color.Gray? {
        GrayKeepsAlive(h, ls, r);
      } else {
        BlackKeepsAlive(h, r, ModeOf(h, r));
      }
    }
  }

  lemma BlackKeepsAlive(h: Heap, r: Ref, mode: Mode)
    requires r in h && Complete(h, h[r]) && SlotsInHeap(h, h[r])
    ensures KeepsAlive(h, h[r], mode, MarkedSet(h))
  {
  }

  lemma GrayKeepsAlive(h: Heap, ls: Lists, r: Ref)
    requires r in h && WellFormedAt(h, r) && Settled(h, ls, r) && AllEntriesSettled(h, ls.ephemeron)
    requires r in ls.weak ==> ModeOf(h, r).WeakValues?
    requires r in ls.ephemeron ==> ModeOf(h, r).Ephemeral?
    requires r in ls.allweak ==> Waits(h, r)
    ensures KeepsAlive(h, h[r], ModeOf(h, r), MarkedSet(h))
  {
    MarkedInSet(h, h[r].meta);
    if r in ls.ephemeron {
      assert EntriesSettled(h, h[r]);
    }
  }

  /** `r` is in every strongly closed set that contains the roots. */
  ghost predicate Accessible(h: Heap, roots: set<Ref>, r: Ref) {
    forall m: iset<Ref> :: (forall q :: q in roots ==> q in m) && StronglyClosed(h, m) ==> r in m
  }

  // ---------- objects to be finalized ----------

  /** The objects of `s` that are (not) marked, in order. */
  ghost function Pick(h: Heap, s: seq<Ref>, marked: bool): seq<Ref> {
    if s == [] then []
    else Pick(h, s[..|s| - 1], marked) + if marked == IsMarked(h, To(s[|s| - 1])) then [s[|s| - 1]] else []
  }

  /** `separatetobefnz`: unmarked objects with finalizers go to the end of `tobefnz`, in order. */
  method SeparateToBeFnz(g: GlobalState)
    requires forall r :: r in g.finobj ==> r in g.objs
    modifies g`finobj, g`tobefnz
    ensures g.finobj == Pick(g.objs, old(g.finobj), true)
    ensures g.tobefnz == old(g.tobefnz) + Pick(g.objs, old(g.finobj), false)
  {
    ghost var fin, fnz := g.finobj, g.tobefnz;
    var p := 0;
    ghost var n := 0;
    while p < |g.finobj|
      invariant 0 <= p <= |g.finobj| && n <= |fin| && g.finobj[p..] == fin[n..]
      invariant g.finobj[..p] == Pick(g.objs, fin[..n], true)
      invariant g.tobefnz == fnz + Pick(g.objs, fin[..n], false)
      decreases |fin| - n
    {
      var curr := g.finobj[p];
      assert fin[n] == g.finobj[p..][0];
      assert fin[..n + 1][..n] == fin[..n];
      if !g.objs[curr].color.White? {
        p := p + 1;
      } else {
        g.finobj := g.finobj[..p] + g.finobj[p + 1..];
        g.tobefnz := g.tobefnz + [curr];
      }
      n := n + 1;
    }
    assert fin[..n] == fin;
    assert g.finobj[..p] == g.finobj;
  }

  lemma PickMembers(h: Heap, s: seq<Ref>, marked: bool)
    requires forall r :: r in s ==> r in h
    ensures forall r :: r in Pick(h, s, marked) <==> r in s && marked == !h[r].color.White?
  {
    if s != [] {
      PickMembers(h, s[..|s| - 1], marked);
      assert s == s[..|s| - 1] + [s[|s| - 1]];
    }
  }

  ghost predicate NoBlackTables(h: Heap) {
    forall r :: r in h && h[r].kind.Table? ==> !h[r].color.Black?
  }

  /** Tables get black by a traversal only. */
  lemma TablesGray(h: Heap, gr: seq<Ref>, h': Heap, gr': seq<Ref>)
    requires Grows(h, gr, h', gr', -1)
    ensures NoBlackTables(h) ==> NoBlackTables(h')
  {
    forall r | NoBlackTables(h) && r in h' && h'[r].kind.Table? ensures !h'[r].color.Black? {
      assert MarksAt(h, h', -1, r);
    }
  }

  /** `markbeingfnz`, `markmt`: marks every slot of a list. */
  method MarkEach(g: GlobalState, s: seq<Slot>, ghost ls: Lists)
    requires TriColor(g.objs, ls) && ls.gray == g.gray && ls.bound == g.bound
    requires forall i :: 0 <= i < |s| ==> InHeap(g.objs, s[i]) && InSet(g.bound, s[i])
    modifies g`objs, g`gray
    ensures TriColor(g.objs, ls.(gray := g.gray)) && Onward(old(g.objs), g.objs, {}) && MarkedUpTo(g.objs, s, |s|)
    ensures |old(g.gray)| <= |g.gray| && (NoBlackTables(old(g.objs)) ==> NoBlackTables(g.objs))
  {
    hide TriColor, Onward, MarkedUpTo, Grows, InSet, Bounded, NoBlackTables;
    ghost var h0 := g.objs;
    OnwardSame(h0, {});
    NoneMarked(h0, s);
    var i := 0;
    while i < |s|
      invariant 0 <= i <= |s| && TriColor(g.objs, ls.(gray := g.gray)) && Onward(h0, g.objs, {}) && MarkedUpTo(g.objs, s, i)
      invariant |old(g.gray)| <= |g.gray| && (NoBlackTables(h0) ==> NoBlackTables(g.objs))
    {
      ghost var h, gr := g.objs, g.gray;
      SlotThere(h0, h, s[i], ls.(gray := gr));
      MarkSlot(g, s[i]);
      MarkingKeeps(h, ls.(gray := gr), g.objs, g.gray);
      OneMoreMarked(h0, h, gr, g.objs, g.gray, s, i);
      TablesGray(h, gr, g.objs, g.gray);
      i := i + 1;
    }
  }

  method MarkAll(g: GlobalState, s: seq<Slot>, ghost todo: seq<Ref>)
    requires Invariant(g, todo) && forall i :: 0 <= i < |s| ==> InHeap(g.objs, s[i]) && InSet(g.bound, s[i])
    modifies g`objs, g`gray
    ensures Invariant(g, todo) && Onward(old(g.objs), g.objs, {}) && MarkedUpTo(g.objs, s, |s|)
  {
    hide TriColor, InSet;
    MarkEach(g, s, ListsOf(g, todo));
  }

  lemma SlotThere(h0: Heap, h: Heap, s: Slot, ls: Lists)
    requires Onward(h0, h, {}) && InHeap(h0, s) && TriColor(h, ls)
    ensures WellFormed(h) && InHeap(h, s) && Bounded(h, ls.bound)
  {
  }

  lemma OneMoreMarked(h0: Heap, h: Heap, gr: seq<Ref>, h': Heap, gr': seq<Ref>, s: seq<Slot>, i: nat)
    requires Onward(h0, h, {}) && Grows(h, gr, h', gr', -1) && MarkedUpTo(h, s, i) && i < |s| && IsMarked(h', s[i])
    ensures Onward(h0, h', {}) && MarkedUpTo(h', s, i + 1) && |gr| <= |gr'|
  {
    MarksOnward(h, h', -1);
    OnwardOn(h0, h, h', {}, {});
    MarkedUpToStays(h, h', -1, s, i);
  }

  // ---------- the atomic phase ----------

  /** Values (and array parts) of the listed tables are marked. */
  ghost predicate ContentsMarked(h: Heap, l: seq<Ref>) {
    forall r :: r in l ==> r in h && ArrayMarked(h, h[r]) && ValsMarked(h, h[r])
  }

  ghost predicate ListKeysMarked(h: Heap, l: seq<Ref>) {
    forall r :: r in l ==> r in h && KeysMarked(h, h[r])
  }

  lemma ContentsStay(h: Heap, h': Heap, w: set<Ref>, l: seq<Ref>)
    requires Onward(h, h', w)
    ensures ContentsMarked(h, l) ==> ContentsMarked(h', l)
    ensures ListKeysMarked(h, l) ==> ListKeysMarked(h', l)
  {
    forall r | r in l && r in h ensures r in h' && (ArrayMarked(h, h[r]) ==> ArrayMarked(h', h'[r])) && (ValsMarked(h, h[r]) ==> ValsMarked(h', h'[r]))
                                        && (KeysMarked(h, h[r]) ==> KeysMarked(h', h'[r])) {
      OnwardKeeps(h, h', w, r);
    }
  }

  lemma GoneContents(h0: Heap, h: Heap, l: seq<Ref>)
    requires GoneUpTo(h0, h, l, |l|, false)
    ensures ContentsMarked(h, l)
  {
    forall r | r in l ensures r in h && ArrayMarked(h, h[r]) && ValsMarked(h, h[r]) {
      var i :| 0 <= i < |l| && l[i] == r;
      assert Gone(h0, h, l[i], false);
    }
  }

  lemma GoneKeys(h0: Heap, h: Heap, l: seq<Ref>)
    requires GoneUpTo(h0, h, l, |l|, true)
    ensures ListKeysMarked(h, l)
    ensures AllEntriesSettled(h0, l) && Onward(h0, h, Members(l)) ==> forall r :: r in l ==> r in h && ValsMarked(h, h[r])
  {
    forall r | r in l ensures r in h && KeysMarked(h, h[r]) && (AllEntriesSettled(h0, l) && Onward(h0, h, Members(l)) ==> ValsMarked(h, h[r])) {
      var i :| 0 <= i < |l| && l[i] == r;
      assert Gone(h0, h, l[i], true);
      if AllEntriesSettled(h0, l) && Onward(h0, h, Members(l)) {
        EntriesGone(h0, h, Members(l), r);
      }
    }
  }

  lemma EntriesGone(h0: Heap, h: Heap, w: set<Ref>, r: Ref)
    requires r in h0 && r in h && KeysGone(h0, h, r) && EntriesSettled(h0, h0[r]) && Onward(h0, h, w)
    ensures ValsMarked(h, h[r])
  {
    forall i | 0 <= i < |h[r].nodes| ensures IsMarked(h, h[r].nodes[i].val) {
      if IsMarked(h0, h0[r].nodes[i].val) {
        OnwardMarked(h0, h, w, h0[r].nodes[i].val);
      }
    }
  }

  /** Any stretch of the weak lists can be cleared. */
  lemma SliceToClear(h: Heap, ls: Lists, k: nat, l: seq<Ref>)
    requires TriColor(h, ls) && k + |l| <= |AllLists(ls)| && l == AllLists(ls)[k..k + |l|]
    requires forall r :: r in l ==> r in ls.weak || r in ls.allweak || r in ls.ephemeron
    ensures ToClear(h, l)
  {
    hide AllLists;
    var a := AllLists(ls);
    forall i | 0 <= i < |l| ensures Queued(h, l[i]) && h[l[i]].kind.Table? {
      assert l[i] == a[k + i] && a[k + i] in a && l[i] in l;
    }
    forall i, j | 0 <= i < j < |l| ensures l[i] != l[j] {
      assert a[k + i] != a[k + j];
    }
  }

  /** Nothing marked refers to anything unmarked. */
  ghost predicate AllComplete(h: Heap) {
    forall r :: r in h && !h[r].color.White? ==> Complete(h, h[r])
  }

  /** When all waiting tables have been cleared, the marked objects are closed under all references. */
  lemma ClearedIsComplete(h: Heap, ls: Lists)
    requires TriColor(h, ls) && ls.gray == [] && ls.todo == []
    requires ContentsMarked(h, ls.weak) && ContentsMarked(h, ls.allweak) && ListKeysMarked(h, ls.allweak) && Waiting(h, ls.allweak)
    requires ListKeysMarked(h, ls.ephemeron) && forall r :: r in ls.ephemeron ==> r in h && ValsMarked(h, h[r])
    ensures AllComplete(h)
  {
    forall r | r in h && h[r].color.Gray? ensures Complete(h, h[r]) {
      assert CoveredAt(h, ls, r) && Settled(h, ls, r) && WellFormedAt(h, r) && (r in ls.allweak ==> Waits(h, r));
    }
  }

  /** Tables wait in the lists of their modes. */
  ghost predicate WeakModes(h: Heap, ls: Lists) {
    && (forall r :: r in ls.weak ==> r in h && ModeOf(h, r).WeakValues?)
    && (forall r :: r in ls.ephemeron ==> r in h && ModeOf(h, r).Ephemeral?)
  }

  lemma WeakModesStay(h: Heap, h': Heap, ls: Lists, ls': Lists)
    requires WeakModes(h, ls) && Onward(h, h', {}) && WeakPushed(h', ls, ls')
    ensures WeakModes(h', ls')
  {
    ModesStay(h, h', {WeakValues}, ls.weak, ls'.weak, WeakValues);
    ModesStay(h, h', {Ephemeral}, ls.ephemeron, ls'.ephemeron, Ephemeral);
  }

  lemma ModesStay(h: Heap, h': Heap, ms: set<Mode>, s: seq<Ref>, s': seq<Ref>, m: Mode)
    requires Onward(h, h', {}) && Pushed(h', ms, s, s') && ms == {m} && forall r :: r in s ==> r in h && ModeOf(h, r) == m
    ensures forall r :: r in s' ==> r in h' && ModeOf(h', r) == m
  {
    assert s' == s'[..|s'| - |s|] + s;
    forall r | r in s' ensures r in h' && ModeOf(h', r) == m {
      if r in s {
        OnwardMode(h, h', {}, r);
      }
    }
  }

  /** What must survive whatever happens: the threads, the registry and the metatables of basic types. */
  ghost predicate RootsMarked(g: GlobalState)
    reads g`objs, g`running, g`roots
  {
    && IsMarked(g.objs, To(g.running))
    && IsMarked(g.objs, To(g.mainthread))
    && MarkedUpTo(g.objs, g.roots, |g.roots|)
  }

  ghost predicate RootsInHeap(g: GlobalState)
    reads g`objs, g`running, g`roots
  {
    g.running in g.objs && g.mainthread in g.objs && forall i :: 0 <= i < |g.roots| ==> InHeap(g.objs, g.roots[i])
  }

  /** The roots are in the bound for what may be reached. */
  ghost predicate RootsWithin(g: GlobalState)
    reads g`bound, g`running, g`roots
  {
    g.running in g.bound && forall i :: 0 <= i < |g.roots| ==> InSet(g.bound, g.roots[i])
  }

  ghost function RootSet(g: GlobalState): set<Ref>
    reads g`running, g`roots
  {
    {g.running, g.mainthread} + set i | 0 <= i < |g.roots| && g.roots[i].To? :: g.roots[i].r
  }

  lemma RootsStay(h: Heap, h': Heap, w: set<Ref>, s: seq<Slot>)
    requires Onward(h, h', w)
    ensures MarkedUpTo(h, s, |s|) ==> MarkedUpTo(h', s, |s|)
  {
    forall i | 0 <= i < |s| && IsMarked(h, s[i]) ensures IsMarked(h', s[i]) {
      OnwardMarked(h, h', w, s[i]);
    }
  }

  /** `atomic` up to `markmt`: the roots are marked. */
  method AtomicStart(g: GlobalState)
    requires g.gcstate == GCSatomic && Invariant(g, []) && g.gray == [] && RootsInHeap(g) && IsMarked(g.objs, To(g.mainthread))
    requires WeakModes(g.objs, ListsOf(g, [])) && RootsWithin(g)
    modifies g`gcstate, g`objs, g`gray
    ensures g.gcstate == GCSinsideatomic && Invariant(g, g.grayagain) && Onward(old(g.objs), g.objs, {})
    ensures RootsMarked(g) && WeakModes(g.objs, ListsOf(g, g.grayagain))
  {
    hide TriColor, Onward, MarkedUpTo, WeakModes, InSet;
    ghost var h0 := g.objs;
    g.gcstate := GCSinsideatomic;
    RootSlots(g);
    MarkAll(g, [To(g.running)] + g.roots, g.grayagain);
    RootsSplit(h0, g.objs, g.running, g.mainthread, g.roots);
    WeakModesSame(h0, g.objs, old(ListsOf(g, [])), ListsOf(g, g.grayagain));
  }

  /** `atomic` up to the traversal of the old `grayagain` list. */
  method AtomicRoots(g: GlobalState)
    requires g.gcstate == GCSatomic && Invariant(g, []) && g.gray == [] && RootsInHeap(g) && IsMarked(g.objs, To(g.mainthread))
    requires WeakModes(g.objs, ListsOf(g, [])) && RootsWithin(g)
    modifies g`gcstate, g`objs, g`gray, g`grayagain, g`weak, g`allweak, g`ephemeron
    ensures g.gcstate == GCSinsideatomic && Invariant(g, []) && Onward(old(g.objs), g.objs, {})
    ensures RootsMarked(g) && WeakModes(g.objs, ListsOf(g, [])) && WaitsPushed(g.objs, old(g.allweak), g.allweak)
  {
    hide TriColor, Onward, MarkedUpTo, Pushed, WeakModes, WeakPushed, WaitsPushed, RootsInHeap, RootsWithin;
    ghost var h0 := g.objs;
    AtomicStart(g);
    var grayagain := g.grayagain;
    ghost var h1, ls1 := g.objs, ListsOf(g, grayagain);
    PropagateAll(g, grayagain);
    ghost var h2, ls2 := g.objs, ListsOf(g, grayagain);
    g.gray := grayagain;
    ghost var ls3 := ListsOf(g, []);
    TodoToGray(h2, ls2, ls3);
    WeakPushedSameLists(h2, ls1, ls2, ls3);
    WeakModesStay(h1, h2, ls1, ls3);
    OnwardOn(h0, h1, h2, {}, {});
    RootsStill(h1, h2, {}, g);
  }

  /** The first part of `atomic`: everything strongly accessible gets marked. */
  method AtomicMark(g: GlobalState)
    requires g.gcstate == GCSatomic && Invariant(g, []) && g.gray == [] && RootsInHeap(g) && IsMarked(g.objs, To(g.mainthread))
    requires WeakModes(g.objs, ListsOf(g, [])) && RootsWithin(g)
    modifies g`gcstate, g`objs, g`gray, g`grayagain, g`weak, g`allweak, g`ephemeron
    ensures g.gcstate == GCSinsideatomic && Invariant(g, []) && g.gray == [] && Onward(old(g.objs), g.objs, {})
    ensures RootsMarked(g) && WeakModes(g.objs, ListsOf(g, [])) && AllEntriesSettled(g.objs, g.ephemeron)
    ensures WaitsPushed(g.objs, old(g.allweak), g.allweak)
  {
    hide TriColor, Onward, MarkedUpTo, AllEntriesSettled, Pushed, WeakModes, WeakPushed, WaitsPushed, RootsWithin;
    ghost var h0 := g.objs;
    AtomicRoots(g);
    ghost var h2, ls3 := g.objs, ListsOf(g, []);
    PropagateAll(g, []);
    ghost var h4, ls4 := g.objs, ListsOf(g, []);
    WeakModesStay(h2, h4, ls3, ls4);
    EphemeralMode(h4, ls4);
    ConvergeEphemerons(g);
    OnwardOn(h2, h4, g.objs, {}, {});
    OnwardOn(h0, h2, g.objs, {}, {});
    RootsStill(h2, g.objs, {}, g);
    ModesAfterConverge(h4, g.objs, ls4, ListsOf(g, []));
    WaitsAfter(h2, h4, g.objs, old(g.allweak), ls3, ls4, g.allweak);
  }

  lemma WaitsAfter(h2: Heap, h4: Heap, h5: Heap, all0: seq<Ref>, ls3: Lists, ls4: Lists, all: seq<Ref>)
    requires WaitsPushed(h2, all0, ls3.allweak) && Onward(h2, h4, {}) && WeakPushed(h4, ls3, ls4) && Onward(h4, h5, {}) && WaitsPushed(h5, ls4.allweak, all)
    ensures WaitsPushed(h5, all0, all)
  {
    WaitsPushedOn(h2, h4, {}, all0, ls3.allweak, ls4.allweak);
    WaitsPushedOn(h4, h5, {}, all0, ls4.allweak, all);
  }

  lemma RootSlots(g: GlobalState)
    requires RootsInHeap(g) && RootsWithin(g)
    ensures forall i :: 0 <= i < 1 + |g.roots| ==> InHeap(g.objs, ([To(g.running)] + g.roots)[i]) && InSet(g.bound, ([To(g.running)] + g.roots)[i])
  {
  }

  lemma RootsSplit(h0: Heap, h1: Heap, running: Ref, main: Ref, roots: seq<Slot>)
    requires MarkedUpTo(h1, [To(running)] + roots, 1 + |roots|) && Onward(h0, h1, {}) && IsMarked(h0, To(main))
    ensures IsMarked(h1, To(running)) && MarkedUpTo(h1, roots, |roots|) && IsMarked(h1, To(main))
  {
    var all := [To(running)] + roots;
    assert IsMarked(h1, all[0]);
    forall i | 0 <= i < |roots| ensures IsMarked(h1, roots[i]) {
      assert all[i + 1] == roots[i];
    }
    OnwardMarked(h0, h1, {}, To(main));
  }

  lemma WeakModesSame(h0: Heap, h1: Heap, ls: Lists, ls1: Lists)
    requires WeakModes(h0, ls) && Onward(h0, h1, {}) && ls1.weak == ls.weak && ls1.ephemeron == ls.ephemeron && ls1.allweak == ls.allweak
    ensures WeakModes(h1, ls1)
  {
    forall r | r in ls.weak || r in ls.ephemeron ensures r in h1 && ModeOf(h1, r) == ModeOf(h0, r) {
      OnwardMode(h0, h1, {}, r);
    }
  }

  lemma TodoToGray(h: Heap, ls2: Lists, ls3: Lists)
    requires TriColor(h, ls2) && ls2.gray == [] && ls3 == ls2.(gray := ls2.todo, todo := [])
    ensures TriColor(h, ls3)
  {
    assert ls2.gray + ls2.todo == ls2.todo + [];
    assert AllLists(ls3) == AllLists(ls2);
    forall r | r in h ensures CoveredAt(h, ls3, r) {
      assert CoveredAt(h, ls2, r);
    }
  }

  lemma WeakPushedSameLists(h: Heap, ls1: Lists, ls2: Lists, ls3: Lists)
    requires WeakPushed(h, ls1, ls2) && ls3 == ls2.(gray := ls3.gray, todo := ls3.todo)
    ensures WeakPushed(h, ls1, ls3) && WaitsPushed(h, ls1.allweak, ls3.allweak)
  {
  }

  lemma EphemeralMode(h: Heap, ls: Lists)
    requires WeakModes(h, ls)
    ensures forall r :: r in ls.ephemeron ==> r in h && ModeOf(h, r).Ephemeral?
  {
  }

  lemma ModesAfterConverge(h: Heap, h': Heap, ls: Lists, ls': Lists)
    requires WeakModes(h, ls) && Onward(h, h', {}) && Pushed(h', {WeakValues}, ls.weak, ls'.weak)
    requires WaitsPushed(h', ls.allweak, ls'.allweak)
    requires forall r :: r in ls'.ephemeron ==> r in h' && ModeOf(h', r).Ephemeral?
    ensures WeakModes(h', ls')
  {
    ModesStay(h, h', {WeakValues}, ls.weak, ls'.weak, WeakValues);
  }

  function AsSlots(s: seq<Ref>): seq<Slot> {
    seq(|s|, i requires 0 <= i < |s| => To(s[i]))
  }

  /** `clearvalues` on the tables found weak so far, then `separatetobefnz`. */
  method AtomicClear(g: GlobalState)
    requires g.gcstate == GCSinsideatomic && Invariant(g, []) && g.gray == [] && RootsMarked(g) && WeakModes(g.objs, ListsOf(g, []))
    requires forall r :: r in g.finobj || r in g.tobefnz ==> r in g.objs
    requires forall r :: r in g.finobj ==> !g.objs[r].kind.Str?
    modifies g`objs, g`gray, g`finobj, g`tobefnz
    ensures Invariant(g, []) && g.gray == [] && Onward(old(g.objs), g.objs, Members(g.weak) + Members(g.allweak))
    ensures RootsMarked(g) && WeakModes(g.objs, ListsOf(g, []))
    ensures ContentsMarked(g.objs, g.weak) && ContentsMarked(g.objs, g.allweak)
    ensures g.finobj == Pick(old(g.objs), old(g.finobj), true) && g.tobefnz == old(g.tobefnz) + Pick(old(g.objs), old(g.finobj), false)
    ensures forall r :: r in g.tobefnz ==> r in g.objs
    ensures ValuesLeft(old(g.objs), MarkedSet(old(g.objs)), old(g.objs), g.objs, Members(g.weak) + Members(g.allweak))
  {
    hide TriColor, Onward, MarkedUpTo, WeakModes, GoneUpTo, ToClear, ContentsMarked, ClearsAll, Members, Pick, ValuesLeft, KeysLeft, SameDropped;
    ghost var h0, w := g.objs, Members(g.weak) + Members(g.allweak);
    ListToClear(h0, ListsOf(g, []));
    ClearList(g, g.weak, false);
    ghost var h1 := g.objs;
    GoneContents(h0, h1, g.weak);
    ListToClear(h1, ListsOf(g, []));
    ClearList(g, g.allweak, false);
    ghost var h2 := g.objs;
    GoneContents(h1, h2, g.allweak);
    ContentsStay(h1, h2, Members(g.allweak), g.weak);
    SameValues(h0, h1, h1, h2, Members(g.allweak));
    ValuesLeftOn(h0, MarkedSet(h0), h0, h1, h2, Members(g.weak), Members(g.allweak));
    WiderOnward(h0, h1, h2, Members(g.weak), Members(g.allweak));
    ModesAfterClear(h0, h2, w, ListsOf(g, []));
    RootsStill(h0, h2, w, g);
    SeparateToBeFnz(g) by { FinobjThere(h0, h2, w, g.finobj); }
    PickClears(h0, h1, h2, Members(g.weak), Members(g.allweak), old(g.finobj));
    FinobjThere(h0, h2, w, old(g.tobefnz));
    PickThere(h0, h2, w, old(g.finobj));
  }

  /** `markbeingfnz` and `propagateall`. */
  method AtomicFnz(g: GlobalState)
    requires g.gcstate == GCSinsideatomic && Invariant(g, []) && g.gray == [] && RootsMarked(g) && WeakModes(g.objs, ListsOf(g, []))
    requires forall r :: r in g.tobefnz ==> r in g.objs && r in g.bound
    modifies g`objs, g`gray, g`grayagain, g`weak, g`allweak, g`ephemeron
    ensures Invariant(g, []) && g.gray == [] && Onward(old(g.objs), g.objs, {})
    ensures WeakModes(g.objs, ListsOf(g, [])) && WeakPushed(g.objs, old(ListsOf(g, [])), ListsOf(g, []))
    ensures forall r :: r in g.tobefnz ==> IsMarked(g.objs, To(r))
  {
    hide TriColor, Onward, MarkedUpTo, WeakModes, WeakPushed, RootsMarked;
    ghost var h2, ls2 := g.objs, ListsOf(g, []);
    FnzSlots(h2, g.tobefnz, g.bound);
    MarkAll(g, AsSlots(g.tobefnz), []);
    ghost var h3, ls3 := g.objs, ListsOf(g, []);
    WeakModesSame(h2, h3, ls2, ls3);
    FnzMarked(h3, g.tobefnz);
    PropagateAll(g, []);
    WeakModesStay(h3, g.objs, ls3, ListsOf(g, []));
    OnwardOn(h2, h3, g.objs, {}, {});
    FnzStay(h3, g.objs, g.tobefnz);
    WeakPushedFrom(g.objs, ls2, ls3, ListsOf(g, []));
  }

  lemma FnzSlots(h: Heap, fnz: seq<Ref>, m: iset<Ref>)
    requires forall r :: r in fnz ==> r in h && r in m
    ensures forall i :: 0 <= i < |AsSlots(fnz)| ==> InHeap(h, AsSlots(fnz)[i]) && InSet(m, AsSlots(fnz)[i])
  {
    forall i | 0 <= i < |fnz| ensures InHeap(h, AsSlots(fnz)[i]) && InSet(m, AsSlots(fnz)[i]) {
      assert fnz[i] in fnz;
    }
  }

  lemma WeakPushedFrom(h: Heap, ls2: Lists, ls3: Lists, ls4: Lists)
    requires WeakPushed(h, ls3, ls4) && ls2.weak == ls3.weak && ls2.allweak == ls3.allweak && ls2.ephemeron == ls3.ephemeron
    ensures WeakPushed(h, ls2, ls4)
  {
  }

  /** The same with `convergeephemerons`. */
  method AtomicRemark(g: GlobalState)
    requires g.gcstate == GCSinsideatomic && Invariant(g, []) && g.gray == [] && RootsMarked(g) && WeakModes(g.objs, ListsOf(g, []))
    requires forall r :: r in g.tobefnz ==> r in g.objs && r in g.bound
    modifies g`objs, g`gray, g`grayagain, g`weak, g`allweak, g`ephemeron
    ensures Invariant(g, []) && g.gray == [] && Onward(old(g.objs), g.objs, {})
    ensures RootsMarked(g) && WeakModes(g.objs, ListsOf(g, [])) && AllEntriesSettled(g.objs, g.ephemeron)
    ensures Pushed(g.objs, {WeakValues}, old(g.weak), g.weak) && WaitsPushed(g.objs, old(g.allweak), g.allweak)
    ensures forall r :: r in g.tobefnz ==> IsMarked(g.objs, To(r))
  {
    hide TriColor, Onward, MarkedUpTo, AllEntriesSettled, Pushed, WeakModes, WeakPushed, WaitsPushed;
    ghost var h2, ls2 := g.objs, ListsOf(g, []);
    AtomicFnz(g);
    ghost var h4, ls4 := g.objs, ListsOf(g, []);
    EphemeralMode(h4, ls4);
    ConvergeEphemerons(g);
    ModesAfterConverge(h4, g.objs, ls4, ListsOf(g, []));
    OnwardOn(h2, h4, g.objs, {}, {});
    FnzStay(h4, g.objs, g.tobefnz);
    RootsStill(h2, g.objs, {}, g);
    PushedTwice(h4, g.objs, ls2, ls4, ListsOf(g, []));
  }

  /** A wider bound: everything. */
  lemma Widened(h: Heap, ls: Lists)
    requires TriColor(h, ls)
    ensures TriColor(h, ls.(bound := Everything()))
  {
    Unconfined(h, ls.(bound := Everything()));
    assert AllLists(ls.(bound := Everything())) == AllLists(ls);
    hide Confined;
    forall r | r in h ensures CoveredAt(h, ls.(bound := Everything()), r) {
      assert CoveredAt(h, ls, r);
    }
  }

  /** Objects to be finalized are reached too. */
  ghost predicate FnzWithin(g: GlobalState)
    reads g`tobefnz, g`bound
  {
    forall r :: r in g.tobefnz ==> r in g.bound
  }

  /** The middle part: clear the values of weak tables, then mark what is going to be finalized. */
  method AtomicResurrect(g: GlobalState)
    requires g.gcstate == GCSinsideatomic && Invariant(g, []) && g.gray == [] && RootsMarked(g) && WeakModes(g.objs, ListsOf(g, []))
    requires forall r :: r in g.finobj || r in g.tobefnz ==> r in g.objs
    requires forall r :: r in g.finobj ==> !g.objs[r].kind.Str?
    modifies g`objs, g`gray, g`grayagain, g`weak, g`allweak, g`ephemeron, g`finobj, g`tobefnz, g`bound
    ensures Invariant(g, []) && g.gray == [] && Onward(old(g.objs), g.objs, Members(old(g.weak)) + Members(old(g.allweak)))
    ensures RootsMarked(g) && WeakModes(g.objs, ListsOf(g, [])) && AllEntriesSettled(g.objs, g.ephemeron)
    ensures ContentsMarked(g.objs, old(g.weak)) && ContentsMarked(g.objs, old(g.allweak))
    ensures Pushed(g.objs, {WeakValues}, old(g.weak), g.weak) && WaitsPushed(g.objs, old(g.allweak), g.allweak)
    ensures g.finobj == Pick(old(g.objs), old(g.finobj), true) && g.tobefnz == old(g.tobefnz) + Pick(old(g.objs), old(g.finobj), false)
    ensures forall r :: r in g.tobefnz ==> IsMarked(g.objs, To(r))
    ensures (forall r :: r in g.tobefnz ==> r in old(g.bound)) ==> g.bound == old(g.bound)
    ensures ValuesLeft(old(g.objs), MarkedSet(old(g.objs)), old(g.objs), g.objs, Members(old(g.weak)) + Members(old(g.allweak)))
  {
    hide TriColor, Onward, MarkedUpTo, AllEntriesSettled, Pushed, WeakModes, ContentsMarked, Members, Pick, RootsMarked, WaitsPushed, ValuesLeft;
    ghost var h0 := g.objs;
    AtomicClear(g);
    ghost var h2, ls2 := g.objs, ListsOf(g, []);
    Widened(h2, ls2);
    if !FnzWithin(g) {
      g.bound := Everything();
    }
    assert ListsOf(g, []) == ls2.(bound := g.bound);
    SameModesWider(h2, g.bound, ls2);
    AtomicRemark(g);
    ContentsStay(h2, g.objs, {}, g.weak);
    ContentsStay(h2, g.objs, {}, old(g.weak));
    ContentsStay(h2, g.objs, {}, old(g.allweak));
    OnwardThen(h0, h2, g.objs, Members(old(g.weak)) + Members(old(g.allweak)));
    ValuesThenMarks(h0, MarkedSet(h0), h0, h2, g.objs, Members(old(g.weak)) + Members(old(g.allweak)));
  }

  lemma SameModesWider(h: Heap, m: iset<Ref>, ls: Lists)
    requires WeakModes(h, ls)
    ensures WeakModes(h, ls.(bound := m))
  {
  }

  lemma WeakToClear(h: Heap, ls: Lists, n: nat)
    requires TriColor(h, ls) && n <= |ls.weak|
    ensures ToClear(h, ls.weak[..n])
  {
    var k := |ls.gray + ls.todo|;
    assert AllLists(ls)[k..k + n] == ls.weak[..n];
    SliceToClear(h, ls, k, ls.weak[..n]);
  }

  lemma AllWeakToClear(h: Heap, ls: Lists, n: nat)
    requires TriColor(h, ls) && n <= |ls.allweak|
    ensures ToClear(h, ls.allweak[..n])
  {
    var k := |ls.gray + ls.todo + ls.weak|;
    assert AllLists(ls)[k..k + n] == ls.allweak[..n];
    SliceToClear(h, ls, k, ls.allweak[..n]);
  }

  lemma ListToClear(h: Heap, ls: Lists)
    requires TriColor(h, ls)
    ensures ToClear(h, ls.weak) && ToClear(h, ls.allweak) && ToClear(h, ls.ephemeron)
  {
    assert ls.weak == ls.weak[..|ls.weak|] && ls.allweak == ls.allweak[..|ls.allweak|];
    WeakToClear(h, ls, |ls.weak|);
    AllWeakToClear(h, ls, |ls.allweak|);
    var k := |ls.gray + ls.todo + ls.weak + ls.allweak|;
    assert AllLists(ls)[k..k + |ls.ephemeron|] == ls.ephemeron;
    SliceToClear(h, ls, k, ls.ephemeron);
  }

  lemma OnwardMore(h: Heap, h': Heap, w: set<Ref>, w': set<Ref>)
    requires Onward(h, h', w) && w <= w'
    ensures Onward(h, h', w')
  {
    OnwardSame(h', w');
    OnwardOn(h, h', h', w, w');
  }

  lemma WiderOnward(h0: Heap, h1: Heap, h2: Heap, a: set<Ref>, b: set<Ref>)
    requires Onward(h0, h1, a) && Onward(h1, h2, b)
    ensures Onward(h0, h2, a + b)
  {
    OnwardMore(h0, h1, a, a + b);
    OnwardMore(h1, h2, b, a + b);
    OnwardOn(h0, h1, h2, a + b, a + b);
  }

  lemma OnwardThen(h0: Heap, h1: Heap, h2: Heap, w: set<Ref>)
    requires Onward(h0, h1, w) && Onward(h1, h2, {})
    ensures Onward(h0, h2, w)
  {
    OnwardMore(h1, h2, {}, w);
    OnwardOn(h0, h1, h2, w, w);
  }

  lemma ModesAfterClear(h: Heap, h': Heap, w: set<Ref>, ls: Lists)
    requires WeakModes(h, ls) && Onward(h, h', w)
    ensures WeakModes(h', ls)
  {
    forall r | r in ls.weak || r in ls.ephemeron ensures r in h' && ModeOf(h', r) == ModeOf(h, r) {
      OnwardMode(h, h', w, r);
    }
  }

  lemma RootsStill(h: Heap, h': Heap, w: set<Ref>, g: GlobalState)
    requires Onward(h, h', w) && h' == g.objs
    requires IsMarked(h, To(g.running)) && IsMarked(h, To(g.mainthread)) && MarkedUpTo(h, g.roots, |g.roots|)
    ensures RootsMarked(g)
  {
    OnwardMarked(h, h', w, To(g.running));
    OnwardMarked(h, h', w, To(g.mainthread));
    RootsStay(h, h', w, g.roots);
  }

  lemma FinobjThere(h: Heap, h': Heap, w: set<Ref>, s: seq<Ref>)
    requires Onward(h, h', w) && forall r :: r in s ==> r in h
    ensures forall r :: r in s ==> r in h'
  {
  }

  /** Clearing marks no object with a finalizer: those are not strings. */
  lemma PickClears(h0: Heap, h1: Heap, h2: Heap, a: set<Ref>, b: set<Ref>, s: seq<Ref>)
    requires ClearsAll(h0, h1, a) && ClearsAll(h1, h2, b) && forall r :: r in s ==> r in h0 && !h0[r].kind.Str?
    ensures forall m :: Pick(h2, s, m) == Pick(h0, s, m)
  {
    if s != [] {
      PickClears(h0, h1, h2, a, b, s[..|s| - 1]);
      var r := s[|s| - 1];
      assert r in a ==> h1[r].color == h0[r].color && OnwardAt(h0, h1, a, r);
      assert r in b ==> h2[r].color == h1[r].color;
    }
  }

  lemma PickThere(h: Heap, h': Heap, w: set<Ref>, s: seq<Ref>)
    requires Onward(h, h', w) && forall r :: r in s ==> r in h
    ensures forall r, m :: r in Pick(h', s, m) ==> r in h'
  {
    FinobjThere(h, h', w, s);
    PickMembers(h', s, true);
    PickMembers(h', s, false);
  }

  lemma FnzMarked(h: Heap, s: seq<Ref>)
    requires MarkedUpTo(h, AsSlots(s), |s|)
    ensures forall r :: r in s ==> IsMarked(h, To(r))
  {
    var t := AsSlots(s);
    forall r | r in s ensures IsMarked(h, To(r)) {
      var i :| 0 <= i < |s| && s[i] == r;
      assert IsMarked(h, t[i]);
    }
  }

  lemma FnzStay(h: Heap, h': Heap, s: seq<Ref>)
    requires Onward(h, h', {}) && forall r :: r in s ==> IsMarked(h, To(r))
    ensures forall r :: r in s ==> IsMarked(h', To(r))
  {
    forall r | r in s ensures IsMarked(h', To(r)) {
      OnwardMarked(h, h', {}, To(r));
    }
  }

  lemma PushedTwice(h: Heap, h': Heap, a: Lists, b: Lists, c: Lists)
    requires WeakPushed(h, a, b) && Onward(h, h', {})
    requires Pushed(h', {WeakValues}, b.weak, c.weak) && WaitsPushed(h', b.allweak, c.allweak)
    ensures Pushed(h', {WeakValues}, a.weak, c.weak) && WaitsPushed(h', a.allweak, c.allweak)
  {
    PushedOn(h, h', {}, {WeakValues}, a.weak, b.weak, c.weak);
    WaitsPushedOn(h, h', {}, a.allweak, b.allweak, c.allweak);
  }

  // The rest: entries with unmarked keys go, and tables found weak since are cleared of values.

  lemma NewPart(h: Heap, ms: set<Mode>, s: seq<Ref>, s': seq<Ref>)
    requires Pushed(h, ms, s, s')
    ensures s' == s'[..|s'| - |s|] + s
  {
  }

  lemma NewWaits(h: Heap, s: seq<Ref>, s': seq<Ref>)
    requires WaitsPushed(h, s, s')
    ensures s' == s'[..|s'| - |s|] + s
  {
  }

  lemma ContentsJoin(h: Heap, a: seq<Ref>, b: seq<Ref>, s: seq<Ref>)
    requires s == a + b && ContentsMarked(h, a) && ContentsMarked(h, b)
    ensures ContentsMarked(h, s)
  {
  }

  ghost predicate ListValsMarked(h: Heap, l: seq<Ref>) {
    forall r :: r in l ==> r in h && ValsMarked(h, h[r])
  }

  lemma ListValsStay(h: Heap, h': Heap, w: set<Ref>, l: seq<Ref>)
    requires Onward(h, h', w) && ListValsMarked(h, l)
    ensures ListValsMarked(h', l)
  {
    forall r | r in l ensures r in h' && ValsMarked(h', h'[r]) {
      OnwardKeeps(h, h', w, r);
    }
  }

  /** `clearkeys` on the two lists of tables with weak keys. */
  method AtomicClearKeys(g: GlobalState)
    requires g.gcstate == GCSinsideatomic && Invariant(g, []) && g.gray == [] && AllEntriesSettled(g.objs, g.ephemeron)
    modifies g`objs, g`gray
    ensures Invariant(g, []) && g.gray == [] && Onward(old(g.objs), g.objs, Members(g.ephemeron) + Members(g.allweak))
    ensures ListKeysMarked(g.objs, g.ephemeron) && ListValsMarked(g.objs, g.ephemeron) && ListKeysMarked(g.objs, g.allweak)
    ensures KeysLeft(old(g.objs), MarkedSet(old(g.objs)), old(g.objs), g.objs, Members(g.ephemeron) + Members(g.allweak))
    ensures SameDropped(old(g.objs), g.objs)
  {
    hide TriColor, Onward, AllEntriesSettled, GoneUpTo, ToClear, ClearsAll, Members, ListKeysMarked, ValuesLeft, KeysLeft, SameDropped;
    ghost var h0 := g.objs;
    ListToClear(h0, ListsOf(g, []));
    ClearList(g, g.ephemeron, true);
    ghost var h1 := g.objs;
    GoneKeys(h0, h1, g.ephemeron);
    ListToClear(h1, ListsOf(g, []));
    ClearList(g, g.allweak, true);
    GoneKeys(h1, g.objs, g.allweak);
    ContentsStay(h1, g.objs, Members(g.allweak), g.ephemeron);
    ListValsStay(h1, g.objs, Members(g.allweak), g.ephemeron);
    SameValues(h0, h1, h1, g.objs, Members(g.allweak));
    KeysLeftOn(h0, MarkedSet(h0), h0, h1, g.objs, Members(g.ephemeron), Members(g.allweak));
    SameOn(h0, h1, g.objs);
    WiderOnward(h0, h1, g.objs, Members(g.ephemeron), Members(g.allweak));
  }

  /** `clearvalues(g, g->weak, origweak)` and the same for `allweak`. */
  method AtomicClearNew(g: GlobalState, origweak: seq<Ref>, origall: seq<Ref>)
    requires g.gcstate == GCSinsideatomic && Invariant(g, []) && g.gray == []
    requires |origweak| <= |g.weak| && |origall| <= |g.allweak|
    modifies g`objs, g`gray
    ensures Invariant(g, []) && g.gray == [] && Onward(old(g.objs), g.objs, Members(g.weak) + Members(g.allweak))
    ensures ContentsMarked(g.objs, g.weak[..|g.weak| - |origweak|]) && ContentsMarked(g.objs, g.allweak[..|g.allweak| - |origall|])
    ensures ValuesLeft(old(g.objs), MarkedSet(old(g.objs)), old(g.objs), g.objs,
                       Members(g.weak[..|g.weak| - |origweak|]) + Members(g.allweak[..|g.allweak| - |origall|]))
    ensures SameDropped(old(g.objs), g.objs)
  {
    hide TriColor, Onward, GoneUpTo, ToClear, ClearsAll, Members, ContentsMarked, ValuesLeft, KeysLeft, SameDropped;
    ghost var h0 := g.objs;
    var weak, all := g.weak[..|g.weak| - |origweak|], g.allweak[..|g.allweak| - |origall|];
    WeakToClear(h0, ListsOf(g, []), |weak|);
    ClearList(g, weak, false);
    ghost var h1 := g.objs;
    GoneContents(h0, h1, weak);
    AllWeakToClear(h1, ListsOf(g, []), |all|);
    ClearList(g, all, false);
    GoneContents(h1, g.objs, all);
    ContentsStay(h1, g.objs, Members(all), weak);
    SameValues(h0, h1, h1, g.objs, Members(all));
    ValuesLeftOn(h0, MarkedSet(h0), h0, h1, g.objs, Members(weak), Members(all));
    SameOn(h0, h1, g.objs);
    WiderOnward(h0, h1, g.objs, Members(weak), Members(all));
    PartMembers(weak, g.weak, all, g.allweak);
    OnwardMore(h0, g.objs, Members(weak) + Members(all), Members(g.weak) + Members(g.allweak));
  }

  lemma PartMembers(a: seq<Ref>, a': seq<Ref>, b: seq<Ref>, b': seq<Ref>)
    requires |a| <= |a'| && a == a'[..|a|] && |b| <= |b'| && b == b'[..|b|]
    ensures Members(a) + Members(b) <= Members(a') + Members(b')
  {
  }

  /** The last part: after it, nothing marked refers to anything unmarked. */
  method AtomicFinish(g: GlobalState, origweak: seq<Ref>, origall: seq<Ref>)
    requires g.gcstate == GCSinsideatomic && Invariant(g, []) && g.gray == [] && RootsMarked(g) && AllEntriesSettled(g.objs, g.ephemeron)
    requires ContentsMarked(g.objs, origweak) && ContentsMarked(g.objs, origall)
    requires Pushed(g.objs, {WeakValues}, origweak, g.weak) && WaitsPushed(g.objs, origall, g.allweak)
    modifies g`objs, g`gray
    ensures g.gray == [] && RootsMarked(g) && WellFormed(g.objs) && Bounded(g.objs, g.bound)
    ensures Waiting(old(g.objs), g.allweak) ==> AllComplete(g.objs)
    ensures Onward(old(g.objs), g.objs, Members(g.weak) + Members(g.allweak) + Members(g.ephemeron))
    ensures |origweak| <= |g.weak| && |origall| <= |g.allweak| && SameDropped(old(g.objs), g.objs)
    ensures BothLeft(old(g.objs), MarkedSet(old(g.objs)), old(g.objs), g.objs,
                     Members(g.weak[..|g.weak| - |origweak|]) + Members(g.allweak[..|g.allweak| - |origall|]), Members(g.ephemeron) + Members(g.allweak))
  {
    hide TriColor, Onward, AllEntriesSettled, ToClear, Members, ContentsMarked, ListKeysMarked, ListValsMarked, MarkedUpTo, AllComplete,
         Waiting, Pushed, WaitsPushed, Bounded, ValuesLeft, KeysLeft, BothLeft, SameDropped;
    ghost var h0, w := g.objs, Members(g.weak) + Members(g.allweak) + Members(g.ephemeron);
    NewPart(h0, {WeakValues}, origweak, g.weak);
    assert g.allweak == g.allweak[..|g.allweak| - |origall|] + origall by { NewWaits(h0, origall, g.allweak); }
    AtomicClearKeys(g);
    ghost var h1 := g.objs;
    AtomicClearNew(g, origweak, origall);
    ghost var h2 := g.objs;
    ghost var late := Members(g.weak[..|g.weak| - |origweak|]) + Members(g.allweak[..|g.allweak| - |origall|]);
    SameValues(h0, h1, h1, h2, late);
    KeysThenValuesLeft(h0, MarkedSet(h0), h0, h1, h2, late, Members(g.ephemeron) + Members(g.allweak));
    SameOn(h0, h1, h2);
    OnwardMore(h0, h1, Members(g.ephemeron) + Members(g.allweak), w);
    OnwardMore(h1, h2, Members(g.weak) + Members(g.allweak), w);
    OnwardOn(h0, h1, h2, w, w);
    ContentsStay(h0, h2, w, origweak);
    ContentsStay(h0, h2, w, origall);
    ContentsJoin(h2, g.weak[..|g.weak| - |origweak|], origweak, g.weak);
    ContentsJoin(h2, g.allweak[..|g.allweak| - |origall|], origall, g.allweak);
    ContentsStay(h1, h2, w, g.ephemeron);
    ContentsStay(h1, h2, w, g.allweak);
    ListValsStay(h1, h2, w, g.ephemeron);
    ValsListed(h2, g.ephemeron);
    if Waiting(h0, g.allweak) {
      WaitingOn(h0, h2, w, g.allweak);
      ClearedIsComplete(h2, ListsOf(g, []));
    }
    RootsStill(h0, h2, w, g);
    TriColorFormed(h2, ListsOf(g, []));
  }

  lemma ValsListed(h: Heap, l: seq<Ref>)
    requires ListValsMarked(h, l)
    ensures forall r :: r in l ==> r in h && ValsMarked(h, h[r])
  {
  }

  lemma TriColorFormed(h: Heap, ls: Lists)
    requires TriColor(h, ls)
    ensures WellFormed(h) && Bounded(h, ls.bound)
  {
  }

  // ---------- the whole atomic phase ----------

  /** What a strongly closed set must contain does not depend on colours, dead keys and caches. */
  lemma ClosedBefore(h: Heap, h': Heap, m: iset<Ref>)
    requires Onward(h, h', {}) && StronglyClosed(h', m)
    ensures StronglyClosed(h, m)
  {
    forall r | r in m && r in h ensures KeepsAlive(h, h[r], ModeOf(h, r), m) {
      assert r in h' && OnwardAt(h, h', {}, r) && KeepsAlive(h', h'[r], ModeOf(h', r), m);
      var o, o' := h[r], h'[r];
      assert o'.slots == o.slots;
      forall i | 0 <= i < |o.nodes| ensures o'.nodes[i].val == o.nodes[i].val && (!o.nodes[i].val.Empty? ==> o'.nodes[i].key == o.nodes[i].key) {
        assert NodeOnward(o.nodes[i], o'.nodes[i], false);
      }
      forall i | 0 <= i < |o.nodes| && IsString(h, o.nodes[i].key) ensures IsString(h', o.nodes[i].key) {
        assert OnwardAt(h, h', {}, o.nodes[i].key.r);
      }
      assert forall i :: 0 <= i < |o.nodes| && !o.nodes[i].val.Empty? ==> o'.nodes[i] == o.nodes[i];
    }
  }

  /** Everything strongly accessible from the roots is marked once marking has converged. */
  lemma AccessibleMarked(h0: Heap, h: Heap, ls: Lists, roots: set<Ref>, r: Ref)
    requires Onward(h0, h, {}) && TriColor(h, ls) && ls.gray == [] && ls.todo == [] && AllEntriesSettled(h, ls.ephemeron) && WeakModes(h, ls)
    requires Waiting(h, ls.allweak)
    requires forall q :: q in roots ==> IsMarked(h, To(q))
    requires Accessible(h0, roots, r)
    ensures r in h && !h[r].color.White?
  {
    AllWeakTables(h, ls);
    MarkedStronglyClosed(h, ls);
    ClosedBefore(h0, h, MarkedSet(h));
    assert forall q :: q in roots ==> q in MarkedSet(h);
  }

  lemma AllWeakTables(h: Heap, ls: Lists)
    requires WeakModes(h, ls) && TriColor(h, ls)
    ensures forall r :: r in ls.weak ==> r in h && ModeOf(h, r).WeakValues?
    ensures forall r :: r in ls.ephemeron ==> r in h && ModeOf(h, r).Ephemeral?
  {
  }

  lemma RootSetMarked(g: GlobalState)
    requires RootsMarked(g)
    ensures forall q :: q in RootSet(g) ==> IsMarked(g.objs, To(q))
  {
    forall q | q in RootSet(g) ensures IsMarked(g.objs, To(q)) {
      if q != g.running && q != g.mainthread {
        var i :| 0 <= i < |g.roots| && g.roots[i].To? && g.roots[i].r == q;
        assert IsMarked(g.objs, g.roots[i]);
      }
    }
  }

  /** Only tables with weak modes may have lost entries. */
  ghost predicate OnlyWeakLose(h: Heap, w: set<Ref>) {
    forall r :: r in w && r in h ==> !ModeOf(h, r).Strong?
  }

  lemma ListsWeak(h0: Heap, h: Heap, w0: set<Ref>, ls: Lists, w: set<Ref>)
    requires WeakModes(h, ls) && Waiting(h, ls.allweak) && Onward(h0, h, w0) && w == Members(ls.weak) + Members(ls.allweak) + Members(ls.ephemeron)
    ensures OnlyWeakLose(h0, w)
  {
    forall r | r in w && r in h0 ensures !ModeOf(h0, r).Strong? {
      OnwardMode(h0, h, w0, r);
    }
  }

  /** The heap keeps its objects; they change only in ways that do not matter to what is marked. */
  ghost predicate Survives(h0: Heap, h: Heap, roots: set<Ref>) {
    forall r :: Accessible(h0, roots, r) ==> r in h && !h[r].color.White?
  }

  /** What has become of the heap `h0` in the atomic phase, if the tables in `allweak` rightly waited there. */
  ghost predicate Collected(h0: Heap, h: Heap, roots: set<Ref>, w: set<Ref>) {
    AllComplete(h) && Survives(h0, h, roots) && OnlyWeakLose(h0, w)
  }

  // ---------- the entries that are gone ----------

  /** `r` is in one of the lists. */
  ghost predicate Listed(a: seq<Ref>, b: seq<Ref>, r: Ref) {
    r in Members(a) + Members(b)
  }

  /** The lists for tables with weak values have all the marked tables from which a value would go, and no others. */
  lemma ListedValues(h: Heap, ls: Lists, r: Ref)
    requires TriColor(h, ls) && ls.gray == [] && ls.todo == [] && WeakModes(h, ls) && Waiting(h, ls.allweak)
    requires r in h && !h[r].color.White?
    ensures Listed(ls.weak, ls.allweak, r) == WeakValued(ModeOf(h, r)) || NoValueDropped(h, MarkedSet(h), h[r])
  {
    assert WellFormedAt(h, r) && CoveredAt(h, ls, r);
    if r in ls.allweak {
      assert Waits(h, r);
    } else if r !in ls.weak {
      if h[r].color.Gray? {
        assert Settled(h, ls, r);
      }
    }
  }

  /** The same of the lists for tables with weak keys. */
  lemma ListedKeys(h: Heap, ls: Lists, r: Ref)
    requires TriColor(h, ls) && ls.gray == [] && ls.todo == [] && WeakModes(h, ls) && Waiting(h, ls.allweak)
    requires r in h && !h[r].color.White?
    ensures Listed(ls.ephemeron, ls.allweak, r) == WeakKeyed(ModeOf(h, r)) || NoKeyDropped(h, MarkedSet(h), h[r])
  {
    assert WellFormedAt(h, r) && CoveredAt(h, ls, r);
    if r in ls.allweak {
      assert Waits(h, r);
    } else if r !in ls.ephemeron {
      if h[r].color.Gray? {
        assert Settled(h, ls, r);
      }
    }
  }

  /** Tables listed before have been cleared already. */
  lemma ListedLate(h: Heap, ls: Lists, weak: seq<Ref>, all: seq<Ref>, r: Ref)
    requires TriColor(h, ls) && ls.gray == [] && ls.todo == [] && WeakModes(h, ls) && Waiting(h, ls.allweak)
    requires r in h && !h[r].color.White? && ContentsMarked(h, weak) && ContentsMarked(h, all)
    requires |weak| <= |ls.weak| && ls.weak[|ls.weak| - |weak|..] == weak && |all| <= |ls.allweak| && ls.allweak[|ls.allweak| - |all|..] == all
    ensures Listed(ls.weak[..|ls.weak| - |weak|], ls.allweak[..|ls.allweak| - |all|], r) == WeakValued(ModeOf(h, r))
            || NoValueDropped(h, MarkedSet(h), h[r])
  {
    hide TriColor, WeakModes, Waiting, WeakValued;
    ListedValues(h, ls, r);
    if r in weak || r in all {
      assert NoValueDropped(h, MarkedSet(h), h[r]);
    } else {
      assert ls.weak == ls.weak[..|ls.weak| - |weak|] + weak && ls.allweak == ls.allweak[..|ls.allweak| - |all|] + all;
    }
  }

  lemma ListedMarked(h: Heap, ls: Lists, r: Ref)
    requires TriColor(h, ls) && r in h
    ensures Listed(ls.weak, ls.allweak, r) ==> !h[r].color.White?
  {
    if Listed(ls.weak, ls.allweak, r) {
      assert r in AllLists(ls) && Queued(h, r);
    }
  }

  /** What the marking before the finalizers has reached: everything strongly accessible, and nothing outside the bound. */
  ghost predicate Reached(h: Heap, roots: set<Ref>, bound: iset<Ref>, m: iset<Ref>) {
    (forall r :: Accessible(h, roots, r) ==> r in m) && m <= bound
  }

  /** Exactly the entries are gone that some `m` reached before the finalizers, and the live objects `k`, decide. */
  ghost predicate EntriesGoneBy(h0: Heap, h: Heap, roots: set<Ref>, bound: iset<Ref>, k: iset<Ref>) {
    exists m: iset<Ref> :: Reached(h0, roots, bound, m) && m <= k && Purged(h0, h, m, k)
  }

  /** A marked object that was not marked before the last clearing is a string, and has no entries. */
  lemma LateString(h: Heap, h': Heap, r: Ref)
    requires SameDropped(h, h') && WellFormed(h) && r in h && r in h' && h[r].color.White? && !h'[r].color.White? && h.Keys == h'.Keys
    requires h'[r].kind == h[r].kind
    ensures NoValueDropped(h, MarkedSet(h'), h[r]) && NoKeyDropped(h, MarkedSet(h'), h[r])
  {
    assert Dropped(h', MarkedSet(h'), To(r)) == Dropped(h, MarkedSet(h), To(r));
    assert WellFormedAt(h, r);
  }

  /** One object, through all the passes. */
  lemma PassesAt(h1: Heap, h2: Heap, h3: Heap, ls1: Lists, ls2: Lists, w1: set<Ref>, w2: set<Ref>, r: Ref)
    requires TriColor(h1, ls1) && ls1.gray == [] && ls1.todo == [] && WeakModes(h1, ls1) && Waiting(h1, ls1.allweak)
    requires TriColor(h2, ls2) && ls2.gray == [] && ls2.todo == [] && WeakModes(h2, ls2) && Waiting(h2, ls2.allweak)
    requires |ls1.weak| <= |ls2.weak| && ls2.weak[|ls2.weak| - |ls1.weak|..] == ls1.weak
    requires |ls1.allweak| <= |ls2.allweak| && ls2.allweak[|ls2.allweak| - |ls1.allweak|..] == ls1.allweak
    requires ContentsMarked(h2, ls1.weak) && ContentsMarked(h2, ls1.allweak)
    requires Onward(h1, h2, w1) && Onward(h2, h3, w2) && SameDropped(h2, h3) && r in h1 && r in h2 && r in h3 && !h3[r].color.White?
    requires Left(h1, MarkedSet(h1), MarkedSet(h1), h1[r], h2[r], Listed(ls1.weak, ls1.allweak, r), false)
    requires Left(h2, MarkedSet(h2), MarkedSet(h2), h2[r], h3[r],
                  Listed(ls2.weak[..|ls2.weak| - |ls1.weak|], ls2.allweak[..|ls2.allweak| - |ls1.allweak|], r), Listed(ls2.ephemeron, ls2.allweak, r))
    ensures EntriesLeft(h1, r, if r in MarkedSet(h1) then MarkedSet(h1) else MarkedSet(h3), MarkedSet(h3), h1[r], h3[r])
  {
    hide TriColor, WeakModes, Waiting, ContentsMarked, Onward, SameDropped, Left, NoValueDropped, NoKeyDropped, Dropped, Listed, WeakValued, WeakKeyed,
         EntriesLeft, MarkedSet, Members;
    var late := Listed(ls2.weak[..|ls2.weak| - |ls1.weak|], ls2.allweak[..|ls2.allweak| - |ls1.allweak|], r);
    var keys := Listed(ls2.ephemeron, ls2.allweak, r);
    OnwardMode(h1, h2, w1, r);
    if !h2[r].color.White? {
      ListedLate(h2, ls2, ls1.weak, ls1.allweak, r);
      ListedKeys(h2, ls2, r);
      NoneAlike(h2, h3, h2[r]);
    } else {
      KindStays(h2, h3, w2, r);
      TriColorFormed(h2, ls2);
      LateString(h2, h3, r);
    }
    if !h1[r].color.White? {
      ListedValues(h1, ls1, r);
    } else {
      ListedMarked(h1, ls1, r);
    }
    LeftAlike(h2, h3, h2[r], h3[r], late, keys);
    ToFirst(h1, h2, h3, w1, w2, h2[r], h3[r], late, keys);
    MarkedMore(h1, h2, h3, w1, w2, r);
    PurgedAt(h1, r, MarkedSet(h1), MarkedSet(h3), h1[r], h2[r], h3[r], Listed(ls1.weak, ls1.allweak, r), late, keys);
  }

  lemma NoneAlike(h: Heap, h': Heap, o: Object)
    requires SameDropped(h, h')
    ensures NoValueDropped(h, MarkedSet(h), o) ==> NoValueDropped(h', MarkedSet(h'), o)
    ensures NoKeyDropped(h, MarkedSet(h), o) ==> NoKeyDropped(h', MarkedSet(h'), o)
  {
    hide Dropped;
  }

  lemma KindStays(h: Heap, h': Heap, w: set<Ref>, r: Ref)
    requires Onward(h, h', w) && r in h
    ensures h.Keys == h'.Keys && h'[r].kind == h[r].kind
  {
    assert r in h' && OnwardAt(h, h', w, r);
  }

  /** The sets, seen from the first heap. */
  lemma ToFirst(h1: Heap, h2: Heap, h3: Heap, w1: set<Ref>, w2: set<Ref>, o: Object, o': Object, values: bool, keys: bool)
    requires Onward(h1, h2, w1) && Onward(h2, h3, w2)
    ensures var k := MarkedSet(h3);
            && Left(h3, k, k, o, o', values, keys) == Left(h1, k, k, o, o', values, keys)
            && NoValueDropped(h3, k, o) == NoValueDropped(h1, k, o) == NoValueDropped(h2, k, o)
            && NoKeyDropped(h3, k, o) == NoKeyDropped(h1, k, o) == NoKeyDropped(h2, k, o)
  {
    var k := MarkedSet(h3);
    hide MarkedSet, Dropped;
    OnwardObject(h1, h2, w1, k, k, o, o', values, keys);
    OnwardObject(h2, h3, w2, k, k, o, o', values, keys);
    hide Left;
    forall s ensures Dropped(h3, k, s) == Dropped(h2, k, s) == Dropped(h1, k, s) {
      OnwardDropped(h1, h2, w1, k, s);
      OnwardDropped(h2, h3, w2, k, s);
    }
  }

  lemma MarkedMore(h1: Heap, h2: Heap, h3: Heap, w1: set<Ref>, w2: set<Ref>, r: Ref)
    requires Onward(h1, h2, w1) && Onward(h2, h3, w2)
    ensures MarkedSet(h1) <= MarkedSet(h3)
    ensures r in MarkedSet(h1) <==> r in h1 && !h1[r].color.White?
    ensures r in MarkedSet(h3) <==> r in h3 && !h3[r].color.White?
  {
    forall q | q in MarkedSet(h1) ensures q in MarkedSet(h3) {
      OnwardMarked(h1, h2, w1, To(q));
      OnwardMarked(h2, h3, w2, To(q));
    }
  }

  /** After all the passes, exactly these entries are gone. */
  lemma AllPurged(h0: Heap, h1: Heap, h2: Heap, h3: Heap, ls1: Lists, ls2: Lists, w1: set<Ref>, w2: set<Ref>, roots: set<Ref>)
    requires TriColor(h1, ls1) && ls1.gray == [] && ls1.todo == [] && WeakModes(h1, ls1) && Waiting(h1, ls1.allweak) && AllEntriesSettled(h1, ls1.ephemeron)
    requires TriColor(h2, ls2) && ls2.gray == [] && ls2.todo == [] && WeakModes(h2, ls2) && Waiting(h2, ls2.allweak)
    requires |ls1.weak| <= |ls2.weak| && ls2.weak[|ls2.weak| - |ls1.weak|..] == ls1.weak
    requires |ls1.allweak| <= |ls2.allweak| && ls2.allweak[|ls2.allweak| - |ls1.allweak|..] == ls1.allweak
    requires ContentsMarked(h2, ls1.weak) && ContentsMarked(h2, ls1.allweak)
    requires Onward(h0, h1, {}) && Onward(h1, h2, w1) && Onward(h2, h3, w2) && SameDropped(h2, h3) && forall q :: q in roots ==> IsMarked(h1, To(q))
    requires ValuesLeft(h1, MarkedSet(h1), h1, h2, Members(ls1.weak) + Members(ls1.allweak))
    requires BothLeft(h2, MarkedSet(h2), h2, h3, Members(ls2.weak[..|ls2.weak| - |ls1.weak|]) + Members(ls2.allweak[..|ls2.allweak| - |ls1.allweak|]),
                      Members(ls2.ephemeron) + Members(ls2.allweak))
    ensures EntriesGoneBy(h0, h3, roots, ls1.bound, MarkedSet(h3))
  {
    var m, k := MarkedSet(h1), MarkedSet(h3);
    forall r | r in h1 && r in h3 && r in k ensures EntriesLeft(h1, r, if r in m then m else k, k, h1[r], h3[r]) {
      PurgeStep(h1, h2, h3, ls1, ls2, w1, w2, r);
    }
    assert Purged(h1, h3, m, k);
    PurgedBefore(h0, h1, h3, m, k);
    MarkedMore(h1, h2, h3, w1, w2, 0);
    ReachedFirst(h0, h1, ls1, roots);
  }

  lemma PurgeStep(h1: Heap, h2: Heap, h3: Heap, ls1: Lists, ls2: Lists, w1: set<Ref>, w2: set<Ref>, r: Ref)
    requires TriColor(h1, ls1) && ls1.gray == [] && ls1.todo == [] && WeakModes(h1, ls1) && Waiting(h1, ls1.allweak)
    requires TriColor(h2, ls2) && ls2.gray == [] && ls2.todo == [] && WeakModes(h2, ls2) && Waiting(h2, ls2.allweak)
    requires |ls1.weak| <= |ls2.weak| && ls2.weak[|ls2.weak| - |ls1.weak|..] == ls1.weak
    requires |ls1.allweak| <= |ls2.allweak| && ls2.allweak[|ls2.allweak| - |ls1.allweak|..] == ls1.allweak
    requires ContentsMarked(h2, ls1.weak) && ContentsMarked(h2, ls1.allweak)
    requires Onward(h1, h2, w1) && Onward(h2, h3, w2) && SameDropped(h2, h3)
    requires ValuesLeft(h1, MarkedSet(h1), h1, h2, Members(ls1.weak) + Members(ls1.allweak))
    requires BothLeft(h2, MarkedSet(h2), h2, h3, Members(ls2.weak[..|ls2.weak| - |ls1.weak|]) + Members(ls2.allweak[..|ls2.allweak| - |ls1.allweak|]),
                      Members(ls2.ephemeron) + Members(ls2.allweak))
    requires r in h1 && r in h3 && r in MarkedSet(h3)
    ensures EntriesLeft(h1, r, if r in MarkedSet(h1) then MarkedSet(h1) else MarkedSet(h3), MarkedSet(h3), h1[r], h3[r])
  {
    hide TriColor, WeakModes, Waiting, ContentsMarked, Onward, SameDropped, Left, EntriesLeft, Members;
    PassesAt(h1, h2, h3, ls1, ls2, w1, w2, r);
  }

  lemma ReachedFirst(h0: Heap, h1: Heap, ls1: Lists, roots: set<Ref>)
    requires Onward(h0, h1, {}) && TriColor(h1, ls1) && ls1.gray == [] && ls1.todo == [] && AllEntriesSettled(h1, ls1.ephemeron) && WeakModes(h1, ls1)
    requires Waiting(h1, ls1.allweak) && forall q :: q in roots ==> IsMarked(h1, To(q))
    ensures Reached(h0, roots, ls1.bound, MarkedSet(h1))
  {
    hide Onward, AllEntriesSettled, WeakModes, Waiting, Accessible, StronglyClosed;
    forall r | Accessible(h0, roots, r) ensures r in MarkedSet(h1) {
      AccessibleMarked(h0, h1, ls1, roots, r);
    }
    InsideBound(h1, ls1);
  }

  lemma InsideBound(h: Heap, ls: Lists)
    requires TriColor(h, ls)
    ensures MarkedSet(h) <= ls.bound
  {
    assert Bounded(h, ls.bound);
  }

  /** `atomic` before the flip. */
  method AtomicBody(g: GlobalState) returns (ghost w: set<Ref>)
    requires g.gcstate == GCSatomic && Invariant(g, []) && g.gray == [] && RootsInHeap(g) && IsMarked(g.objs, To(g.mainthread))
    requires WeakModes(g.objs, ListsOf(g, [])) && RootsWithin(g)
    requires forall r :: r in g.finobj || r in g.tobefnz ==> r in g.objs
    requires forall r :: r in g.finobj ==> !g.objs[r].kind.Str?
    modifies g`gcstate, g`objs, g`gray, g`grayagain, g`weak, g`allweak, g`ephemeron, g`finobj, g`tobefnz, g`bound
    ensures g.gcstate == GCSinsideatomic && g.gray == []
    ensures RootsMarked(g) && WellFormed(g.objs) && Onward(old(g.objs), g.objs, w)
    ensures Waiting(old(g.objs), old(g.allweak)) ==> Collected(old(g.objs), g.objs, RootSet(g), w)
    ensures Separated(old(g.finobj), old(g.tobefnz), g.finobj, g.tobefnz)
    ensures forall r :: r in g.tobefnz ==> IsMarked(g.objs, To(r))
    ensures Bounded(g.objs, g.bound) && ((forall r :: r in g.tobefnz ==> r in old(g.bound)) ==> g.bound == old(g.bound))
    ensures forall r :: r in old(g.finobj) && r !in old(g.bound) ==> r in g.tobefnz
    ensures Waiting(old(g.objs), old(g.allweak)) ==> EntriesGoneBy(old(g.objs), g.objs, RootSet(g), old(g.bound), MarkedSet(g.objs))
  {
    hide TriColor, Onward, AllEntriesSettled, WeakModes, Pushed, ContentsMarked, Members, RootsMarked, AllComplete, Pick, Survives, Accessible, OnlyWeakLose,
         WaitsPushed, Waiting, Bounded, RootsWithin, Collected, WellFormed, ValuesLeft, BothLeft, SameDropped, EntriesGoneBy, RootSet, MarkedSet, IsMarked;
    ghost var h0, all0 := g.objs, g.allweak;
    AtomicMark(g);
    ghost var h1, ls1 := g.objs, ListsOf(g, []);
    RootSetMarked(g);
    ghost var roots := RootSet(g);
    var origweak, origall := g.weak, g.allweak;
    FinKept(h0, h1, g.finobj, g.tobefnz);
    AtomicResurrect(g);
    ghost var h2, ls2 := g.objs, ListsOf(g, []);
    AtomicFinish(g, origweak, origall);
    ghost var w1, w2 := Members(ls1.weak) + Members(ls1.allweak), Members(ls2.weak) + Members(ls2.allweak) + Members(ls2.ephemeron);
    w := w1 + w2;
    ThreeParts(h0, h1, h2, g.objs, w1, w2);
    PickSplits(h1, old(g.finobj));
    PickMembers(h1, old(g.finobj), true);
    OutsidePicked(h1, ls1, old(g.finobj));
    FnzStays(h2, g.objs, w2, g.tobefnz);
    if Waiting(h0, all0) {
      AllCollected(h0, h1, h2, g.objs, all0, ls1, ls2, roots, w1, w2);
      AllGone(h0, h1, h2, g.objs, all0, ls1, ls2, roots, w1, w2);
    }
  }

  /** The entries that are gone, when the tables in `allweak` rightly waited. */
  lemma AllGone(h0: Heap, h1: Heap, h2: Heap, h3: Heap, all0: seq<Ref>, ls1: Lists, ls2: Lists, roots: set<Ref>, w1: set<Ref>, w2: set<Ref>)
    requires Onward(h0, h1, {}) && Onward(h1, h2, w1) && Onward(h2, h3, w2) && SameDropped(h2, h3) && forall q :: q in roots ==> IsMarked(h1, To(q))
    requires Waiting(h0, all0) && WaitsPushed(h1, all0, ls1.allweak) && WaitsPushed(h2, ls1.allweak, ls2.allweak)
    requires Pushed(h2, {WeakValues}, ls1.weak, ls2.weak) && ContentsMarked(h2, ls1.weak) && ContentsMarked(h2, ls1.allweak)
    requires TriColor(h1, ls1) && ls1.gray == [] && ls1.todo == [] && WeakModes(h1, ls1) && AllEntriesSettled(h1, ls1.ephemeron)
    requires TriColor(h2, ls2) && ls2.gray == [] && ls2.todo == [] && WeakModes(h2, ls2)
    requires ValuesLeft(h1, MarkedSet(h1), h1, h2, Members(ls1.weak) + Members(ls1.allweak))
    requires |ls1.weak| <= |ls2.weak| && |ls1.allweak| <= |ls2.allweak|
    requires BothLeft(h2, MarkedSet(h2), h2, h3, Members(ls2.weak[..|ls2.weak| - |ls1.weak|]) + Members(ls2.allweak[..|ls2.allweak| - |ls1.allweak|]),
                      Members(ls2.ephemeron) + Members(ls2.allweak))
    ensures EntriesGoneBy(h0, h3, roots, ls1.bound, MarkedSet(h3))
  {
    hide TriColor, Onward, AllEntriesSettled, WeakModes, Members, ContentsMarked, ValuesLeft, BothLeft, SameDropped, EntriesGoneBy, Waiting;
    NewPart(h2, {WeakValues}, ls1.weak, ls2.weak);
    NewWaits(h2, ls1.allweak, ls2.allweak);
    hide WaitsPushed, Pushed;
    WaitingPushed(h0, h1, {}, all0, ls1.allweak);
    WaitingPushed(h1, h2, w1, ls1.allweak, ls2.allweak);
    AllPurged(h0, h1, h2, h3, ls1, ls2, w1, w2, roots);
  }

  /** Objects outside the bound are not marked. */
  lemma OutsidePicked(h: Heap, ls: Lists, fin: seq<Ref>)
    requires TriColor(h, ls) && forall r :: r in fin ==> r in h
    ensures forall r :: r in fin && r !in ls.bound ==> r in Pick(h, fin, false)
  {
    PickMembers(h, fin, false);
  }

  lemma AllCollected(h0: Heap, h1: Heap, h2: Heap, h3: Heap, all0: seq<Ref>, ls1: Lists, ls2: Lists, roots: set<Ref>, w1: set<Ref>, w2: set<Ref>)
    requires Onward(h0, h1, {}) && Onward(h1, h2, w1) && Onward(h2, h3, w2)
    requires w1 == Members(ls1.weak) + Members(ls1.allweak) && w2 == Members(ls2.weak) + Members(ls2.allweak) + Members(ls2.ephemeron)
    requires Waiting(h0, all0) && WaitsPushed(h1, all0, ls1.allweak) && WaitsPushed(h2, ls1.allweak, ls2.allweak)
    requires WeakModes(h1, ls1) && WeakModes(h2, ls2) && TriColor(h1, ls1) && ls1.gray == [] && ls1.todo == [] && AllEntriesSettled(h1, ls1.ephemeron)
    requires forall q :: q in roots ==> IsMarked(h1, To(q))
    requires Waiting(h2, ls2.allweak) ==> AllComplete(h3)
    ensures Collected(h0, h3, roots, w1 + w2)
  {
    hide TriColor, Onward, AllEntriesSettled, WeakModes, Members, AllComplete, Survives, Accessible, OnlyWeakLose, WaitsPushed, Waiting;
    WaitingPushed(h0, h1, {}, all0, ls1.allweak);
    WaitingPushed(h1, h2, w1, ls1.allweak, ls2.allweak);
    ThreeParts(h0, h1, h2, h3, w1, w2);
    AllSurvive(h0, h1, h3, ls1, roots, w1 + w2);
    LostOnlyWeak(h0, h1, h2, ls1, ls2, w1 + w2);
  }

  /** Objects moved from the one list to the end of the other. */
  ghost predicate Separated(fin: seq<Ref>, fnz: seq<Ref>, fin': seq<Ref>, fnz': seq<Ref>) {
    fnz <= fnz' && multiset(fin') + multiset(fnz'[|fnz|..]) == multiset(fin)
  }

  lemma FnzStays(h: Heap, h': Heap, w: set<Ref>, s: seq<Ref>)
    requires Onward(h, h', w) && forall r :: r in s ==> IsMarked(h, To(r))
    ensures forall r :: r in s ==> IsMarked(h', To(r))
  {
    forall r | r in s ensures IsMarked(h', To(r)) {
      OnwardMarked(h, h', w, To(r));
    }
  }

  lemma ThreeParts(h0: Heap, h1: Heap, h2: Heap, h3: Heap, w1: set<Ref>, w2: set<Ref>)
    requires Onward(h0, h1, {}) && Onward(h1, h2, w1) && Onward(h2, h3, w2)
    ensures Onward(h0, h1, w1 + w2) && Onward(h1, h2, w1 + w2) && Onward(h1, h3, w1 + w2) && Onward(h0, h3, w1 + w2)
  {
    OnwardMore(h0, h1, {}, w1 + w2);
    OnwardMore(h1, h2, w1, w1 + w2);
    OnwardMore(h2, h3, w2, w1 + w2);
    OnwardOn(h1, h2, h3, w1 + w2, w1 + w2);
    OnwardOn(h0, h1, h3, w1 + w2, w1 + w2);
  }

  /**
    `atomic`: every strongly accessible object is marked, no marked object refers to an
    unmarked one any more, and then the meanings of the two whites are exchanged.
   */
  method Atomic(g: GlobalState) returns (ghost w: set<Ref>)
    requires g.gcstate == GCSatomic && Invariant(g, []) && g.gray == [] && RootsInHeap(g) && IsMarked(g.objs, To(g.mainthread))
    requires WeakModes(g.objs, ListsOf(g, [])) && RootsWithin(g)
    requires forall r :: r in g.finobj || r in g.tobefnz ==> r in g.objs
    requires forall r :: r in g.finobj ==> !g.objs[r].kind.Str?
    modifies g`gcstate, g`objs, g`gray, g`grayagain, g`weak, g`allweak, g`ephemeron, g`finobj, g`tobefnz, g`white, g`bound
    ensures g.white == !old(g.white)
    ensures RootsMarked(g) && WellFormed(g.objs) && Onward(old(g.objs), g.objs, w)
    ensures Waiting(old(g.objs), old(g.allweak)) ==> Collected(old(g.objs), g.objs, RootSet(g), w)
    ensures Separated(old(g.finobj), old(g.tobefnz), g.finobj, g.tobefnz)
    ensures forall r :: r in g.tobefnz ==> IsMarked(g.objs, To(r))
    ensures Bounded(g.objs, g.bound) && ((forall r :: r in g.tobefnz ==> r in old(g.bound)) ==> g.bound == old(g.bound))
    ensures forall r :: r in old(g.finobj) && r !in old(g.bound) ==> r in g.tobefnz
    ensures Waiting(old(g.objs), old(g.allweak)) ==> EntriesGoneBy(old(g.objs), g.objs, RootSet(g), old(g.bound), MarkedSet(g.objs))
  {
    hide TriColor, WeakModes, WellFormed, Onward, Separated, Bounded, Waiting, Collected, RootsWithin, EntriesGoneBy;
    w := AtomicBody(g);
    g.white := !g.white;
  }

  lemma LostOnlyWeak(h0: Heap, h1: Heap, h2: Heap, ls1: Lists, ls2: Lists, w: set<Ref>)
    requires WeakModes(h1, ls1) && WeakModes(h2, ls2) && Waiting(h1, ls1.allweak) && Waiting(h2, ls2.allweak) && Onward(h0, h1, w) && Onward(h1, h2, w)
    requires w == Members(ls1.weak) + Members(ls1.allweak) + (Members(ls2.weak) + Members(ls2.allweak) + Members(ls2.ephemeron))
    ensures OnlyWeakLose(h0, w)
  {
    OnwardOn(h0, h1, h2, w, w);
    ListsWeak(h0, h1, w, ls1, Members(ls1.weak) + Members(ls1.allweak) + Members(ls1.ephemeron));
    ListsWeak(h0, h2, w, ls2, Members(ls2.weak) + Members(ls2.allweak) + Members(ls2.ephemeron));
  }

  lemma FinKept(h: Heap, h': Heap, fin: seq<Ref>, fnz: seq<Ref>)
    requires Onward(h, h', {}) && (forall r :: r in fin || r in fnz ==> r in h) && forall r :: r in fin ==> !h[r].kind.Str?
    ensures (forall r :: r in fin || r in fnz ==> r in h') && forall r :: r in fin ==> !h'[r].kind.Str?
  {
    forall r | r in fin ensures !h'[r].kind.Str? {
      assert OnwardAt(h, h', {}, r);
    }
  }

  lemma AllSurvive(h0: Heap, h1: Heap, h3: Heap, ls1: Lists, roots: set<Ref>, w: set<Ref>)
    requires Onward(h0, h1, {}) && TriColor(h1, ls1) && ls1.gray == [] && ls1.todo == [] && AllEntriesSettled(h1, ls1.ephemeron) && WeakModes(h1, ls1)
    requires (forall q :: q in roots ==> IsMarked(h1, To(q))) && Onward(h1, h3, w) && Waiting(h1, ls1.allweak)
    ensures Survives(h0, h3, roots)
  {
    forall r | Accessible(h0, roots, r) ensures r in h3 && !h3[r].color.White? {
      AccessibleMarked(h0, h1, ls1, roots, r);
      OnwardMarked(h1, h3, w, To(r));
    }
  }

  lemma SplitSnoc(a: seq<Ref>, b: seq<Ref>, init: seq<Ref>, r: Ref)
    requires multiset(a) + multiset(b) == multiset(init)
    ensures multiset(a + [r]) + multiset(b) == multiset(init + [r]) == multiset(a) + multiset(b + [r])
  {
  }

  lemma PickSnoc(h: Heap, init: seq<Ref>, r: Ref, marked: bool)
    ensures Pick(h, init + [r], marked) == if marked == IsMarked(h, To(r)) then Pick(h, init, marked) + [r] else Pick(h, init, marked)
  {
    var s := init + [r];
    assert s[..|s| - 1] == init && s[|s| - 1] == r;
    assert Pick(h, init, marked) + [] == Pick(h, init, marked);
  }

  lemma PickStep(h: Heap, init: seq<Ref>, r: Ref)
    requires multiset(Pick(h, init, true)) + multiset(Pick(h, init, false)) == multiset(init)
    ensures multiset(Pick(h, init + [r], true)) + multiset(Pick(h, init + [r], false)) == multiset(init + [r])
  {
    hide Pick, IsMarked;
    var a, b := Pick(h, init, true), Pick(h, init, false);
    PickSnoc(h, init, r, true);
    PickSnoc(h, init, r, false);
    SplitSnoc(a, b, init, r);
    if IsMarked(h, To(r)) {
      assert Pick(h, init + [r], true) == a + [r] && Pick(h, init + [r], false) == b;
    } else {
      assert Pick(h, init + [r], true) == a && Pick(h, init + [r], false) == b + [r];
    }
  }

  /** The two lists together keep their objects. */
  lemma {:induction false} PickSplits(h: Heap, s: seq<Ref>)
    ensures multiset(Pick(h, s, true)) + multiset(Pick(h, s, false)) == multiset(s)
  {
    if s == [] {
    } else {
      hide Pick;
      var init, r := s[..|s| - 1], s[|s| - 1];
      assert s == init + [r];
      PickSplits(h, init);
      PickStep(h, init, r);
    }
  }
}
