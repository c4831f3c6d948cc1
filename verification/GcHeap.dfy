/**
  The heap of the collector in `lgc.c`: objects with their colours and contents,
  and what marking does to them.
 */
module GcHeap {

  type Ref = nat

  /** A value in an object: nil, not collectable, a reference, or the key of a removed entry. */
  datatype Slot = Empty | Plain | To(r: Ref) | DeadKey

  datatype Node = Node(key: Slot, val: Slot)

  datatype Mode = Strong | WeakValues | Ephemeral | AllWeak

  datatype Kind = Str | Udata | Closure | Proto | Thread | Table

  /** There are two whites; the one that is not current marks the dead after the atomic phase. */
  datatype Color = White(one: bool) | Gray | Black

  /**
    An object: its metatable, its slots (array part, upvalues, constants, stack or
    user value), the nodes of a table's hash part, and a prototype's cached closure.
    `gives` is what its `__mode` entry says to the tables that have it as a metatable.
   */
  datatype Object = Object(kind: Kind, gives: Mode, color: Color, fin: bool, meta: Slot, slots: seq<Slot>, nodes: seq<Node>, cache: Slot)

  type Heap = map<Ref, Object>

  predicate IsWhite(h: Heap, s: Slot) {
    s.To? && s.r in h && h[s.r].color.White?
  }

  predicate IsMarked(h: Heap, s: Slot) {
    s.To? ==> s.r in h && !h[s.r].color.White?
  }

  predicate InHeap(h: Heap, s: Slot) {
    s.To? ==> s.r in h
  }

  predicate IsString(h: Heap, s: Slot) {
    s.To? && s.r in h && h[s.r].kind.Str?
  }

  /** The colour an object gets when it is first marked. */
  function Marking1(k: Kind): Color {
    if k.Str? || k.Udata? then Black else Gray
  }

  /** How weak a table with metatable `s` is: `gfasttm(g, h->metatable, TM_MODE)`. */
  function GivenBy(h: Heap, s: Slot): Mode {
    if s.To? && s.r in h then h[s.r].gives else Strong
  }

  /** How weak table `r` is, which is found out whenever the table is visited. */
  function ModeOf(h: Heap, r: Ref): Mode {
    if r in h && h[r].kind.Table? then GivenBy(h, h[r].meta) else Strong
  }

  // ---------- shapes ----------

  /** What each kind of object can hold. */
  predicate Shaped(o: Object) {
    && (o.kind.Str? ==> o.slots == [])
    && (o.kind.Udata? ==> |o.slots| == 1)
    && (!o.kind.Table? && !o.kind.Udata? ==> o.meta.Empty?)
    && (!o.kind.Table? ==> o.nodes == [])
    && (!o.kind.Proto? ==> o.cache.Empty?)
    && (o.kind.Str? || o.kind.Udata? ==> !o.color.Gray?)
    && (o.kind.Thread? ==> !o.color.Black?)
  }

  ghost predicate SlotsInHeap(h: Heap, o: Object) {
    && InHeap(h, o.meta) && InHeap(h, o.cache)
    && (forall i :: 0 <= i < |o.slots| ==> InHeap(h, o.slots[i]))
    && (forall i :: 0 <= i < |o.nodes| ==> InHeap(h, o.nodes[i].key) && InHeap(h, o.nodes[i].val))
  }

  ghost predicate WellFormedAt(h: Heap, r: Ref)
    requires r in h
  {
    Shaped(h[r]) && SlotsInHeap(h, h[r])
  }

  /** No dangling references. */
  ghost predicate WellFormed(h: Heap) {
    forall r :: r in h ==> WellFormedAt(h, r)
  }

  // ---------- marked contents ----------

  ghost predicate ArrayMarked(h: Heap, o: Object) {
    forall i :: 0 <= i < |o.slots| ==> IsMarked(h, o.slots[i])
  }

  ghost predicate ValsMarked(h: Heap, o: Object) {
    forall i :: 0 <= i < |o.nodes| ==> IsMarked(h, o.nodes[i].val)
  }

  /** Keys are marked; those of empty entries may be dead instead. */
  ghost predicate KeysMarked(h: Heap, o: Object) {
    forall i :: 0 <= i < |o.nodes| ==> IsMarked(h, o.nodes[i].key)
  }

  /** Everything that the object refers to is marked. */
  ghost predicate Complete(h: Heap, o: Object) {
    IsMarked(h, o.meta) && IsMarked(h, o.cache) && ArrayMarked(h, o) && ValsMarked(h, o) && KeysMarked(h, o)
  }

  /** Keys of empty entries are marked or dead. */
  ghost predicate Tidy(h: Heap, o: Object) {
    forall i :: 0 <= i < |o.nodes| && o.nodes[i].val.Empty? ==> IsMarked(h, o.nodes[i].key)
  }

  /** Entries of an ephemeron table: the value is marked, or the key is an unmarked object. */
  ghost predicate EntriesSettled(h: Heap, o: Object) {
    forall i :: 0 <= i < |o.nodes| && !o.nodes[i].val.Empty? ==>
      IsMarked(h, o.nodes[i].val) || (IsWhite(h, o.nodes[i].key) && !IsString(h, o.nodes[i].key))
  }

  // ---------- marking ----------

  /** Node `n` after a traversal: the unmarked key of an empty entry may have been declared dead. */
  ghost predicate NodeKept(h: Heap, n: Node, n': Node) {
    n'.val == n.val && (n'.key == n.key || (n.val.Empty? && IsWhite(h, n.key) && n'.key == DeadKey))
  }

  /** Object `x` while it is traversed: only dead keys and a cleared cache. */
  ghost predicate Trimmed(h: Heap, o: Object, o': Object) {
    && o' == o.(nodes := o'.nodes, cache := o'.cache)
    && |o'.nodes| == |o.nodes|
    && (forall i :: 0 <= i < |o.nodes| ==> NodeKept(h, o.nodes[i], o'.nodes[i]))
    && (o'.cache == o.cache || (o'.cache == Empty && IsWhite(h, o.cache)))
  }

  /** What has become of object `r`: nothing, marked, or (if it is `x`, being traversed) trimmed. */
  ghost predicate MarksAt(h: Heap, h': Heap, x: int, r: Ref)
    requires r in h && r in h'
  {
    || h'[r] == h[r]
    || (h[r].color.White? && r != x && h'[r] == h[r].(color := Marking1(h[r].kind)) && (h[r].kind.Udata? ==> Complete(h', h'[r])))
    || (r == x && !h[r].color.White? && Trimmed(h, h[r], h'[r]))
  }

  ghost predicate Marks(h: Heap, h': Heap, x: int) {
    && h'.Keys == h.Keys
    && forall r :: r in h && r in h' ==> MarksAt(h, h', x, r)
  }

  /** Newly gray objects have been put in front of the list `gray`. */
  ghost predicate Queues(h: Heap, gray: seq<Ref>, h': Heap, gray': seq<Ref>) {
    && |gray| <= |gray'|
    && gray'[|gray'| - |gray|..] == gray
    && Distinct(gray'[..|gray'| - |gray|])
    && (forall r :: r in h && r in h' ==> (r in gray'[..|gray'| - |gray|]) == (h[r].color.White? && h'[r].color.Gray?))
    && (forall r :: r in gray'[..|gray'| - |gray|] ==> r in h)
  }

  ghost predicate Distinct(s: seq<Ref>) {
    forall i, j :: 0 <= i < j < |s| ==> s[i] != s[j]
  }

  ghost function Whites(h: Heap): set<Ref> {
    set r | r in h && h[r].color.White?
  }

  // ---------- marking only ever adds ----------

  lemma MarkedStays(h: Heap, h': Heap, x: int, s: Slot)
    requires Marks(h, h', x) && IsMarked(h, s)
    ensures IsMarked(h', s)
  {
    if s.To? {
      assert MarksAt(h, h', x, s.r);
    }
  }

  lemma CompleteStays(h: Heap, h': Heap, x: int, o: Object)
    requires Marks(h, h', x) && Complete(h, o)
    ensures Complete(h', o)
  {
    MarkedStays(h, h', x, o.meta);
    MarkedStays(h, h', x, o.cache);
    forall i | 0 <= i < |o.slots| ensures IsMarked(h', o.slots[i]) {
      MarkedStays(h, h', x, o.slots[i]);
    }
    forall i | 0 <= i < |o.nodes| ensures IsMarked(h', o.nodes[i].key) && IsMarked(h', o.nodes[i].val) {
      MarkedStays(h, h', x, o.nodes[i].key);
      MarkedStays(h, h', x, o.nodes[i].val);
    }
  }

  lemma WhiteBefore(h: Heap, h': Heap, x: int, s: Slot)
    requires Marks(h, h', x) && IsWhite(h', s)
    ensures IsWhite(h, s)
  {
    assert MarksAt(h, h', x, s.r);
  }

  lemma TrimmedTwice(a: Heap, b: Heap, x: int, y: int, o: Object, o1: Object, o2: Object)
    requires Marks(a, b, x) && Trimmed(a, o, o1) && Trimmed(b, o1, o2)
    ensures Trimmed(a, o, o2)
  {
    forall i | 0 <= i < |o.nodes| ensures NodeKept(a, o.nodes[i], o2.nodes[i]) {
      assert NodeKept(a, o.nodes[i], o1.nodes[i]) && NodeKept(b, o1.nodes[i], o2.nodes[i]);
      if IsWhite(b, o1.nodes[i].key) {
        WhiteBefore(a, b, x, o1.nodes[i].key);
      }
    }
    if IsWhite(b, o1.cache) {
      WhiteBefore(a, b, x, o1.cache);
    }
  }

  lemma TrimmedSame(h: Heap, o: Object)
    ensures Trimmed(h, o, o)
  {
  }

  lemma MarksCompose(a: Heap, b: Heap, c: Heap, x: int, y: int)
    requires Marks(a, b, x) && Marks(b, c, y) && (y == x || y == -1) && (x in a ==> !a[x].color.White?)
    ensures Marks(a, c, x)
  {
    forall r | r in a && r in c ensures MarksAt(a, c, x, r) {
      assert MarksAt(a, b, x, r) && MarksAt(b, c, y, r);
      if r == x {
        TrimmedSame(a, a[r]);
        TrimmedSame(b, b[r]);
        TrimmedTwice(a, b, x, y, a[r], b[r], c[r]);
      } else if a[r].kind.Udata? && b[r] != a[r] {
        CompleteStays(b, c, y, b[r]);
      }
    }
  }

  lemma MarksSame(h: Heap, x: int)
    ensures Marks(h, h, x)
  {
  }

  lemma QueuesSame(h: Heap, gray: seq<Ref>)
    ensures Queues(h, gray, h, gray)
  {
  }

  lemma QueuesCompose(a: Heap, ga: seq<Ref>, b: Heap, gb: seq<Ref>, c: Heap, gc: seq<Ref>, x: int, y: int)
    requires Marks(a, b, x) && Marks(b, c, y) && Queues(a, ga, b, gb) && Queues(b, gb, c, gc)
    ensures Queues(a, ga, c, gc)
  {
    var n1, n2 := |gb| - |ga|, |gc| - |gb|;
    var n := |gc| - |ga|;
    assert gc[..n] == gc[..n2] + gb[..n1];
    assert gc[n..] == gb[n1..];
    forall i, j | 0 <= i < j < n ensures gc[..n][i] != gc[..n][j] {
      if i < n2 <= j {
        assert gc[..n2][i] in gc[..n2] && gb[..n1][j - n2] in gb[..n1];
        assert gc[j] == gc[n2..][j - n2];
        assert MarksAt(b, c, y, gc[j]);
      } else if j < n2 {
        assert gc[..n2][i] != gc[..n2][j];
      } else {
        assert gb[..n1][i - n2] != gb[..n1][j - n2];
        assert gc[i] == gc[n2..][i - n2] && gc[j] == gc[n2..][j - n2];
      }
    }
    forall r | r in a && r in c ensures r in gc[..n] <==> a[r].color.White? && c[r].color.Gray? {
      assert MarksAt(a, b, x, r) && MarksAt(b, c, y, r);
      assert r in gc[..n] <==> r in gc[..n2] || r in gb[..n1];
    }
  }

  lemma WellFormedStays(h: Heap, h': Heap, x: int)
    requires Marks(h, h', x) && WellFormed(h)
    ensures WellFormed(h')
  {
    forall r | r in h' ensures WellFormedAt(h', r) {
      assert MarksAt(h, h', x, r) && WellFormedAt(h, r);
      if r == x {
        forall i | 0 <= i < |h'[r].nodes| ensures InHeap(h', h'[r].nodes[i].key) && InHeap(h', h'[r].nodes[i].val) {
          assert h'[r] == h[r] || NodeKept(h, h[r].nodes[i], h'[r].nodes[i]);
        }
      }
    }
  }

  lemma FewerWhites(h: Heap, h': Heap, x: int)
    requires Marks(h, h', x)
    ensures Whites(h') <= Whites(h)
    ensures |Whites(h')| <= |Whites(h)|
    ensures h == h' || x in h || |Whites(h')| < |Whites(h)|
  {
    forall r | r in Whites(h') ensures r in Whites(h) {
      assert MarksAt(h, h', x, r);
    }
    SubsetSize(Whites(h'), Whites(h));
    if h != h' && x !in h {
      var r :| r in h && h[r] != h'[r];
      assert MarksAt(h, h', x, r);
      assert r in Whites(h) && r !in Whites(h');
      SubsetSize(Whites(h'), Whites(h) - {r});
    }
  }

  lemma SubsetSize(a: set<Ref>, b: set<Ref>)
    requires a <= b
    ensures |a| <= |b|
  {
    if a != {} {
      var r :| r in a;
      SubsetSize(a - {r}, b - {r});
    }
  }

  // ---------- both together ----------

  /** Marking has gone on: from `h` with gray list `gray` to `h'` with `gray'`, `x` being traversed. */
  ghost predicate Grows(h: Heap, gray: seq<Ref>, h': Heap, gray': seq<Ref>, x: int) {
    Marks(h, h', x) && Queues(h, gray, h', gray')
  }

  lemma GrowsSame(h: Heap, gray: seq<Ref>, x: int)
    ensures Grows(h, gray, h, gray, x)
  {
    MarksSame(h, x);
    QueuesSame(h, gray);
  }

  lemma GrowsCompose(a: Heap, ga: seq<Ref>, b: Heap, gb: seq<Ref>, c: Heap, gc: seq<Ref>, x: int, y: int)
    requires Grows(a, ga, b, gb, x) && Grows(b, gb, c, gc, y) && (y == x || y == -1) && (x in a ==> !a[x].color.White?)
    ensures Grows(a, ga, c, gc, x)
  {
    MarksCompose(a, b, c, x, y);
    QueuesCompose(a, ga, b, gb, c, gc, x, y);
  }

  /** The object being traversed keeps its shape. */
  lemma GrowsKeeps(h: Heap, gray: seq<Ref>, h': Heap, gray': seq<Ref>, x: int, r: Ref)
    requires Grows(h, gray, h', gray', x) && r in h
    ensures r in h' && h'[r] == h[r].(color := h'[r].color, nodes := h'[r].nodes, cache := h'[r].cache)
    ensures !h[r].color.White? ==> h'[r].color == h[r].color
    ensures |h'[r].nodes| == |h[r].nodes|
    ensures forall i :: 0 <= i < |h[r].nodes| ==> h'[r].nodes[i].val == h[r].nodes[i].val
    ensures r != x ==> h'[r].nodes == h[r].nodes && h'[r].cache == h[r].cache
  {
    assert MarksAt(h, h', x, r);
    if r == x && h'[r] != h[r] {
      forall i | 0 <= i < |h[r].nodes| ensures h'[r].nodes[i].val == h[r].nodes[i].val {
        assert NodeKept(h, h[r].nodes[i], h'[r].nodes[i]);
      }
    }
  }

  /** The first `n` slots are marked. */
  ghost predicate MarkedUpTo(h: Heap, s: seq<Slot>, n: nat) {
    forall i :: 0 <= i < n && i < |s| ==> IsMarked(h, s[i])
  }

  lemma MarkedUpToStays(h: Heap, h': Heap, x: int, s: seq<Slot>, n: nat)
    requires Marks(h, h', x) && MarkedUpTo(h, s, n)
    ensures MarkedUpTo(h', s, n)
  {
    forall i | 0 <= i < n && i < |s| ensures IsMarked(h', s[i]) {
      MarkedStays(h, h', x, s[i]);
    }
  }
}
