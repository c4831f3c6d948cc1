/** Runs of requests to `MemoryPoolMgr`: the program has what it would have if every block were memory of its own. */
module PoolRuns {
  import opened Packing
  import opened BlockSets
  import opened PoolManagers

  /** A program names its blocks. */
  datatype Request = Ask(name: nat, n: nat) | Resize(name: nat, n: nat) | Release(name: nat) | Write(name: nat, i: nat, b: Bytes)

  type Heap = map<nat, Bytes>

  /** The program asks for a new name and at least one byte, and uses only names that it has. */
  predicate Legal(req: Request, s: Heap) {
    match req
    case Ask(name, n) => name !in s && 0 < n < TWO63
    case Resize(name, n) => name in s && n < TWO63
    case Release(name) => name in s
    case Write(name, i, b) => name in s && i + |b| <= |s[name]|
  }

  /** What a request does to memory in which every block stands alone; new bytes are any. */
  ghost predicate Next(req: Request, s: Heap, t: Heap)
    requires Legal(req, s)
  {
    match req
    case Ask(name, n) => name in t && |t[name]| == n && t - {name} == s
    case Resize(name, n) =>
      name in t && |t[name]| == (if n > |s[name]| then n else |s[name]|) && s[name] <= t[name] && t - {name} == s - {name}
    case Release(name) => t == s - {name}
    case Write(name, i, b) => t == s[name := Put(s[name], i, b)]
  }

  /** The pointers of the program stand for its blocks: no two for one block, and none is lost. */
  ghost predicate Tied(mgr: MemoryPoolMgr, ptrs: map<nat, Ptr>, s: Heap)
    reads mgr, mgr.fastIdx, mgr.pools
  {
    && mgr.Valid()
    && ptrs.Keys == s.Keys
    && (forall x :: x in ptrs ==> TiedAt(mgr, ptrs[x], s[x]))
    && (forall x, y :: x in ptrs && y in ptrs && ptrs[x] == ptrs[y] ==> x == y)
    && (forall p :: mgr.Live(p) ==> Named(ptrs, p))
  }

  ghost predicate Named(ptrs: map<nat, Ptr>, p: Ptr) {
    exists x :: x in ptrs && ptrs[x] == p
  }

  ghost predicate TiedAt(mgr: MemoryPoolMgr, p: Ptr, b: Bytes)
    requires mgr.Valid()
    reads mgr, mgr.fastIdx, mgr.pools
  {
    mgr.Live(p) && mgr.User(p) == b
  }

  lemma {:induction false} Another(s: set<nat>) returns (h: nat)
    ensures forall x :: x in s ==> x < h
  {
    if s == {} {
      h := 0;
    } else {
      var x :| x in s;
      var rest := s - {x};
      h := Another(rest);
      assert forall y :: y in s ==> y == x || y in rest;
      h := if x < h then h else x + 1;
    }
  }

  /** Some address that the system has not given to the program. */
  method SystemAddress(mgr: MemoryPoolMgr) returns (h: nat)
    ensures h !in mgr.system
  {
    ghost var above := Another(mgr.system.Keys);
    assert above !in mgr.system.Keys;
    h :| h !in mgr.system;
  }

  method DoAsk(mgr: MemoryPoolMgr, name: nat, n: nat, ptrs: map<nat, Ptr>, ghost s: Heap) returns (ptrs': map<nat, Ptr>, ghost t: Heap)
    requires Tied(mgr, ptrs, s) && Legal(Ask(name, n), s) && mgr.Room(1)
    modifies mgr`system, mgr.pools
    ensures Tied(mgr, ptrs', t) && Next(Ask(name, n), s, t)
    ensures forall k: nat :: old(mgr.Room(k + 1)) ==> mgr.Room(k)
  {
    hide MemoryPoolMgr.Valid, MemoryPoolMgr.Live, MemoryPoolMgr.User, MemoryPoolMgr.Room, Put;
    assert forall x :: x in s <==> x in ptrs;
    var h := SystemAddress(mgr);
    var p := mgr.Malloc(n, h);
    ptrs' := ptrs[name := p];
    t := s[name := mgr.User(p)];
    forall q | mgr.Live(q) ensures Named(ptrs', q) {
      if q == p {
        assert ptrs'[name] == q;
      } else {
        var x :| x in ptrs && ptrs[x] == q;
        assert ptrs'[x] == q;
      }
    }
  }

  method DoResize(mgr: MemoryPoolMgr, name: nat, n: nat, ptrs: map<nat, Ptr>, ghost s: Heap) returns (ptrs': map<nat, Ptr>, ghost t: Heap)
    requires Tied(mgr, ptrs, s) && Legal(Resize(name, n), s) && mgr.Room(1)
    modifies mgr`system, mgr.pools
    ensures Tied(mgr, ptrs', t) && Next(Resize(name, n), s, t)
    ensures forall k: nat :: old(mgr.Room(k + 1)) ==> mgr.Room(k)
  {
    hide MemoryPoolMgr.Valid, MemoryPoolMgr.Live, MemoryPoolMgr.User, MemoryPoolMgr.Room, Put;
    assert forall x :: x in s <==> x in ptrs;
    assert TiedAt(mgr, ptrs[name], s[name]);
    NotNull(mgr, ptrs[name]);
    var h := SystemAddress(mgr);
    var p := mgr.Realloc(ptrs[name], n, h);
    ptrs' := ptrs[name := p];
    t := s[name := mgr.User(p)];
    forall q | mgr.Live(q) ensures Named(ptrs', q) {
      if q == p {
        assert ptrs'[name] == q;
      } else {
        var x :| x in ptrs && ptrs[x] == q;
        assert ptrs'[x] == q;
      }
    }
  }

  method DoRequest(mgr: MemoryPoolMgr, req: Request, ptrs: map<nat, Ptr>, ghost s: Heap) returns (ptrs': map<nat, Ptr>, ghost t: Heap)
    requires Tied(mgr, ptrs, s) && Legal(req, s) && mgr.Room(1)
    modifies mgr`system, mgr.pools
    ensures Tied(mgr, ptrs', t) && Next(req, s, t)
    ensures forall k: nat :: old(mgr.Room(k + 1)) ==> mgr.Room(k)
  {
    hide MemoryPoolMgr.Valid, MemoryPoolMgr.Live, MemoryPoolMgr.User, Put;
    assert forall x :: x in s <==> x in ptrs;
    match req
    case Ask(name, n) =>
      ptrs', t := DoAsk(mgr, name, n, ptrs, s);
    case Resize(name, n) =>
      ptrs', t := DoResize(mgr, name, n, ptrs, s);
    case Release(name) =>
      assert TiedAt(mgr, ptrs[name], s[name]);
      mgr.Free(ptrs[name]);
      ptrs' := ptrs - {name};
      t := s - {name};
      forall q | mgr.Live(q) ensures Named(ptrs', q) {
        var x :| x in ptrs && ptrs[x] == q;
        assert ptrs'[x] == q;
      }
    case Write(name, i, b) =>
      assert TiedAt(mgr, ptrs[name], s[name]);
      mgr.Store(ptrs[name], i, b);
      ptrs' := ptrs;
      t := s[name := Put(s[name], i, b)];
  }

  lemma NotNull(mgr: MemoryPoolMgr, p: Ptr)
    requires mgr.Live(p)
    ensures p != Null
  {
  }

  /** Requests that are not legal are not made. */
  ghost predicate StepAt(req: Request, s: Heap, t: Heap) {
    if Legal(req, s) then Next(req, s, t) else t == s
  }

  ghost predicate IsRun(reqs: seq<Request>, heaps: seq<Heap>) {
    && |heaps| == |reqs| + 1
    && heaps[0] == map[]
    && forall i :: 0 <= i < |reqs| ==> StepAt(reqs[i], heaps[i], heaps[i + 1])
  }

  /** What the program can see of whether a request is legal. */
  method Check(mgr: MemoryPoolMgr, req: Request, ptrs: map<nat, Ptr>, ghost s: Heap) returns (ok: bool)
    requires Tied(mgr, ptrs, s)
    ensures ok == Legal(req, s)
  {
    hide MemoryPoolMgr.Valid, MemoryPoolMgr.Live, MemoryPoolMgr.User;
    assert forall x :: x in s <==> x in ptrs;
    match req
    case Ask(name, n) =>
      return name !in ptrs && 0 < n < TWO63;
    case Resize(name, n) =>
      return name in ptrs && n < TWO63;
    case Release(name) =>
      return name in ptrs;
    case Write(name, i, b) =>
      if name !in ptrs {
        return false;
      }
      assert TiedAt(mgr, ptrs[name], s[name]);
      return i + |b| <= mgr.SizeOf(ptrs[name]);
  }

  lemma MoreSteps(reqs: seq<Request>, heaps: seq<Heap>, i: nat, t: Heap)
    requires i < |reqs| && IsRun(reqs[..i], heaps) && StepAt(reqs[i], heaps[i], t)
    ensures IsRun(reqs[..i + 1], heaps + [t])
  {
    hide StepAt;
    var hs := heaps + [t];
    forall k | 0 <= k < i + 1 ensures StepAt(reqs[..i + 1][k], hs[k], hs[k + 1]) {
      if k < i {
        assert StepAt(reqs[..i][k], heaps[k], heaps[k + 1]);
      }
    }
  }

  /** After any requests the program finds at its pointers what is there in memory in which every block stands alone. */
  method Run(mgr: MemoryPoolMgr, reqs: seq<Request>) returns (ptrs: map<nat, Ptr>, ghost heaps: seq<Heap>)
    requires mgr.Valid() && (forall p :: !mgr.Live(p)) && mgr.Room(|reqs|)
    modifies mgr`system, mgr.pools
    ensures IsRun(reqs, heaps) && Tied(mgr, ptrs, heaps[|reqs|])
  {
    hide Legal, Next, MemoryPoolMgr.Valid, MemoryPoolMgr.Live, StepAt;
    ptrs := map[];
    heaps := [map[]];
    var i := 0;
    while i < |reqs|
      invariant 0 <= i <= |reqs| && mgr.Room(|reqs| - i)
      invariant IsRun(reqs[..i], heaps) && Tied(mgr, ptrs, heaps[i])
    {
      i, ptrs, heaps := Round(mgr, reqs, i, ptrs, heaps);
    }
    assert reqs[..i] == reqs;
  }

  method Round(mgr: MemoryPoolMgr, reqs: seq<Request>, i: nat, ptrs: map<nat, Ptr>, ghost heaps: seq<Heap>)
    returns (j: nat, ptrs': map<nat, Ptr>, ghost heaps': seq<Heap>)
    requires i < |reqs| && IsRun(reqs[..i], heaps) && Tied(mgr, ptrs, heaps[i]) && mgr.Room(|reqs| - i)
    modifies mgr`system, mgr.pools
    ensures j == i + 1 && IsRun(reqs[..j], heaps') && Tied(mgr, ptrs', heaps'[j]) && mgr.Room(|reqs| - j)
  {
    hide Legal, Next, Tied;
    ghost var s, t := heaps[i], heaps[i];
    var ok := Check(mgr, reqs[i], ptrs, s);
    ptrs' := ptrs;
    if ok {
      ptrs', t := DoRequest(mgr, reqs[i], ptrs, s);
    }
    MoreSteps(reqs, heaps, i, t);
    j, heaps' := i + 1, heaps + [t];
  }
}
