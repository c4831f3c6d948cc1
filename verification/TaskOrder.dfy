/**
  The order of results in the Mongo task manager: when tasks with equal hash codes are handled
  in the order in which they were submitted, and when not.
 */
module TaskOrder {

  import opened TaskQueues

  function UpTo(n: nat): (r: seq<nat>)
    ensures |r| == n && forall i :: 0 <= i < n ==> r[i] == i
  {
    if n == 0 then [] else UpTo(n - 1) + [n - 1]
  }

  /** The tasks in `ts` with hash code `h`, in the same order. */
  function Mine(ts: seq<nat>, hashes: seq<nat>, h: nat): seq<nat> {
    if ts == [] then []
    else
      var t := ts[|ts| - 1];
      Mine(ts[..|ts| - 1], hashes, h) + if t < |hashes| && hashes[t] == h then [t] else []
  }

  lemma {:induction false} MineAppend(a: seq<nat>, b: seq<nat>, hashes: seq<nat>, h: nat)
    ensures Mine(a + b, hashes, h) == Mine(a, hashes, h) + Mine(b, hashes, h)
  {
    if b == [] {
      assert a + b == a;
    } else {
      assert (a + b)[..|a + b| - 1] == a + b[..|b| - 1];
      MineAppend(a, b[..|b| - 1], hashes, h);
    }
  }

  /** A new task changes nothing for the earlier ones. */
  lemma {:induction false} MineLater(ts: seq<nat>, hashes: seq<nat>, x: nat, h: nat)
    requires forall i :: 0 <= i < |ts| ==> ts[i] < |hashes|
    ensures Mine(ts, hashes + [x], h) == Mine(ts, hashes, h)
  {
    if ts != [] {
      MineLater(ts[..|ts| - 1], hashes, x, h);
    }
  }

  /** No task with the hash code. */
  lemma {:induction false} MineNone(ts: seq<nat>, hashes: seq<nat>, h: nat)
    ensures Mine(ts, hashes, h) == [] <==> forall i :: 0 <= i < |ts| ==> !(ts[i] < |hashes| && hashes[ts[i]] == h)
  {
    if ts != [] {
      MineNone(ts[..|ts| - 1], hashes, h);
      assert forall i :: 0 <= i < |ts| - 1 ==> ts[..|ts| - 1][i] == ts[i];
    }
  }

  /** Tasks with one hash code are in the order of their numbers. */
  lemma {:induction false} MineAscends(hashes: seq<nat>, k: nat, h: nat)
    requires k <= |hashes|
    ensures forall i, j :: 0 <= i < j < |Mine(UpTo(k), hashes, h)| ==> Mine(UpTo(k), hashes, h)[i] < Mine(UpTo(k), hashes, h)[j]
    ensures forall i :: 0 <= i < |Mine(UpTo(k), hashes, h)| ==> Mine(UpTo(k), hashes, h)[i] < k
  {
    if k > 0 {
      MineAscends(hashes, k - 1, h);
      assert UpTo(k)[..k - 1] == UpTo(k - 1);
    }
  }

  lemma MineOne(ts: seq<nat>, t: nat, hashes: seq<nat>, h: nat)
    requires t < |hashes|
    ensures Mine(ts + [t], hashes, h) == Mine(ts, hashes, h) + if hashes[t] == h then [t] else []
  {
    assert (ts + [t])[..|ts|] == ts;
  }

  // ---------- the line of a hash code ----------

  function Ahead(s: State): seq<nat> {
    s.handled + Pending(s.frames)
  }

  /** The tasks with hash code `h` in the order in which they will be handled, if `OnFrame` is not nested. */
  function Line(s: State, n: nat, h: nat): seq<nat>
    requires n > 0 && |s.workers| == |s.queues| == n
  {
    var w := h % n;
    Mine(Ahead(s), s.hashes, h) + Mine(s.done, s.hashes, h) + Mine(Holds(s.workers[w]), s.hashes, h) + Mine(s.queues[w], s.hashes, h)
  }

  /** The line has all tasks with the hash code in the order of submission; after `Stop`, the first of them. */
  ghost predicate LineOk(s: State, n: nat, h: nat)
    requires n > 0
  {
    if |s.workers| == |s.queues| == n then Line(s, n, h) == Mine(UpTo(|s.hashes|), s.hashes, h)
    else Mine(Ahead(s), s.hashes, h) <= Mine(UpTo(|s.hashes|), s.hashes, h)
  }

  ghost predicate Known(s: State, ts: seq<nat>) {
    forall i :: 0 <= i < |ts| ==> ts[i] < |s.hashes|
  }

  /** A worker only has tasks whose hash code leads to it. */
  ghost predicate Belongs(s: State, n: nat, ts: seq<nat>, w: nat)
    requires n > 0
  {
    forall i :: 0 <= i < |ts| ==> ts[i] < |s.hashes| && s.hashes[ts[i]] % n == w
  }

  ghost predicate Routed(s: State, n: nat)
    requires n > 0
  {
    && (|s.workers| == |s.queues| == n || (|s.workers| == |s.queues| == 0 && !s.running && s.done == []))
    && Known(s, Ahead(s)) && Known(s, s.done)
    && forall w :: 0 <= w < |s.workers| ==> RoutedAt(s, n, w)
  }

  ghost predicate RoutedAt(s: State, n: nat, w: nat)
    requires n > 0 && w < |s.workers| == |s.queues|
  {
    Belongs(s, n, Holds(s.workers[w]), w) && Belongs(s, n, s.queues[w], w)
  }

  ghost predicate InLine(s: State, n: nat)
    requires n > 0
  {
    forall h: nat :: LineOk(s, n, h)
  }

  /** A call of `OnFrame` does not overtake: no task it takes over has the hash code of one that an outer call has left. */
  ghost predicate Orderly(s: State, a: Step) {
    a == Enter ==> forall i, j :: 0 <= i < |s.done| && 0 <= j < |Pending(s.frames)| ==> !SameHash(s, s.done[i], Pending(s.frames)[j])
  }

  predicate SameHash(s: State, x: nat, y: nat) {
    x < |s.hashes| && y < |s.hashes| && s.hashes[x] == s.hashes[y]
  }

  // ---------- every orderly step keeps the lines ----------

  lemma RoutedWorker(s: State, a: Step, n: nat)
    requires n > 0 && Control(s) && Enabled(s, a) && Routed(s, n)
    requires a.Look? || a.Process? || a.Wake? || a.Pop?
    ensures Routed(Next(s, a), n)
  {
    hide Pending, Control;
    var u := Next(s, a);
    assert Ahead(u) == Ahead(s);
    forall w | 0 <= w < |u.workers| ensures RoutedAt(u, n, w) {
      RoutedWorkerAt(s, a, n, w);
    }
  }

  lemma RoutedWorkerAt(s: State, a: Step, n: nat, w: nat)
    requires n > 0 && Enabled(s, a) && |s.workers| == |s.queues| && w < |s.workers| && RoutedAt(s, n, w)
    requires a.Look? || a.Process? || a.Wake? || a.Pop?
    ensures |Next(s, a).workers| == |Next(s, a).queues| == |s.workers| && RoutedAt(Next(s, a), n, w)
  {
  }

  lemma RoutedPush(s: State, v: nat, n: nat)
    requires n > 0 && Control(s) && Enabled(s, Push(v)) && Routed(s, n)
    ensures Routed(Next(s, Push(v)), n) && s.workers[v].t < |s.hashes| && s.hashes[s.workers[v].t] % n == v
  {
    hide Pending, Control;
    var u := Next(s, Push(v));
    assert RoutedAt(s, n, v) && Holds(s.workers[v])[0] == s.workers[v].t;
    assert Ahead(u) == Ahead(s);
    forall w | 0 <= w < |u.workers| ensures RoutedAt(u, n, w) {
      assert RoutedAt(s, n, w);
    }
  }

  lemma RoutedSubmit(s: State, h: nat, n: nat)
    requires n > 0 && Control(s) && Enabled(s, Submit(h)) && Routed(s, n)
    ensures Routed(Next(s, Submit(h)), n)
  {
    hide Pending, Control;
    var u := Next(s, Submit(h));
    assert Ahead(u) == Ahead(s);
    forall w | 0 <= w < |u.workers| ensures RoutedAt(u, n, w) {
      assert RoutedAt(s, n, w);
    }
  }

  lemma KnownBetween(s: State, a: seq<nat>, b: seq<nat>, c: seq<nat>)
    requires Known(s, a + c) && Known(s, b)
    ensures Known(s, a + b + c)
  {
    forall i | 0 <= i < |a + b + c| ensures (a + b + c)[i] < |s.hashes| {
      if i < |a| {
        assert (a + c)[i] == (a + b + c)[i];
      } else if i >= |a| + |b| {
        assert (a + c)[i - |b|] == (a + b + c)[i];
      }
    }
  }

  lemma KeepsRouted(s: State, a: Step, n: nat)
    requires n > 0 && Control(s) && Enabled(s, a) && Routed(s, n)
    ensures Routed(Next(s, a), n)
  {
    hide Pending;
    var u := Next(s, a);
    if a.Look? || a.Process? || a.Wake? || a.Pop? {
      RoutedWorker(s, a, n);
    } else if a.Push? {
      RoutedPush(s, a.w, n);
    } else if a.Submit? {
      RoutedSubmit(s, a.hash, n);
    } else {
      if a == Enter || a == Handle || a == Delete || a == Leave {
        FramePending(s, a);
        KnownBetween(s, s.handled, if a == Enter then s.done else [], Pending(s.frames));
      } else {
        assert Ahead(u) == Ahead(s);
      }
      forall w | 0 <= w < |u.workers| ensures RoutedAt(u, n, w) {
        assert RoutedAt(s, n, w);
      }
    }
  }

  lemma SubmitLine(s: State, x: nat, n: nat, h: nat)
    requires n > 0 && Control(s) && Enabled(s, Submit(x)) && Routed(s, n) && LineOk(s, n, h)
    ensures LineOk(Next(s, Submit(x)), n, h)
  {
    hide Pending, Control, Mine;
    var u, k, w := Next(s, Submit(x)), |s.hashes|, h % n;
    assert |s.workers| == n;
    assert RoutedAt(s, n, w);
    MineLater(Ahead(s), s.hashes, x, h);
    MineLater(s.done, s.hashes, x, h);
    MineLater(Holds(s.workers[w]), s.hashes, x, h);
    MineLater(s.queues[w], s.hashes, x, h);
    MineLater(UpTo(k), s.hashes, x, h);
    assert Ahead(u) == Ahead(s);
    MineOne(UpTo(k), k, u.hashes, h);
    MineOne(s.queues[w], k, u.hashes, h);
  }

  lemma PushLine(s: State, v: nat, n: nat, h: nat)
    requires n > 0 && Control(s) && Enabled(s, Push(v)) && Routed(s, n) && |s.workers| == n && LineOk(s, n, h)
    ensures LineOk(Next(s, Push(v)), n, h)
  {
    hide Pending, UpTo, Mine, Control, Routed;
    var u, t, w := Next(s, Push(v)), s.workers[v].t, h % n;
    RoutedPush(s, v, n);
    assert Ahead(u) == Ahead(s);
    MineOne(s.done, t, s.hashes, h);
    MineSingle(t, s.hashes, h);
    if v != w {
      assert s.hashes[t] != h;
    }
  }

  lemma MineSingle(t: nat, hashes: seq<nat>, h: nat)
    requires t < |hashes|
    ensures Mine([t], hashes, h) == (if hashes[t] == h then [t] else []) && Mine([], hashes, h) == []
  {
    assert [] + [t] == [t];
    MineOne([], t, hashes, h);
  }

  lemma PopLine(s: State, v: nat, n: nat, h: nat)
    requires n > 0 && Control(s) && Enabled(s, Pop(v)) && Routed(s, n) && LineOk(s, n, h)
    ensures LineOk(Next(s, Pop(v)), n, h)
  {
    hide Pending, UpTo, Mine, Control;
    var u := Next(s, Pop(v));
    assert Ahead(u) == Ahead(s);
    MineNone([], s.hashes, h);
    if s.queues[v] != [] {
      assert s.queues[v] == [s.queues[v][0]] + s.queues[v][1..];
      MineAppend([s.queues[v][0]], s.queues[v][1..], s.hashes, h);
    }
  }

  /** Taking over done tasks keeps the line of a hash code if the tasks left by outer calls do not have it. */
  lemma EnterLine(s: State, n: nat, h: nat)
    requires n > 0 && Control(s) && Enabled(s, Enter) && Routed(s, n) && LineOk(s, n, h) && Orderly(s, Enter)
    ensures LineOk(Next(s, Enter), n, h)
  {
    hide Pending, UpTo, Mine, Control, Concat, RoutedAt;
    var u, ps := Next(s, Enter), Pending(s.frames);
    FramePending(s, Enter);
    MineAppend(s.handled + s.done, ps, s.hashes, h);
    MineAppend(s.handled, s.done, s.hashes, h);
    MineAppend(s.handled, ps, s.hashes, h);
    MineNone([], s.hashes, h);
    OnlyOneHas(s, h);
  }

  /** Of the items with one hash code, none are done or none are pending. */
  lemma OnlyOneHas(s: State, h: nat)
    requires Orderly(s, Enter)
    ensures Mine(s.done, s.hashes, h) == [] || Mine(Pending(s.frames), s.hashes, h) == []
  {
    hide Pending, Mine;
    var ps := Pending(s.frames);
    MineNone(s.done, s.hashes, h);
    MineNone(ps, s.hashes, h);
    if Mine(s.done, s.hashes, h) != [] {
      var i :| 0 <= i < |s.done| && s.done[i] < |s.hashes| && s.hashes[s.done[i]] == h;
      forall j | 0 <= j < |ps| ensures !(ps[j] < |s.hashes| && s.hashes[ps[j]] == h) {
        assert !SameHash(s, s.done[i], ps[j]);
      }
    }
  }

  lemma KeepsLine(s: State, a: Step, n: nat, h: nat)
    requires n > 0 && Control(s) && Enabled(s, a) && Routed(s, n) && LineOk(s, n, h) && Orderly(s, a)
    ensures LineOk(Next(s, a), n, h)
  {
    hide Mine, Pending, UpTo, Orderly;
    match a
    case Submit(x) => SubmitLine(s, x, n, h);
    case SetId =>
    case Enter => EnterLine(s, n, h);
    case Handle => FramePending(s, a); assert s.handled + [] == s.handled;
    case Delete => FramePending(s, a); assert s.handled + [] == s.handled;
    case Leave => FramePending(s, a); assert s.handled + [] == s.handled;
    case StopBegin =>
    case Join =>
    case Free =>
    case Look(w) =>
    case Pop(w) => PopLine(s, w, n, h);
    case Process(w) =>
    case Push(w) => assert |s.workers| == n; PushLine(s, w, n, h);
    case Wake(w) =>
  }

  // ---------- runs ----------

  /** What holds from `Start` on while no call of `OnFrame` overtakes an outer one. */
  ghost predicate Ordered(s: State, n: nat)
    requires n > 0
  {
    Control(s) && Routed(s, n) && InLine(s, n)
  }

  ghost predicate OrderlyRun(s: State, steps: seq<Step>, u: State)
    decreases |steps|
  {
    if steps == [] then s == u else Enabled(s, steps[0]) && Orderly(s, steps[0]) && OrderlyRun(Next(s, steps[0]), steps[1..], u)
  }

  lemma StartsOrdered(s: State, n: nat)
    requires Init(s, n)
    ensures Ordered(s, n)
  {
    StartsConserved(s, n);
    forall h: nat ensures LineOk(s, n, h) {
      assert Line(s, n, h) == [];
    }
  }

  lemma {:induction false} AlwaysOrdered(s: State, n: nat, steps: seq<Step>, u: State)
    requires n > 0 && Ordered(s, n) && OrderlyRun(s, steps, u)
    ensures Ordered(u, n)
    decreases |steps|
  {
    hide Control, Routed, LineOk, Next, Orderly;
    if steps != [] {
      var v := Next(s, steps[0]);
      KeepsControl(s, steps[0]);
      KeepsRouted(s, steps[0], n);
      forall h: nat ensures LineOk(v, n, h) {
        KeepsLine(s, steps[0], n, h);
      }
      AlwaysOrdered(v, n, steps[1..], u);
    }
  }

  /** Results with equal hash codes are handled in the order of submission. */
  ghost predicate InOrder(s: State) {
    forall i, j :: 0 <= i < j < |s.handled| && SameHash(s, s.handled[i], s.handled[j]) ==> s.handled[i] < s.handled[j]
  }

  lemma OrderedHandled(s: State, n: nat, h: nat)
    requires n > 0 && LineOk(s, n, h)
    ensures Mine(s.handled, s.hashes, h) <= Mine(UpTo(|s.hashes|), s.hashes, h)
  {
    hide Mine, UpTo, Pending;
    MineAppend(s.handled, Pending(s.frames), s.hashes, h);
  }

  lemma OrderedInOrder(s: State, n: nat)
    requires n > 0 && Ordered(s, n)
    ensures InOrder(s)
  {
    hide *;
    forall i, j | 0 <= i < j < |s.handled| && SameHash(s, s.handled[i], s.handled[j]) ensures s.handled[i] < s.handled[j] {
      PairInOrder(s, n, i, j);
    }
    ToInOrder(s);
  }

  lemma ToInOrder(s: State)
    requires forall i, j :: 0 <= i < j < |s.handled| && SameHash(s, s.handled[i], s.handled[j]) ==> s.handled[i] < s.handled[j]
    ensures InOrder(s)
  {
  }

  lemma PairInOrder(s: State, n: nat, i: nat, j: nat)
    requires n > 0 && Ordered(s, n) && i < j < |s.handled| && SameHash(s, s.handled[i], s.handled[j])
    ensures s.handled[i] < s.handled[j]
  {
    hide Mine, UpTo, Pending, Control, Routed, LineOk;
    var h := s.hashes[s.handled[i]];
    assert LineOk(s, n, h);
    OrderedHandled(s, n, h);
    var m, all := Mine(s.handled, s.hashes, h), Mine(UpTo(|s.hashes|), s.hashes, h);
    MineAscends(s.hashes, |s.hashes|, h);
    MineKeepsOrder(s.handled, s.hashes, h, i, j);
    var p, q :| 0 <= p < q < |m| && m[p] == s.handled[i] && m[q] == s.handled[j];
    assert m[p] == all[p] && m[q] == all[q];
  }

  /** Two tasks with the hash code appear in `Mine` in the same order. */
  lemma {:induction false} MineKeepsOrder(ts: seq<nat>, hashes: seq<nat>, h: nat, i: nat, j: nat)
    requires i < j < |ts| && ts[i] < |hashes| && ts[j] < |hashes| && hashes[ts[i]] == h == hashes[ts[j]]
    ensures var m := Mine(ts, hashes, h); exists p, q :: 0 <= p < q < |m| && m[p] == ts[i] && m[q] == ts[j]
  {
    var a, b := ts[..j], ts[j..];
    assert ts == a + b;
    MineAppend(a, b, hashes, h);
    InMine(a, hashes, h, i);
    InMine(b, hashes, h, 0);
    var ma, mb := Mine(a, hashes, h), Mine(b, hashes, h);
    var p :| 0 <= p < |ma| && ma[p] == ts[i];
    var q :| 0 <= q < |mb| && mb[q] == ts[j];
    assert (ma + mb)[p] == ts[i] && (ma + mb)[|ma| + q] == ts[j];
  }

  lemma {:induction false} InMine(ts: seq<nat>, hashes: seq<nat>, h: nat, i: nat)
    requires i < |ts| && ts[i] < |hashes| && hashes[ts[i]] == h
    ensures ts[i] in Mine(ts, hashes, h)
  {
    if i < |ts| - 1 {
      InMine(ts[..|ts| - 1], hashes, h, i);
    }
  }

  /** In every run in which no call of `OnFrame` overtakes an outer one, results are handled in order, whatever the workers do. */
  lemma HandledInOrder(s: State, n: nat, steps: seq<Step>, u: State)
    requires Init(s, n) && OrderlyRun(s, steps, u)
    ensures InOrder(u)
  {
    hide *;
    StartsOrdered(s, n);
    InitSize(s, n);
    AlwaysOrdered(s, n, steps, u);
    OrderedInOrder(u, n);
  }

  lemma InitSize(s: State, n: nat)
    requires Init(s, n)
    ensures n > 0
  {
  }

  // ---------- overtaking ----------

  lemma {:induction false} RunSnoc(s: State, steps: seq<Step>, t: State, a: Step)
    requires Run(s, steps, t) && Enabled(t, a)
    ensures Run(s, steps + [a], Next(t, a))
    decreases |steps|
  {
    if steps == [] {
      assert ([] + [a])[1..] == [];
      assert Run(Next(t, a), [], Next(t, a));
    } else {
      RunSnoc(Next(s, steps[0]), steps[1..], t, a);
      assert (steps + [a])[1..] == steps[1..] + [a];
    }
  }

  /** A task is submitted, and the only worker takes it. */
  lemma Submitted(s: State, steps: seq<Step>, t: State) returns (more: seq<Step>, u: State)
    requires Run(s, steps, t) && t.main == Ready && t.running && t.queues == [[]] && t.workers == [Check]
    ensures Run(s, more, u)
    ensures u == t.(hashes := t.hashes + [0], ids := t.ids + [|t.ids| + 1], queues := [[|t.hashes|]], workers := [Locking])
  {
    hide Run;
    var k := |t.hashes|;
    var t1 := t.(hashes := t.hashes + [0], queues := [[k]], main := Naming);
    RunSnoc(s, steps, t, Submit(0));
    assert t.queues[0] + [k] == [k];
    assert t.queues[0 := t.queues[0] + [k]] == [[k]];
    assert Next(t, Submit(0)) == t1;
    var t2 := t1.(ids := t.ids + [|t.ids| + 1], main := Ready);
    RunSnoc(s, steps + [Submit(0)], t1, SetId);
    more := steps + [Submit(0)] + [SetId];
    RunSnoc(s, more, t2, Look(0));
    more, u := more + [Look(0)], Next(t2, Look(0));
  }

  /** The task comes through the worker. */
  lemma OneTask(s: State, steps: seq<Step>, t: State) returns (more: seq<Step>, u: State)
    requires Run(s, steps, t) && t.main == Ready && t.running && t.queues == [[]] && t.workers == [Check]
    ensures Run(s, more, u)
    ensures u == t.(hashes := t.hashes + [0], ids := t.ids + [|t.ids| + 1], done := t.done + [|t.hashes|])
  {
    hide Run;
    var k, t3 := |t.hashes|, t;
    more, t3 := Submitted(s, steps, t);
    var t4 := t3.(workers := [Running(k)], queues := [[]]);
    assert [k][1..] == [] && t3.queues[0 := t3.queues[0][1..]] == [[]];
    assert Next(t3, Pop(0)) == t4;
    RunSnoc(s, more, t3, Pop(0));
    more := more + [Pop(0)];
    var t5 := t4.(workers := [Finished(k)]);
    assert Next(t4, Process(0)) == t5;
    RunSnoc(s, more, t4, Process(0));
    RunSnoc(s, more + [Process(0)], t5, Push(0));
    more, u := more + [Process(0)] + [Push(0)], Next(t5, Push(0));
  }

  lemma RunNone(s: State)
    ensures Run(s, [], s)
  {
  }

  /** `OnFrame` starts and handles its first task. */
  lemma EnterAndHandle(s: State, steps: seq<Step>, t: State) returns (more: seq<Step>, u: State)
    requires Run(s, steps, t) && t.main == Ready && t.done != []
    ensures Run(s, more, u)
    ensures u == t.(frames := t.frames + [Frame([t.done[0]], t.done[1..])], done := [], handled := t.handled + [t.done[0]])
  {
    hide Run;
    RunSnoc(s, steps, t, Enter);
    var t1 := Next(t, Enter);
    RunSnoc(s, steps + [Enter], t1, Handle);
    more, u := steps + [Enter] + [Handle], Next(t1, Handle);
  }

  function Measure(fs: seq<Frame>): nat {
    if fs == [] then 0 else 1 + |Top1(fs).current| + 2 * |Top1(fs).rest| + Measure(fs[..|fs| - 1])
  }

  function Top1(fs: seq<Frame>): Frame
    requires fs != []
  {
    fs[|fs| - 1]
  }

  lemma MeasureSnoc(fs: seq<Frame>, f: Frame)
    ensures Measure(fs + [f]) == 1 + |f.current| + 2 * |f.rest| + Measure(fs)
  {
    assert (fs + [f])[..|fs|] == fs;
  }

  /** The next step of the main thread that ends the active calls of `OnFrame`. */
  function Onward(s: State): Step
    requires s.frames != []
  {
    if Top(s).current != [] then Delete else if Top(s).rest != [] then Handle else Leave
  }

  lemma OnwardStep(s: State)
    requires Control(s) && s.main == Ready && s.frames != []
    ensures var a, u := Onward(s), Next(s, Onward(s));
            && Enabled(s, a) && u.main == Ready && u.hashes == s.hashes && Measure(u.frames) < Measure(s.frames)
            && u.handled + Pending(u.frames) == s.handled + Pending(s.frames)
  {
    hide Measure, Pending;
    var a, u := Onward(s), Next(s, Onward(s));
    var below := s.frames[..|s.frames| - 1];
    assert s.frames == below + [Top(s)];
    MeasureSnoc(below, Top(s));
    if a != Leave {
      assert u.frames == below + [Top(u)];
      MeasureSnoc(below, Top(u));
    }
    FramePending(s, a);
    assert s.handled + [] == s.handled;
  }

  /** The main thread can handle all that is pending, inner calls first. */
  lemma {:induction false} Drain(t: State) returns (steps: seq<Step>, u: State)
    requires Control(t) && t.main == Ready
    ensures OrderlyRun(t, steps, u) && u.hashes == t.hashes && u.handled == t.handled + Pending(t.frames)
    decreases Measure(t.frames)
  {
    hide Next, Control, Measure;
    if t.frames == [] {
      steps, u := [], t;
    } else {
      var a := Onward(t);
      OnwardStep(t);
      KeepsControl(t, a);
      var more;
      more, u := Drain(Next(t, a));
      steps := [a] + more;
    }
  }

  lemma {:induction false} OrderlyIsRun(s: State, steps: seq<Step>, u: State)
    requires OrderlyRun(s, steps, u)
    ensures Run(s, steps, u)
    decreases |steps|
  {
    hide Next, Enabled, Orderly;
    if steps != [] {
      OrderlyIsRun(Next(s, steps[0]), steps[1..], u);
    }
  }

  lemma {:induction false} RunThen(s: State, a: seq<Step>, t: State, b: seq<Step>, u: State)
    requires Run(s, a, t) && Run(t, b, u)
    ensures Run(s, a + b, u)
    decreases |a|
  {
    hide Next, Enabled;
    if a == [] {
      assert a + b == b;
    } else {
      RunThen(Next(s, a[0]), a[1..], t, b, u);
      assert (a + b)[1..] == a[1..] + b;
    }
  }

  lemma {:induction false} AlwaysControl(s: State, steps: seq<Step>, u: State)
    requires Control(s) && Run(s, steps, u)
    ensures Control(u)
    decreases |steps|
  {
    hide Next, Control;
    if steps != [] {
      KeepsControl(s, steps[0]);
      AlwaysControl(Next(s, steps[0]), steps[1..], u);
    }
  }

  /** In a line, what an outer call has left comes before what is done. */
  lemma LeftIsEarlier(s: State, n: nat, i: nat, j: nat)
    requires n > 0 && Ordered(s, n) && i < |s.done| && j < |Pending(s.frames)| && SameHash(s, s.done[i], Pending(s.frames)[j])
    ensures Pending(s.frames)[j] < s.done[i]
  {
    hide Mine, UpTo, Pending;
    var h, ps := s.hashes[s.done[i]], Pending(s.frames);
    assert LineOk(s, n, h) && |s.workers| == n;
    MineAppend(Ahead(s), s.done, s.hashes, h);
    var ts, all := Ahead(s) + s.done, Mine(UpTo(|s.hashes|), s.hashes, h);
    var p0, q0 := |s.handled| + j, |Ahead(s)| + i;
    assert ts[p0] == ps[j] && ts[q0] == s.done[i];
    MineKeepsOrder(ts, s.hashes, h, p0, q0);
    var m := Mine(ts, s.hashes, h);
    var p, q :| 0 <= p < q < |m| && m[p] == ts[p0] && m[q] == ts[q0];
    MineAscends(s.hashes, |s.hashes|, h);
    assert m <= all;
    assert m[p] == all[p] && m[q] == all[q];
  }

  /**
    Order is lost where a call of `OnFrame` overtakes: if it takes over a task with the hash code of one that
    an outer call has left, the main thread can go on in such a way that the later task is handled first.
   */
  lemma OvertakingReorders(s: State, n: nat) returns (steps: seq<Step>, u: State)
    requires n > 0 && Ordered(s, n) && Enabled(s, Enter) && !Orderly(s, Enter)
    ensures OrderlyRun(Next(s, Enter), steps, u) && !InOrder(u)
  {
    hide Pending, Control, Routed, InLine, OrderlyRun, InOrder;
    var ps := Pending(s.frames);
    var i, j :| 0 <= i < |s.done| && 0 <= j < |ps| && SameHash(s, s.done[i], ps[j]);
    LeftIsEarlier(s, n, i, j);
    var t := Next(s, Enter);
    KeepsControl(s, Enter);
    FramePending(s, Enter);
    var a, b := |s.handled| + i, |s.handled| + |s.done| + j;
    Drained(s, t, s.done[i], ps[j], a, b);
    steps, u := Drain(t);
    StillReordered(u, t, a, b);
  }

  lemma Drained(s: State, t: State, x: nat, y: nat, a: nat, b: nat)
    requires t.handled + Pending(t.frames) == s.handled + s.done + Pending(s.frames)
    requires |s.handled| <= a < |s.handled| + |s.done| <= b < |s.handled| + |s.done| + |Pending(s.frames)|
    requires x == s.done[a - |s.handled|] && y == Pending(s.frames)[b - |s.handled| - |s.done|]
    ensures a < b < |t.handled + Pending(t.frames)| && (t.handled + Pending(t.frames))[a] == x && (t.handled + Pending(t.frames))[b] == y
  {
    hide Pending;
  }

  lemma StillReordered(u: State, t: State, a: nat, b: nat)
    requires u.hashes == t.hashes && u.handled == t.handled + Pending(t.frames) && a < b < |u.handled|
    requires SameHash(t, u.handled[a], u.handled[b]) && u.handled[a] > u.handled[b]
    ensures !InOrder(u)
  {
    assert SameHash(u, u.handled[a], u.handled[b]);
  }

  /** Orderly calls only, from `s` on: results stay in order. */
  ghost predicate StaysInOrder(s: State) {
    forall steps, u :: OrderlyRun(s, steps, u) ==> InOrder(u)
  }

  /** Whether a call of `OnFrame` overtakes an outer one is exactly what decides whether results stay in order. */
  lemma EnterDecides(s: State, n: nat)
    requires n > 0 && Ordered(s, n) && Enabled(s, Enter)
    ensures StaysInOrder(Next(s, Enter)) <==> Orderly(s, Enter)
  {
    hide Control, Routed, InLine, Next, OrderlyRun, InOrder, Orderly, Enabled;
    var t := Next(s, Enter);
    if Orderly(s, Enter) {
      EnterOrdered(s, n);
      forall steps, u | OrderlyRun(t, steps, u) ensures InOrder(u) {
        AlwaysOrdered(t, n, steps, u);
        OrderedInOrder(u, n);
      }
    } else {
      var steps, u := OvertakingReorders(s, n);
    }
  }

  lemma EnterOrdered(s: State, n: nat)
    requires n > 0 && Ordered(s, n) && Enabled(s, Enter) && Orderly(s, Enter)
    ensures Ordered(Next(s, Enter), n)
  {
    hide Control, Routed, LineOk, Next, Orderly, Enabled;
    KeepsControl(s, Enter);
    KeepsRouted(s, Enter, n);
    forall h: nat ensures LineOk(Next(s, Enter), n, h) {
      KeepsLine(s, Enter, n, h);
    }
  }

  // ---------- a run that shows it ----------

  /** A callback that calls `OnFrame` while its caller has a task left: the third task is handled before the second. */
  lemma NestedReorders() returns (s: State, steps: seq<Step>, u: State)
    ensures Init(s, 1) && Run(s, steps, u)
    ensures u.hashes == [0, 0, 0] && u.handled == [0, 2, 1]
  {
    s := State(true, [[]], [Check], [], [], Ready, [], [], [], []);
    RunNone(s);
    assert Init(s, 1);
    steps, u := Reordered(s);
  }

  lemma Reordered(s: State) returns (steps: seq<Step>, u: State)
    requires Control(s) && Run(s, [], s) && s.running && s.queues == [[]] && s.workers == [Check] && s.done == [] && s.frames == [] && s.main == Ready
    requires s.hashes == [] && s.ids == [] && s.handled == [] && s.deleted == []
    ensures Run(s, steps, u)
    ensures u.hashes == [0, 0, 0] && u.handled == [0, 2, 1]
  {
    hide *;
    var t;
    steps, t := OneTask(s, [], s);
    steps, t := OneTask(s, steps, t);
    assert t.done == [0, 1] && t.hashes == [0, 0];
    steps, t := EnterAndHandle(s, steps, t);
    assert t.frames == [Frame([0], [1])] && t.done == [] && t.handled == [0];
    steps, t := OneTask(s, steps, t);
    assert t.done == [2] && t.hashes == [0, 0, 0];
    steps, t := EnterAndHandle(s, steps, t);
    assert [2][1..] == [] && t.frames == [Frame([0], [1]), Frame([2], [])] && t.handled == [0, 2];
    AlwaysControl(s, steps, t);
    OneLeft(t.frames);
    var more;
    more, u := Drain(t);
    OrderlyIsRun(t, more, u);
    RunThen(s, steps, t, more, u);
    steps := steps + more;
  }

  lemma OneLeft(fs: seq<Frame>)
    requires fs == [Frame([0], [1]), Frame([2], [])]
    ensures Pending(fs) == [1]
  {
    PendingSnoc([Frame([0], [1])], Frame([2], []));
    PendingSnoc([], Frame([0], [1]));
    assert fs == [Frame([0], [1])] + [Frame([2], [])] && [] + [Frame([0], [1])] == [Frame([0], [1])];
  }
}
