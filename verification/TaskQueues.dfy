/**
  The Mongo task manager (mongo_task_mgr.cpp) as a system of steps: the main thread submits tasks,
  handles results in `OnFrame` and stops the manager, while worker threads take tasks from their queues.
  A section under a lock is one step. Callbacks run on the main thread and may submit tasks,
  stop the manager or call `OnFrame` again.
 */
module TaskQueues {

  /** Where a worker is in `ThreadLoop`, with the task it holds. */
  datatype Worker = Check | Locking | Running(t: nat) | Finished(t: nat) | Waiting | Exited

  /** Where the main thread is: `Naming` is between `AddTaskToThread` and `SetId`, `Joining` in `Stop`. */
  datatype Main = Ready | Naming | Joining(i: nat)

  /** An active `OnFrame`: the tasks it has taken over, and the one being handled. */
  datatype Frame = Frame(current: seq<nat>, rest: seq<nat>)

  /**
    Tasks are numbered in the order in which they are accepted; `hashes[t]` is the hash code of
    task `t` and `ids[t]` its id. `handled` and `deleted` record the calls of `HandleResult` and `delete`.
   */
  datatype State = State(
    running: bool, queues: seq<seq<nat>>, workers: seq<Worker>, done: seq<nat>,
    frames: seq<Frame>, main: Main,
    hashes: seq<nat>, ids: seq<nat>, handled: seq<nat>, deleted: seq<nat>)

  datatype Step =
    | Submit(hash: nat) | SetId | Enter | Handle | Delete | Leave | StopBegin | Join | Free
    | Look(w: nat) | Pop(w: nat) | Process(w: nat) | Push(w: nat) | Wake(w: nat)

  /** After `Start` with `n` threads. */
  predicate Init(s: State, n: nat) {
    && n > 0 && s.running && |s.queues| == n == |s.workers|
    && (forall w :: 0 <= w < n ==> s.queues[w] == [] && s.workers[w] == Check)
    && s.done == [] && s.frames == [] && s.main == Ready
    && s.hashes == [] && s.ids == [] && s.handled == [] && s.deleted == []
  }

  function Top(s: State): Frame
    requires s.frames != []
  {
    s.frames[|s.frames| - 1]
  }

  function SetTop(s: State, f: Frame): State
    requires s.frames != []
  {
    s.(frames := s.frames[|s.frames| - 1 := f])
  }

  function SetWorker(s: State, w: nat, x: Worker): State
    requires w < |s.workers|
  {
    s.(workers := s.workers[w := x])
  }

  predicate Enabled(s: State, a: Step) {
    match a
    case Submit(_) => s.main == Ready && s.running && |s.queues| > 0
    case SetId => s.main == Naming
    case Enter => s.main == Ready
    case Handle => s.main == Ready && s.frames != [] && Top(s).current == [] && Top(s).rest != []
    case Delete => s.main == Ready && s.frames != [] && Top(s).current != []
    case Leave => s.main == Ready && s.frames != [] && Top(s) == Frame([], [])
    case StopBegin => s.main == Ready && s.running
    case Join => s.main.Joining? && s.main.i < |s.workers| && s.workers[s.main.i] == Exited
    case Free => s.main == Joining(|s.workers|)
    case Look(w) => w < |s.workers| && w < |s.queues| && s.workers[w] == Check
    case Pop(w) => w < |s.workers| && w < |s.queues| && s.workers[w] == Locking
    case Process(w) => w < |s.workers| && s.workers[w].Running?
    case Push(w) => w < |s.workers| && s.workers[w].Finished?
    case Wake(w) => w < |s.workers| && s.workers[w] == Waiting
  }

  function Concat(ss: seq<seq<nat>>): seq<nat> {
    if ss == [] then [] else ss[0] + Concat(ss[1..])
  }

  /** What one step does. `is_exit` of all workers is set exactly while the manager is not running. */
  function Next(s: State, a: Step): State
    requires Enabled(s, a)
  {
    match a
    case Submit(h) =>
      var w := h % |s.queues|;
      s.(hashes := s.hashes + [h], queues := s.queues[w := s.queues[w] + [|s.hashes|]], main := Naming)
    case SetId => s.(ids := s.ids + [|s.ids| + 1], main := Ready)
    case Enter => s.(frames := s.frames + [Frame([], s.done)], done := [])
    case Handle =>
      var f := Top(s);
      SetTop(s, Frame([f.rest[0]], f.rest[1..])).(handled := s.handled + [f.rest[0]])
    case Delete =>
      var f := Top(s);
      SetTop(s, f.(current := [])).(deleted := s.deleted + f.current)
    case Leave => s.(frames := s.frames[..|s.frames| - 1])
    case StopBegin => s.(running := false, main := Joining(0))
    case Join => s.(main := Joining(s.main.i + 1))
    case Free => s.(deleted := s.deleted + Concat(s.queues) + s.done, queues := [], workers := [], done := [], main := Ready)
    case Look(w) => SetWorker(s, w, if !s.running then Exited else if s.queues[w] == [] then Waiting else Locking)
    case Pop(w) =>
      if s.queues[w] == [] then SetWorker(s, w, if s.running then Waiting else Check)
      else SetWorker(s, w, Running(s.queues[w][0])).(queues := s.queues[w := s.queues[w][1..]])
    case Process(w) => SetWorker(s, w, Finished(s.workers[w].t))
    case Push(w) => SetWorker(s, w, Check).(done := s.done + [s.workers[w].t])
    case Wake(w) => SetWorker(s, w, Check)
  }

  /** A run from `s`: each state with the step that leaves it. */
  ghost predicate Run(s: State, steps: seq<Step>, t: State)
    decreases |steps|
  {
    if steps == [] then s == t else Enabled(s, steps[0]) && Run(Next(s, steps[0]), steps[1..], t)
  }

  // ---------- every task is in one place ----------

  function Holds(x: Worker): seq<nat> {
    if x.Running? || x.Finished? then [x.t] else []
  }

  function Held(ws: seq<Worker>): (r: seq<seq<nat>>)
    ensures |r| == |ws|
  {
    seq(|ws|, i requires 0 <= i < |ws| => Holds(ws[i]))
  }

  function Taken(fs: seq<Frame>): (r: seq<seq<nat>>)
    ensures |r| == |fs|
  {
    seq(|fs|, i requires 0 <= i < |fs| => fs[i].current + fs[i].rest)
  }

  function Occ(xs: seq<nat>, t: nat): nat { multiset(xs)[t] }

  function OccAll(ss: seq<seq<nat>>, t: nat): nat {
    if ss == [] then 0 else Occ(ss[0], t) + OccAll(ss[1..], t)
  }

  /** In how many places task `t` is, that of the deleted ones included. */
  function Places(s: State, t: nat): nat {
    OccAll(s.queues, t) + OccAll(Held(s.workers), t) + Occ(s.done, t) + OccAll(Taken(s.frames), t) + Occ(s.deleted, t)
  }

  lemma OccAppend(a: seq<nat>, b: seq<nat>, t: nat)
    ensures Occ(a + b, t) == Occ(a, t) + Occ(b, t)
  {
  }

  lemma OccOne(x: nat, t: nat)
    ensures Occ([x], t) == (if x == t then 1 else 0) && Occ([], t) == 0
  {
  }

  lemma {:induction false} OccConcat(ss: seq<seq<nat>>, t: nat)
    ensures Occ(Concat(ss), t) == OccAll(ss, t)
  {
    if ss != [] {
      OccConcat(ss[1..], t);
      OccAppend(ss[0], Concat(ss[1..]), t);
    }
  }

  lemma {:induction false} AllSnoc(ss: seq<seq<nat>>, x: seq<nat>, t: nat)
    ensures OccAll(ss + [x], t) == OccAll(ss, t) + Occ(x, t)
  {
    if ss == [] {
      assert ([] + [x])[1..] == [];
    } else {
      assert (ss + [x])[1..] == ss[1..] + [x];
      AllSnoc(ss[1..], x, t);
    }
  }

  lemma {:induction false} AllUpdate(ss: seq<seq<nat>>, i: nat, x: seq<nat>, t: nat)
    requires i < |ss|
    ensures OccAll(ss[i := x], t) + Occ(ss[i], t) == OccAll(ss, t) + Occ(x, t)
  {
    if i == 0 {
      assert ss[0 := x][1..] == ss[1..];
    } else {
      assert ss[i := x][1..] == ss[1..][i - 1 := x];
      AllUpdate(ss[1..], i - 1, x, t);
    }
  }

  lemma {:induction false} AllNone(ss: seq<seq<nat>>, t: nat)
    requires forall i :: 0 <= i < |ss| ==> ss[i] == []
    ensures OccAll(ss, t) == 0
  {
    if ss != [] {
      AllNone(ss[1..], t);
    }
  }

  /** What `SetId`, `Stop` and the callbacks rely on. */
  ghost predicate Control(s: State) {
    && |s.queues| == |s.workers|
    && |s.hashes| == |s.ids| + (if s.main == Naming then 1 else 0)
    && (forall t :: 0 <= t < |s.ids| ==> s.ids[t] == t + 1)
    && (forall f :: 0 <= f < |s.frames| ==> |s.frames[f].current| <= 1)
    && (s.running ==> |s.workers| > 0 && !s.main.Joining? && forall w :: 0 <= w < |s.workers| ==> s.workers[w] != Exited)
    && (!s.running && !s.main.Joining? ==> s.workers == [])
    && (s.workers == [] ==> s.done == [])
    && (s.main.Joining? ==> !s.running && s.main.i <= |s.workers| && forall w :: 0 <= w < s.main.i ==> s.workers[w] == Exited)
  }

  /** Every accepted task is in exactly one place. */
  ghost predicate Conserved(s: State) {
    forall t: nat :: Places(s, t) == if t < |s.hashes| then 1 else 0
  }

  /** Tasks that the main thread has taken over have their id: `SetId` never comes too late. */
  ghost predicate Named(s: State) {
    forall t: nat :: OccAll(Taken(s.frames), t) + Occ(s.deleted, t) > 0 ==> t < |s.ids|
  }

  lemma StartsConserved(s: State, n: nat)
    requires Init(s, n)
    ensures Control(s) && Conserved(s) && Named(s)
  {
    forall t: nat ensures Places(s, t) == 0 && OccAll(Taken(s.frames), t) + Occ(s.deleted, t) == 0 {
      AllNone(s.queues, t);
      AllNone(Held(s.workers), t);
      AllNone(Taken(s.frames), t);
    }
  }

  lemma KeepsControl(s: State, a: Step)
    requires Control(s) && Enabled(s, a)
    ensures Control(Next(s, a))
  {
    hide Control, Enabled, Next;
    if OfWorker(a) {
      WorkerKeepsControl(s, a);
    } else {
      MainKeepsControl(s, a);
    }
  }

  predicate OfWorker(a: Step) {
    a.Look? || a.Pop? || a.Process? || a.Push? || a.Wake?
  }

  lemma WorkerKeepsControl(s: State, a: Step)
    requires Control(s) && Enabled(s, a) && OfWorker(a)
    ensures Control(Next(s, a))
  {
  }

  lemma MainKeepsControl(s: State, a: Step)
    requires Control(s) && Enabled(s, a) && !OfWorker(a)
    ensures Control(Next(s, a))
  {
    hide Concat;
  }

  lemma HeldUpdate(s: State, w: nat, x: Worker, t: nat)
    requires w < |s.workers|
    ensures OccAll(Held(SetWorker(s, w, x).workers), t) + Occ(Holds(s.workers[w]), t) == OccAll(Held(s.workers), t) + Occ(Holds(x), t)
  {
    assert Held(SetWorker(s, w, x).workers) == Held(s.workers)[w := Holds(x)];
    AllUpdate(Held(s.workers), w, Holds(x), t);
  }

  lemma TakenUpdate(s: State, f: Frame, t: nat)
    requires s.frames != []
    ensures OccAll(Taken(SetTop(s, f).frames), t) + Occ(Top(s).current + Top(s).rest, t) == OccAll(Taken(s.frames), t) + Occ(f.current + f.rest, t)
  {
    var i := |s.frames| - 1;
    assert Taken(SetTop(s, f).frames) == Taken(s.frames)[i := f.current + f.rest];
    AllUpdate(Taken(s.frames), i, f.current + f.rest, t);
  }

  lemma TakenSnoc(fs: seq<Frame>, f: Frame, t: nat)
    ensures OccAll(Taken(fs + [f]), t) == OccAll(Taken(fs), t) + Occ(f.current, t) + Occ(f.rest, t)
  {
    assert Taken(fs + [f]) == Taken(fs) + [f.current + f.rest];
    AllSnoc(Taken(fs), f.current + f.rest, t);
    OccAppend(f.current, f.rest, t);
  }

  lemma FramePlaces(s: State, a: Step, t: nat)
    requires Control(s) && Enabled(s, a) && (a == Enter || a == Handle || a == Delete || a == Leave)
    ensures Places(Next(s, a), t) == Places(s, t)
  {
    hide OccAll, Held, Taken, Occ, Control;
    var u := Next(s, a);
    OccOne(0, t);
    if a == Enter {
      TakenSnoc(s.frames, Frame([], s.done), t);
    } else if a == Leave {
      assert s.frames == u.frames + [Frame([], [])];
      TakenSnoc(u.frames, Frame([], []), t);
    } else {
      TakenUpdate(s, Top(u), t);
      OccAppend(Top(s).current, Top(s).rest, t);
      OccAppend(Top(u).current, Top(u).rest, t);
      if a == Handle {
        OccAppend([Top(s).rest[0]], Top(s).rest[1..], t);
        assert Top(s).rest == [Top(s).rest[0]] + Top(s).rest[1..];
      } else {
        OccAppend(s.deleted, Top(s).current, t);
      }
    }
  }

  lemma WorkerPlaces(s: State, a: Step, t: nat)
    requires Control(s) && Enabled(s, a) && (a.Look? || a.Pop? || a.Process? || a.Push? || a.Wake?)
    ensures Places(Next(s, a), t) == Places(s, t)
  {
    hide OccAll, Held, Taken, Occ, Control;
    var u := Next(s, a);
    HeldUpdate(s, a.w, u.workers[a.w], t);
    if a.Push? {
      OccAppend(s.done, [s.workers[a.w].t], t);
      OccOne(0, t);
    }
    if a.Pop? && s.queues[a.w] != [] {
      var q := s.queues[a.w];
      AllUpdate(s.queues, a.w, q[1..], t);
      assert q == [q[0]] + q[1..];
      OccAppend([q[0]], q[1..], t);
      OccOne(0, t);
    }
  }

  /** A step only adds the task it accepts. */
  lemma StepPlaces(s: State, a: Step, t: nat)
    requires Control(s) && Enabled(s, a)
    ensures Places(Next(s, a), t) == Places(s, t) + if a.Submit? && t == |s.hashes| then 1 else 0
  {
    hide OccAll, Held, Taken, Occ;
    match a
    case Submit(h) =>
      var w := h % |s.queues|;
      AllUpdate(s.queues, w, s.queues[w] + [|s.hashes|], t);
      OccAppend(s.queues[w], [|s.hashes|], t);
      OccOne(|s.hashes|, t);
    case SetId =>
    case Enter => FramePlaces(s, a, t);
    case Handle => FramePlaces(s, a, t);
    case Delete => FramePlaces(s, a, t);
    case Leave => FramePlaces(s, a, t);
    case StopBegin =>
    case Join =>
    case Free => FreePlaces(s, t);
    case Look(w) => WorkerPlaces(s, a, t);
    case Pop(w) => WorkerPlaces(s, a, t);
    case Process(w) => WorkerPlaces(s, a, t);
    case Push(w) => WorkerPlaces(s, a, t);
    case Wake(w) => WorkerPlaces(s, a, t);
  }

  lemma FreePlaces(s: State, t: nat)
    requires Control(s) && Enabled(s, Free)
    ensures Places(Next(s, Free), t) == Places(s, t)
  {
    hide Taken, OccAll, Occ, Held;
    NoneHeld(s.workers, t);
    OccConcat(s.queues, t);
    OccAppend(s.deleted + Concat(s.queues), s.done, t);
    OccAppend(s.deleted, Concat(s.queues), t);
    OccOne(0, t);
  }

  lemma NoneHeld(ws: seq<Worker>, t: nat)
    requires forall w :: 0 <= w < |ws| ==> ws[w] == Exited
    ensures OccAll(Held(ws), t) == 0 && OccAll(Held([]), t) == 0 && OccAll([], t) == 0
  {
    AllNone(Held(ws), t);
  }

  /** No step loses, copies or invents a task. */
  lemma KeepsConserved(s: State, a: Step)
    requires Control(s) && Conserved(s) && Enabled(s, a)
    ensures Conserved(Next(s, a))
  {
    hide Places;
    forall t: nat ensures Places(Next(s, a), t) == if t < |Next(s, a).hashes| then 1 else 0 {
      StepPlaces(s, a, t);
    }
  }

  lemma KeepsNamed(s: State, a: Step)
    requires Control(s) && Conserved(s) && Named(s) && Enabled(s, a)
    ensures Named(Next(s, a))
  {
    hide OccAll, Occ, Taken, Held;
    var u := Next(s, a);
    KeepsControl(s, a);
    KeepsConserved(s, a);
    forall t: nat | OccAll(Taken(u.frames), t) + Occ(u.deleted, t) > 0 ensures t < |u.ids| {
      assert Places(u, t) == if t < |u.hashes| then 1 else 0;
      if u.main == Naming {
        assert u.frames == s.frames && u.deleted == s.deleted && u.ids == s.ids;
      }
    }
  }

  /** In every run, each accepted task is in exactly one place, and so deleted at most once; `SetId` never meets a deleted task. */
  lemma {:induction false} AlwaysConserved(s: State, steps: seq<Step>, u: State)
    requires Control(s) && Conserved(s) && Named(s) && Run(s, steps, u)
    ensures Control(u) && Conserved(u) && Named(u)
    decreases |steps|
  {
    if steps != [] {
      KeepsControl(s, steps[0]);
      KeepsConserved(s, steps[0]);
      KeepsNamed(s, steps[0]);
      AlwaysConserved(Next(s, steps[0]), steps[1..], u);
    }
  }

  // ---------- no task is handled twice ----------

  /** What the active calls of `OnFrame` still have to handle, in the order in which they will. */
  function Pending(fs: seq<Frame>): seq<nat> {
    if fs == [] then [] else fs[|fs| - 1].rest + Pending(fs[..|fs| - 1])
  }

  lemma PendingSnoc(fs: seq<Frame>, f: Frame)
    ensures Pending(fs + [f]) == f.rest + Pending(fs)
  {
    assert (fs + [f])[..|fs|] == fs;
  }

  /** How often task `t` has been handled, or still will be. */
  function Turns(s: State, t: nat): nat {
    Occ(s.handled, t) + Occ(Pending(s.frames), t) + Occ(s.done, t) + OccAll(Held(s.workers), t) + OccAll(s.queues, t)
  }

  ghost predicate AtMostOnce(s: State) {
    forall t: nat :: Turns(s, t) <= if t < |s.hashes| then 1 else 0
  }

  /** `OnFrame` moves tasks from done to pending to handled, in their order. */
  lemma FramePending(s: State, a: Step)
    requires Control(s) && Enabled(s, a) && (a == Enter || a == Handle || a == Delete || a == Leave)
    ensures var u := Next(s, a);
            && u.handled + Pending(u.frames) == s.handled + (if a == Enter then s.done else []) + Pending(s.frames)
            && u.done == if a == Enter then [] else s.done
  {
    hide Pending, Control;
    var u := Next(s, a);
    if a == Enter {
      PendingSnoc(s.frames, Frame([], s.done));
    } else {
      var below := s.frames[..|s.frames| - 1];
      assert s.frames == below + [Top(s)];
      PendingSnoc(below, Top(s));
      if a != Leave {
        assert u.frames == below + [Top(u)];
        PendingSnoc(below, Top(u));
        if a == Handle {
          assert Top(s).rest == [Top(s).rest[0]] + Top(s).rest[1..];
        }
      }
    }
  }

  lemma FrameTurns(s: State, a: Step, t: nat)
    requires Control(s) && Enabled(s, a) && (a == Enter || a == Handle || a == Delete || a == Leave)
    ensures Turns(Next(s, a), t) == Turns(s, t)
  {
    hide Occ, OccAll, Held, Pending, Control;
    var u := Next(s, a);
    FramePending(s, a);
    OccOne(0, t);
    OccAppend(u.handled, Pending(u.frames), t);
    OccAppend(s.handled + (if a == Enter then s.done else []), Pending(s.frames), t);
    OccAppend(s.handled, if a == Enter then s.done else [], t);
  }

  lemma WorkerTurns(s: State, a: Step, t: nat)
    requires Control(s) && Enabled(s, a) && (a.Look? || a.Pop? || a.Process? || a.Push? || a.Wake?)
    ensures Turns(Next(s, a), t) == Turns(s, t)
  {
    hide OccAll, Held, Taken, Occ, Control, Pending;
    WorkerPlaces(s, a, t);
  }

  /** A step only adds a turn for the task it accepts; `Stop` takes turns away. */
  lemma StepTurns(s: State, a: Step, t: nat)
    requires Control(s) && Enabled(s, a)
    ensures Turns(Next(s, a), t) <= Turns(s, t) + if a.Submit? && t == |s.hashes| then 1 else 0
  {
    hide OccAll, Held, Taken, Occ, Pending, Control;
    match a
    case Submit(h) => StepPlaces(s, a, t);
    case SetId =>
    case Enter => FrameTurns(s, a, t);
    case Handle => FrameTurns(s, a, t);
    case Delete => FrameTurns(s, a, t);
    case Leave => FrameTurns(s, a, t);
    case StopBegin =>
    case Join =>
    case Free => NoneHeld([], t); OccOne(0, t);
    case Look(w) => WorkerTurns(s, a, t);
    case Pop(w) => WorkerTurns(s, a, t);
    case Process(w) => WorkerTurns(s, a, t);
    case Push(w) => WorkerTurns(s, a, t);
    case Wake(w) => WorkerTurns(s, a, t);
  }

  /** In every run, no task is handled twice, or handled and then found waiting somewhere. */
  lemma {:induction false} AlwaysAtMostOnce(s: State, steps: seq<Step>, u: State)
    requires Control(s) && AtMostOnce(s) && Run(s, steps, u)
    ensures AtMostOnce(u)
    decreases |steps|
  {
    hide Turns, Control, Next;
    if steps != [] {
      var v := Next(s, steps[0]);
      KeepsControl(s, steps[0]);
      Accepted(s, steps[0]);
      forall t: nat ensures Turns(v, t) <= if t < |v.hashes| then 1 else 0 {
        StepTurns(s, steps[0], t);
      }
      AlwaysAtMostOnce(v, steps[1..], u);
    }
  }

  lemma Accepted(s: State, a: Step)
    requires Enabled(s, a)
    ensures |Next(s, a).hashes| == |s.hashes| + if a.Submit? then 1 else 0
  {
  }

  lemma HandledOnce(s: State, n: nat, steps: seq<Step>, u: State, i: nat, j: nat)
    requires Init(s, n) && Run(s, steps, u) && i < j < |u.handled|
    ensures u.handled[i] != u.handled[j]
  {
    hide Control, Run, Held;
    StartsConserved(s, n);
    forall t: nat ensures Turns(s, t) == 0 {
      AllNone(s.queues, t);
      IdleHeld(s, n, t);
    }
    AlwaysAtMostOnce(s, steps, u);
    var t := u.handled[i];
    var a, b := u.handled[..j], u.handled[j..];
    assert u.handled == a + b && a[i] == t && b[0] == u.handled[j];
    OccAppend(a, b, t);
    assert t in multiset(a) && b[0] in multiset(b);
    assert Turns(u, t) <= 1;
  }

  lemma IdleHeld(s: State, n: nat, t: nat)
    requires Init(s, n)
    ensures OccAll(Held(s.workers), t) == 0
  {
    AllNone(Held(s.workers), t);
  }
}
