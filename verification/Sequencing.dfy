/**
  Putting the code of one subexpression after the code of another.
 */
module Sequencing {
  import opened LuaVm
  import opened Simulation
  import opened Expressions
  import opened Codegen

  /** An expression that needs no code: a constant or a local variable. */
  lemma Begin(s: State, n: int, k: Kind, e: Expr, fold: Folder)
    requires Sane(s) && s.nact <= n
    requires (IsConstant(k) && ConstantOf(k, s.ks).Val? && e == Literal(ConstantOf(k, s.ks).v))
             || (k.VLocal? && 0 <= k.info < s.nact && e == Local(k.info))
    ensures Stands(s, Context(s, n, -1), Delayed(k), Lists([], []), e, fold)
  {
    var x := Context(s, n, -1);
    var m := Delayed(k);
    BeginFits(s, n, k);
    forall st: Start, regs: Regs, meta: Meta | IsStart(x, st) && Admissible(s, x, fold, regs, meta)
      ensures Settles(s, x, m, Lists([], []), Eval(e, regs, meta), regs, meta, ExitOf(Body(s.c, m), s.ks, meta, s.pend, x, st, regs))
    {
      BeginRun(s, n, st, regs, meta);
    }
  }

  lemma BeginFits(s: State, n: int, k: Kind)
    requires Sane(s) && (k.VK? ==> 0 <= k.info < |s.ks|) && (IsConstant(k) || k.VLocal?)
    ensures Fits(s, Context(s, n, -1), Delayed(k), Lists([], []))
  {
    var x := Context(s, n, -1);
    var c0 := if x.entry == |x.c0| then x.c0 else x.c0[..x.entry];
    var ins := if x.entry == |x.c0| then x.inlets else {};
    forall i | 0 <= i < |c0| ensures EvolvesAt(c0, s.pend, s.c, s.pend, ins, i) {}
    if x.entry < |x.c0| {
      TargetsUp(s.c, s.pend, s.lt, x.entry);
      assert EncodableAt(s.c, x.entry);
    }
  }

  lemma BeginRun(s: State, n: int, st: Start, regs: Regs, meta: Meta)
    requires Sane(s) && IsStart(Context(s, n, -1), st)
    requires Context(s, n, -1).entry < |s.c| ==> NilsAt(s.c[|s.c| - 1], regs)
    ensures var x := Context(s, n, -1);
            ExitOf(s.c, s.ks, meta, s.pend, x, st, regs) == if st.Via? then AtJump(st.j, regs) else Fall(regs)
    ensures st.Via? ==> st.j in s.js
  {
    var x := Context(s, n, -1);
    if st.AtEntry? && x.entry < |s.c| {
      assert Step(s.c, s.ks, meta, x.entry, regs) == Go(|s.c|, regs);
      assert Run(s.c, s.ks, meta, s.pend, x.entry, regs) == Run(s.c, s.ks, meta, s.pend, |s.c|, regs);
    }
  }

  // ---------- from one subexpression on to the next ----------

  /** What becomes of an exit of the first part. */
  ghost predicate Passes(s: State, o: Exit, y: Exit, x2: Ctx, b2: seq<Instr>, ks2: seq<Value>, pend2: set<nat>, meta: Meta) {
    match o
    case Fall(r) => y == Run(b2, ks2, meta, pend2, x2.entry, r) && (x2.entry < |x2.c0| ==> NilsAt(x2.c0[x2.entry], r))
    case AtJump(j, r) => y == if j in s.js then Jump(b2, ks2, meta, pend2, j, r) else o
    case Returned(_) => y == o
    case Raised(_) => y == o
    case Stuck => true
  }

  lemma Through(s1: State, x1: Ctx, m1: Main, l1: Lists, x2: Ctx, b2: seq<Instr>, ks2: seq<Value>, pend2: set<nat>,
                st: Start, regs: Regs, meta: Meta)
    requires Sane(s1) && Fits(s1, x1, m1, l1) && Tail(m1) == 0 && IsStart(x1, st)
    requires x2 == Context(s1, x2.n, x2.hole) && Grown(x2, b2, pend2) && s1.ks <= ks2
    ensures Passes(s1, ExitOf(s1.c, s1.ks, meta, s1.pend, x1, st, regs), ExitOf(b2, ks2, meta, pend2, x1, st, regs),
                   x2, b2, ks2, pend2, meta)
  {
    var o := ExitOf(s1.c, s1.ks, meta, s1.pend, x1, st, regs);
    if x2.entry == |s1.c| {
      Onwards(s1, x1, m1, l1, b2, ks2, pend2, Elems(s1.js), st, regs, meta);
      if o.AtJump? && o.j in s1.js {
        assert o.j in x2.inlets;
        assert Land(b2, ks2, meta, pend2, o.j, o.regs) == Jump(b2, ks2, meta, pend2, o.j, o.regs);
      }
    } else {
      var cut := s1.c[..x2.entry];
      var o1 := ExitOf(cut, s1.ks, meta, s1.pend, x1, st, regs);
      match st {
        case AtEntry =>
          RunCut(s1.c, s1.ks, meta, s1.pend, x1.entry, regs);
          Simulate(cut, s1.ks, s1.pend, b2, ks2, pend2, {}, meta, x1.entry, regs);
        case Via(j) =>
          JumpCut(s1.c, s1.ks, meta, s1.pend, j, regs);
          SimulateJump(cut, s1.ks, s1.pend, b2, ks2, pend2, {}, meta, j, regs);
      }
      if o1.Fall? {
        ThroughNil(s1.c, s1.ks, s1.pend, b2, ks2, pend2, meta, x2.entry, o1.regs);
      }
    }
  }

  /** Executing the widened load from where the original one has been executed makes no difference. */
  lemma ThroughNil(c: seq<Instr>, ks: seq<Value>, pend: set<nat>, c': seq<Instr>, ks': seq<Value>, pend': set<nat>, meta: Meta,
                   q: nat, r: Regs)
    requires |c| == q + 1 <= |c'| && Widened(c[q], c'[q])
    ensures var o := Run(c, ks, meta, pend, q, r);
            o == Stuck || (o.Fall? && NilsAt(c[q], o.regs)
                           && Run(c', ks', meta, pend', q, o.regs) == Run(c', ks', meta, pend', q, r))
  {
    var i, i' := c[q], c'[q];
    var o := Run(c, ks, meta, pend, q, r);
    if i.a + i.b < |r| {
      var r1 := SetNil(r, i.a, i.b);
      assert Step(c, ks, meta, q, r) == Go(q + 1, r1);
      assert o == Run(c, ks, meta, pend, q + 1, r1) == Fall(r1);
      assert SetNil(r1, i.a, i.b) == r1;
      assert SetNil(r1, i'.a, i'.b) == SetNil(r, i'.a, i'.b);
      assert Step(c', ks', meta, q, r) == Step(c', ks', meta, q, r1);
    } else {
      assert Step(c, ks, meta, q, r) == Wrong;
    }
  }

  /** The context of the first part is one of the whole. */
  lemma GrownThrough(s1: State, x1: Ctx, m1: Main, l1: Lists, x2: Ctx, b2: seq<Instr>, pend2: set<nat>)
    requires Sane(s1) && Fits(s1, x1, m1, l1) && Tail(m1) == 0
    requires x2 == Context(s1, x2.n, x2.hole) && Grown(x2, b2, pend2)
    ensures Grown(x1, b2, pend2)
  {
    if x2.entry == |s1.c| {
      GrownStep(x1, s1.c, s1.pend, b2, pend2, Elems(s1.js));
    } else if |x1.c0| < |s1.c| {
      EvolvesCut(x1, s1.c, s1.pend);
      GrownStep(x1, s1.c[..x2.entry], s1.pend, b2, pend2, {});
    } else {
      var c0 := x1.c0[..x1.entry];
      forall i | 0 <= i < |c0| ensures EvolvesAt(c0, x1.pend0, b2, pend2, {}, i) {
        assert EvolvesAt(c0, x1.pend0, s1.c, s1.pend, {}, i);
        assert EvolvesAt(s1.c[..x2.entry], s1.pend, b2, pend2, {}, i);
        if i + 1 < |c0| {
          assert EvolvesAt(s1.c[..x2.entry], s1.pend, b2, pend2, {}, i + 1);
        }
      }
    }
  }

  /** Jumps of the first part that are still pending after it are not touched by the second. */
  lemma Untouched(s1: State, x2: Ctx, b2: seq<Instr>, pend2: set<nat>, j: nat)
    requires Sane(s1) && x2 == Context(s1, x2.n, x2.hole) && Grown(x2, b2, pend2)
    requires j in s1.pend && j !in s1.js
    ensures j < |s1.c| <= |b2| && j in pend2 && b2[j] == s1.c[j] && (j > 0 ==> b2[j - 1] == s1.c[j - 1] || (s1.c[j - 1].Jmp? && b2[j - 1].Jmp?))
  {
    if x2.entry == |s1.c| {
      assert EvolvesAt(s1.c, s1.pend, b2, pend2, x2.inlets, j);
      assert j > 0 ==> EvolvesAt(s1.c, s1.pend, b2, pend2, x2.inlets, j - 1);
    } else {
      assert EvolvesAt(s1.c[..x2.entry], s1.pend, b2, pend2, {}, j);
      assert j > 0 ==> EvolvesAt(s1.c[..x2.entry], s1.pend, b2, pend2, {}, j - 1);
    }
  }

  lemma SequenceFits(s1: State, x1: Ctx, m1: Main, l1: Lists, s2: State, x2: Ctx, m2: Main, l2: Lists)
    requires Sane(s1) && Fits(s1, x1, m1, l1) && Tail(m1) == 0
    requires Sane(s2) && Fits(s2, x2, m2, l2) && x2 == Context(s1, x2.n, -1)
    requires m2.Delayed? && m2.k.VReloc? ==> x2.n == x1.n
    ensures Fits(s2, x1, m2, Lists(l2.t + l1.t, l2.f + l1.f))
  {
    var b2 := Body(s2.c, m2);
    var l := Lists(l2.t + l1.t, l2.f + l1.f);
    GrownThrough(s1, x1, m1, l1, x2, b2, s2.pend);
    forall j | j in l1.t || j in l1.f ensures j in s2.pend && j < |s1.c| && j !in s2.js {
      Untouched(s1, x2, b2, s2.pend, j);
      assert j !in s1.js;
    }
    DistinctConcat(l2.t, l1.t);
    DistinctConcat(l2.f, l1.f);
    assert forall j :: j in l.t <==> j in l2.t || j in l1.t;
    assert forall j :: j in l.f <==> j in l2.f || j in l1.f;
    if |b2| == |x1.c0| && Mergeable(s2.(c := b2)) {
      assert x2.entry < |x2.c0|;
    }
  }

  // ---------- and, or ----------

  ghost function AndValue(x: Outcome, y: Outcome): Outcome {
    if x.Val? && Truthy(x.v) then y else x
  }

  ghost function OrValue(x: Outcome, y: Outcome): Outcome {
    if x.Val? && !Truthy(x.v) then y else x
  }

  /** `e1 and e2`: the code of `e2` follows that of `e1`, whose false exits join those of `e2`. */
  lemma AndThen(s1: State, x1: Ctx, f1: seq<nat>, e1: Expr, s2: State, x2: Ctx, m2: Main, l2: Lists, e2: Expr, fold: Folder)
    requires Stands(s1, x1, WasTrue, Lists([], f1), e1, fold) && x1.hole == -1
    requires Stands(s2, x2, m2, l2, e2, fold) && x2 == Context(s1, x1.n, -1) && Later(s1, s2)
    requires Scoped(e2, x1.n)
    ensures Stands(s2, x1, m2, Lists(l2.t, l2.f + f1), And(e1, e2), fold)
  {
    var l, e := Lists(l2.t, l2.f + f1), And(e1, e2);
    assert l2.t + [] == l2.t;
    SequenceFits(s1, x1, WasTrue, Lists([], f1), s2, x2, m2, l2);
    hide Sane, Fits, Settles;
    forall st: Start, regs: Regs, meta: Meta | IsStart(x1, st) && Admissible(s2, x1, fold, regs, meta)
      ensures Settles(s2, x1, m2, l, Eval(e, regs, meta), regs, meta, ExitOf(Body(s2.c, m2), s2.ks, meta, s2.pend, x1, st, regs))
    {
      assert Admissible(s1, x1, fold, regs, meta);
      assert Settles(s1, x1, WasTrue, Lists([], f1), Eval(e1, regs, meta), regs, meta,
                     ExitOf(Body(s1.c, WasTrue), s1.ks, meta, s1.pend, x1, st, regs));
      AndThenAt(s1, x1, f1, e1, s2, x2, m2, l2, e2, fold, st, regs, meta);
    }
  }

  lemma AndThenAt(s1: State, x1: Ctx, f1: seq<nat>, e1: Expr, s2: State, x2: Ctx, m2: Main, l2: Lists, e2: Expr, fold: Folder,
                  st: Start, regs: Regs, meta: Meta)
    requires Sane(s1) && Fits(s1, x1, WasTrue, Lists([], f1)) && x1.hole == -1 && IsStart(x1, st)
    requires Fits(s2, x2, m2, l2) && Rep(s2, x2, m2, l2, e2, fold) && x2 == Context(s1, x1.n, -1) && Later(s1, s2)
    requires Scoped(e2, x1.n) && s2.msize <= |regs| && Agrees(fold, meta)
    requires Settles(s1, x1, WasTrue, Lists([], f1), Eval(e1, regs, meta), regs, meta, ExitOf(s1.c, s1.ks, meta, s1.pend, x1, st, regs))
    ensures Settles(s2, x1, m2, Lists(l2.t, l2.f + f1), Eval(And(e1, e2), regs, meta), regs, meta,
                    ExitOf(Body(s2.c, m2), s2.ks, meta, s2.pend, x1, st, regs))
  {
    assert Eval(And(e1, e2), regs, meta) == AndValue(Eval(e1, regs, meta), Eval(e2, regs, meta));
    hide Eval, Scoped;
    var ev1, o := Eval(e1, regs, meta), ExitOf(s1.c, s1.ks, meta, s1.pend, x1, st, regs);
    Through(s1, x1, WasTrue, Lists([], f1), x2, Body(s2.c, m2), s2.ks, s2.pend, st, regs, meta);
    hide Rep, Passes, Sane;
    if o.Fall? || (o.AtJump? && o.j in s1.js) {
      SecondScoped(s1, s2, x1, x2, m2, l2, Lists(l2.t, l2.f + f1), e2, fold, st, regs, o, meta);
    } else if o.AtJump? {
      FirstJump(s1, x1, s2, x2, m2, l2, o.j, o.regs, ev1.v);
    }
  }

  /** `e1 or e2`, the other way round. */
  lemma OrElse(s1: State, x1: Ctx, t1: seq<nat>, e1: Expr, s2: State, x2: Ctx, m2: Main, l2: Lists, e2: Expr, fold: Folder)
    requires Stands(s1, x1, WasFalse, Lists(t1, []), e1, fold) && x1.hole == -1
    requires Stands(s2, x2, m2, l2, e2, fold) && x2 == Context(s1, x1.n, -1) && Later(s1, s2)
    requires Scoped(e2, x1.n)
    ensures Stands(s2, x1, m2, Lists(l2.t + t1, l2.f), Or(e1, e2), fold)
  {
    var l, e := Lists(l2.t + t1, l2.f), Or(e1, e2);
    assert l2.f + [] == l2.f;
    SequenceFits(s1, x1, WasFalse, Lists(t1, []), s2, x2, m2, l2);
    hide Sane, Fits, Settles;
    forall st: Start, regs: Regs, meta: Meta | IsStart(x1, st) && Admissible(s2, x1, fold, regs, meta)
      ensures Settles(s2, x1, m2, l, Eval(e, regs, meta), regs, meta, ExitOf(Body(s2.c, m2), s2.ks, meta, s2.pend, x1, st, regs))
    {
      assert Admissible(s1, x1, fold, regs, meta);
      assert Settles(s1, x1, WasFalse, Lists(t1, []), Eval(e1, regs, meta), regs, meta,
                     ExitOf(Body(s1.c, WasFalse), s1.ks, meta, s1.pend, x1, st, regs));
      OrElseAt(s1, x1, t1, e1, s2, x2, m2, l2, e2, fold, st, regs, meta);
    }
  }

  lemma OrElseAt(s1: State, x1: Ctx, t1: seq<nat>, e1: Expr, s2: State, x2: Ctx, m2: Main, l2: Lists, e2: Expr, fold: Folder,
                  st: Start, regs: Regs, meta: Meta)
    requires Sane(s1) && Fits(s1, x1, WasFalse, Lists(t1, [])) && x1.hole == -1 && IsStart(x1, st)
    requires Fits(s2, x2, m2, l2) && Rep(s2, x2, m2, l2, e2, fold) && x2 == Context(s1, x1.n, -1) && Later(s1, s2)
    requires Scoped(e2, x1.n) && s2.msize <= |regs| && Agrees(fold, meta)
    requires Settles(s1, x1, WasFalse, Lists(t1, []), Eval(e1, regs, meta), regs, meta, ExitOf(s1.c, s1.ks, meta, s1.pend, x1, st, regs))
    ensures Settles(s2, x1, m2, Lists(l2.t + t1, l2.f), Eval(Or(e1, e2), regs, meta), regs, meta,
                    ExitOf(Body(s2.c, m2), s2.ks, meta, s2.pend, x1, st, regs))
  {
    assert Eval(Or(e1, e2), regs, meta) == OrValue(Eval(e1, regs, meta), Eval(e2, regs, meta));
    hide Eval, Scoped;
    var ev1, o := Eval(e1, regs, meta), ExitOf(s1.c, s1.ks, meta, s1.pend, x1, st, regs);
    Through(s1, x1, WasFalse, Lists(t1, []), x2, Body(s2.c, m2), s2.ks, s2.pend, st, regs, meta);
    hide Rep, Passes, Sane;
    if o.Fall? || (o.AtJump? && o.j in s1.js) {
      SecondScoped(s1, s2, x1, x2, m2, l2, Lists(l2.t + t1, l2.f), e2, fold, st, regs, o, meta);
    } else if o.AtJump? {
      FirstJump(s1, x1, s2, x2, m2, l2, o.j, o.regs, ev1.v);
    }
  }

  /** A pending jump of the first part still carries its value. */
  lemma FirstJump(s1: State, x1: Ctx, s2: State, x2: Ctx, m2: Main, l2: Lists, j: nat, r: Regs, v: Value)
    requires Sane(s1) && Fits(s2, x2, m2, l2) && x2 == Context(s1, x2.n, -1)
    requires j in s1.pend && j !in s1.js && j < |s1.c| && Carries(s1.c, j, r, v)
    ensures j < |s2.c| && j !in s2.js && Carries(s2.c, j, r, v)
  {
    Untouched(s1, x2, Body(s2.c, m2), s2.pend, j);
  }

  /** When the first part went through with registers `o.regs`, the second part decides. */
  lemma Second(s1: State, s2: State, x1: Ctx, x2: Ctx, m2: Main, l2: Lists, l: Lists, e2: Expr, ev: Outcome, fold: Folder,
               st: Start, regs: Regs, o: Exit, meta: Meta)
    requires Rep(s2, x2, m2, l2, e2, fold) && x2 == Context(s1, x2.n, -1) && x1.n <= x2.n && x1.hole == -1
    requires o.Fall? || (o.AtJump? && o.j in s1.js)
    requires Eval(e2, o.regs, meta) == ev && s2.msize <= |regs| && Agrees(fold, meta)
    requires Kept(x1, regs, o.regs)
    requires Passes(s1, o, ExitOf(Body(s2.c, m2), s2.ks, meta, s2.pend, x1, st, regs), x2, Body(s2.c, m2), s2.ks, s2.pend, meta)
    requires o.AtJump? ==> x2.entry == |x2.c0|
    requires forall j :: j in l2.t ==> j in l.t
    requires forall j :: j in l2.f ==> j in l.f
    requires forall j :: j in l.t && j !in l2.t ==> j < |s1.c| && j !in s1.js
    requires forall j :: j in l.f && j !in l2.f ==> j < |s1.c| && j !in s1.js
    requires forall j :: j in l2.t || j in l2.f ==> |s1.c| <= j
    ensures Settles(s2, x1, m2, l, ev, regs, meta, ExitOf(Body(s2.c, m2), s2.ks, meta, s2.pend, x1, st, regs))
  {
    var st2 := if o.Fall? then AtEntry else Via(o.j);
    var y := ExitOf(Body(s2.c, m2), s2.ks, meta, s2.pend, x2, st2, o.regs);
    assert IsStart(x2, st2) && Admissible(s2, x2, fold, o.regs, meta);
    assert Settles(s2, x2, m2, l2, Eval(e2, o.regs, meta), o.regs, meta, y);
  }

  lemma SecondScoped(s1: State, s2: State, x1: Ctx, x2: Ctx, m2: Main, l2: Lists, l: Lists, e2: Expr, fold: Folder,
               st: Start, regs: Regs, o: Exit, meta: Meta)
    requires Rep(s2, x2, m2, l2, e2, fold) && x2 == Context(s1, x2.n, -1) && x1.n <= x2.n && x1.hole == -1
    requires o.Fall? || (o.AtJump? && o.j in s1.js)
    requires Scoped(e2, x1.n) && s2.msize <= |regs| && Agrees(fold, meta)
    requires Kept(x1, regs, o.regs)
    requires Passes(s1, o, ExitOf(Body(s2.c, m2), s2.ks, meta, s2.pend, x1, st, regs), x2, Body(s2.c, m2), s2.ks, s2.pend, meta)
    requires o.AtJump? ==> x2.entry == |x2.c0|
    requires forall j :: j in l2.t ==> j in l.t
    requires forall j :: j in l2.f ==> j in l.f
    requires forall j :: j in l.t && j !in l2.t ==> j < |s1.c| && j !in s1.js
    requires forall j :: j in l.f && j !in l2.f ==> j < |s1.c| && j !in s1.js
    requires forall j :: j in l2.t || j in l2.f ==> |s1.c| <= j
    ensures Settles(s2, x1, m2, l, Eval(e2, regs, meta), regs, meta, ExitOf(Body(s2.c, m2), s2.ks, meta, s2.pend, x1, st, regs))
  {
    EvalSame(e2, regs, o.regs, x1.n, meta);
    Second(s1, s2, x1, x2, m2, l2, l, e2, Eval(e2, regs, meta), fold, st, regs, o, meta);
  }

  // ---------- operands ----------

  /** Reading the same code as another descriptor of another expression. */
  ghost predicate Maps(s: State, x: Ctx, m: Main, m': Main, e: Expr, e': Expr, fold: Folder)
    requires Tail(m) == Tail(m') == 0
  {
    && (forall regs: Regs, meta: Meta :: s.msize <= |regs| && Eval(e, regs, meta).Err? ==> Eval(e', regs, meta) == Eval(e, regs, meta))
    && (forall regs: Regs, r: Regs, meta: Meta ::
          Agrees(fold, meta) && Kept(x, regs, r) && s.msize <= |regs| && Denotes(m, s.c, s.ks, meta, r, Eval(e, regs, meta)) ==>
            Denotes(m', s.c, s.ks, meta, r, Eval(e', regs, meta)))
  }

  lemma Remap(s: State, x: Ctx, m: Main, m': Main, e: Expr, e': Expr, fold: Folder)
    requires Stands(s, x, m, Lists([], []), e, fold) && Tail(m) == Tail(m') == 0 && Maps(s, x, m, m', e, e', fold)
    requires !m'.Delayed? || (IsConstant(m'.k) && !m'.k.VK?)
    ensures Stands(s, x, m', Lists([], []), e', fold)
  {
    assert Fits(s, x, m', Lists([], []));
    hide Sane, Fits, Settles, Maps;
    forall st: Start, regs: Regs, meta: Meta | IsStart(x, st) && Admissible(s, x, fold, regs, meta)
      ensures Settles(s, x, m', Lists([], []), Eval(e', regs, meta), regs, meta, ExitOf(Body(s.c, m'), s.ks, meta, s.pend, x, st, regs))
    {
      RemapExit(s, x, m, m', e, e', fold, regs, meta, ExitOf(s.c, s.ks, meta, s.pend, x, st, regs));
    }
  }

  lemma RemapExit(s: State, x: Ctx, m: Main, m': Main, e: Expr, e': Expr, fold: Folder, regs: Regs, meta: Meta, o: Exit)
    requires Tail(m) == Tail(m') == 0 && Maps(s, x, m, m', e, e', fold) && Agrees(fold, meta) && s.msize <= |regs|
    requires Settles(s, x, m, Lists([], []), Eval(e, regs, meta), regs, meta, o)
    ensures Settles(s, x, m', Lists([], []), Eval(e', regs, meta), regs, meta, o)
  {
  }

  predicate IsOperand(k: Kind) {
    (k.VNonReloc? && 0 <= k.info < BITRK) || (k.VK? && 0 <= k.info <= MAXINDEXRK)
  }

  /** The RK form of an operand. */
  function OperandRK(k: Kind): int
    requires IsOperand(k)
  {
    if k.VK? then k.info + BITRK else k.info
  }

  /** An expression that reads the operand where it is. */
  ghost function InPlace(k: Kind, ks: seq<Value>): Expr {
    if k.VNonReloc? && k.info >= 0 then Local(k.info) else if ConstantOf(k, ks).Val? then Literal(ConstantOf(k, ks).v) else Literal(Nil)
  }

  ghost function Bin(op: Dyadic, first: Expr, second: Expr, left: bool): Expr {
    if left then Binary(op, first, second) else Binary(op, second, first)
  }

  /** With one operand `k1` in place and the code for the other, both are there. */
  lemma ReadOperands(s: State, x: Ctx, k2: Kind, e2: Expr, fold: Folder, op: Dyadic, k1: Kind, left: bool)
    requires Stands(s, x, Delayed(k2), Lists([], []), e2, fold) && IsOperand(k2) && IsOperand(k1) && x.hole == -1
    requires k1.VNonReloc? ==> k1.info < x.n && k1.info < s.msize
    requires k1.VK? ==> k1.info < |s.ks|
    ensures Stands(s, x, Operands(op, OperandRK(if left then k1 else k2), OperandRK(if left then k2 else k1)), Lists([], []),
                   Bin(op, InPlace(k1, s.ks), e2, left), fold)
  {
    var m', e' := Operands(op, OperandRK(if left then k1 else k2), OperandRK(if left then k2 else k1)), Bin(op, InPlace(k1, s.ks), e2, left);
    forall regs: Regs, meta: Meta | s.msize <= |regs|
      ensures Eval(e', regs, meta) == if left then ApplyBoth(op, Eval(InPlace(k1, s.ks), regs, meta), Eval(e2, regs, meta), meta)
                                      else ApplyBoth(op, Eval(e2, regs, meta), Eval(InPlace(k1, s.ks), regs, meta), meta)
      ensures Eval(InPlace(k1, s.ks), regs, meta) == RK(OperandRK(k1), regs, s.ks)
      ensures RK(OperandRK(k1), regs, s.ks).Val?
    {}
    forall regs: Regs, r: Regs, meta: Meta | Agrees(fold, meta) && Kept(x, regs, r) && s.msize <= |regs|
      && Denotes(Delayed(k2), s.c, s.ks, meta, r, Eval(e2, regs, meta))
      ensures Denotes(m', s.c, s.ks, meta, r, Eval(e', regs, meta))
    {
      assert RK(OperandRK(k1), regs, s.ks) == RK(OperandRK(k1), r, s.ks);
      assert RK(OperandRK(k2), r, s.ks) == Eval(e2, regs, meta);
    }
    Remap(s, x, Delayed(k2), m', e2, e', fold);
  }

  /** The code of the first operand comes before that of an operation that reads it in place. */
  lemma Prefix(s1: State, x1: Ctx, k1: Kind, e1: Expr, s2: State, x2: Ctx, m2: Main, op: Dyadic, e2: Expr, left: bool, fold: Folder)
    requires Stands(s1, x1, Delayed(k1), Lists([], []), e1, fold) && x1.hole == -1 && (k1.VNonReloc? || IsConstant(k1))
    requires Stands(s2, x2, m2, Lists([], []), Bin(op, InPlace(k1, s1.ks), e2, left), fold)
    requires x2 == Context(s1, x2.n, -1) && x1.n <= x2.n && Later(s1, s2) && Scoped(e2, x1.n) && (!left ==> e2.Literal?)
    requires m2.Delayed? && m2.k.VReloc? ==> x2.n == x1.n
    ensures Stands(s2, x1, m2, Lists([], []), Bin(op, e1, e2, left), fold)
  {
    var none := Lists([], []);
    var e := Bin(op, e1, e2, left);
    SequenceFits(s1, x1, Delayed(k1), none, s2, x2, m2, none);
    assert Lists([] + [], [] + []) == none;
    hide Sane, Fits, Settles;
    forall st: Start, regs: Regs, meta: Meta | IsStart(x1, st) && Admissible(s2, x1, fold, regs, meta)
      ensures Settles(s2, x1, m2, none, Eval(e, regs, meta), regs, meta, ExitOf(Body(s2.c, m2), s2.ks, meta, s2.pend, x1, st, regs))
    {
      assert Admissible(s1, x1, fold, regs, meta);
      assert Settles(s1, x1, Delayed(k1), none, Eval(e1, regs, meta), regs, meta,
                     ExitOf(Body(s1.c, Delayed(k1)), s1.ks, meta, s1.pend, x1, st, regs));
      PrefixAt(s1, x1, k1, e1, s2, x2, m2, op, e2, left, fold, st, regs, meta);
    }
  }

  lemma PrefixAt(s1: State, x1: Ctx, k1: Kind, e1: Expr, s2: State, x2: Ctx, m2: Main, op: Dyadic, e2: Expr, left: bool, fold: Folder,
                 st: Start, regs: Regs, meta: Meta)
    requires Sane(s1) && Fits(s1, x1, Delayed(k1), Lists([], [])) && x1.hole == -1 && IsStart(x1, st)
    requires k1.VNonReloc? || IsConstant(k1)
    requires Fits(s2, x2, m2, Lists([], [])) && Rep(s2, x2, m2, Lists([], []), Bin(op, InPlace(k1, s1.ks), e2, left), fold)
    requires x2 == Context(s1, x2.n, -1) && x1.n <= x2.n && Later(s1, s2) && Scoped(e2, x1.n) && (!left ==> e2.Literal?)
    requires s2.msize <= |regs| && Agrees(fold, meta)
    requires Settles(s1, x1, Delayed(k1), Lists([], []), Eval(e1, regs, meta), regs, meta,
                     ExitOf(s1.c, s1.ks, meta, s1.pend, x1, st, regs))
    ensures Settles(s2, x1, m2, Lists([], []), Eval(Bin(op, e1, e2, left), regs, meta), regs, meta,
                    ExitOf(Body(s2.c, m2), s2.ks, meta, s2.pend, x1, st, regs))
  {
    var o := ExitOf(s1.c, s1.ks, meta, s1.pend, x1, st, regs);
    var ev := Eval(Bin(op, e1, e2, left), regs, meta);
    var e := Bin(op, InPlace(k1, s1.ks), e2, left);
    Through(s1, x1, Delayed(k1), Lists([], []), x2, Body(s2.c, m2), s2.ks, s2.pend, st, regs, meta);
    PrefixEval(s1, x1, k1, e1, op, e2, left, regs, o, meta);
    if !o.Raised? {
      Second(s1, s2, x1, x2, m2, Lists([], []), Lists([], []), e, ev, fold, st, regs, o, meta);
    }
  }

  lemma PrefixEval(s1: State, x1: Ctx, k1: Kind, e1: Expr, op: Dyadic, e2: Expr, left: bool, regs: Regs, o: Exit, meta: Meta)
    requires x1.hole == -1 && Scoped(e2, x1.n) && (!left ==> e2.Literal?) && (k1.VNonReloc? || IsConstant(k1))
    requires Settles(s1, x1, Delayed(k1), Lists([], []), Eval(e1, regs, meta), regs, meta, o)
    ensures o.Raised? ==> Eval(Bin(op, e1, e2, left), regs, meta) == Err(o.code)
    ensures o.Fall? || o.AtJump? ==>
              Eval(Bin(op, InPlace(k1, s1.ks), e2, left), o.regs, meta) == Eval(Bin(op, e1, e2, left), regs, meta)
  {
    BinValue(op, e1, e2, left, regs, meta);
    if o.Fall? || o.AtJump? {
      EvalSame(e2, regs, o.regs, x1.n, meta);
      assert Eval(InPlace(k1, s1.ks), o.regs, meta) == Eval(e1, regs, meta);
      BinValue(op, InPlace(k1, s1.ks), e2, left, o.regs, meta);
    }
  }

  lemma BinValue(op: Dyadic, first: Expr, second: Expr, left: bool, regs: Regs, meta: Meta)
    ensures Eval(Bin(op, first, second, left), regs, meta)
            == if left then ApplyBoth(op, Eval(first, regs, meta), Eval(second, regs, meta), meta)
               else ApplyBoth(op, Eval(second, regs, meta), Eval(first, regs, meta), meta)
  {
  }

  // ---------- folding ----------

  /** `constfolding` of an arithmetic operator: integers by `luaO_arith`, floats by the given function. */
  ghost predicate Folds(fold: Folder, op: ArithOp, v1: Value, v2: Value, v: Value) {
    if v1.Int? && v2.Int? && StaysInteger(op) then IntArith(op, v1.i, v2.i) == Val(v) else fold(OnArith(op), v1, v2) == Val(v)
  }

  lemma FoldBinary(s: State, x: Ctx, k2: Kind, e2: Expr, fold: Folder, op: ArithOp, v1: Value, k: Kind)
    requires Stands(s, x, Delayed(k2), Lists([], []), e2, fold) && (k2.VKInt? || k2.VKFlt?) && (k.VKInt? || k.VKFlt?)
    requires Folds(fold, op, v1, ConstantOf(k2, []).v, ConstantOf(k, []).v)
    ensures Stands(s, x, Delayed(k), Lists([], []), Binary(ArithD(op), Literal(v1), e2), fold)
  {
    var e' := Binary(ArithD(op), Literal(v1), e2);
    forall regs: Regs, r: Regs, meta: Meta | Agrees(fold, meta) && Denotes(Delayed(k2), s.c, s.ks, meta, r, Eval(e2, regs, meta))
      ensures Denotes(Delayed(k), s.c, s.ks, meta, r, Eval(e', regs, meta))
    {
      FoldedValue(s, k2, e2, fold, op, v1, k, regs, r, meta);
    }
    forall regs: Regs, meta: Meta | Eval(e2, regs, meta).Err? ensures Eval(e', regs, meta) == Eval(e2, regs, meta) {
      assert Eval(e', regs, meta) == ApplyBoth(ArithD(op), Val(v1), Eval(e2, regs, meta), meta);
    }
    Remap(s, x, Delayed(k2), Delayed(k), e2, e', fold);
  }

  lemma FoldedValue(s: State, k2: Kind, e2: Expr, fold: Folder, op: ArithOp, v1: Value, k: Kind, regs: Regs, r: Regs, meta: Meta)
    requires (k2.VKInt? || k2.VKFlt?) && (k.VKInt? || k.VKFlt?) && Folds(fold, op, v1, ConstantOf(k2, []).v, ConstantOf(k, []).v)
    requires Agrees(fold, meta) && Denotes(Delayed(k2), s.c, s.ks, meta, r, Eval(e2, regs, meta))
    ensures Denotes(Delayed(k), s.c, s.ks, meta, r, Eval(Binary(ArithD(op), Literal(v1), e2), regs, meta))
  {
    var v2 := ConstantOf(k2, []).v;
    assert Eval(e2, regs, meta) == Val(v2);
    assert Eval(Binary(ArithD(op), Literal(v1), e2), regs, meta) == ApplyBoth(ArithD(op), Val(v1), Val(v2), meta);
    assert ApplyBoth(ArithD(op), Val(v1), Val(v2), meta) == Arith(op, v1, v2, meta) == Val(ConstantOf(k, []).v);
  }

  ghost predicate FoldsUnary(fold: Folder, op: UnaryOp, v: Value, r: Value) {
    (op == Minus || op == BNot)
    && if v.Int? then Val(r) == Val(Int(Wrap(if op == Minus then 0 - v.i else -1 - v.i))) else fold(OnUnary(op), v, v) == Val(r)
  }

  lemma FoldUnary(s: State, x: Ctx, k1: Kind, e: Expr, fold: Folder, op: UnaryOp, k: Kind)
    requires Stands(s, x, Delayed(k1), Lists([], []), e, fold) && (k1.VKInt? || k1.VKFlt?) && (k.VKInt? || k.VKFlt?)
    requires FoldsUnary(fold, op, ConstantOf(k1, []).v, ConstantOf(k, []).v)
    ensures Stands(s, x, Delayed(k), Lists([], []), UnaryE(op, e), fold)
  {
    Remap(s, x, Delayed(k1), Delayed(k), e, UnaryE(op, e), fold);
  }

  /** A unary operator is about to be applied to the value in register `r`. */
  lemma ReadOperand(s: State, x: Ctx, r: int, e: Expr, fold: Folder, op: UnaryOp)
    requires Stands(s, x, Delayed(VNonReloc(r)), Lists([], []), e, fold)
    ensures Stands(s, x, UnaryOf(op, r), Lists([], []), UnaryE(op, e), fold)
  {
    Remap(s, x, Delayed(VNonReloc(r)), UnaryOf(op, r), e, UnaryE(op, e), fold);
  }

  // ---------- concatenation ----------

  /** A concatenation takes in the operand to its left: `a .. (b .. c)` becomes one instruction. */
  lemma MergeConcat(s: State, s': State, x: Ctx, k: Kind, e2: Expr, fold: Folder)
    requires Stands(s, x, Delayed(k), Lists([], []), e2, fold) && k.VReloc? && s.c[|s.c| - 1].ConcatI? && 0 < x.n <= s.msize && x.hole == -1
    requires s' == s.(c := s.c[|s.c| - 1 := ConcatI(s.c[|s.c| - 1].a, x.n - 1, s.c[|s.c| - 1].c)])
    ensures Stands(s', x.(n := x.n - 1), Delayed(k), Lists([], []), Binary(ConcatD, Local(x.n - 1), e2), fold)
  {
    var m, x', e := Delayed(k), x.(n := x.n - 1), Binary(ConcatD, Local(x.n - 1), e2);
    forall i | 0 <= i < |s.c| ensures PairedAt(s'.c, i) && TargetAt(s'.c, s'.pend, s'.lt, i) && EncodableAt(s'.c, i) {
      assert PairedAt(s.c, i) && TargetAt(s.c, s.pend, s.lt, i) && EncodableAt(s.c, i);
    }
    assert Sane(s');
    assert Body(s'.c, m) == Body(s.c, m);
    hide Sane, Settles;
    forall st: Start, regs: Regs, meta: Meta | IsStart(x', st) && Admissible(s', x', fold, regs, meta)
      ensures Settles(s', x', m, Lists([], []), Eval(e, regs, meta), regs, meta, ExitOf(Body(s'.c, m), s'.ks, meta, s'.pend, x', st, regs))
    {
      assert Admissible(s, x, fold, regs, meta);
      var o := ExitOf(Body(s.c, m), s.ks, meta, s.pend, x, st, regs);
      assert Settles(s, x, m, Lists([], []), Eval(e2, regs, meta), regs, meta, o);
      MergeConcatExit(s, s', x, k, Eval(e2, regs, meta), regs, meta, o);
      assert Eval(e, regs, meta) == ApplyBoth(ConcatD, Eval(Local(x.n - 1), regs, meta), Eval(e2, regs, meta), meta);
    }
  }

  lemma MergeConcatExit(s: State, s': State, x: Ctx, k: Kind, ev: Outcome, regs: Regs, meta: Meta, o: Exit)
    requires k.VReloc? && |s.c| > 0 && s.c[|s.c| - 1].ConcatI? && s.c[|s.c| - 1].b == x.n && 0 < x.n && x.n - 1 < s.msize <= |regs|
    requires s' == s.(c := s.c[|s.c| - 1 := ConcatI(s.c[|s.c| - 1].a, x.n - 1, s.c[|s.c| - 1].c)]) && x.hole == -1
    requires Settles(s, x, Delayed(k), Lists([], []), ev, regs, meta, o)
    ensures Settles(s', x.(n := x.n - 1), Delayed(k), Lists([], []), ApplyBoth(ConcatD, Val(regs[x.n - 1]), ev, meta), regs, meta, o)
  {
  }

  // ---------- constants ----------

  /** A constant gets an index in the constant table. */
  lemma ToConstantIndex(s: State, s': State, x: Ctx, k: Kind, l: Lists, e: Expr, fold: Folder, i: nat)
    requires Stands(s, x, Delayed(k), l, e, fold) && IsConstant(k)
    requires s' == s.(ks := s'.ks) && s.ks <= s'.ks && |s'.ks| <= MAXARG_Ax
    requires i < |s'.ks| && ConstantOf(k, s'.ks) == Val(s'.ks[i])
    ensures Stands(s', x, Delayed(VK(i)), l, e, fold)
  {
    hide Settles;
    SameEvolves(s);
    forall st: Start, regs: Regs, meta: Meta | IsStart(x, st) && Admissible(s', x, fold, regs, meta)
      ensures Settles(s', x, Delayed(VK(i)), l, Eval(e, regs, meta), regs, meta,
                      ExitOf(Body(s'.c, Delayed(VK(i))), s'.ks, meta, s'.pend, x, st, regs))
    {
      assert Admissible(s, x, fold, regs, meta);
      var o := ExitOf(s.c, s.ks, meta, s.pend, x, st, regs);
      assert Settles(s, x, Delayed(k), l, Eval(e, regs, meta), regs, meta, o);
      Onwards(s, x, Delayed(k), l, s.c, s'.ks, s.pend, {}, st, regs, meta);
      ToConstantIndexExit(s, s', x, k, l, Eval(e, regs, meta), i, regs, meta, o, ExitOf(s'.c, s'.ks, meta, s'.pend, x, st, regs));
    }
  }

  lemma SameEvolves(s: State)
    ensures Evolves(s.c, s.pend, s.c, s.pend, {})
  {
    forall i | 0 <= i < |s.c| ensures EvolvesAt(s.c, s.pend, s.c, s.pend, {}, i) {}
  }

  lemma ToConstantIndexExit(s: State, s': State, x: Ctx, k: Kind, l: Lists, ev: Outcome, i: nat, regs: Regs, meta: Meta, o: Exit, y: Exit)
    requires IsConstant(k) && s' == s.(ks := s'.ks) && s.ks <= s'.ks && i < |s'.ks| && ConstantOf(k, s'.ks) == Val(s'.ks[i])
    requires Settles(s, x, Delayed(k), l, ev, regs, meta, o)
    requires Follows(o, y, s.c, s'.c, s'.ks, meta, s.pend, s'.pend, {})
    ensures Settles(s', x, Delayed(VK(i)), l, ev, regs, meta, y)
  {
  }
}
