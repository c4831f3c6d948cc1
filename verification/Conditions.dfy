/**
  Conditional jumps: tests on values, jumps of comparisons, going on when a
  condition holds or fails, and negation.
 */
module Conditions {
  import opened LuaVm
  import opened Simulation
  import opened Expressions
  import opened Codegen

  /** One call of `condjump`: a test and its pending jump. */
  ghost predicate EmitsTest(s: State, s': State, i: Instr) {
    && s' == s.(c := s'.c, pend := s'.pend, jpc := NO_JUMP, js := [])
    && |s'.c| == |s.c| + 2
    && s'.c[|s.c|] == i
    && s'.c[|s.c| + 1].Jmp?
    && Patched(s.c, s'.c, Elems(s.js), |s.c|, NO_REG, |s.c|)
    && s'.pend == s.pend - Elems(s.js) + {|s.c| + 1}
    && AllEncodable(s'.c)
  }

  lemma TestSane(s: State, s': State, i: Instr)
    requires Sane(s) && EmitsTest(s, s', i) && IsTest(i)
    ensures Sane(s') && Continues(s, s'.c, s'.pend)
  {
    forall j | j in s'.pend ensures j < |s'.c| && s'.c[j].Jmp? {
      if j < |s.c| { KeepsAt(s, s'.c, s'.pend, j); }
    }
    forall k | 0 <= k < |s'.c| ensures PairedAt(s'.c, k) && TargetAt(s'.c, s'.pend, s.lt, k) {
      if k < |s.c| { KeepsAt(s, s'.c, s'.pend, k); }
    }
  }

  /** The test `i` takes its jump exactly when the value is `cond`, and the jump then carries the value. */
  ghost predicate TestsFor(s: State, s': State, m: Main, i: Instr, cond: bool)
    requires Tail(m) <= |s.c|
  {
    forall regs: Regs, meta: Meta, ev: Outcome :: s.msize <= |regs| && Denotes(m, s.c, s.ks, meta, regs, ev) ==>
      && ev.Val?
      && TakesJump(i, regs, s'.ks, meta) == Val(Bool(Truthy(ev.v) == cond))
      && (if i.TestSet? then IsReg(i.b, regs) && regs[i.b] == ev.v else ev.v.Bool?)
  }

  ghost function AddTo(l: Lists, cond: bool, j: nat): Lists {
    if cond then Lists(l.t + [j], l.f) else Lists(l.t, l.f + [j])
  }

  ghost function Past(cond: bool): Main {
    if cond then WasFalse else WasTrue
  }

  /** `jumponcond`: jump when the value is `cond`, so that going on means that it is not. */
  lemma JumpOnFits(s: State, s': State, x: Ctx, m: Main, l: Lists, i: Instr, cond: bool)
    requires Sane(s) && Fits(s, x, m, l) && Tail(m) == 0 && EmitsTest(s, s', i) && (i.TestSet? || i.Test?) && TestsFor(s, s', m, i, cond)
    ensures Fits(s', x, Past(cond), AddTo(l, cond, |s.c| + 1))
  {
    EmitEvolves(s, x, m, l, s'.c, s'.pend);
  }

  lemma JumpOn(s: State, s': State, x: Ctx, m: Main, l: Lists, e: Expr, fold: Folder, i: Instr, cond: bool)
    requires Stands(s, x, m, l, e, fold) && Tail(m) == 0
    requires EmitsTest(s, s', i) && (i.TestSet? || i.Test?)
    requires TestsFor(s, s', m, i, cond)
    ensures Stands(s', x, Past(cond), AddTo(l, cond, |s.c| + 1), e, fold)
  {
    TestSane(s, s', i);
    var m', l' := Past(cond), AddTo(l, cond, |s.c| + 1);
    JumpOnFits(s, s', x, m, l, i, cond);
    hide Sane, Fits, Settles, EmitsTest, TestsFor;
    forall st: Start, regs: Regs, meta: Meta | IsStart(x, st) && Admissible(s', x, fold, regs, meta)
      ensures Settles(s', x, m', l', Eval(e, regs, meta), regs, meta, ExitOf(Body(s'.c, m'), s'.ks, meta, s'.pend, x, st, regs))
    {
      assert Admissible(s, x, fold, regs, meta);
      AfterEmit(s, x, m, l, s'.c, s'.ks, s'.pend, st, regs, meta);
      JumpOnExit(s, s', x, m, l, Eval(e, regs, meta), i, cond, regs, meta, ExitOf(s.c, s.ks, meta, s.pend, x, st, regs),
                 ExitOf(s'.c, s'.ks, meta, s'.pend, x, st, regs));
    }
  }

  lemma JumpOnExit(s: State, s': State, x: Ctx, m: Main, l: Lists, ev: Outcome, i: Instr, cond: bool, regs: Regs, meta: Meta,
                   o: Exit, y: Exit)
    requires Sane(s) && Tail(m) == 0 && EmitsTest(s, s', i) && (i.TestSet? || i.Test?) && TestsFor(s, s', m, i, cond)
    requires Continues(s, s'.c, s'.pend) && s.msize <= |regs|
    requires forall j :: j in l.t || j in l.f ==> j < |s.c|
    requires Settles(s, x, m, l, ev, regs, meta, o)
    requires Resumes(s, o, y, s'.c, s'.ks, meta, s'.pend)
    ensures Settles(s', x, Past(cond), AddTo(l, cond, |s.c| + 1), ev, regs, meta, y)
  {
    var q := |s.c|;
    if o.AtJump? && o.j !in s.js {
      CarriesOn(s, s'.c, s'.pend, o.j, o.regs, ev.v);
    } else if o.Fall? || o.AtJump? {
      var r := o.regs;
      assert Denotes(m, s.c, s.ks, meta, r, ev);
      assert TakesJump(i, r, s'.ks, meta) == Val(Bool(Truthy(ev.v) == cond));
      if Truthy(ev.v) == cond {
        assert y == Land(s'.c, s'.ks, meta, s'.pend, q + 1, r) == AtJump(q + 1, r);
      } else {
        assert Step(s'.c, s'.ks, meta, q, r) == Go(q + 2, r);
        assert y == Run(s'.c, s'.ks, meta, s'.pend, q + 2, r) == Fall(r);
      }
    }
  }

  /** Dropping an OP_NOT that was just emitted leaves the negation of its operand. */
  lemma DropNot(s: State, s': State, x: Ctx, k: Kind, l: Lists, e: Expr, fold: Folder)
    requires Stands(s, x, Delayed(k), l, e, fold) && k.VReloc?
    requires s.c[|s.c| - 1].UnaryI? && s.c[|s.c| - 1].uop == Not
    requires s' == s.(c := s.c[..|s.c| - 1])
    ensures Stands(s', x, UnaryOf(Not, s.c[|s.c| - 1].b), l, e, fold)
  {
    var m, m' := Delayed(k), UnaryOf(Not, s.c[|s.c| - 1].b);
    DropNotFits(s, s', x, k, l);
    hide Sane, Fits, Settles;
    forall st: Start, regs: Regs, meta: Meta | IsStart(x, st) && Admissible(s', x, fold, regs, meta)
      ensures Settles(s', x, m', l, Eval(e, regs, meta), regs, meta, ExitOf(Body(s'.c, m'), s'.ks, meta, s'.pend, x, st, regs))
    {
      assert Admissible(s, x, fold, regs, meta);
      DropNotExit(s, s', x, k, l, Eval(e, regs, meta), regs, meta, ExitOf(Body(s.c, m), s.ks, meta, s.pend, x, st, regs));
    }
  }

  lemma DropNotFits(s: State, s': State, x: Ctx, k: Kind, l: Lists)
    requires Sane(s) && Fits(s, x, Delayed(k), l) && k.VReloc?
    requires s.c[|s.c| - 1].UnaryI? && s' == s.(c := s.c[..|s.c| - 1])
    ensures Sane(s') && Fits(s', x, UnaryOf(Not, s.c[|s.c| - 1].b), l)
  {
    forall k | 0 <= k < |s'.c| ensures PairedAt(s'.c, k) && TargetAt(s'.c, s'.pend, s.lt, k) && EncodableAt(s'.c, k) {
      assert PairedAt(s.c, k) && TargetAt(s.c, s.pend, s.lt, k) && EncodableAt(s.c, k);
    }
  }

  lemma DropNotExit(s: State, s': State, x: Ctx, k: Kind, l: Lists, ev: Outcome, regs: Regs, meta: Meta, o: Exit)
    requires k.VReloc? && |s.c| > 0 && s.c[|s.c| - 1].UnaryI? && s.c[|s.c| - 1].uop == Not && s' == s.(c := s.c[..|s.c| - 1])
    requires Settles(s, x, Delayed(k), l, ev, regs, meta, o)
    requires o.AtJump? ==> o.j < |s'.c|
    ensures Settles(s', x, UnaryOf(Not, s.c[|s.c| - 1].b), l, ev, regs, meta, o)
  {
  }

  /** A comparison's own jump joins a list: the code now falls through when the comparison yields `!cond`. */
  lemma CloseComparison(s: State, s': State, x: Ctx, k: Kind, l: Lists, e: Expr, fold: Folder, cond: bool)
    requires Stands(s, x, Delayed(k), l, e, fold) && k.VJmp?
    requires s' == s.(c := s'.c) && |s'.c| == |s.c|
    requires forall i :: 0 <= i < |s.c| && i != |s.c| - 2 ==> s'.c[i] == s.c[i]
    requires var i, i' := s.c[|s.c| - 2], s'.c[|s.c| - 2];
             i.CompareI? && i' == CompareI(if cond then i.cond else !i.cond, i.cop, i.b, i.c)
    ensures Stands(s', x, if cond then JustFalse else WasTrue, AddTo(l, cond, |s.c| - 1), e, fold)
  {
    var m, m', l' := Delayed(k), if cond then JustFalse else WasTrue, AddTo(l, cond, |s.c| - 1);
    var b := Body(s.c, m);
    CloseComparisonFits(s, s', x, k, l, cond);
    hide Sane, Fits, Settles;
    forall st: Start, regs: Regs, meta: Meta | IsStart(x, st) && Admissible(s', x, fold, regs, meta)
      ensures Settles(s', x, m', l', Eval(e, regs, meta), regs, meta, ExitOf(Body(s'.c, m'), s'.ks, meta, s'.pend, x, st, regs))
    {
      assert Admissible(s, x, fold, regs, meta);
      Onwards(s, x, m, l, s'.c, s'.ks, s'.pend, {}, st, regs, meta);
      CloseComparisonExit(s, s', x, k, l, Eval(e, regs, meta), cond, regs, meta, ExitOf(b, s.ks, meta, s.pend, x, st, regs),
                          ExitOf(s'.c, s'.ks, meta, s'.pend, x, st, regs));
    }
  }

  lemma CloseComparisonFits(s: State, s': State, x: Ctx, k: Kind, l: Lists, cond: bool)
    requires Sane(s) && Fits(s, x, Delayed(k), l) && k.VJmp?
    requires s' == s.(c := s'.c) && |s'.c| == |s.c|
    requires forall i :: 0 <= i < |s.c| && i != |s.c| - 2 ==> s'.c[i] == s.c[i]
    requires var i, i' := s.c[|s.c| - 2], s'.c[|s.c| - 2];
             i.CompareI? && i' == CompareI(if cond then i.cond else !i.cond, i.cop, i.b, i.c)
    ensures Sane(s') && Fits(s', x, if cond then JustFalse else WasTrue, AddTo(l, cond, |s.c| - 1))
    ensures Evolves(Body(s.c, Delayed(k)), s.pend, s'.c, s'.pend, {})
  {
    var b := Body(s.c, Delayed(k));
    forall i | 0 <= i < |b| ensures EvolvesAt(b, s.pend, s'.c, s'.pend, {}, i) {}
    GrownStep(x, b, s.pend, s'.c, s'.pend, {});
    ComparisonSane(s, s', x, k, l, cond);
    hide Sane;
  }

  lemma ComparisonSane(s: State, s': State, x: Ctx, k: Kind, l: Lists, cond: bool)
    requires Sane(s) && Fits(s, x, Delayed(k), l) && k.VJmp? && s' == s.(c := s'.c) && |s'.c| == |s.c|
    requires forall i :: 0 <= i < |s.c| && i != |s.c| - 2 ==> s'.c[i] == s.c[i]
    requires var i, i' := s.c[|s.c| - 2], s'.c[|s.c| - 2];
             i.CompareI? && i' == CompareI(if cond then i.cond else !i.cond, i.cop, i.b, i.c)
    ensures Sane(s')
  {
    forall k | 0 <= k < |s'.c| ensures PairedAt(s'.c, k) && TargetAt(s'.c, s'.pend, s.lt, k) && EncodableAt(s'.c, k) {
      assert PairedAt(s.c, k) && TargetAt(s.c, s.pend, s.lt, k) && EncodableAt(s.c, k);
    }
  }

  lemma CloseComparisonExit(s: State, s': State, x: Ctx, k: Kind, l: Lists, ev: Outcome, cond: bool, regs: Regs, meta: Meta,
                            o: Exit, y: Exit)
    requires k.VJmp? && |s.c| >= 2 && s.js == [] && s.c[|s.c| - 1].Jmp? && |s.c| - 1 in s.pend
    requires s' == s.(c := s'.c) && |s'.c| == |s.c|
    requires forall i :: 0 <= i < |s.c| && i != |s.c| - 2 ==> s'.c[i] == s.c[i]
    requires var i, i' := s.c[|s.c| - 2], s'.c[|s.c| - 2];
             i.CompareI? && i' == CompareI(if cond then i.cond else !i.cond, i.cop, i.b, i.c)
    requires forall j :: j in l.t || j in l.f ==> j < |s.c| - 2
    requires Settles(s, x, Delayed(k), l, ev, regs, meta, o)
    requires Follows(o, y, Body(s.c, Delayed(k)), s'.c, s'.ks, meta, s.pend, s'.pend, {})
    ensures Settles(s', x, if cond then JustFalse else WasTrue, AddTo(l, cond, |s.c| - 1), ev, regs, meta, y)
  {
    if o.Fall? {
      var q, r := |s.c| - 2, o.regs;
      var t, t' := TakesJump(s.c[q], r, s.ks, meta), TakesJump(s'.c[q], r, s'.ks, meta);
      assert ev == t && y == Run(s'.c, s'.ks, meta, s'.pend, q, r);
      if t.Val? {
        assert t' == Val(Bool(t.v.b == cond));
        if t'.v.b {
          assert y == Land(s'.c, s'.ks, meta, s'.pend, q + 1, r) == AtJump(q + 1, r);
        } else {
          assert Step(s'.c, s'.ks, meta, q, r) == Go(q + 2, r);
          assert y == Run(s'.c, s'.ks, meta, s'.pend, q + 2, r) == Fall(r);
        }
      }
    }
  }

  /** Whatever `m` denotes, `m'` denotes too. */
  ghost predicate Implies(s: State, m: Main, m': Main)
    requires Tail(m) <= |s.c| && Tail(m') <= |s.c|
  {
    forall regs: Regs, meta: Meta, ev: Outcome :: Denotes(m, s.c, s.ks, meta, regs, ev) ==> Denotes(m', s.c, s.ks, meta, regs, ev)
  }

  /** A different reading of the same code. */
  lemma Reread(s: State, x: Ctx, m: Main, m': Main, l: Lists, e: Expr, e': Expr, fold: Folder)
    requires Stands(s, x, m, l, e, fold) && Tail(m) == 0
    requires !m'.Delayed? || m'.k.VNonReloc? || (IsConstant(m'.k) && !m'.k.VK?)
    requires Implies(s, m, m')
    requires forall regs: Regs, meta: Meta :: Eval(e, regs, meta) == Eval(e', regs, meta)
    ensures Stands(s, x, m', l, e', fold)
  {
    assert Fits(s, x, m', l);
    hide Sane, Fits, Settles, Implies;
    forall st: Start, regs: Regs, meta: Meta | IsStart(x, st) && Admissible(s, x, fold, regs, meta)
      ensures Settles(s, x, m', l, Eval(e', regs, meta), regs, meta, ExitOf(Body(s.c, m'), s.ks, meta, s.pend, x, st, regs))
    {
      RereadExit(s, x, m, m', l, Eval(e, regs, meta), regs, meta, ExitOf(s.c, s.ks, meta, s.pend, x, st, regs));
    }
  }

  lemma RereadExit(s: State, x: Ctx, m: Main, m': Main, l: Lists, ev: Outcome, regs: Regs, meta: Meta, o: Exit)
    requires Tail(m) == 0 && Tail(m') == 0 && Implies(s, m, m')
    requires Settles(s, x, m, l, ev, regs, meta, o)
    ensures Settles(s, x, m', l, ev, regs, meta, o)
  {
  }

  // ---------- lists ----------

  /** The pending jumps of an expression. */
  ghost function Own(s: State, l: Lists): set<nat> {
    Elems(l.t) + Elems(l.f) + Elems(s.js)
  }

  /** Only links between these jumps differ. */
  ghost predicate Relinked(c: seq<Instr>, c': seq<Instr>, own: set<nat>) {
    && |c| == |c'|
    && forall i :: 0 <= i < |c| ==> RelinkedAt(c, c', own, i)
  }

  ghost predicate RelinkedAt(c: seq<Instr>, c': seq<Instr>, own: set<nat>, i: nat)
    requires i < |c| == |c'|
  {
    c'[i] == c[i] || (c[i].Jmp? && c'[i].Jmp? && i in own)
  }

  /** `js'` and `l'` are `js` and `l`, or one of the lists has become pending to "here". */
  ghost predicate Closes(s: State, s': State, m: Main, l: Lists, l': Lists) {
    || (s'.js == s.js && s'.lt == s.lt && l' == l)
    || (m == WasTrue && s'.js == s.js + l.t && l' == Lists([], l.f) && s'.lt == |s.c|)
    || (m == WasFalse && s'.js == s.js + l.f && l' == Lists(l.t, []) && s'.lt == |s.c|)
  }

  /** `luaK_concat` and `luaK_patchtohere`: re-linking changes no run. */
  lemma Relink(s: State, s': State, x: Ctx, m: Main, l: Lists, l': Lists, e: Expr, fold: Folder)
    requires Stands(s, x, m, l, e, fold)
    requires s' == s.(c := s'.c, jpc := s'.jpc, js := s'.js, lt := s'.lt) && Closes(s, s', m, l, l')
    requires Relinked(s.c, s'.c, Own(s, l))
    requires Chain(s'.c, s'.jpc, s'.js) && AllEncodable(s'.c)
    ensures Stands(s', x, m, l', e, fold)
  {
    hide Sane, Settles, Relinked, Fits, Closes, Chain;
    RelinkFits(s, s', x, m, l, l');
    OwnBeforeTail(s, s', x, m, l);
    forall st: Start, regs: Regs, meta: Meta | IsStart(x, st) && Admissible(s', x, fold, regs, meta)
      ensures Settles(s', x, m, l', Eval(e, regs, meta), regs, meta, ExitOf(Body(s'.c, m), s'.ks, meta, s'.pend, x, st, regs))
    {
      RelinkAt(s, s', x, m, l, l', e, fold, st, regs, meta);
    }
  }

  lemma OwnBeforeTail(s: State, s': State, x: Ctx, m: Main, l: Lists)
    requires Sane(s) && Fits(s, x, m, l) && Relinked(s.c, s'.c, Own(s, l))
    ensures Tail(m) <= |s.c| == |s'.c| && forall j :: j in Own(s, l) ==> j < |s.c| - Tail(m)
  {
  }

  lemma RelinkAt(s: State, s': State, x: Ctx, m: Main, l: Lists, l': Lists, e: Expr, fold: Folder, st: Start, regs: Regs, meta: Meta)
    requires Stands(s, x, m, l, e, fold)
    requires s' == s.(c := s'.c, jpc := s'.jpc, js := s'.js, lt := s'.lt) && Closes(s, s', m, l, l')
    requires Relinked(s.c, s'.c, Own(s, l)) && Evolves(Body(s.c, m), s.pend, Body(s'.c, m), s'.pend, Own(s, l))
    requires Tail(m) <= |s.c| == |s'.c| && forall j :: j in Own(s, l) ==> j < |s.c| - Tail(m)
    requires IsStart(x, st) && Admissible(s', x, fold, regs, meta)
    ensures Settles(s', x, m, l', Eval(e, regs, meta), regs, meta, ExitOf(Body(s'.c, m), s'.ks, meta, s'.pend, x, st, regs))
  {
    hide Sane, Settles, Relinked, Fits, Closes, Chain;
    assert Admissible(s, x, fold, regs, meta);
    Onwards(s, x, m, l, Body(s'.c, m), s'.ks, s'.pend, Own(s, l), st, regs, meta);
    RelinkExit(s, s', x, m, l, l', Eval(e, regs, meta), regs, meta, ExitOf(Body(s.c, m), s.ks, meta, s.pend, x, st, regs),
               ExitOf(Body(s'.c, m), s'.ks, meta, s'.pend, x, st, regs));
  }

  lemma RelinkFits(s: State, s': State, x: Ctx, m: Main, l: Lists, l': Lists)
    requires Sane(s) && Fits(s, x, m, l)
    requires s' == s.(c := s'.c, jpc := s'.jpc, js := s'.js, lt := s'.lt) && Closes(s, s', m, l, l')
    requires Relinked(s.c, s'.c, Own(s, l))
    requires Chain(s'.c, s'.jpc, s'.js) && AllEncodable(s'.c)
    ensures Sane(s') && Fits(s', x, m, l')
    ensures Evolves(Body(s.c, m), s.pend, Body(s'.c, m), s'.pend, Own(s, l))
  {
    RelinkSane(s, s', x, m, l, l');
    RelinkGrown(s, s', x, m, l);
    if Tail(m) > 0 {
      assert RelinkedAt(s.c, s'.c, Own(s, l), |s.c| - 1);
      if Tail(m) == 2 {
        assert RelinkedAt(s.c, s'.c, Own(s, l), |s.c| - 2);
      }
    }
  }

  lemma RelinkGrown(s: State, s': State, x: Ctx, m: Main, l: Lists)
    requires Sane(s) && Fits(s, x, m, l)
    requires s' == s.(c := s'.c, jpc := s'.jpc, js := s'.js, lt := s'.lt) && (s'.lt == s.lt || s'.lt == |s.c|)
    requires Relinked(s.c, s'.c, Own(s, l))
    ensures Evolves(Body(s.c, m), s.pend, Body(s'.c, m), s'.pend, Own(s, l)) && Grown(x, Body(s'.c, m), s'.pend)
    ensures |Body(s'.c, m)| == |x.c0| && Mergeable(s'.(c := Body(s'.c, m))) ==> x.entry < |x.c0|
  {
    var b, b' := Body(s.c, m), Body(s'.c, m);
    forall i | 0 <= i < |b| ensures EvolvesAt(b, s.pend, b', s'.pend, Own(s, l), i) {
      assert RelinkedAt(s.c, s'.c, Own(s, l), i);
    }
    GrownStep(x, b, s.pend, b', s'.pend, Own(s, l));
    if |b'| == |x.c0| && Mergeable(s'.(c := b')) {
      assert RelinkedAt(s.c, s'.c, Own(s, l), |b| - 1);
    }
  }

  lemma RelinkSane(s: State, s': State, x: Ctx, m: Main, l: Lists, l': Lists)
    requires Sane(s) && Fits(s, x, m, l)
    requires s' == s.(c := s'.c, jpc := s'.jpc, js := s'.js, lt := s'.lt) && Closes(s, s', m, l, l')
    requires Relinked(s.c, s'.c, Own(s, l))
    requires Chain(s'.c, s'.jpc, s'.js) && AllEncodable(s'.c)
    ensures Sane(s')
  {
    if s'.js == s.js + l.t {
      DistinctConcat(s.js, l.t);
    } else if s'.js == s.js + l.f {
      DistinctConcat(s.js, l.f);
    }
    forall i | 0 <= i < |s.c| ensures PairedAt(s'.c, i) && TargetAt(s'.c, s'.pend, s'.lt, i) {
      assert RelinkedAt(s.c, s'.c, Own(s, l), i) && PairedAt(s.c, i) && TargetAt(s.c, s.pend, s.lt, i);
      if i + 1 < |s.c| {
        assert RelinkedAt(s.c, s'.c, Own(s, l), i + 1);
      }
    }
    forall j | j in s.pend ensures j < |s'.c| && s'.c[j].Jmp? {
      assert RelinkedAt(s.c, s'.c, Own(s, l), j);
    }
  }

  lemma RelinkExit(s: State, s': State, x: Ctx, m: Main, l: Lists, l': Lists, ev: Outcome, regs: Regs, meta: Meta, o: Exit, y: Exit)
    requires Tail(m) <= |s.c| && s' == s.(c := s'.c, jpc := s'.jpc, js := s'.js, lt := s'.lt) && Closes(s, s', m, l, l')
    requires Relinked(s.c, s'.c, Own(s, l))
    requires forall j :: j in Own(s, l) ==> j < |s.c| - Tail(m)
    requires Settles(s, x, m, l, ev, regs, meta, o)
    requires Follows(o, y, Body(s.c, m), Body(s'.c, m), s'.ks, meta, s.pend, s'.pend, Own(s, l))
    ensures Settles(s', x, m, l', ev, regs, meta, y)
  {
    if Tail(m) > 0 {
      assert RelinkedAt(s.c, s'.c, Own(s, l), |s.c| - Tail(m));
    }
    if o.AtJump? {
      var b' := Body(s'.c, m);
      assert RelinkedAt(s.c, s'.c, Own(s, l), o.j);
      assert b'[o.j] == s'.c[o.j];
      assert Land(b', s'.ks, meta, s'.pend, o.j, o.regs) == Jump(b', s'.ks, meta, s'.pend, o.j, o.regs);
      assert y == AtJump(o.j, o.regs);
      if 0 < o.j {
        assert RelinkedAt(s.c, s'.c, Own(s, l), o.j - 1);
      }
    }
  }

  // ---------- negation ----------

  ghost function NotOutcome(ev: Outcome): Outcome {
    if ev.Val? then Val(Bool(!Truthy(ev.v))) else ev
  }

  ghost predicate Negates(s: State, m: Main, s': State, m': Main)
    requires Tail(m) <= |s.c| && Tail(m') <= |s'.c|
  {
    forall regs: Regs, meta: Meta, ev: Outcome :: Denotes(m, s.c, s.ks, meta, regs, ev) ==> Denotes(m', s'.c, s'.ks, meta, regs, NotOutcome(ev))
  }

  /** Instruction `i` once the tests before the jumps in `s` produce no value any more (`removevalues`). */
  ghost function RemovedAt(c: seq<Instr>, s: set<nat>, i: nat): Instr
    requires i < |c|
  {
    if c[i].TestSet? && i + 1 in s then Test(c[i].b, c[i].sense) else c[i]
  }

  ghost predicate Removed(c: seq<Instr>, c': seq<Instr>, s: set<nat>, limit: int) {
    && |c| == |c'|
    && forall i :: 0 <= i < |c| && i < limit ==> IsRemoved(c, c', s, i)
  }

  ghost predicate IsRemoved(c: seq<Instr>, c': seq<Instr>, s: set<nat>, i: nat)
    requires i < |c| == |c'|
  {
    c'[i] == RemovedAt(c, s, i)
  }

  /** `codenot`: the main value is negated, the lists change places and lose their values. */
  lemma Negate(s: State, s': State, x: Ctx, m: Main, m': Main, l: Lists, e: Expr, fold: Folder)
    requires Stands(s, x, m, l, e, fold) && Tail(m) == Tail(m')
    requires s' == s.(c := s'.c) && Removed(s.c, s'.c, Elems(l.t) + Elems(l.f), |s.c| - Tail(m)) && Negates(s, m, s', m')
    requires !m'.Delayed? || (IsConstant(m'.k) && !m'.k.VK?) || (m'.k.VJmp? && m == m' && s'.c[|s.c| - 1] == s.c[|s.c| - 1] && s'.c[|s.c| - 2].CompareI?)
    requires AllEncodable(s'.c)
    ensures Stands(s', x, m', Lists(l.f, l.t), UnaryE(Not, e), fold)
  {
    NegateFits(s, s', x, m, m', l);
    var l', e' := Lists(l.f, l.t), UnaryE(Not, e);
    var moved := Elems(l.t) + Elems(l.f);
    hide Sane, Settles, Negates, Removed;
    forall st: Start, regs: Regs, meta: Meta | IsStart(x, st) && Admissible(s', x, fold, regs, meta)
      ensures Settles(s', x, m', l', Eval(e', regs, meta), regs, meta, ExitOf(Body(s'.c, m'), s'.ks, meta, s'.pend, x, st, regs))
    {
      assert Admissible(s, x, fold, regs, meta);
      Onwards(s, x, m, l, Body(s'.c, m'), s'.ks, s'.pend, moved, st, regs, meta);
      assert Eval(e', regs, meta) == NotOutcome(Eval(e, regs, meta));
      NegateExit(s, s', x, m, m', l, Eval(e, regs, meta), regs, meta, ExitOf(Body(s.c, m), s.ks, meta, s.pend, x, st, regs),
                 ExitOf(Body(s'.c, m'), s'.ks, meta, s'.pend, x, st, regs));
    }
  }

  lemma NegateFits(s: State, s': State, x: Ctx, m: Main, m': Main, l: Lists)
    requires Sane(s) && Fits(s, x, m, l) && Tail(m) == Tail(m')
    requires s' == s.(c := s'.c) && Removed(s.c, s'.c, Elems(l.t) + Elems(l.f), |s.c| - Tail(m))
    requires !m'.Delayed? || (IsConstant(m'.k) && !m'.k.VK?) || (m'.k.VJmp? && m == m' && s'.c[|s.c| - 1] == s.c[|s.c| - 1] && s'.c[|s.c| - 2].CompareI?)
    requires AllEncodable(s'.c)
    ensures Sane(s') && Fits(s', x, m', Lists(l.f, l.t))
    ensures Evolves(Body(s.c, m), s.pend, Body(s'.c, m'), s'.pend, Elems(l.t) + Elems(l.f))
  {
    NegateSane(s, s', x, m, l);
    NegateGrown(s, s', x, m, l);
  }

  lemma NegateGrown(s: State, s': State, x: Ctx, m: Main, l: Lists)
    requires Sane(s) && Fits(s, x, m, l)
    requires s' == s.(c := s'.c) && Removed(s.c, s'.c, Elems(l.t) + Elems(l.f), |s.c| - Tail(m))
    ensures Evolves(Body(s.c, m), s.pend, Body(s'.c, m), s'.pend, Elems(l.t) + Elems(l.f)) && Grown(x, Body(s'.c, m), s'.pend)
    ensures |Body(s'.c, m)| == |x.c0| && Mergeable(s'.(c := Body(s'.c, m))) ==> x.entry < |x.c0|
  {
    var b, b', moved := Body(s.c, m), Body(s'.c, m), Elems(l.t) + Elems(l.f);
    forall i | 0 <= i < |b| ensures EvolvesAt(b, s.pend, b', s'.pend, moved, i) {
      assert IsRemoved(s.c, s'.c, moved, i);
    }
    GrownStep(x, b, s.pend, b', s'.pend, moved);
    if |b'| == |x.c0| && Mergeable(s'.(c := b')) {
      assert IsRemoved(s.c, s'.c, moved, |b| - 1);
    }
  }

  lemma NegateSane(s: State, s': State, x: Ctx, m: Main, l: Lists)
    requires Sane(s) && Fits(s, x, m, l)
    requires s' == s.(c := s'.c) && Removed(s.c, s'.c, Elems(l.t) + Elems(l.f), |s.c| - Tail(m))
    requires Tail(m) == 2 ==> s'.c[|s.c| - 1] == s.c[|s.c| - 1] && s'.c[|s.c| - 2].CompareI?
    requires Tail(m) != 1 && AllEncodable(s'.c)
    ensures Sane(s')
  {
    var moved, limit := Elems(l.t) + Elems(l.f), |s.c| - Tail(m);
    forall i | 0 <= i < |s.c|
      ensures PairedAt(s'.c, i) && TargetAt(s'.c, s'.pend, s'.lt, i)
      ensures s.c[i].Jmp? ==> s'.c[i] == s.c[i]
    {
      assert PairedAt(s.c, i) && TargetAt(s.c, s.pend, s.lt, i);
      if i < limit { assert IsRemoved(s.c, s'.c, moved, i); }
      if i + 1 < limit { assert IsRemoved(s.c, s'.c, moved, i + 1); }
    }
    forall i | 0 <= i < |s.js| ensures LinkAt(s'.c, s.js, i) {
      assert LinkAt(s.c, s.js, i);
    }
  }

  lemma NegateExit(s: State, s': State, x: Ctx, m: Main, m': Main, l: Lists, ev: Outcome, regs: Regs, meta: Meta, o: Exit, y: Exit)
    requires Tail(m) == Tail(m') <= |s.c| && s' == s.(c := s'.c)
    requires Removed(s.c, s'.c, Elems(l.t) + Elems(l.f), |s.c| - Tail(m)) && Negates(s, m, s', m')
    requires forall j :: j in l.t || j in l.f ==> j in s.pend && j < |s.c| - Tail(m)
    requires forall j :: j in s.js ==> j !in l.t && j !in l.f
    requires forall j :: j in s.pend ==> j < |s.c| && s.c[j].Jmp?
    requires Settles(s, x, m, l, ev, regs, meta, o)
    requires Follows(o, y, Body(s.c, m), Body(s'.c, m'), s'.ks, meta, s.pend, s'.pend, Elems(l.t) + Elems(l.f))
    ensures Settles(s', x, m', Lists(l.f, l.t), NotOutcome(ev), regs, meta, y)
  {
    if o.AtJump? && o.j !in s.js {
      var moved := Elems(l.t) + Elems(l.f);
      assert o.j in moved && IsRemoved(s.c, s'.c, moved, o.j);
      if 0 < o.j {
        assert IsRemoved(s.c, s'.c, moved, o.j - 1);
      }
      var b' := Body(s'.c, m');
      assert b'[o.j] == s'.c[o.j] == s.c[o.j];
      assert y == Land(b', s'.ks, meta, s'.pend, o.j, o.regs) == Jump(b', s'.ks, meta, s'.pend, o.j, o.regs);
    }
  }
}
