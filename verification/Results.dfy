/**
  Results of expressions: operations on operands, values that come together from
  several jumps, and subexpressions put after each other.
 */
module Results {
  import opened LuaVm
  import opened Simulation
  import opened Expressions
  import opened Codegen
  import opened Conditions

  // ---------- new instructions whose result stays open ----------

  ghost predicate Opens(s: State, m: Main, s': State, m': Main)
    requires Tail(m) <= |s.c| && Tail(m') <= |s'.c|
  {
    forall regs: Regs, meta: Meta, ev: Outcome :: s'.msize <= |regs| && Denotes(m, s.c, s.ks, meta, regs, ev) ==>
      Denotes(m', s'.c, s'.ks, meta, regs, ev)
  }

  /** `s'` is `s` after emitting one relocatable instruction, or a comparison and its jump. */
  ghost predicate OpensAt(s: State, s': State, x: Ctx, m: Main, m': Main) {
    && Tail(m) == 0 && 0 < Tail(m') && |s'.c| == |s.c| + Tail(m')
    && Continues(s, s'.c, s'.pend) && Later(s, s') && s'.js == [] && s'.lt == s.lt
    && m'.Delayed? && m'.k.info == |s'.c| - 1
    && (m'.k.VReloc? ==> IsRelocatable(s'.c[|s.c|]) && (s'.c[|s.c|].ConcatI? ==> s'.c[|s.c|].b == x.n)
                         && forall j :: j in s'.pend ==> j < |s.c|)
    && (m'.k.VJmp? ==> s'.c[|s.c|].CompareI? && s'.c[|s.c| + 1] == Jmp(NO_JUMP) && |s.c| + 1 in s'.pend
                       && forall j :: j in s'.pend ==> j < |s.c| || j == |s.c| + 1)
  }

  /** The last one or two instructions are new and denote what was denoted before them. */
  lemma EmitOpen(s: State, s': State, x: Ctx, m: Main, m': Main, l: Lists, e: Expr, fold: Folder)
    requires Stands(s, x, m, l, e, fold) && OpensAt(s, s', x, m, m') && Opens(s, m, s', m') && Sane(s')
    ensures Stands(s', x, m', l, e, fold)
  {
    var b' := Body(s'.c, m');
    EmitOpenFits(s, s', x, m, m', l);
    hide Sane, Fits, Settles, Opens, Continues;
    forall st: Start, regs: Regs, meta: Meta | IsStart(x, st) && Admissible(s', x, fold, regs, meta)
      ensures Settles(s', x, m', l, Eval(e, regs, meta), regs, meta, ExitOf(b', s'.ks, meta, s'.pend, x, st, regs))
    {
      assert Admissible(s, x, fold, regs, meta);
      AfterEmit(s, x, m, l, b', s'.ks, s'.pend, st, regs, meta);
      EmitOpenExit(s, s', x, m, m', l, Eval(e, regs, meta), regs, meta, ExitOf(s.c, s.ks, meta, s.pend, x, st, regs),
                   ExitOf(b', s'.ks, meta, s'.pend, x, st, regs));
    }
  }

  lemma EmitOpenFits(s: State, s': State, x: Ctx, m: Main, m': Main, l: Lists)
    requires Sane(s) && Fits(s, x, m, l) && OpensAt(s, s', x, m, m')
    ensures Fits(s', x, m', l) && Continues(s, Body(s'.c, m'), s'.pend)
  {
    var b' := Body(s'.c, m');
    ContinuesCut(s, s'.c, b', s'.pend);
    EmitEvolves(s, x, m, l, b', s'.pend);
    if |s.c| > 0 {
      assert IsPatched(s.c, b', Elems(s.js), |s.c|, NO_REG, |s.c|, |s.c| - 1);
    }
  }

  lemma ContinuesCut(s: State, c': seq<Instr>, b': seq<Instr>, pend': set<nat>)
    requires Continues(s, c', pend') && |s.c| == |b'| <= |c'| && b' == c'[..|b'|]
    ensures Continues(s, b', pend')
  {
    forall i | 0 <= i < |s.c| ensures IsPatched(s.c, b', Elems(s.js), |s.c|, NO_REG, |s.c|, i) {
      assert IsPatched(s.c, c', Elems(s.js), |s.c|, NO_REG, |s.c|, i);
    }
  }

  lemma EmitOpenExit(s: State, s': State, x: Ctx, m: Main, m': Main, l: Lists, ev: Outcome, regs: Regs, meta: Meta, o: Exit, y: Exit)
    requires Sane(s) && Tail(m) == 0 && |s'.c| == |s.c| + Tail(m') && Continues(s, s'.c, s'.pend) && s'.js == []
    requires Opens(s, m, s', m') && s'.msize <= |regs|
    requires Settles(s, x, m, l, ev, regs, meta, o)
    requires Resumes(s, o, y, Body(s'.c, m'), s'.ks, meta, s'.pend) && |Body(s'.c, m')| == |s.c|
    ensures Settles(s', x, m', l, ev, regs, meta, y)
  {
    if o.AtJump? && o.j !in s.js {
      CarriesOn(s, s'.c, s'.pend, o.j, o.regs, ev.v);
    } else if o.Fall? || o.AtJump? {
      assert y == Run(Body(s'.c, m'), s'.ks, meta, s'.pend, |s.c|, o.regs) == Fall(o.regs);
      assert Denotes(m, s.c, s.ks, meta, o.regs, ev);
    }
  }

  // ---------- jumps that meet ----------

  /** The instructions `exp2reg` emits when some jump does not carry its value: a jump over two loads. */
  ghost predicate LoadsBools(s: State, c1: seq<Instr>, reg: int, need: bool, over: bool) {
    && s.c <= c1
    && |c1| == |s.c| + (if !need then 0 else if over then 3 else 2)
    && (need && over ==> c1[|s.c|].Jmp?)
    && (need ==> c1[|c1| - 2] == LoadBool(reg, false, true) && c1[|c1| - 1] == LoadBool(reg, true, false))
  }

  /** The end of `exp2reg`, from the moment the main value is in `reg` (or falling through means false). */
  ghost predicate Finishes(s: State, s': State, m: Main, l: Lists, reg: int, need: bool, c1: seq<Instr>, c2: seq<Instr>) {
    && (m == Delayed(VNonReloc(reg)) || (m == JustFalse && need && s.js == []))
    && LoadsBools(s, c1, reg, need, m != JustFalse)
    && Patched(c1, c2, Elems(l.f), |c1|, reg, |c1| - 2) && |c2| == |c1|
    && Patched(c2, s'.c, Elems(l.t), |c1|, reg, |c1| - 1) && |s'.c| == |c1|
    && (!need ==> forall j :: j in l.t || j in l.f ==> j < |s.c| && TestSetBefore(s.c, j))
    && s'.ks == s.ks && s'.nact == s.nact && s'.msize == s.msize
    && s'.lt == |s'.c|
    && s'.js == (if need && m != JustFalse then [|s.c|] + s.js else s.js)
    && s'.pend == s.pend - Elems(l.t) - Elems(l.f) + (if need && m != JustFalse then {|s.c|} else {})
    && 0 <= reg < s.msize
  }

  /** What has become of instruction `i`, and of a jump at `i`. */
  lemma FinishedAt(s: State, s': State, m: Main, l: Lists, reg: int, need: bool, c1: seq<Instr>, c2: seq<Instr>, i: nat)
    requires Linked(s) && Finishes(s, s', m, l, reg, need, c1, c2) && i < |c1| && Apart(l.t, l.f)
    requires forall j :: j in l.t || j in l.f ==> j in s.pend
    ensures i < |s.c| && (i in l.t || i in l.f) ==>
              s'.c[i] == Jmp((if TestSetBefore(s.c, i) then |s'.c| else if i in l.t then |s'.c| - 1 else |s'.c| - 2) - (i + 1))
    ensures i < |s.c| && s.c[i].TestSet? && (i + 1 in l.t || i + 1 in l.f) ==>
              s'.c[i] == if reg != s.c[i].b then TestSet(reg, s.c[i].b, s.c[i].sense) else Test(s.c[i].b, s.c[i].sense)
    ensures !(i in l.t || i in l.f) && !(c1[i].TestSet? && (i + 1 in l.t || i + 1 in l.f)) ==> s'.c[i] == c1[i]
  {
    assert IsPatched(c1, c2, Elems(l.f), |c1|, reg, |c1| - 2, i);
    assert IsPatched(c2, s'.c, Elems(l.t), |c1|, reg, |c1| - 1, i);
    if i > 0 {
      assert IsPatched(c1, c2, Elems(l.f), |c1|, reg, |c1| - 2, i - 1);
    }
  }

  lemma FinishEvolves(s: State, s': State, x: Ctx, m: Main, l: Lists, reg: int, need: bool, c1: seq<Instr>, c2: seq<Instr>)
    requires Sane(s) && Fits(s, x, m, l) && Finishes(s, s', m, l, reg, need, c1, c2)
    ensures Evolves(s.c, s.pend, s'.c, s'.pend, Elems(l.t) + Elems(l.f))
    ensures Grown(x, s'.c, s'.pend)
  {
    var moved := Elems(l.t) + Elems(l.f);
    forall i | 0 <= i < |s.c| ensures EvolvesAt(s.c, s.pend, s'.c, s'.pend, moved, i) {
      FinishedAt(s, s', m, l, reg, need, c1, c2, i);
    }
    GrownStep(x, s.c, s.pend, s'.c, s'.pend, moved);
  }

  lemma FinishSaneAt(s: State, s': State, m: Main, l: Lists, reg: int, need: bool, c1: seq<Instr>, c2: seq<Instr>, i: nat)
    requires Sane(s) && Finishes(s, s', m, l, reg, need, c1, c2) && Apart(l.t, l.f) && i < |c1|
    requires forall j :: j in l.t || j in l.f ==> j in s.pend
    ensures PairedAt(s'.c, i) && TargetAt(s'.c, s'.pend, s'.lt, i) && (i in s'.pend ==> s'.c[i].Jmp?)
  {
    FinishedAt(s, s', m, l, reg, need, c1, c2, i);
    if i < |s.c| {
      assert PairedAt(s.c, i) && TargetAt(s.c, s.pend, s.lt, i);
      if i + 1 < |s.c| {
        FinishedAt(s, s', m, l, reg, need, c1, c2, i + 1);
      }
    }
  }

  lemma FinishSane(s: State, s': State, x: Ctx, m: Main, l: Lists, reg: int, need: bool, c1: seq<Instr>, c2: seq<Instr>)
    requires Sane(s) && Fits(s, x, m, l) && Finishes(s, s', m, l, reg, need, c1, c2)
    requires Chain(s'.c, s'.jpc, s'.js) && AllEncodable(s'.c) && s'.free == s.free
    ensures Sane(s')
  {
    forall i | 0 <= i < |s'.c| ensures PairedAt(s'.c, i) && TargetAt(s'.c, s'.pend, s'.lt, i) && (i in s'.pend ==> s'.c[i].Jmp?) {
      FinishSaneAt(s, s', m, l, reg, need, c1, c2, i);
    }
    hide Finishes, Fits, Paired, Targets;
    if s'.js != s.js {
      DistinctConcat([|s.c|], s.js);
    }
  }

  /** `exp2reg`: whichever way the code is left, the value is now in `reg`. */
  lemma Finish(s: State, s': State, x: Ctx, m: Main, l: Lists, e: Expr, fold: Folder, reg: int, need: bool, c1: seq<Instr>, c2: seq<Instr>)
    requires Stands(s, x, m, l, e, fold) && Finishes(s, s', m, l, reg, need, c1, c2) && x.hole in {-1, reg} && reg < NO_REG
    requires Chain(s'.c, s'.jpc, s'.js) && AllEncodable(s'.c) && s'.free == s.free
    ensures Stands(s', Holed(x, reg), Delayed(VNonReloc(reg)), Lists([], []), e, fold)
  {
    var m', x', l' := Delayed(VNonReloc(reg)), Holed(x, reg), Lists([], []);
    FinishSane(s, s', x, m, l, reg, need, c1, c2);
    FinishFits(s, s', x, m, l, reg, need, c1, c2);
    hide Sane, Fits, Settles, Finishes;
    forall st: Start, regs: Regs, meta: Meta | IsStart(x', st) && Admissible(s', x', fold, regs, meta)
      ensures Settles(s', x', m', l', Eval(e, regs, meta), regs, meta, ExitOf(Body(s'.c, m'), s'.ks, meta, s'.pend, x', st, regs))
    {
      assert Admissible(s, x, fold, regs, meta);
      var ev := Eval(e, regs, meta);
      assert Settles(s, x, m, l, ev, regs, meta, ExitOf(Body(s.c, m), s.ks, meta, s.pend, x, st, regs));
      FinishAt(s, s', x, m, l, ev, regs, meta, reg, need, c1, c2, st);
    }
  }

  lemma FinishFits(s: State, s': State, x: Ctx, m: Main, l: Lists, reg: int, need: bool, c1: seq<Instr>, c2: seq<Instr>)
    requires Sane(s) && Fits(s, x, m, l) && Finishes(s, s', m, l, reg, need, c1, c2)
    ensures Fits(s', Holed(x, reg), Delayed(VNonReloc(reg)), Lists([], []))
  {
    FinishEvolves(s, s', x, m, l, reg, need, c1, c2);
  }

  lemma FinishAt(s: State, s': State, x: Ctx, m: Main, l: Lists, ev: Outcome, regs: Regs, meta: Meta, reg: int, need: bool,
                 c1: seq<Instr>, c2: seq<Instr>, st: Start)
    requires Sane(s) && Fits(s, x, m, l) && Finishes(s, s', m, l, reg, need, c1, c2) && x.hole in {-1, reg} && IsStart(x, st)
    requires s'.msize <= |regs| && reg < NO_REG
    requires Settles(s, x, m, l, ev, regs, meta, ExitOf(s.c, s.ks, meta, s.pend, x, st, regs))
    ensures Settles(s', Holed(x, reg), Delayed(VNonReloc(reg)), Lists([], []), ev, regs, meta,
                    ExitOf(s'.c, s'.ks, meta, s'.pend, x, st, regs))
  {
    FinishEvolves(s, s', x, m, l, reg, need, c1, c2);
    Onwards(s, x, m, l, s'.c, s'.ks, s'.pend, Elems(l.t) + Elems(l.f), st, regs, meta);
    FinishExit(s, s', x, m, l, ev, regs, meta, reg, need, c1, c2, ExitOf(s.c, s.ks, meta, s.pend, x, st, regs),
               ExitOf(s'.c, s'.ks, meta, s'.pend, x, st, regs));
  }

  lemma FinishExit(s: State, s': State, x: Ctx, m: Main, l: Lists, ev: Outcome, regs: Regs, meta: Meta, reg: int, need: bool,
                   c1: seq<Instr>, c2: seq<Instr>, o: Exit, y: Exit)
    requires Sane(s) && Fits(s, x, m, l) && Finishes(s, s', m, l, reg, need, c1, c2) && x.hole in {-1, reg}
    requires s'.msize <= |regs| && reg < NO_REG
    requires Settles(s, x, m, l, ev, regs, meta, o)
    requires Follows(o, y, s.c, s'.c, s'.ks, meta, s.pend, s'.pend, Elems(l.t) + Elems(l.f))
    ensures Settles(s', Holed(x, reg), Delayed(VNonReloc(reg)), Lists([], []), ev, regs, meta, y)
  {
    match o
    case Fall(r) => FinishFall(s, s', x, m, l, ev, regs, meta, reg, need, c1, c2, r);
    case AtJump(j, r) =>
      if j !in s.js {
        FinishJump(s, s', x, m, l, ev, regs, meta, reg, need, c1, c2, j, r);
      }
    case _ =>
  }

  /** Falling through: straight to the end, over the loads, or into the load of false. */
  lemma FinishFall(s: State, s': State, x: Ctx, m: Main, l: Lists, ev: Outcome, regs: Regs, meta: Meta, reg: int, need: bool,
                   c1: seq<Instr>, c2: seq<Instr>, r: Regs)
    requires Sane(s) && Fits(s, x, m, l) && Finishes(s, s', m, l, reg, need, c1, c2) && x.hole in {-1, reg}
    requires s'.msize <= |regs| && Kept(x, regs, r) && Denotes(m, s.c, s.ks, meta, r, ev)
    ensures Settles(s', Holed(x, reg), Delayed(VNonReloc(reg)), Lists([], []), ev, regs, meta,
                    Run(s'.c, s'.ks, meta, s'.pend, |s.c|, r))
  {
    if need {
      FinishFallRun(s, s', m, l, meta, reg, c1, c2, r);
    }
  }

  lemma FinishFallRun(s: State, s': State, m: Main, l: Lists, meta: Meta, reg: int, c1: seq<Instr>, c2: seq<Instr>, r: Regs)
    requires Sane(s) && Finishes(s, s', m, l, reg, true, c1, c2) && Apart(l.t, l.f) && 0 <= reg < |r|
    requires forall j :: j in l.t || j in l.f ==> j in s.pend && j < |s.c|
    ensures Run(s'.c, s'.ks, meta, s'.pend, |s.c|, r) == if m == JustFalse then Fall(r[reg := Bool(false)]) else AtJump(|s.c|, r)
  {
    var q := |s.c|;
    FinishedAt(s, s', m, l, reg, true, c1, c2, q);
    if m == JustFalse {
      var r' := r[reg := Bool(false)];
      assert Step(s'.c, s'.ks, meta, q, r) == Go(q + 2, r');
      assert Run(s'.c, s'.ks, meta, s'.pend, q, r) == Run(s'.c, s'.ks, meta, s'.pend, q + 2, r') == Fall(r');
    } else {
      if q > 0 {
        assert PairedAt(s.c, q - 1);
        FinishedAt(s, s', m, l, reg, true, c1, c2, q - 1);
      }
      assert Step(s'.c, s'.ks, meta, q, r) == PlainJump;
      assert Run(s'.c, s'.ks, meta, s'.pend, q, r) == Jump(s'.c, s'.ks, meta, s'.pend, q, r);
    }
  }

  /** A jump of a list: to the end with the value its TESTSET copies, or to the load of a boolean. */
  lemma FinishJump(s: State, s': State, x: Ctx, m: Main, l: Lists, ev: Outcome, regs: Regs, meta: Meta, reg: int, need: bool,
                   c1: seq<Instr>, c2: seq<Instr>, j: nat, r: Regs)
    requires Sane(s) && Fits(s, x, m, l) && Finishes(s, s', m, l, reg, need, c1, c2) && x.hole in {-1, reg}
    requires s'.msize <= |regs| && Kept(x, regs, r) && j < |s.c| && reg < NO_REG
    requires ev.Val? && (j in l.t || j in l.f) && (j in l.t ==> Truthy(ev.v)) && (j in l.f ==> !Truthy(ev.v)) && Carries(s.c, j, r, ev.v)
    ensures Settles(s', Holed(x, reg), Delayed(VNonReloc(reg)), Lists([], []), ev, regs, meta,
                    Land(s'.c, s'.ks, meta, s'.pend, j, r))
  {
    var r' := r[reg := ev.v];
    assert Land(s'.c, s'.ks, meta, s'.pend, j, r) == Fall(r') by {
      if TestSetBefore(s.c, j) {
        FinishByCopy(s, s', m, l, ev.v, meta, reg, need, c1, c2, j, r);
      } else {
        FinishByLoad(s, s', m, l, ev.v, meta, reg, need, c1, c2, j, r);
      }
    }
  }

  lemma FinishByCopy(s: State, s': State, m: Main, l: Lists, v: Value, meta: Meta, reg: int, need: bool,
                     c1: seq<Instr>, c2: seq<Instr>, j: nat, r: Regs)
    requires Linked(s) && Finishes(s, s', m, l, reg, need, c1, c2) && Apart(l.t, l.f)
    requires forall j :: j in l.t || j in l.f ==> j in s.pend
    requires 0 <= reg < |r| && j < |s.c| && (j in l.t || j in l.f) && TestSetBefore(s.c, j)
    requires Carries(s.c, j, r, v)
    ensures Land(s'.c, s'.ks, meta, s'.pend, j, r) == Fall(r[reg := v])
  {
    var r', final := r[reg := v], |s'.c|;
    FinishedAt(s, s', m, l, reg, need, c1, c2, j);
    FinishedAt(s, s', m, l, reg, need, c1, c2, j - 1);
    assert s'.c[j] == Jmp(final - (j + 1)) && j !in s'.pend;
    assert s.c[j - 1].b == reg ==> r' == r;
    assert Land(s'.c, s'.ks, meta, s'.pend, j, r) == Jump(s'.c, s'.ks, meta, s'.pend, j, r');
    assert Jump(s'.c, s'.ks, meta, s'.pend, j, r') == Run(s'.c, s'.ks, meta, s'.pend, final, r') == Fall(r');
  }

  lemma FinishByLoad(s: State, s': State, m: Main, l: Lists, v: Value, meta: Meta, reg: int, need: bool,
                     c1: seq<Instr>, c2: seq<Instr>, j: nat, r: Regs)
    requires Sane(s) && Finishes(s, s', m, l, reg, need, c1, c2) && Apart(l.t, l.f)
    requires forall j :: j in l.t || j in l.f ==> j in s.pend && j < |s.c|
    requires 0 <= reg < |r| && j < |s.c| && (j in l.t || j in l.f) && !TestSetBefore(s.c, j)
    requires (j in l.t ==> Truthy(v)) && (j in l.f ==> !Truthy(v)) && v.Bool?
    ensures Land(s'.c, s'.ks, meta, s'.pend, j, r) == Fall(r[reg := v])
  {
    var r', final := r[reg := v], |s'.c|;
    var p := if j in l.t then final - 1 else final - 2;
    FinishedAt(s, s', m, l, reg, need, c1, c2, j);
    FinishedAt(s, s', m, l, reg, need, c1, c2, p);
    if j > 0 {
      FinishedAt(s, s', m, l, reg, need, c1, c2, j - 1);
      assert PairedAt(s.c, j - 1);
    }
    assert need && s'.c[j] == Jmp(p - (j + 1)) && j !in s'.pend && j < p < final;
    hide Sane, Finishes;
    assert Land(s'.c, s'.ks, meta, s'.pend, j, r) == Jump(s'.c, s'.ks, meta, s'.pend, j, r);
    assert Jump(s'.c, s'.ks, meta, s'.pend, j, r) == Run(s'.c, s'.ks, meta, s'.pend, p, r);
    assert Step(s'.c, s'.ks, meta, p, r) == Go(final, r');
    assert Run(s'.c, s'.ks, meta, s'.pend, p, r) == Run(s'.c, s'.ks, meta, s'.pend, final, r') == Fall(r');
  }
}
