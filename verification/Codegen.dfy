/**
  The invariants of the code generator and, for each thing it does to the code of
  an expression, a lemma that says which expression the result stands for.
 */
module Codegen {
  import opened LuaVm
  import opened Simulation
  import opened Expressions

  const MAXREGS := 255

  // ---------- invariants ----------

  ghost predicate Linked(s: State) {
    && 0 <= s.nact <= s.free <= s.msize < MAXREGS
    && (forall j :: j in s.pend ==> j < |s.c| && s.c[j].Jmp?)
    && Chain(s.c, s.jpc, s.js)
    && Distinct(s.js)
    && (forall j :: j in s.js ==> j in s.pend)
    && AllEncodable(s.c)
    && |s.ks| <= MAXARG_Ax
  }

  ghost predicate AllEncodable(c: seq<Instr>) {
    forall i :: 0 <= i < |c| ==> EncodableAt(c, i)
  }

  ghost predicate EncodableAt(c: seq<Instr>, i: nat)
    requires i < |c|
  {
    Encodable(c[i])
  }

  /** Every test is followed by the jump it controls. */
  ghost predicate Paired(c: seq<Instr>) {
    forall i :: 0 <= i < |c| ==> PairedAt(c, i)
  }

  ghost predicate PairedAt(c: seq<Instr>, i: nat)
    requires i < |c|
  {
    IsTest(c[i]) ==> i + 1 < |c| && c[i + 1].Jmp?
  }

  /** Nothing but the previous instruction leads to an address beyond `lt`. */
  ghost predicate Targets(c: seq<Instr>, pend: set<nat>, lt: int) {
    forall i :: 0 <= i < |c| ==> TargetAt(c, pend, lt, i)
  }

  ghost predicate TargetAt(c: seq<Instr>, pend: set<nat>, lt: int, i: nat)
    requires i < |c|
  {
    && (c[i].Jmp? && i !in pend ==> i + 1 + c[i].sbx <= lt)
    && (c[i].LoadBool? && c[i].skip ==> i + 2 <= lt)
  }

  ghost predicate Sane(s: State) {
    && Linked(s)
    && Paired(s.c)
    && Targets(s.c, s.pend, s.lt)
    && 0 <= s.lt <= |s.c|
    && (s.js != [] ==> s.lt == |s.c|)
  }

  /** A nil loaded now would only widen the instruction before. */
  ghost predicate Mergeable(s: State) {
    |s.c| > 0 && s.lt < |s.c| && s.c[|s.c| - 1].LoadNil?
  }

  ghost predicate Widened(i: Instr, i': Instr) {
    && i.LoadNil? && i'.LoadNil?
    && 0 <= i'.a <= i.a && 0 <= i.b && i.a + i.b <= i'.a + i'.b
  }

  /** The code before the expression has only been changed as far as its inlets go. */
  ghost predicate Grown(x: Ctx, c: seq<Instr>, pend: set<nat>) {
    && |x.c0| <= |c|
    && Paired(x.c0)
    && x.inlets <= x.pend0
    && (forall j :: j in x.pend0 ==> j < |x.c0| && x.c0[j].Jmp?)
    && (forall j :: j in x.inlets && j !in pend && j > 0 ==> !c[j - 1].TestSet?)
    && if x.entry == |x.c0| then Evolves(x.c0, x.pend0, c, pend, x.inlets)
       else
         && x.entry + 1 == |x.c0|
         && x.inlets == {}
         && Widened(x.c0[x.entry], c[x.entry])
         && Targets(x.c0, x.pend0, x.entry)
         && Evolves(x.c0[..x.entry], x.pend0, c, pend, {})
  }

  ghost function Context(s: State, n: int, hole: int): Ctx {
    Ctx(s.c, s.pend, Elems(s.js), n, hole, if Mergeable(s) then |s.c| - 1 else |s.c|)
  }

  /** Registers: the expression occupies at most the one above those it must keep. */
  ghost predicate RegsOk(s: State, x: Ctx, m: Main) {
    && s.nact <= x.n
    && if m.Delayed? && m.k.VNonReloc? then (0 <= m.k.info < s.nact && s.free == x.n) || (m.k.info == x.n && s.free == x.n + 1)
       else s.free == x.n && (m.Delayed? && m.k.VLocal? ==> 0 <= m.k.info < s.nact)
  }

  /** Which pending jumps belong to the expression, and where. */
  ghost predicate Fits(s: State, x: Ctx, m: Main, l: Lists) {
    && Tail(m) <= |s.c| - |x.c0|
    && Grown(x, Body(s.c, m), s.pend)
    && (|Body(s.c, m)| == |x.c0| && Mergeable(s.(c := Body(s.c, m))) ==> x.entry < |x.c0|)
    && Distinct(l.t) && Distinct(l.f) && Apart(l.t, l.f) && Apart(l.t, s.js) && Apart(l.f, s.js)
    && (forall j :: j in l.t || j in l.f ==> j in s.pend && |x.c0| <= j < |s.c| - Tail(m))
    && (forall j :: j in s.js ==> j in x.inlets || |x.c0| <= j)
    && (forall j :: j in s.pend ==> (j in x.pend0 && j !in x.inlets) || j in l.t || j in l.f || j in s.js
                                    || (m.Delayed? && m.k.VJmp? && j == m.k.info))
    && (m.Delayed? && m.k.VK? ==> 0 <= m.k.info < |s.ks|)
    && (m.Delayed? && m.k.VReloc? ==>
          s.js == [] && s.lt < |s.c| && m.k.info == |s.c| - 1 && IsRelocatable(s.c[|s.c| - 1])
          && (s.c[|s.c| - 1].ConcatI? ==> s.c[|s.c| - 1].b == x.n))
    && (m.Delayed? && m.k.VJmp? ==>
          s.js == [] && s.lt < |s.c| - 1 && m.k.info == |s.c| - 1 && |s.c| - 1 in s.pend && s.c[|s.c| - 1] == Jmp(NO_JUMP) && s.c[|s.c| - 2].CompareI?)
  }

  ghost predicate Chains(s: State, t: int, f: int, l: Lists) {
    Chain(s.c, t, l.t) && Chain(s.c, f, l.f)
  }

  /** Descriptor `d` with lists `l` stands for `e` in context `x`, registers aside. */
  ghost predicate Stands(s: State, x: Ctx, m: Main, l: Lists, e: Expr, fold: Folder) {
    && Sane(s)
    && Fits(s, x, m, l)
    && Rep(s, x, m, l, e, fold)
  }

  lemma TargetsUp(c: seq<Instr>, pend: set<nat>, lt: int, lt': int)
    requires Targets(c, pend, lt) && lt <= lt'
    ensures Targets(c, pend, lt')
  {
    forall i | 0 <= i < |c| ensures TargetAt(c, pend, lt', i) {
      assert TargetAt(c, pend, lt, i);
    }
  }

  lemma RoomierSane(s: State, s': State, x: Ctx, m: Main, l: Lists)
    requires Sane(s) && Fits(s, x, m, l)
    requires s' == s.(free := s'.free, msize := s'.msize) && s.msize <= s'.msize < MAXREGS && s.nact <= s'.free <= s'.msize
    ensures Sane(s') && Fits(s', x, m, l)
  {
  }

  /** A larger frame and other free registers change nothing. */
  lemma Roomier(s: State, s': State, x: Ctx, m: Main, l: Lists, e: Expr, fold: Folder)
    requires Stands(s, x, m, l, e, fold)
    requires s' == s.(free := s'.free, msize := s'.msize) && s.msize <= s'.msize < MAXREGS && s.nact <= s'.free <= s'.msize
    ensures Stands(s', x, m, l, e, fold)
  {
    hide Sane, Fits;
    RoomierSane(s, s', x, m, l);
    forall st: Start, regs: Regs, meta: Meta | IsStart(x, st) && Admissible(s', x, fold, regs, meta)
      ensures Settles(s', x, m, l, Eval(e, regs, meta), regs, meta, ExitOf(Body(s'.c, m), s'.ks, meta, s'.pend, x, st, regs))
    {
      assert Admissible(s, x, fold, regs, meta);
      assert Settles(s, x, m, l, Eval(e, regs, meta), regs, meta, ExitOf(Body(s.c, m), s.ks, meta, s.pend, x, st, regs));
    }
  }

  // ---------- patching ----------

  ghost predicate TestSetBefore(c: seq<Instr>, j: nat)
    requires j <= |c|
  {
    j > 0 && c[j - 1].TestSet?
  }

  /** Instruction `i` after `patchlistaux` has gone through the jumps in `s`. */
  ghost function PatchedAt(c: seq<Instr>, s: set<nat>, vtarget: int, reg: int, dtarget: int, i: nat): Instr
    requires i < |c|
  {
    if i in s then Jmp((if TestSetBefore(c, i) then vtarget else dtarget) - (i + 1))
    else if c[i].TestSet? && i + 1 in s then
      if reg != NO_REG && reg != c[i].b then TestSet(reg, c[i].b, c[i].sense) else Test(c[i].b, c[i].sense)
    else c[i]
  }

  /** `c'` begins with `c` in which the jumps `s` have been patched. */
  ghost predicate Patched(c: seq<Instr>, c': seq<Instr>, s: set<nat>, vtarget: int, reg: int, dtarget: int) {
    && |c| <= |c'|
    && forall i :: 0 <= i < |c| ==> IsPatched(c, c', s, vtarget, reg, dtarget, i)
  }

  ghost predicate IsPatched(c: seq<Instr>, c': seq<Instr>, s: set<nat>, vtarget: int, reg: int, dtarget: int, i: nat)
    requires i < |c| <= |c'|
  {
    c'[i] == PatchedAt(c, s, vtarget, reg, dtarget, i)
  }

  lemma PatchedEvolves(c: seq<Instr>, pend: set<nat>, c': seq<Instr>, pend': set<nat>, s: set<nat>, vt: int, reg: int, dt: int)
    requires Patched(c, c', s, vt, reg, dt)
    requires forall j :: j in pend ==> j < |c| && c[j].Jmp?
    requires s <= pend
    requires forall j :: j < |c| ==> (j in pend' <==> j in pend && j !in s)
    ensures Evolves(c, pend, c', pend', s)
  {
    forall i | 0 <= i < |c| ensures EvolvesAt(c, pend, c', pend', s, i) {
      assert IsPatched(c, c', s, vt, reg, dt, i);
    }
  }

  /** The same code emitted so far, as seen from a longer or shorter rest. */
  lemma EvolvesPrefix(c: seq<Instr>, pend: set<nat>, c1: seq<Instr>, c2: seq<Instr>, pend1: set<nat>, pend2: set<nat>, moved: set<nat>)
    requires Evolves(c, pend, c1, pend1, moved)
    requires |c| <= |c2| && (forall i :: 0 <= i < |c| ==> c1[i] == c2[i])
    requires forall j :: j <= |c| ==> (j in pend1 <==> j in pend2)
    ensures Evolves(c, pend, c2, pend2, moved)
  {
    forall i | 0 <= i < |c| ensures EvolvesAt(c, pend, c2, pend2, moved, i) {
      assert EvolvesAt(c, pend, c1, pend1, moved, i);
    }
  }

  // ---------- contexts ----------

  /** Rewrites that touch only an expression's own jumps and inlets keep its context. */
  lemma GrownStep(x: Ctx, c: seq<Instr>, pend: set<nat>, c': seq<Instr>, pend': set<nat>, moved: set<nat>)
    requires Grown(x, c, pend)
    requires Evolves(c, pend, c', pend', moved)
    requires forall j :: j in moved ==> j in x.inlets || |x.c0| <= j
    requires forall j :: j in moved && j in x.inlets && j !in pend' && j > 0 ==> !c'[j - 1].TestSet?
    ensures Grown(x, c', pend')
  {
    var c0 := if x.entry == |x.c0| then x.c0 else x.c0[..x.entry];
    var ins := if x.entry == |x.c0| then x.inlets else {};
    forall i | 0 <= i < |c0| ensures EvolvesAt(c0, x.pend0, c', pend', ins, i) {
      assert EvolvesAt(c0, x.pend0, c, pend, ins, i);
      assert EvolvesAt(c, pend, c', pend', moved, i);
      assert PairedAt(x.c0, i);
      if i + 1 < |c| {
        assert EvolvesAt(c, pend, c', pend', moved, i + 1);
      }
    }
    forall j | j in x.inlets && j !in pend' && j > 0 ensures !c'[j - 1].TestSet? {
      assert EvolvesAt(c, pend, c', pend', moved, j - 1);
      assert EvolvesAt(c, pend, c', pend', moved, j);
      assert EvolvesAt(c0, x.pend0, c, pend, ins, j);
    }
    if x.entry < |x.c0| {
      assert EvolvesAt(c, pend, c', pend', moved, x.entry);
    }
  }

  // ---------- what a rewrite does to every run of an expression ----------

  /** Runs of the body continue as `Simulation` says, whichever way they start. */
  lemma Onwards(s: State, x: Ctx, m: Main, l: Lists, c': seq<Instr>, ks': seq<Value>, pend': set<nat>, moved: set<nat>,
                st: Start, regs: Regs, meta: Meta)
    requires Fits(s, x, m, l) && IsStart(x, st)
    requires Evolves(Body(s.c, m), s.pend, c', pend', moved) && s.ks <= ks'
    requires forall j :: j in moved && j in x.inlets && j !in pend' && j > 0 ==> !c'[j - 1].TestSet?
    ensures Follows(ExitOf(Body(s.c, m), s.ks, meta, s.pend, x, st, regs), ExitOf(c', ks', meta, pend', x, st, regs),
                    Body(s.c, m), c', ks', meta, s.pend, pend', moved)
  {
    match st
    case AtEntry => Simulate(Body(s.c, m), s.ks, s.pend, c', ks', pend', moved, meta, x.entry, regs);
    case Via(j) =>
      assert j < |x.c0|;
      SimulateJump(Body(s.c, m), s.ks, s.pend, c', ks', pend', moved, meta, j, regs);
  }

  /** `c'` is `s.c` with the jumps to "here" fixed, and more code. */
  ghost predicate Continues(s: State, c': seq<Instr>, pend': set<nat>) {
    && Patched(s.c, c', Elems(s.js), |s.c|, NO_REG, |s.c|)
    && forall j :: j < |s.c| ==> (j in pend' <==> j in s.pend && j !in s.js)
  }

  /** The run that ended with `o` ends with `y` once code follows. */
  ghost predicate Resumes(s: State, o: Exit, y: Exit, c': seq<Instr>, ks': seq<Value>, meta: Meta, pend': set<nat>) {
    match o
    case Fall(r) => y == Run(c', ks', meta, pend', |s.c|, r)
    case AtJump(j, r) => y == if j in s.js then Run(c', ks', meta, pend', |s.c|, r) else o
    case Returned(_) => y == o
    case Raised(_) => y == o
    case Stuck => true
  }

  /** Emitting code keeps the context, and what fell through, or waited in a jump to "here", runs the new code. */
  lemma EmitEvolves(s: State, x: Ctx, m: Main, l: Lists, c': seq<Instr>, pend': set<nat>)
    requires Sane(s) && Fits(s, x, m, l) && Tail(m) == 0 && Continues(s, c', pend')
    ensures Evolves(s.c, s.pend, c', pend', Elems(s.js)) && Grown(x, c', pend')
    ensures forall j :: j in s.js ==> c'[j] == Jmp(|s.c| - (j + 1)) && (j > 0 ==> !c'[j - 1].TestSet?)
  {
    var moved := Elems(s.js);
    PatchedEvolves(s.c, s.pend, c', pend', moved, |s.c|, NO_REG, |s.c|);
    forall j | j in s.js ensures j in moved && c'[j] == Jmp(|s.c| - (j + 1)) && (j > 0 ==> !c'[j - 1].TestSet?) {
      assert IsPatched(s.c, c', moved, |s.c|, NO_REG, |s.c|, j);
      assert j > 0 ==> IsPatched(s.c, c', moved, |s.c|, NO_REG, |s.c|, j - 1);
    }
    GrownStep(x, s.c, s.pend, c', pend', moved);
  }

  lemma AfterEmit(s: State, x: Ctx, m: Main, l: Lists, c': seq<Instr>, ks': seq<Value>, pend': set<nat>,
                  st: Start, regs: Regs, meta: Meta)
    requires Sane(s) && Fits(s, x, m, l) && Tail(m) == 0 && IsStart(x, st)
    requires Continues(s, c', pend') && s.ks <= ks'
    ensures Resumes(s, ExitOf(s.c, s.ks, meta, s.pend, x, st, regs), ExitOf(c', ks', meta, pend', x, st, regs), c', ks', meta, pend')
  {
    EmitEvolves(s, x, m, l, c', pend');
    Onwards(s, x, m, l, c', ks', pend', Elems(s.js), st, regs, meta);
    var o := ExitOf(s.c, s.ks, meta, s.pend, x, st, regs);
    if o.AtJump? && o.j in s.js {
      assert o.j !in pend';
      assert Land(c', ks', meta, pend', o.j, o.regs) == Jump(c', ks', meta, pend', o.j, o.regs);
    }
  }

  // ---------- values put into registers ----------

  /** One call of `luaK_code`. */
  ghost predicate Emits(s: State, s': State, i: Instr) {
    && s' == s.(c := s'.c, pend := s'.pend, jpc := NO_JUMP, js := [])
    && |s'.c| == |s.c| + 1
    && s'.c[|s.c|] == i
    && Patched(s.c, s'.c, Elems(s.js), |s.c|, NO_REG, |s.c|)
    && s'.pend == s.pend - Elems(s.js)
    && AllEncodable(s'.c)
  }

  ghost predicate IsPlain(i: Instr) {
    !IsTest(i) && !i.Jmp? && (i.LoadBool? ==> !i.skip)
  }

  /** Fixing the jumps to "here" keeps tests paired and targets within `lt`. */
  lemma KeepsAt(s: State, c': seq<Instr>, pend': set<nat>, k: nat)
    requires Sane(s) && Continues(s, c', pend') && k < |s.c|
    ensures PairedAt(c', k) && TargetAt(c', pend', s.lt, k) && (k in pend' ==> c'[k].Jmp?)
  {
    assert IsPatched(s.c, c', Elems(s.js), |s.c|, NO_REG, |s.c|, k) && PairedAt(s.c, k) && TargetAt(s.c, s.pend, s.lt, k);
    if k + 1 < |s.c| {
      assert IsPatched(s.c, c', Elems(s.js), |s.c|, NO_REG, |s.c|, k + 1);
    }
  }

  lemma EmitSane(s: State, s': State, i: Instr)
    requires Sane(s) && Emits(s, s', i) && IsPlain(i)
    ensures Sane(s') && Continues(s, s'.c, s'.pend)
  {
    forall j | j in s'.pend ensures j < |s'.c| && s'.c[j].Jmp? {
      KeepsAt(s, s'.c, s'.pend, j);
    }
    forall k | 0 <= k < |s'.c| ensures PairedAt(s'.c, k) && TargetAt(s'.c, s'.pend, s.lt, k) {
      if k < |s.c| {
        KeepsAt(s, s'.c, s'.pend, k);
      }
    }
  }

  ghost predicate Later(s: State, s': State) {
    && s.ks <= s'.ks && s.nact == s'.nact && s.msize <= s'.msize
  }

  /** The context once the result goes to `reg`, which need not be a free register. */
  ghost function Holed(x: Ctx, reg: int): Ctx {
    if 0 <= reg < x.n then x.(hole := reg) else x
  }

  ghost function KindValue(k: Kind, ks: seq<Value>, regs: Regs): Outcome {
    if k.VNonReloc? || k.VLocal? then (if IsReg(k.info, regs) then Val(regs[k.info]) else Bad) else ConstantOf(k, ks)
  }

  /** Running the code from `q` puts the value of `k` into `reg` and reaches the end. */
  ghost predicate Loads(s: State, q: nat, reg: int, k: Kind) {
    forall regs: Regs, meta: Meta :: s.msize <= |regs| ==> LoadsFrom(s, q, reg, k, regs, meta)
  }

  ghost predicate LoadsFrom(s: State, q: nat, reg: int, k: Kind, regs: Regs, meta: Meta) {
    && IsReg(reg, regs)
    && KindValue(k, s.ks, regs).Val?
    && Run(s.c, s.ks, meta, s.pend, q, regs) == Fall(regs[reg := KindValue(k, s.ks, regs).v])
  }

  /** The jumps of an expression after code was emitted for it; `m'` keeps nothing open or only the new code. */
  lemma EmitFits(s: State, s': State, x: Ctx, m: Main, l: Lists, m': Main, pend': set<nat>)
    requires Sane(s) && Fits(s, x, m, l) && Tail(m) == 0
    requires |s.c| + Tail(m') <= |s'.c| && Continues(s, Body(s'.c, m'), s'.pend) && s'.js == [] && |s.c| < |s'.c|
    requires !m'.Delayed? || m'.k.VNonReloc?
    requires forall j :: j in s'.pend ==> j < |s.c|
    ensures Fits(s', x, m', l)
  {
    EmitEvolves(s, x, m, l, Body(s'.c, m'), s'.pend);
  }

  /** `discharge2reg` for values that a new instruction loads. */
  lemma LoadValue(s: State, s': State, x: Ctx, k: Kind, l: Lists, e: Expr, fold: Folder, reg: int)
    requires Stands(s, x, Delayed(k), l, e, fold) && Tail(Delayed(k)) == 0 && x.hole in {-1, reg}
    requires Sane(s') && Continues(s, s'.c, s'.pend) && Later(s, s') && s'.js == [] && s'.lt == s.lt && |s.c| < |s'.c|
    requires forall j :: j in s'.pend ==> j < |s.c|
    requires Loads(s', |s.c|, reg, k)
    ensures Stands(s', Holed(x, reg), Delayed(VNonReloc(reg)), l, e, fold)
  {
    EmitFits(s, s', x, Delayed(k), l, Delayed(VNonReloc(reg)), s'.pend);
    var m', x' := Delayed(VNonReloc(reg)), Holed(x, reg);
    hide Sane, Fits, Settles, Continues, Loads;
    forall st: Start, regs: Regs, meta: Meta | IsStart(x', st) && Admissible(s', x', fold, regs, meta)
      ensures Settles(s', x', m', l, Eval(e, regs, meta), regs, meta, ExitOf(Body(s'.c, m'), s'.ks, meta, s'.pend, x', st, regs))
    {
      assert Admissible(s, x, fold, regs, meta);
      AfterEmit(s, x, Delayed(k), l, s'.c, s'.ks, s'.pend, st, regs, meta);
      LoadValueExit(s, s', x, k, l, Eval(e, regs, meta), regs, meta, reg, ExitOf(s.c, s.ks, meta, s.pend, x, st, regs),
                    ExitOf(s'.c, s'.ks, meta, s'.pend, x, st, regs));
    }
  }

  lemma LoadValueExit(s: State, s': State, x: Ctx, k: Kind, l: Lists, ev: Outcome, regs: Regs, meta: Meta, reg: int, o: Exit, y: Exit)
    requires Sane(s) && Continues(s, s'.c, s'.pend) && s.ks <= s'.ks && s'.js == []
    requires Tail(Delayed(k)) == 0 && x.hole in {-1, reg} && s'.msize <= |regs|
    requires Settles(s, x, Delayed(k), l, ev, regs, meta, o)
    requires Resumes(s, o, y, s'.c, s'.ks, meta, s'.pend)
    requires Loads(s', |s.c|, reg, k)
    ensures Settles(s', Holed(x, reg), Delayed(VNonReloc(reg)), l, ev, regs, meta, y)
  {
    if o.AtJump? && o.j !in s.js {
      CarriesOn(s, s'.c, s'.pend, o.j, o.regs, ev.v);
    } else if o.Fall? || o.AtJump? {
      assert LoadsFrom(s', |s.c|, reg, k, o.regs, meta);
    }
  }

  /** Patching the jumps to "here" does not disturb what other pending jumps carry. */
  lemma CarriesOn(s: State, c': seq<Instr>, pend': set<nat>, j: nat, regs: Regs, v: Value)
    requires Sane(s) && Continues(s, c', pend') && j < |s.c| && j !in s.js
    requires Carries(s.c, j, regs, v)
    ensures Carries(c', j, regs, v)
  {
    if j > 0 {
      assert IsPatched(s.c, c', Elems(s.js), |s.c|, NO_REG, |s.c|, j - 1);
    }
  }

  // ---------- instructions that choose their register later ----------

  /** `discharge2reg` for a relocatable instruction: it gets its register. */
  lemma SetTarget(s: State, s': State, x: Ctx, k: Kind, l: Lists, e: Expr, fold: Folder, reg: int)
    requires Stands(s, x, Delayed(k), l, e, fold) && k.VReloc? && x.hole in {-1, reg} && 0 <= reg < s.msize
    requires s' == s.(c := s'.c) && |s'.c| == |s.c|
    requires Produces(s.c[|s.c| - 1], s'.c[|s.c| - 1], reg)
    requires forall i :: 0 <= i < |s.c| - 1 ==> s'.c[i] == s.c[i]
    requires Sane(s')
    ensures Stands(s', Holed(x, reg), Delayed(VNonReloc(reg)), l, e, fold)
  {
    var m, m', x' := Delayed(k), Delayed(VNonReloc(reg)), Holed(x, reg);
    SetTargetFits(s, s', x, k, l, reg);
    hide Sane, Fits, Settles;
    forall st: Start, regs: Regs, meta: Meta | IsStart(x', st) && Admissible(s', x', fold, regs, meta)
      ensures Settles(s', x', m', l, Eval(e, regs, meta), regs, meta, ExitOf(Body(s'.c, m'), s'.ks, meta, s'.pend, x', st, regs))
    {
      assert Admissible(s, x, fold, regs, meta);
      Onwards(s, x, m, l, s'.c, s'.ks, s'.pend, {}, st, regs, meta);
      SetTargetExit(s, s', x, k, l, Eval(e, regs, meta), regs, meta, reg, ExitOf(Body(s.c, m), s.ks, meta, s.pend, x, st, regs),
                    ExitOf(s'.c, s'.ks, meta, s'.pend, x, st, regs));
    }
  }

  lemma SetTargetExit(s: State, s': State, x: Ctx, k: Kind, l: Lists, ev: Outcome, regs: Regs, meta: Meta, reg: int, o: Exit, y: Exit)
    requires k.VReloc? && s.js == [] && |s.c| > 0 && s' == s.(c := s'.c) && |s'.c| == |s.c|
    requires Produces(s.c[|s.c| - 1], s'.c[|s.c| - 1], reg) && x.hole in {-1, reg} && 0 <= reg < |regs|
    requires forall i :: 0 <= i < |s.c| - 1 ==> s'.c[i] == s.c[i]
    requires Settles(s, x, Delayed(k), l, ev, regs, meta, o)
    requires Follows(o, y, Body(s.c, Delayed(k)), s'.c, s'.ks, meta, s.pend, s'.pend, {})
    ensures Settles(s', Holed(x, reg), Delayed(VNonReloc(reg)), l, ev, regs, meta, y)
  {
    if o.Fall? {
      var q := |s.c| - 1;
      assert y == Run(s'.c, s'.ks, meta, s'.pend, q, o.regs);
      assert Produce(s'.c[q], o.regs, s'.ks, meta) == ev;
      if ev.Val? {
        assert Step(s'.c, s'.ks, meta, q, o.regs) == Go(q + 1, o.regs[reg := ev.v]);
        assert y == Run(s'.c, s'.ks, meta, s'.pend, q + 1, o.regs[reg := ev.v]) == Fall(o.regs[reg := ev.v]);
      } else {
        assert Step(s'.c, s'.ks, meta, q, o.regs) == Raise(ev.code);
      }
    }
  }

  ghost predicate Produces(i: Instr, i': Instr, reg: int) {
    IsRelocatable(i) && i' == Retarget(i, reg)
  }

  lemma SetTargetFits(s: State, s': State, x: Ctx, k: Kind, l: Lists, reg: int)
    requires Sane(s) && Fits(s, x, Delayed(k), l) && k.VReloc?
    requires s' == s.(c := s'.c) && |s'.c| == |s.c|
    requires Produces(s.c[|s.c| - 1], s'.c[|s.c| - 1], reg)
    requires forall i :: 0 <= i < |s.c| - 1 ==> s'.c[i] == s.c[i]
    ensures Fits(s', x, Delayed(VNonReloc(reg)), l)
    ensures Evolves(Body(s.c, Delayed(k)), s.pend, s'.c, s'.pend, {})
  {
    var b := Body(s.c, Delayed(k));
    forall i | 0 <= i < |b| ensures EvolvesAt(b, s.pend, s'.c, s'.pend, {}, i) {}
    GrownStep(x, b, s.pend, s'.c, s'.pend, {});
  }

  // ---------- loading nil by widening the previous instruction ----------

  /** When only the previous instruction leads to the last one, a run first runs the code before it. */
  lemma {:induction false} RunCut(c: seq<Instr>, ks: seq<Value>, meta: Meta, pend: set<nat>, p: nat, regs: Regs)
    requires |c| > 0 && c[|c| - 1].LoadNil? && Targets(c, pend, |c| - 1) && Paired(c) && p < |c|
    ensures Run(c, ks, meta, pend, p, regs) == CutExit(c, ks, meta, pend, Run(c[..|c| - 1], ks, meta, pend, p, regs))
    decreases |c| - p, 2
  {
    var d := c[..|c| - 1];
    if p < |d| {
      assert PairedAt(c, p) && TargetAt(c, pend, |c| - 1, p);
      assert Step(c, ks, meta, p, regs) == Step(d, ks, meta, p, regs);
      match Step(c, ks, meta, p, regs)
      case Go(q, r) => RunCut(c, ks, meta, pend, q, r);
      case Take =>
        var r := if c[p].TestSet? && IsReg(c[p].a, regs) && IsReg(c[p].b, regs) then regs[c[p].a := regs[c[p].b]] else regs;
        JumpCut(c, ks, meta, pend, p + 1, regs);
        JumpCut(c, ks, meta, pend, p + 1, r);
      case PlainJump => JumpCut(c, ks, meta, pend, p, regs);
      case _ =>
    }
  }

  ghost function CutExit(c: seq<Instr>, ks: seq<Value>, meta: Meta, pend: set<nat>, o: Exit): Exit
    requires |c| > 0
  {
    if o.Fall? then Run(c, ks, meta, pend, |c| - 1, o.regs) else o
  }

  lemma {:induction false} JumpCut(c: seq<Instr>, ks: seq<Value>, meta: Meta, pend: set<nat>, j: nat, regs: Regs)
    requires |c| > 0 && c[|c| - 1].LoadNil? && Targets(c, pend, |c| - 1) && Paired(c) && j < |c| - 1
    ensures Jump(c, ks, meta, pend, j, regs) == CutExit(c, ks, meta, pend, Jump(c[..|c| - 1], ks, meta, pend, j, regs))
    decreases |c| - j, 0
  {
    assert TargetAt(c, pend, |c| - 1, j);
    if c[j].Jmp? && j !in pend && j < j + 1 + c[j].sbx {
      RunCut(c, ks, meta, pend, j + 1 + c[j].sbx, regs);
    }
  }

  /** The range `i'` of nils is the range `i` and the `n` registers from `from` on. */
  ghost predicate WidensBy(i: Instr, i': Instr, from: int, n: int) {
    && Widened(i, i')
    && forall k :: Covers(i', k) <==> Covers(i, k) || from <= k < from + n
  }

  ghost predicate Covers(i: Instr, k: int) {
    i.LoadNil? && i.a <= k <= i.a + i.b
  }

  /** `luaK_nil` when the previous instruction is an OP_LOADNIL that can take in `reg`. */
  lemma WidenNil(s: State, s': State, x: Ctx, l: Lists, e: Expr, fold: Folder, reg: int)
    requires Stands(s, x, Delayed(VNil), l, e, fold) && x.hole in {-1, reg} && Mergeable(s)
    requires s' == s.(c := s'.c, msize := s'.msize) && |s'.c| == |s.c| && s.msize <= s'.msize && Sane(s')
    requires forall i :: 0 <= i < |s.c| - 1 ==> s'.c[i] == s.c[i]
    requires WidensBy(s.c[|s.c| - 1], s'.c[|s.c| - 1], reg, 1) && 0 <= reg < s'.msize
    ensures Stands(s', Holed(x, reg), Delayed(VNonReloc(reg)), l, e, fold)
  {
    var m', x' := Delayed(VNonReloc(reg)), Holed(x, reg);
    assert Fits(s', x, m', l) by { WidenEvolves(s, s', x, l, reg); }
    hide Sane, Fits, Settles;
    forall st: Start, regs: Regs, meta: Meta | IsStart(x', st) && Admissible(s', x', fold, regs, meta)
      ensures Settles(s', x', m', l, Eval(e, regs, meta), regs, meta, ExitOf(Body(s'.c, m'), s'.ks, meta, s'.pend, x', st, regs))
    {
      assert Admissible(s, x, fold, regs, meta);
      var ev, o := Eval(e, regs, meta), ExitOf(s.c, s.ks, meta, s.pend, x, st, regs);
      assert Settles(s, x, Delayed(VNil), l, ev, regs, meta, o);
      WidenAt(s, s', x, l, reg, ev, o, st, regs, meta);
    }
  }

  lemma WidenAt(s: State, s': State, x: Ctx, l: Lists, reg: int, ev: Outcome, o: Exit, st: Start, regs: Regs, meta: Meta)
    requires Sane(s) && Fits(s, x, Delayed(VNil), l) && Mergeable(s) && IsStart(x, st) && x.hole in {-1, reg}
    requires s' == s.(c := s'.c, msize := s'.msize) && |s'.c| == |s.c| && s'.msize <= |regs|
    requires forall i :: 0 <= i < |s.c| - 1 ==> s'.c[i] == s.c[i]
    requires WidensBy(s.c[|s.c| - 1], s'.c[|s.c| - 1], reg, 1) && 0 <= reg < s'.msize
    requires o == ExitOf(s.c, s.ks, meta, s.pend, x, st, regs) && Settles(s, x, Delayed(VNil), l, ev, regs, meta, o)
    ensures Settles(s', Holed(x, reg), Delayed(VNonReloc(reg)), l, ev, regs, meta, ExitOf(s'.c, s'.ks, meta, s'.pend, x, st, regs))
  {
    WidenFollows(s, s', x, l, reg, st, regs, meta);
    WidenExit(s, s', x, l, ev, regs, meta, reg, ExitOf(s.c[..|s.c| - 1], s.ks, meta, s.pend, x, st, regs), o,
              ExitOf(s'.c, s'.ks, meta, s'.pend, x, st, regs));
  }

  lemma WidenFollows(s: State, s': State, x: Ctx, l: Lists, reg: int, st: Start, regs: Regs, meta: Meta)
    requires Sane(s) && Fits(s, x, Delayed(VNil), l) && Mergeable(s) && IsStart(x, st)
    requires s' == s.(c := s'.c, msize := s'.msize) && |s'.c| == |s.c|
    requires forall i :: 0 <= i < |s.c| - 1 ==> s'.c[i] == s.c[i]
    requires WidensBy(s.c[|s.c| - 1], s'.c[|s.c| - 1], reg, 1)
    ensures var b := s.c[..|s.c| - 1];
            var o1 := ExitOf(b, s.ks, meta, s.pend, x, st, regs);
            && ExitOf(s.c, s.ks, meta, s.pend, x, st, regs) == CutExit(s.c, s.ks, meta, s.pend, o1)
            && Follows(o1, ExitOf(s'.c, s'.ks, meta, s'.pend, x, st, regs), b, s'.c, s'.ks, meta, s.pend, s'.pend, {})
  {
    WidenEvolves(s, s', x, l, reg);
    TargetsUp(s.c, s.pend, s.lt, |s.c| - 1);
    var b := s.c[..|s.c| - 1];
    match st
    case AtEntry =>
      RunCut(s.c, s.ks, meta, s.pend, x.entry, regs);
      Simulate(b, s.ks, s.pend, s'.c, s'.ks, s'.pend, {}, meta, x.entry, regs);
    case Via(j) =>
      JumpCut(s.c, s.ks, meta, s.pend, j, regs);
      SimulateJump(b, s.ks, s.pend, s'.c, s'.ks, s'.pend, {}, meta, j, regs);
  }

  lemma WidenEvolves(s: State, s': State, x: Ctx, l: Lists, reg: int)
    requires Sane(s) && Fits(s, x, Delayed(VNil), l) && Mergeable(s)
    requires s' == s.(c := s'.c, msize := s'.msize) && |s'.c| == |s.c|
    requires forall i :: 0 <= i < |s.c| - 1 ==> s'.c[i] == s.c[i]
    requires WidensBy(s.c[|s.c| - 1], s'.c[|s.c| - 1], reg, 1)
    ensures Evolves(s.c[..|s.c| - 1], s.pend, s'.c, s'.pend, {})
    ensures Fits(s', x, Delayed(VNonReloc(reg)), l) && x.entry <= |s.c| - 1
    ensures |s.c| == |x.c0| ==> x.inlets == {}
  {
    var b := s.c[..|s.c| - 1];
    forall i | 0 <= i < |b| ensures EvolvesAt(b, s.pend, s'.c, s'.pend, {}, i) {}
    if |x.c0| < |s.c| {
      EvolvesCut(x, s.c, s.pend);
      GrownStep(x, b, s.pend, s'.c, s'.pend, {});
    } else {
      forall i | 0 <= i < x.entry ensures EvolvesAt(x.c0[..x.entry], x.pend0, s'.c, s'.pend, {}, i) {
        assert EvolvesAt(x.c0[..x.entry], x.pend0, s.c, s.pend, {}, i);
      }
    }
  }

  /** A context does not see the end of the code. */
  lemma EvolvesCut(x: Ctx, c: seq<Instr>, pend: set<nat>)
    requires Grown(x, c, pend) && |x.c0| < |c|
    ensures Grown(x, c[..|c| - 1], pend)
  {
    var c0 := if x.entry == |x.c0| then x.c0 else x.c0[..x.entry];
    var ins := if x.entry == |x.c0| then x.inlets else {};
    EvolvesPrefix(c0, x.pend0, c, c[..|c| - 1], pend, pend, ins);
  }

  lemma WidenExit(s: State, s': State, x: Ctx, l: Lists, ev: Outcome, regs: Regs, meta: Meta, reg: int, o1: Exit, o: Exit, y: Exit)
    requires Sane(s) && |s.c| > 0 && s' == s.(c := s'.c, msize := s'.msize) && |s'.c| == |s.c| && s'.msize <= |regs|
    requires Mergeable(s) && x.hole in {-1, reg}
    requires forall i :: 0 <= i < |s.c| - 1 ==> s'.c[i] == s.c[i]
    requires WidensBy(s.c[|s.c| - 1], s'.c[|s.c| - 1], reg, 1) && 0 <= reg < s'.msize
    requires o == CutExit(s.c, s.ks, meta, s.pend, o1)
    requires Follows(o1, y, s.c[..|s.c| - 1], s'.c, s'.ks, meta, s.pend, s'.pend, {})
    requires Settles(s, x, Delayed(VNil), l, ev, regs, meta, o)
    ensures Settles(s', Holed(x, reg), Delayed(VNonReloc(reg)), l, ev, regs, meta, y)
  {
    if o1.Fall? {
      var q := |s.c| - 1;
      var i, i' := s.c[q], s'.c[q];
      assert Step(s.c, s.ks, meta, q, o1.regs) == Go(q + 1, SetNil(o1.regs, i.a, i.b));
      assert o == Run(s.c, s.ks, meta, s.pend, q + 1, SetNil(o1.regs, i.a, i.b));
      assert y == Run(s'.c, s'.ks, meta, s'.pend, q, o1.regs);
      assert Covers(i', i'.a + i'.b);
      assert Step(s'.c, s'.ks, meta, q, o1.regs) == Go(q + 1, SetNil(o1.regs, i'.a, i'.b));
      assert y == Run(s'.c, s'.ks, meta, s'.pend, q + 1, SetNil(o1.regs, i'.a, i'.b)) == Fall(SetNil(o1.regs, i'.a, i'.b));
      assert Covers(i', reg);
      forall k | 0 <= k < |o1.regs| && k != reg
        ensures SetNil(o1.regs, i'.a, i'.b)[k] == SetNil(o1.regs, i.a, i.b)[k]
      {
        assert Covers(i', k) <==> Covers(i, k);
      }
    }
  }
}
