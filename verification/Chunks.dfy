/**
  Whole chunks: local declarations and assignments to locals, compiled one
  statement after another as `statlist` does, and the main theorem that running
  the finished code does what executing the statements does.
 */
module Chunks {
  import opened LuaVm
  import opened Simulation
  import opened Expressions
  import opened Codegen
  import opened Sequencing
  import opened LuaK
  import Interpreter

  // ---------- statements and their execution ----------

  datatype Stmt = Declare(e: Expr) | Assign(r: nat, e: Expr)

  /** Local variables in the order of their declaration, or the error that ended the chunk. */
  datatype Flow = Done(locals: seq<Value>) | Failed(code: int)

  predicate StmtScoped(st: Stmt, n: nat) {
    Scoped(st.e, n) && (st.Assign? ==> st.r < n)
  }

  function LocalsAfter(stmts: seq<Stmt>, n: nat): nat {
    if stmts == [] then n
    else LocalsAfter(stmts[..|stmts| - 1], n) + if stmts[|stmts| - 1].Declare? then 1 else 0
  }

  /** Every statement uses only the locals in scope at its place. */
  predicate AllScoped(stmts: seq<Stmt>, n: nat) {
    forall i :: 0 <= i < |stmts| ==> StmtScoped(stmts[i], LocalsAfter(stmts[..i], n))
  }

  function ExecStmt(st: Stmt, locals: seq<Value>, meta: Meta): Flow
    requires StmtScoped(st, |locals|)
  {
    match Eval(st.e, locals, meta)
    case Val(v) => if st.Declare? then Done(locals + [v]) else Done(locals[st.r := v])
    case Err(c) => Failed(c)
    case Bad => Done(locals)
  }

  function Exec(stmts: seq<Stmt>, locals: seq<Value>, meta: Meta): (fl: Flow)
    requires AllScoped(stmts, |locals|)
    ensures fl.Done? ==> |fl.locals| == LocalsAfter(stmts, |locals|)
  {
    if stmts == [] then Done(locals)
    else
      var init, last := stmts[..|stmts| - 1], stmts[|stmts| - 1];
      assert forall i :: 0 <= i < |init| ==> init[..i] == stmts[..i];
      var fl := Exec(init, locals, meta);
      if fl.Failed? then fl
      else
        ScopedValue(last.e, fl.locals, meta);
        ExecStmt(last, fl.locals, meta)
  }

  lemma ScopedValue(e: Expr, regs: Regs, meta: Meta)
    requires Scoped(e, |regs|)
    ensures Eval(e, regs, meta) != Bad
  {
  }

  /** Evaluation sees the locals only, not the rest of the frame. */
  lemma EvalPrefix(e: Expr, locals: seq<Value>, regs: Regs, meta: Meta)
    requires Scoped(e, |locals|) && locals <= regs
    ensures Eval(e, locals, meta) == Eval(e, regs, meta)
  {
  }

  // ---------- what the code of some statements does ----------

  ghost predicate Holds(s: State, flow: Flow, frame: nat, r: Regs) {
    flow.Done? && flow.locals <= r && |flow.locals| == s.nact && |r| == frame
  }

  /** The run ended as the execution did: with the locals in their registers, or with the same error. */
  ghost predicate Arrives(s: State, flow: Flow, frame: nat, out: Exit) {
    match out
    case Fall(r) => Holds(s, flow, frame, r)
    case AtJump(j, r) => j in s.js && Holds(s, flow, frame, r)
    case Raised(c) => flow == Failed(c)
    case Returned(_) => false
    case Stuck => false
  }

  ghost predicate Start0(s: State, n0: nat, fold: Folder, regs: Regs, meta: Meta) {
    n0 <= |regs| && s.msize <= |regs| && Agrees(fold, meta)
  }

  /** The code so far, begun with any registers, executes `stmts`. */
  ghost predicate Implements(s: State, stmts: seq<Stmt>, n0: nat, fold: Folder) {
    && Sane(s)
    && n0 <= s.nact == s.free
    && s.pend == Elems(s.js)
    && AllScoped(stmts, n0)
    && s.nact == LocalsAfter(stmts, n0)
    && forall regs: Regs, meta: Meta :: Start0(s, n0, fold, regs, meta) ==>
         Arrives(s, Exec(stmts, regs[..n0], meta), |regs|, Run(s.c, s.ks, meta, s.pend, 0, regs))
  }

  /** The empty context, of which a whole chunk is the body. */
  ghost function Whole(): Ctx {
    Ctx([], {}, {}, 0, -1, 0)
  }

  lemma WholeFits(s: State, fold: Folder)
    requires Sane(s) && s.pend == Elems(s.js)
    ensures Fits(s, Whole(), WasTrue, Lists([], []))
  {
  }

  ghost predicate Stores(st: Stmt, s: State, reg: int) {
    if st.Declare? then reg == s.nact else reg == st.r < s.nact
  }

  lemma AllScopedSnoc(stmts: seq<Stmt>, st: Stmt, n0: nat)
    requires AllScoped(stmts, n0) && StmtScoped(st, LocalsAfter(stmts, n0))
    ensures AllScoped(stmts + [st], n0)
    ensures LocalsAfter(stmts + [st], n0) == LocalsAfter(stmts, n0) + if st.Declare? then 1 else 0
  {
    var all := stmts + [st];
    assert all[..|all| - 1] == stmts;
    forall i | 0 <= i < |all| ensures StmtScoped(all[i], LocalsAfter(all[..i], n0)) {
      assert i < |stmts| ==> all[..i] == stmts[..i];
    }
  }

  lemma ExecSnoc(stmts: seq<Stmt>, st: Stmt, locals: seq<Value>, meta: Meta)
    requires AllScoped(stmts, |locals|) && StmtScoped(st, LocalsAfter(stmts, |locals|))
    ensures AllScoped(stmts + [st], |locals|)
    ensures var fl := Exec(stmts, locals, meta);
            Exec(stmts + [st], locals, meta) == if fl.Failed? then fl else ExecStmt(st, fl.locals, meta)
  {
    AllScopedSnoc(stmts, st, |locals|);
    assert (stmts + [st])[..|stmts|] == stmts;
  }

  /** The code of one more statement: an expression whose value goes to the statement's variable. */
  lemma OneMore(s: State, stmts: seq<Stmt>, st: Stmt, n0: nat, s': State, reg: nat, fold: Folder)
    requires Implements(s, stmts, n0, fold) && StmtScoped(st, s.nact) && Stores(st, s, reg)
    requires Stands(s', Holed(Context(s, s.nact, -1), reg), Delayed(VNonReloc(reg)), Lists([], []), st.e, fold)
    requires Later(s, s') && reg < s'.msize
    ensures var n := s.nact + if st.Declare? then 1 else 0;
            Implements(s'.(nact := n, free := n), stmts + [st], n0, fold)
  {
    hide Sane, Fits;
    var n := s.nact + if st.Declare? then 1 else 0;
    var s2 := s'.(nact := n, free := n);
    var x2 := Holed(Context(s, s.nact, -1), reg);
    AllScopedSnoc(stmts, st, n0);
    OneMoreSane(s, s', s2, x2, reg, n);
    forall regs: Regs, meta: Meta | Start0(s2, n0, fold, regs, meta)
      ensures Arrives(s2, Exec(stmts + [st], regs[..n0], meta), |regs|, Run(s2.c, s2.ks, meta, s2.pend, 0, regs))
    {
      ExecSnoc(stmts, st, regs[..n0], meta);
      OneMoreRun(s, stmts, st, n0, s', s2, reg, fold, regs, meta);
    }
  }

  lemma OneMoreSane(s: State, s': State, s2: State, x2: Ctx, reg: nat, n: int)
    requires Sane(s) && Sane(s') && s.pend == Elems(s.js) && Fits(s', x2, Delayed(VNonReloc(reg)), Lists([], []))
    requires x2 == Holed(Context(s, s.nact, -1), reg) && Later(s, s') && reg < s'.msize && s.nact <= n
    requires s2 == s'.(nact := n, free := n) && n <= (if reg < s.nact then s.nact else reg + 1)
    ensures Sane(s2) && s2.pend == Elems(s2.js)
  {
    assert forall j :: j in s2.pend ==> j in s2.js;
  }

  lemma OneMoreRun(s: State, stmts: seq<Stmt>, st: Stmt, n0: nat, s': State, s2: State, reg: nat, fold: Folder, regs: Regs, meta: Meta)
    requires Implements(s, stmts, n0, fold) && StmtScoped(st, s.nact) && Stores(st, s, reg)
    requires Stands(s', Holed(Context(s, s.nact, -1), reg), Delayed(VNonReloc(reg)), Lists([], []), st.e, fold)
    requires Later(s, s') && Start0(s', n0, fold, regs, meta)
    requires s2.js == s'.js && s2.nact == s.nact + if st.Declare? then 1 else 0
    ensures var fl := Exec(stmts, regs[..n0], meta);
            Arrives(s2, if fl.Failed? then fl else ExecStmt(st, fl.locals, meta), |regs|, Run(s'.c, s'.ks, meta, s'.pend, 0, regs))
  {
    hide Sane, Fits, Settles, Rep, Exec;
    var x2, m2 := Holed(Context(s, s.nact, -1), reg), Delayed(VNonReloc(reg));
    WholeFits(s, fold);
    FitsGrown(s', x2, m2, st.e, fold);
    assert x2 == Context(s, x2.n, x2.hole);
    Through(s, Whole(), WasTrue, Lists([], []), x2, s'.c, s'.ks, s'.pend, AtEntry, regs, meta);
    var o := Run(s.c, s.ks, meta, s.pend, 0, regs);
    var fl := Exec(stmts, regs[..n0], meta);
    assert Start0(s, n0, fold, regs, meta);
    assert Arrives(s, fl, |regs|, o);
    if o.Fall? || o.AtJump? {
      var start := if o.Fall? then AtEntry else Via(o.j);
      NoMergeAtLabel(s);
      assert Admissible(s', x2, fold, o.regs, meta);
      EvalPrefix(st.e, fl.locals, o.regs, meta);
      Stored(s, st, s', s2, x2, reg, fold, start, o.regs, fl.locals, meta);
    }
  }

  lemma NoMergeAtLabel(s: State)
    requires Sane(s)
    ensures s.js != [] ==> !Mergeable(s)
  {
  }

  lemma FitsGrown(s': State, x2: Ctx, m2: Main, e: Expr, fold: Folder)
    requires Stands(s', x2, m2, Lists([], []), e, fold) && Tail(m2) == 0
    ensures Grown(x2, s'.c, s'.pend)
  {
  }

  /** The last expression's value is in its variable, and the other variables are as they were. */
  lemma Stored(s: State, st: Stmt, s': State, s2: State, x2: Ctx, reg: nat, fold: Folder, start: Start, r: Regs,
               locals: seq<Value>, meta: Meta)
    requires Stores(st, s, reg) && x2 == Holed(Context(s, s.nact, -1), reg) && StmtScoped(st, s.nact)
    requires Rep(s', x2, Delayed(VNonReloc(reg)), Lists([], []), st.e, fold)
    requires IsStart(x2, start) && Admissible(s', x2, fold, r, meta)
    requires locals <= r && |locals| == s.nact && Eval(st.e, locals, meta) == Eval(st.e, r, meta)
    requires s2.js == s'.js && s2.nact == s.nact + if st.Declare? then 1 else 0
    ensures Arrives(s2, ExecStmt(st, locals, meta), |r|, ExitOf(s'.c, s'.ks, meta, s'.pend, x2, start, r))
  {
    var m2 := Delayed(VNonReloc(reg));
    var out := ExitOf(s'.c, s'.ks, meta, s'.pend, x2, start, r);
    assert Body(s'.c, m2) == s'.c;
    assert Settles(s', x2, m2, Lists([], []), Eval(st.e, r, meta), r, meta, out);
  }

  // ---------- finished chunks ----------

  /** The finished code of `stmts`: run from its start, it leaves the locals in their registers, or the same error. */
  ghost predicate Finished(c: seq<Instr>, ks: seq<Value>, stmts: seq<Stmt>, n0: nat, frame: int, fold: Folder)
    requires AllScoped(stmts, n0)
  {
    forall regs: Regs, meta: Meta :: n0 <= |regs| && frame <= |regs| && Agrees(fold, meta) ==>
      FinishedRun(c, ks, Exec(stmts, regs[..n0], meta), regs, meta)
  }

  ghost predicate FinishedRun(c: seq<Instr>, ks: seq<Value>, flow: Flow, regs: Regs, meta: Meta) {
    match Run(c, ks, meta, {}, 0, regs)
    case Returned(r) => flow.Done? && flow.locals <= r && |r| == |regs|
    case Raised(code) => flow == Failed(code)
    case Fall(_) => false
    case AtJump(_, _) => false
    case Stuck => false
  }

  lemma Finish0(s: State, stmts: seq<Stmt>, n0: nat, s': State, fold: Folder)
    requires Implements(s, stmts, n0, fold) && Emits(s, s', Return(0, 1))
    ensures Finished(s'.c, s'.ks, stmts, n0, s.msize, fold)
    ensures Sane(s') && s'.pend == {}
  {
    hide Fits, Rep, Exec;
    EmitSane(s, s', Return(0, 1));
    WholeFits(s, fold);
    assert s'.pend == {};
    forall regs: Regs, meta: Meta | n0 <= |regs| && s.msize <= |regs| && Agrees(fold, meta)
      ensures FinishedRun(s'.c, s'.ks, Exec(stmts, regs[..n0], meta), regs, meta)
    {
      assert Start0(s, n0, fold, regs, meta);
      AfterEmit(s, Whole(), WasTrue, Lists([], []), s'.c, s'.ks, s'.pend, AtEntry, regs, meta);
      var o := Run(s.c, s.ks, meta, s.pend, 0, regs);
      assert Arrives(s, Exec(stmts, regs[..n0], meta), |regs|, o);
      if o.Fall? || o.AtJump? {
        assert Step(s'.c, s'.ks, meta, |s.c|, o.regs) == Halt;
      }
    }
  }

  // ---------- the compiler ----------

  const MAXVARS := 200

  /** `luaK_storevar` for a local variable. */
  method StoreLocal(fs: FuncState, reg: nat, d: ExpDesc, ghost l: Lists, ghost x: Ctx, ghost e: Expr) returns (r: Result<()>)
    requires fs.Valid(d, l, x, e) && reg < fs.nactvar
    modifies fs
    ensures r.Ok? ==> Stands(fs.S(), Holed(x, reg), Delayed(VNonReloc(reg)), Lists([], []), e, fs.fold) && Grew(old(fs.S()), fs.S(), 5, 1)
    ensures r.Fail? ==> Exhausted(old(fs.S()), 5, 1, 1)
  {
    hide Stands, Chains, Sane, Fits, Rep;
    ghost var s := fs.S();
    fs.RegsInFrame(d, l, x, e);
    fs.FreeExp(d.k);
    Roomier(s, fs.S(), x, Delayed(d.k), l, e, fs.fold);
    SameChains(s, fs.S(), d, l);
    var _ :- fs.Exp2Reg(d, reg, l, x, e);
    r := Ok(());
  }

  /** `localstat` with one variable, or `exprstat` with one assignment to a local. */
  method Statement(fs: FuncState, st: Stmt, ghost done: seq<Stmt>, ghost n0: nat) returns (r: Result<()>)
    requires Implements(fs.S(), done, n0, fs.fold) && StmtScoped(st, fs.nactvar)
    modifies fs
    ensures r.Ok? ==> Implements(fs.S(), done + [st], n0, fs.fold)
    ensures r.Ok? ==> fs.nactvar == old(fs.nactvar) + if st.Declare? then 1 else 0
    ensures r.Ok? ==> |fs.code| <= old(|fs.code|) + 26 * Nodes(st.e) + 5 && |fs.k| <= old(|fs.k|) + 8 * Nodes(st.e) + 1
    ensures r.Fail? ==> Exhausted(old(fs.S()), 26 * Nodes(st.e) + 5, 8 * Nodes(st.e) + 1, Nodes(st.e) + 2) || (st.Declare? && old(fs.nactvar) >= MAXVARS)
  {
    hide Stands, Sane, Fits, Rep, Implements, Exhausted, Context;
    ghost var s := fs.S();
    var n := fs.nactvar;
    if st.Declare? && n + 1 > MAXVARS {
      return Fail(TooManyLocals);
    }
    ImplementsParts(s, done, n0, fs.fold);
    var reg: nat := if st.Declare? then n else st.r;
    var _ :- Compute(fs, st, reg);
    OneMore(s, done, st, n0, fs.S(), reg, fs.fold);
    if st.Declare? {
      fs.nactvar := n + 1;
    }
    fs.freereg := fs.nactvar;
    r := Ok(());
  }

  /** The expression of a statement, computed into the register of its variable. */
  method Compute(fs: FuncState, st: Stmt, reg: nat) returns (r: Result<()>)
    requires Sane(fs.S()) && fs.nactvar == fs.freereg && 0 <= fs.nactvar && Scoped(st.e, fs.nactvar) && Stores(st, fs.S(), reg)
    modifies fs
    ensures r.Ok? ==> Grew(old(fs.S()), fs.S(), 26 * Nodes(st.e) + 5, 8 * Nodes(st.e) + 1) && reg < fs.maxstacksize && fs.nactvar == old(fs.nactvar)
    ensures r.Ok? ==> Stands(fs.S(), Holed(Context(old(fs.S()), old(fs.nactvar), -1), reg), Delayed(VNonReloc(reg)), Lists([], []), st.e, fs.fold)
    ensures r.Fail? ==> Exhausted(old(fs.S()), 26 * Nodes(st.e) + 5, 8 * Nodes(st.e) + 1, Nodes(st.e) + 2)
  {
    hide Stands, Chains, Sane, Fits, Rep;
    ghost var x := Context(fs.S(), fs.nactvar, -1);
    ghost var l: Lists;
    var d;
    d, l := fs.Compile(st.e);
    if d.Fail? {
      return Fail(d.why);
    }
    r := StoreValue(fs, st.Declare?, reg, d.value, l, x, st.e);
  }

  /** The value goes to the next register, which a new local variable has, or to the register of an old one. */
  method StoreValue(fs: FuncState, declare: bool, reg: nat, d: ExpDesc, ghost l: Lists, ghost x: Ctx, ghost e: Expr) returns (r: Result<()>)
    requires fs.Valid(d, l, x, e) && if declare then reg == x.n else reg < fs.nactvar
    modifies fs
    ensures r.Ok? ==> Stands(fs.S(), Holed(x, reg), Delayed(VNonReloc(reg)), Lists([], []), e, fs.fold)
    ensures r.Ok? ==> Grew(old(fs.S()), fs.S(), 5, 1) && reg < fs.maxstacksize
    ensures r.Fail? ==> Exhausted(old(fs.S()), 5, 1, 1)
  {
    hide Stands, Chains, Sane, Fits, Rep;
    fs.RegsInFrame(d, l, x, e);
    if declare {
      var _ :- fs.Exp2NextReg(d, l, x, e);
      fs.RegsInFrame(ExpDesc(VNonReloc(reg), NO_JUMP, NO_JUMP), Lists([], []), x, e);
    } else {
      var _ :- StoreLocal(fs, reg, d, l, x, e);
    }
    r := Ok(());
  }

  lemma Nothing(s: State, n0: nat, fold: Folder)
    requires Sane(s) && s.c == [] && s.js == [] && s.nact == s.free == n0
    ensures Implements(s, [], n0, fold)
  {
    assert s.pend == {};
  }

  /** The number of operators and operands in the first `k` statements. */
  ghost function Total(stmts: seq<Stmt>, k: nat): nat
    requires k <= |stmts|
  {
    if k == 0 then 0 else Total(stmts, k - 1) + Nodes(stmts[k - 1].e)
  }

  lemma {:induction false} TotalUpTo(stmts: seq<Stmt>, k: nat)
    requires k <= |stmts|
    ensures Total(stmts, k) <= Total(stmts, |stmts|)
    decreases |stmts| - k
  {
    if k < |stmts| {
      TotalUpTo(stmts, k + 1);
    }
  }

  /** The chunk comes near a limit of the machine: code size, constants, local variables or registers. */
  ghost predicate TooLarge(stmts: seq<Stmt>, n0: nat) {
    || 26 * Total(stmts, |stmts|) + 5 * |stmts| + 1 > MAXARG_sBx
    || 8 * Total(stmts, |stmts|) + |stmts| > MAXARG_Ax
    || exists i :: 0 <= i < |stmts| && TooManySlots(stmts, n0, i)
  }

  /** Statement `i` is one declaration, or one deep expression, too much. */
  ghost predicate TooManySlots(stmts: seq<Stmt>, n0: nat, i: nat)
    requires i < |stmts|
  {
    var n := LocalsAfter(stmts[..i], n0);
    (stmts[i].Declare? && n >= MAXVARS) || n + Nodes(stmts[i].e) + 2 >= MAXREGS
  }

  lemma WhyTooLarge(s: State, stmts: seq<Stmt>, i: nat, n0: nat)
    requires i < |stmts| && s.free == s.nact == LocalsAfter(stmts[..i], n0)
    requires |s.c| <= 26 * Total(stmts, i) + 5 * i && |s.ks| <= 8 * Total(stmts, i) + i
    requires Exhausted(s, 26 * Nodes(stmts[i].e) + 5, 8 * Nodes(stmts[i].e) + 1, Nodes(stmts[i].e) + 2) || (stmts[i].Declare? && s.nact >= MAXVARS)
    ensures TooLarge(stmts, n0)
  {
    TotalUpTo(stmts, i + 1);
    assert Total(stmts, i + 1) == Total(stmts, i) + Nodes(stmts[i].e);
    if stmts[i].Declare? && s.nact >= MAXVARS {
      assert TooManySlots(stmts, n0, i);
    } else if s.free + (Nodes(stmts[i].e) + 2) >= MAXREGS {
      assert TooManySlots(stmts, n0, i);
    }
  }

  lemma LastTooLarge(stmts: seq<Stmt>, n0: nat)
    requires 26 * Total(stmts, |stmts|) + 5 * |stmts| + 1 > MAXARG_sBx
    ensures TooLarge(stmts, n0)
  {
  }

  /** `close_func`: a final return. */
  method CloseFunc(fs: FuncState, ghost stmts: seq<Stmt>, ghost n0: nat) returns (r: Result<()>)
    requires Implements(fs.S(), stmts, n0, fs.fold)
    modifies fs
    ensures r.Ok? ==> AllScoped(stmts, n0) && Finished(fs.code, fs.k, stmts, n0, fs.maxstacksize, fs.fold) && fs.pend == {}
    ensures r.Ok? ==> AllEncodable(fs.code) && fs.maxstacksize < MAXREGS
    ensures r.Fail? ==> |old(fs.code)| + 1 > MAXARG_sBx
  {
    hide Sane, Implements, Finished, AllScoped, LocalsAfter;
    ghost var s := fs.S();
    ImplementsParts(s, stmts, n0, fs.fold);
    SaneParts(s);
    var _ :- fs.Code(Return(0, 1));
    Finish0(s, stmts, n0, fs.S(), fs.fold);
    SaneParts(fs.S());
    r := Ok(());
  }

  /** `statlist` and `close_func`: the whole chunk. */
  method Chunk(stmts: seq<Stmt>, n0: nat, fold: Folder) returns (fs: FuncState, r: Result<()>)
    requires n0 < MAXVARS && AllScoped(stmts, n0)
    ensures r.Ok? ==> Finished(fs.code, fs.k, stmts, n0, fs.maxstacksize, fold) && fs.pend == {} && AllEncodable(fs.code) && fs.maxstacksize < MAXREGS
    ensures r.Fail? ==> TooLarge(stmts, n0)
  {
    hide Sane, Implements, Finished, Exhausted, TooLarge, AllScoped, LocalsAfter;
    fs := new FuncState(n0, fold);
    Nothing(fs.S(), n0, fold);
    var i := 0;
    while i < |stmts|
      invariant 0 <= i <= |stmts| && fresh(fs) && fs.fold == fold
      invariant Implements(fs.S(), stmts[..i], n0, fold)
      invariant |fs.code| <= 26 * Total(stmts, i) + 5 * i && |fs.k| <= 8 * Total(stmts, i) + i
    {
      assert stmts[..i] + [stmts[i]] == stmts[..i + 1];
      ImplementsParts(fs.S(), stmts[..i], n0, fold);
      ScopedAt(stmts, i, n0);
      ghost var before := fs.S();
      r := Statement(fs, stmts[i], stmts[..i], n0);
      if r.Fail? {
        WhyTooLarge(before, stmts, i, n0);
        return;
      }
      i := i + 1;
    }
    assert stmts[..i] == stmts;
    r := CloseFunc(fs, stmts, n0);
    if r.Fail? {
      LastTooLarge(stmts, n0);
    }
  }

  lemma ScopedAt(stmts: seq<Stmt>, i: nat, n0: nat)
    requires i < |stmts| && AllScoped(stmts, n0)
    ensures StmtScoped(stmts[i], LocalsAfter(stmts[..i], n0))
  {
  }

  lemma ImplementsParts(s: State, stmts: seq<Stmt>, n0: nat, fold: Folder)
    requires Implements(s, stmts, n0, fold)
    ensures Sane(s) && AllScoped(stmts, n0) && s.nact == s.free == LocalsAfter(stmts, n0)
  {
  }

  /** How executing a chunk in place must end for its statements to have been executed. */
  ghost predicate Executed(flow: Flow, end: Interpreter.End, regs: Regs) {
    match flow
    case Done(locals) => end.Finished? && locals <= regs
    case Failed(code) => end == Interpreter.Error(code)
  }

  lemma FinishedEnds(c: seq<Instr>, ks: seq<Value>, flow: Flow, regs: Regs, meta: Meta, end: Interpreter.End, regs': Regs)
    requires FinishedRun(c, ks, flow, regs, meta) && Interpreter.EndsAs(Run(c, ks, meta, {}, 0, regs), end, regs')
    ensures Executed(flow, end, regs')
  {
  }

  /** Compile a chunk, then interpret it: the registers end up as executing its statements says. */
  method DoChunk(stmts: seq<Stmt>, n0: nat, fold: Folder, meta: Meta, regs: array<Value>) returns (r: Result<Interpreter.End>)
    requires n0 < MAXVARS && AllScoped(stmts, n0) && Agrees(fold, meta) && MAXREGS <= regs.Length
    modifies regs
    ensures r.Ok? ==> Executed(Exec(stmts, old(regs[..n0]), meta), r.value, regs[..])
    ensures r.Fail? ==> TooLarge(stmts, n0)
  {
    hide Run, Finished;
    var fs, p := Chunk(stmts, n0, fold);
    if p.Fail? {
      return Fail(p.why);
    }
    ghost var start := regs[..];
    assert start[..n0] == regs[..n0];
    FinishedAny(fs.code, fs.k, stmts, n0, fs.maxstacksize, fold, start, meta);
    var end := Interpreter.Execute(fs.code, fs.k, meta, regs);
    FinishedEnds(fs.code, fs.k, Exec(stmts, start[..n0], meta), start, meta, end, regs[..]);
    r := Ok(end);
  }

  lemma FinishedAny(c: seq<Instr>, ks: seq<Value>, stmts: seq<Stmt>, n0: nat, frame: int, fold: Folder, regs: Regs, meta: Meta)
    requires AllScoped(stmts, n0) && Finished(c, ks, stmts, n0, frame, fold)
    requires n0 <= |regs| && frame <= |regs| && Agrees(fold, meta)
    ensures FinishedRun(c, ks, Exec(stmts, regs[..n0], meta), regs, meta)
  {
  }
}
