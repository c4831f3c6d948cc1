/**
  Source text of declarations and assignments of local variables, as one stream of tokens: each
  statement is read, its names are looked up, and its code is emitted before the next one is
  read. Running the finished code does what the text says.
 */
module Sources {
  import opened LuaVm
  import opened Simulation
  import opened Expressions
  import opened Codegen
  import opened Sequencing
  import opened LuaK
  import opened Parsing
  import C = Chunks
  import Interpreter
  import P = Precedence

  // ---------- what a text says ----------

  /** The statements read, the names then active and the tokens left; or a mistake; or a name that is not a local variable. */
  datatype Step = Next(more: seq<C.Stmt>, actvar: seq<nat>, rest: seq<P.Token>) | Mistake(why: P.Fault) | FreeName

  predicate NameAt(toks: seq<P.Token>, i: nat, names: Names) {
    i < |toks| && toks[i].Operand? && names.leaves(toks[i].n).Name?
  }

  /** Behind `=`: the expression for the variable `id`; a new variable is active behind its own declaration only. */
  ghost function Assigned(toks: seq<P.Token>, names: Names, n: nat, declare: bool, id: nat): (r: Step)
    ensures r.Next? ==> |r.rest| < |toks|
  {
    var reg := Innermost(names.actvar, id);
    if !declare && reg < 0 then FreeName
    else
      match P.SubExpr(toks, 0, n)
      case Err(why) => Mistake(why)
      case Ok(e, rest) =>
        if !Known(e, names) then FreeName
        else if declare then Next([C.Declare(Meaning(e, names))], names.actvar + [id], rest)
        else Next([C.Assign(reg, Meaning(e, names))], names.actvar, rest)
  }

  /** The statement in front; one that begins otherwise is not modelled. */
  ghost function StatementAt(toks: seq<P.Token>, names: Names, n: nat): (r: Step)
    requires toks != []
    ensures r.Next? ==> |r.rest| < |toks|
  {
    if n >= P.LUAI_MAXCCALLS then Mistake(P.TooManyLevels)
    else if toks[0] == P.Semicolon then Next([], names.actvar, toks[1..])
    else
      var k := if toks[0] == P.Local then 1 else 0;
      if !NameAt(toks, k, names) then Mistake(P.NotModelled)
      else if k + 1 >= |toks| || toks[k + 1] != P.Assign then
        if k == 1 then Next([C.Declare(Literal(Nil))], names.actvar + [names.leaves(toks[1].n).id], toks[2..]) else Mistake(P.NotModelled)
      else Assigned(toks[k + 2..], names, n + 1, k == 1, names.leaves(toks[k].n).id)
  }

  /** The statements of a text, after those `done`. */
  ghost function Text(toks: seq<P.Token>, names: Names, n: nat, done: seq<C.Stmt>): Step
    decreases |toks|
  {
    if toks == [] then Next(done, names.actvar, [])
    else
      var s := StatementAt(toks, names, n);
      if s.Next? then Text(s.rest, names.(actvar := s.actvar), n, done + s.more) else s
  }

  // ---------- compiling a text ----------

  datatype Outcome<T> = Got(v: T) | Rejected(why: P.Fault) | NoLocal | Over(limit: Limit)

  /** A statement of a text of `size` tokens is too much for the state. */
  ghost predicate TooMuch(s: State, step: Step, declare: bool, size: nat) {
    var used := if step.Next? then size - |step.rest| else size;
    Exhausted(s, 26 * used, 8 * used, used + 2) || (declare && s.nact >= C.MAXVARS)
  }

  /** The statement `step` has been compiled, out of `size` tokens; or why it has not. */
  ghost predicate Compiled(r: Outcome<seq<nat>>, step: Step, fs: FuncState, ls: P.LexState, s: State, done: seq<C.Stmt>,
                           n0: nat, declare: bool, size: nat, n: nat)
    reads fs, ls
  {
    match r
    case Got(actvar) =>
      && step.Next? && actvar == step.actvar && |actvar| == fs.nactvar && ls.toks == step.rest && ls.nCcalls == n
      && C.Implements(fs.S().(free := fs.nactvar), done + step.more, n0, fs.fold)
      && |step.rest| < size && Few(s, fs.S(), size - |step.rest|)
    case Rejected(why) => step == Mistake(why)
    case NoLocal => !step.Next?
    case Over(_) => TooMuch(s, step, declare, size)
  }

  ghost predicate Few(s: State, s': State, used: int) {
    |s'.c| <= |s.c| + 26 * used && |s'.ks| <= |s.ks| + 8 * used
  }

  /** `explist` with one expression, and the store into the variable. */
  method AssignExpr(fs: FuncState, ls: P.LexState, names: Names, declare: bool, id: nat, reg: nat, ghost done: seq<C.Stmt>, ghost n0: nat, ghost size: nat)
    returns (r: Outcome<seq<nat>>)
    requires C.Implements(fs.S(), done, n0, fs.fold) && |names.actvar| == fs.nactvar && |ls.toks| + 2 <= size
    requires if declare then reg == fs.nactvar else reg == Innermost(names.actvar, id)
    modifies fs, ls
    ensures Compiled(r, Assigned(old(ls.toks), names, old(ls.nCcalls), declare, id), fs, ls, old(fs.S()), done, n0, declare, size, old(ls.nCcalls))
  {
    hide Stands, Chains, Sane, Fits, Rep, C.Implements, P.SubExpr, Innermost;
    ghost var s, x := fs.S(), Context(fs.S(), fs.freereg, -1);
    C.ImplementsParts(s, done, n0, fs.fold);
    ghost var p := P.SubExpr(ls.toks, 0, ls.nCcalls);
    var d, op;
    ghost var l: Lists;
    d, op, l := SubExpr(fs, ls, 0, names);
    if !d.Done? {
      return if d.Full? then Over(d.limit) else if d.Refused? then Rejected(d.why) else NoLocal;
    }
    ghost var e, s1 := Meaning(p.e, names), fs.S();
    fs.RegsInFrame(d.d, l, x, e);
    var v := C.StoreValue(fs, declare, reg, d.d, l, x, e);
    if v.Fail? {
      return Over(v.why);
    }
    ghost var st := if declare then C.Declare(e) else C.Assign(reg, e);
    MeaningScoped(p.e, names, s.nact);
    C.OneMore(s, done, st, n0, fs.S(), reg, fs.fold);
    if declare {
      fs.nactvar := fs.nactvar + 1;
    }
    r := Got(if declare then names.actvar + [id] else names.actvar);
  }

  /** `adjust_assign` and `adjustlocalvars` for a variable without an expression. */
  method LocalNil(fs: FuncState, ls: P.LexState, names: Names, id: nat, ghost done: seq<C.Stmt>, ghost n0: nat, ghost size: nat)
    returns (r: Outcome<seq<nat>>)
    requires C.Implements(fs.S(), done, n0, fs.fold) && |names.actvar| == fs.nactvar && |ls.toks| + 2 <= size
    modifies fs
    ensures Compiled(r, Next([C.Declare(Literal(Nil))], names.actvar + [id], ls.toks), fs, ls, old(fs.S()), done, n0, true, size, ls.nCcalls)
  {
    hide Stands, Chains, Sane, Fits, Rep, C.Implements;
    ghost var s, x, e, none := fs.S(), Context(fs.S(), fs.freereg, -1), Literal(Nil), Lists([], []);
    C.ImplementsParts(s, done, n0, fs.fold);
    var reg := fs.nactvar;
    Begin(s, fs.freereg, VNil, e, fs.fold);
    NoChains(s);
    var v := C.StoreValue(fs, true, reg, ExpDesc(VNil, NO_JUMP, NO_JUMP), none, x, e);
    if v.Fail? {
      return Over(v.why);
    }
    C.OneMore(s, done, C.Declare(e), n0, fs.S(), reg, fs.fold);
    fs.nactvar := fs.nactvar + 1;
    r := Got(names.actvar + [id]);
  }

  /** `localstat` with one variable, behind `local`. */
  method LocalStat(fs: FuncState, ls: P.LexState, names: Names, ghost done: seq<C.Stmt>, ghost n0: nat, ghost toks: seq<P.Token>, ghost n: nat)
    returns (r: Outcome<seq<nat>>)
    requires C.Implements(fs.S(), done, n0, fs.fold) && |names.actvar| == fs.nactvar
    requires n < P.LUAI_MAXCCALLS && ls.nCcalls == n + 1 && toks == [P.Local] + ls.toks
    modifies fs, ls
    ensures Compiled(r, StatementAt(toks, names, n), fs, ls, old(fs.S()), done, n0, true, |toks|, n + 1)
  {
    hide C.Implements, Assigned, Exhausted;
    if ls.toks == [] || !ls.toks[0].Operand? {
      return Rejected(P.NotModelled);
    }
    var leaf := names.leaves(ls.toks[0].n);
    if !leaf.Name? {
      return Rejected(P.NotModelled);
    }
    if fs.nactvar + 1 > C.MAXVARS {
      return Over(TooManyLocals);
    }
    ls.toks := ls.toks[1..];
    assert ls.toks == toks[2..];
    if ls.toks == [] || ls.toks[0] != P.Assign {
      r := LocalNil(fs, ls, names, leaf.id, done, n0, |toks|);
      return;
    }
    ls.toks := ls.toks[1..];
    assert ls.toks == toks[3..];
    r := AssignExpr(fs, ls, names, true, leaf.id, fs.nactvar, done, n0, |toks|);
  }

  /** `exprstat` with one assignment: `singlevar`, `=`, and the expression. */
  method ExprStat(fs: FuncState, ls: P.LexState, names: Names, ghost done: seq<C.Stmt>, ghost n0: nat, ghost n: nat) returns (r: Outcome<seq<nat>>)
    requires C.Implements(fs.S(), done, n0, fs.fold) && |names.actvar| == fs.nactvar
    requires n < P.LUAI_MAXCCALLS && ls.nCcalls == n + 1 && ls.toks != [] && ls.toks[0] != P.Local && ls.toks[0] != P.Semicolon
    modifies fs, ls
    ensures Compiled(r, StatementAt(old(ls.toks), names, n), fs, ls, old(fs.S()), done, n0, false, |old(ls.toks)|, n + 1)
  {
    hide C.Implements, Exhausted, P.SubExpr;
    ghost var toks := ls.toks;
    if !ls.toks[0].Operand? {
      return Rejected(P.NotModelled);
    }
    var leaf := names.leaves(ls.toks[0].n);
    if !leaf.Name? {
      return Rejected(P.NotModelled);
    }
    var reg := SearchVar(names.actvar, leaf.id);
    ls.toks := ls.toks[1..];
    if ls.toks == [] || ls.toks[0] != P.Assign {
      return Rejected(P.NotModelled);
    }
    ls.toks := ls.toks[1..];
    assert ls.toks == toks[2..];
    if reg < 0 {
      return NoLocal;
    }
    r := AssignExpr(fs, ls, names, false, leaf.id, reg, done, n0, |toks|);
  }

  /** `statement` */
  method Statement(fs: FuncState, ls: P.LexState, names: Names, ghost done: seq<C.Stmt>, ghost n0: nat) returns (r: Outcome<seq<nat>>)
    requires C.Implements(fs.S(), done, n0, fs.fold) && |names.actvar| == fs.nactvar && ls.toks != []
    modifies fs, ls
    ensures Compiled(r, StatementAt(old(ls.toks), names, old(ls.nCcalls)), fs, ls, old(fs.S()), done, n0, old(ls.toks)[0] == P.Local,
                     |old(ls.toks)|, old(ls.nCcalls))
    ensures r.Got? ==> fs.freereg == fs.nactvar
  {
    hide C.Implements, TooMuch, Few, Assigned;
    ghost var toks, n, s := ls.toks, ls.nCcalls, fs.S();
    C.ImplementsParts(s, done, n0, fs.fold);
    if ls.nCcalls >= P.LUAI_MAXCCALLS {
      return Rejected(P.TooManyLevels);
    }
    ls.nCcalls := ls.nCcalls + 1;
    if ls.toks[0] == P.Semicolon {
      ls.toks := ls.toks[1..];
      r := Got(names.actvar);
      Unchanged(fs.S(), |toks| - |ls.toks|);
      assert done + [] == done;
    } else if ls.toks[0] == P.Local {
      ls.toks := ls.toks[1..];
      assert toks == [P.Local] + ls.toks;
      r := LocalStat(fs, ls, names, done, n0, toks, n);
    } else {
      r := ExprStat(fs, ls, names, done, n0, n);
    }
    if r.Got? {
      SameGrowth(s, fs.S(), fs.S().(free := fs.nactvar), |toks| - |ls.toks|);
      fs.freereg := fs.nactvar;
      ls.nCcalls := ls.nCcalls - 1;
    }
  }

  lemma Unchanged(s: State, used: nat)
    ensures Few(s, s, used) && s.(free := s.free) == s
  {
  }

  lemma SameGrowth(s: State, s1: State, s2: State, used: int)
    requires s2.c == s1.c && s2.ks == s1.ks
    ensures Few(s, s1, used) == Few(s, s2, used)
  {
  }

  // ---------- whole texts ----------

  /** Some statement comes near the limit of local variables or of registers. */
  ghost predicate Crowded(toks: seq<P.Token>, names: Names, n: nat)
    decreases |toks|
  {
    && toks != []
    && var step := StatementAt(toks, names, n);
       || (toks[0] == P.Local && |names.actvar| >= C.MAXVARS)
       || |names.actvar| + |toks| - (if step.Next? then |step.rest| else 0) + 2 >= MAXREGS
       || (step.Next? && Crowded(step.rest, names.(actvar := step.actvar), n))
  }

  /** The text comes near a limit of the machine: code size, constants, local variables or registers. */
  ghost predicate TooLarge(toks: seq<P.Token>, names: Names, n: nat) {
    26 * |toks| + 1 > MAXARG_sBx || 8 * |toks| > MAXARG_Ax || Crowded(toks, names, n)
  }

  /** `statlist` and `close_func`: the whole text. */
  method StatList(toks: seq<P.Token>, start: Names, n: nat, fold: Folder) returns (fs: FuncState, r: Outcome<()>)
    requires |start.actvar| < C.MAXVARS
    ensures var text, n0 := Text(toks, start, n, []), |start.actvar|;
            match r
            case Got(_) =>
              && text.Next? && C.AllScoped(text.more, n0) && C.Finished(fs.code, fs.k, text.more, n0, fs.maxstacksize, fold)
              && fs.pend == {} && AllEncodable(fs.code) && fs.maxstacksize < MAXREGS
            case Rejected(why) => text == Mistake(why)
            case NoLocal => !text.Next?
            case Over(_) => TooLarge(toks, start, n)
  {
    hide Stands, Sane, Fits, Rep, C.Implements, C.Finished, Exhausted, StatementAt, TooMuch;
    var n0 := |start.actvar|;
    fs := new FuncState(n0, fold);
    var ls := new P.LexState(toks, n);
    C.Nothing(fs.S(), n0, fold);
    var names := start;
    ghost var done: seq<C.Stmt> := [];
    while ls.toks != []
      invariant fresh(fs) && fresh(ls) && fs.fold == fold && ls.nCcalls == n && |names.actvar| == fs.nactvar
      invariant C.Implements(fs.S(), done, n0, fold)
      invariant Text(toks, start, n, []) == Text(ls.toks, names, n, done)
      invariant Crowded(ls.toks, names, n) ==> Crowded(toks, start, n)
      invariant |ls.toks| <= |toks| && |fs.code| <= 26 * (|toks| - |ls.toks|) && |fs.k| <= 8 * (|toks| - |ls.toks|)
      decreases |ls.toks|
    {
      C.ImplementsParts(fs.S(), done, n0, fold);
      ghost var step, s, now := StatementAt(ls.toks, names, n), fs.S(), ls.toks;
      var more := Statement(fs, ls, names, done, n0);
      if !more.Got? {
        WhyTooLarge(s, step, toks, start, now, names, n);
        r := if more.Over? then Over(more.limit) else if more.Rejected? then Rejected(more.why) else NoLocal;
        return;
      }
      names, done := names.(actvar := more.v), done + step.more;
    }
    var p := C.CloseFunc(fs, done, n0);
    r := if p.Ok? then Got(()) else Over(p.why);
  }

  lemma WhyTooLarge(s: State, step: Step, toks: seq<P.Token>, start: Names, now: seq<P.Token>, names: Names, n: nat)
    requires now != [] && step == StatementAt(now, names, n) && s.free == s.nact == |names.actvar|
    requires |now| <= |toks| && |s.c| <= 26 * (|toks| - |now|) && |s.ks| <= 8 * (|toks| - |now|)
    requires Crowded(now, names, n) ==> Crowded(toks, start, n)
    ensures TooMuch(s, step, now[0] == P.Local, |now|) ==> TooLarge(toks, start, n)
  {
    hide StatementAt;
  }

  /** Compile a text, then interpret it: the registers end up as its statements say. */
  method DoSource(toks: seq<P.Token>, names: Names, n: nat, fold: Folder, meta: Meta, regs: array<Value>) returns (r: Outcome<Interpreter.End>)
    requires |names.actvar| < C.MAXVARS && Agrees(fold, meta) && MAXREGS <= regs.Length
    modifies regs
    ensures var text, n0 := Text(toks, names, n, []), |names.actvar|;
            match r
            case Got(end) => text.Next? && C.AllScoped(text.more, n0) && C.Executed(C.Exec(text.more, old(regs[..n0]), meta), end, regs[..])
            case Rejected(why) => text == Mistake(why)
            case NoLocal => !text.Next?
            case Over(_) => TooLarge(toks, names, n)
  {
    hide Run, C.Finished, Text, TooLarge, C.Executed;
    var fs, p := StatList(toks, names, n, fold);
    if !p.Got? {
      return if p.Over? then Over(p.limit) else if p.Rejected? then Rejected(p.why) else NoLocal;
    }
    ghost var stmts, n0, start := Text(toks, names, n, []).more, |names.actvar|, regs[..];
    assert start[..n0] == regs[..n0];
    C.FinishedAny(fs.code, fs.k, stmts, n0, fs.maxstacksize, fold, start, meta);
    var end := Interpreter.Execute(fs.code, fs.k, meta, regs);
    C.FinishedEnds(fs.code, fs.k, C.Exec(stmts, start[..n0], meta), start, meta, end, regs[..]);
    r := Got(end);
  }

  // ---------- texts written from trees ----------

  /** Statements with their trees; `v` is the operand token of the variable's name. */
  datatype Source = LocalIs(v: nat, e: P.Expr) | SetTo(v: nat, e: P.Expr)

  /** Each expression with the fewest parentheses, and nothing between the statements. */
  function Written(src: seq<Source>): seq<P.Token> {
    if src == [] then []
    else (if src[0].LocalIs? then [P.Local] else []) + [P.Operand(src[0].v), P.Assign] + P.Yield(P.Wrap(src[0].e, 0, 0)) + Written(src[1..])
  }

  function After(st: Source, names: Names): Names
    requires names.leaves(st.v).Name?
  {
    if st.LocalIs? then names.(actvar := names.actvar + [names.leaves(st.v).id]) else names
  }

  /** Each statement uses local variables active at its place, and its expression does not nest too deep. */
  predicate Fine(src: seq<Source>, names: Names, n: nat) {
    src == [] ||
    (&& names.leaves(src[0].v).Name? && (src[0].SetTo? ==> Innermost(names.actvar, names.leaves(src[0].v).id) >= 0)
     && Known(src[0].e, names) && n + 1 + P.Levels(P.Wrap(src[0].e, 0, 0)) <= P.LUAI_MAXCCALLS
     && Fine(src[1..], After(src[0], names), n))
  }

  /** What the statements mean: a name is its innermost variable, a new one shadows the others from the next statement on. */
  ghost function Means(src: seq<Source>, names: Names, n: nat, locals: seq<Value>, meta: Meta): C.Flow
    requires Fine(src, names, n) && |locals| == |names.actvar|
  {
    if src == [] then C.Done(locals)
    else
      MeaningScoped(src[0].e, names, |locals|);
      C.ScopedValue(Meaning(src[0].e, names), locals, meta);
      var o := Eval(Meaning(src[0].e, names), locals, meta);
      if o.Err? then C.Failed(o.code)
      else
        Means(src[1..], After(src[0], names), n,
              if src[0].LocalIs? then locals + [o.v] else locals[Innermost(names.actvar, names.leaves(src[0].v).id) := o.v], meta)
  }

  ghost function Compilable(st: Source, names: Names, e: P.Expr): C.Stmt
    requires names.leaves(st.v).Name? && Known(e, names)
    requires st.SetTo? ==> Innermost(names.actvar, names.leaves(st.v).id) >= 0
  {
    if st.LocalIs? then C.Declare(Meaning(e, names)) else C.Assign(Innermost(names.actvar, names.leaves(st.v).id), Meaning(e, names))
  }

  /** The statement in front of a written text is read as it was written. */
  lemma StatementBack(src: seq<Source>, names: Names, n: nat)
    requires src != [] && Fine(src, names, n)
    ensures Known(P.Wrap(src[0].e, 0, 0), names)
    ensures Written(src) != []
    ensures StatementAt(Written(src), names, n) ==
            Next([Compilable(src[0], names, P.Wrap(src[0].e, 0, 0))], After(src[0], names).actvar, Written(src[1..]))
  {
    hide Known, Meaning, P.Yield, P.Wrap, P.SubExpr, P.Levels, Innermost, Assigned;
    var toks, rest, w := Written(src), Written(src[1..]), P.Wrap(src[0].e, 0, 0);
    var k := if src[0].LocalIs? then 1 else 0;
    assert toks[k + 2..] == P.Yield(w) + rest;
    WrapKnown(src[0].e, names);
    AssignedBack(src, names, n);
  }

  lemma WrapKnown(e: P.Expr, names: Names)
    ensures Known(P.Wrap(e, 0, 0), names) <==> Known(e, names)
  {
    hide Known, P.Wrap, P.Strip;
    KnownStripped(P.Wrap(e, 0, 0), names);
    KnownStripped(e, names);
  }

  lemma AssignedBack(src: seq<Source>, names: Names, n: nat)
    requires src != [] && Fine(src, names, n) && Known(P.Wrap(src[0].e, 0, 0), names)
    ensures Assigned(P.Yield(P.Wrap(src[0].e, 0, 0)) + Written(src[1..]), names, n + 1, src[0].LocalIs?, names.leaves(src[0].v).id) ==
            Next([Compilable(src[0], names, P.Wrap(src[0].e, 0, 0))], After(src[0], names).actvar, Written(src[1..]))
  {
    hide Known, Meaning, P.Yield, P.Wrap, P.SubExpr, P.Levels, Innermost;
    P.ReadYield(P.Wrap(src[0].e, 0, 0), n + 1, Written(src[1..]));
  }

  lemma CompilableScoped(src: seq<Source>, names: Names, n: nat)
    requires src != [] && Fine(src, names, n) && Known(P.Wrap(src[0].e, 0, 0), names)
    ensures C.StmtScoped(Compilable(src[0], names, P.Wrap(src[0].e, 0, 0)), |names.actvar|)
  {
    hide Known, Meaning, P.Wrap, P.Levels;
    MeaningScoped(P.Wrap(src[0].e, 0, 0), names, |names.actvar|);
  }

  lemma WrapMeaning(e: P.Expr, names: Names, regs: Regs, meta: Meta)
    requires Known(P.Wrap(e, 0, 0), names) && Known(e, names)
    ensures Eval(Meaning(P.Wrap(e, 0, 0), names), regs, meta) == Eval(Meaning(e, names), regs, meta)
  {
    hide Known, Meaning, P.Wrap, P.Strip;
    KnownStripped(e, names);
    MeaningStripped(P.Wrap(e, 0, 0), names, regs, meta);
    MeaningStripped(e, names, regs, meta);
  }

  /** The meaning of statements follows the execution of the first one, as it is read back. */
  lemma MeansOn(src: seq<Source>, names: Names, n: nat, locals: seq<Value>, meta: Meta)
    requires src != [] && Fine(src, names, n) && |locals| == |names.actvar| && Known(P.Wrap(src[0].e, 0, 0), names)
    ensures var st := Compilable(src[0], names, P.Wrap(src[0].e, 0, 0));
            && C.StmtScoped(st, |locals|)
            && var fl := C.ExecStmt(st, locals, meta);
               if fl.Failed? then Means(src, names, n, locals, meta) == fl
               else |fl.locals| == |After(src[0], names).actvar|
                    && Means(src, names, n, locals, meta) == Means(src[1..], After(src[0], names), n, fl.locals, meta)
  {
    hide Known, Meaning, P.Wrap, Innermost, Eval, Scoped, P.Levels;
    MeaningScoped(P.Wrap(src[0].e, 0, 0), names, |locals|);
    MeaningScoped(src[0].e, names, |locals|);
    C.ScopedValue(Meaning(src[0].e, names), locals, meta);
    WrapMeaning(src[0].e, names, locals, meta);
  }

  /** A text written from trees and read again does what the trees mean, after the statements `done`. */
  lemma {:induction false} WrittenOn(src: seq<Source>, names: Names, n: nat, done: seq<C.Stmt>, locals: seq<Value>, meta: Meta)
    requires Fine(src, names, n) && C.AllScoped(done, |locals|) && C.LocalsAfter(done, |locals|) == |names.actvar|
    ensures var text, fl := Text(Written(src), names, n, done), C.Exec(done, locals, meta);
            text.Next? && C.AllScoped(text.more, |locals|)
            && C.Exec(text.more, locals, meta) == if fl.Failed? then fl else Means(src, names, n, fl.locals, meta)
    decreases |src|
  {
    if src != [] {
      hide Known, Meaning, P.Wrap, P.Levels, Written, Innermost, StatementAt, Eval, C.AllScoped, C.LocalsAfter, C.Exec, C.ExecStmt, Means, C.StmtScoped;
      StatementBack(src, names, n);
      var w := P.Wrap(src[0].e, 0, 0);
      var st := Compilable(src[0], names, w);
      var fl := C.Exec(done, locals, meta);
      CompilableScoped(src, names, n);
      C.AllScopedSnoc(done, st, |locals|);
      C.ExecSnoc(done, st, locals, meta);
      if fl.Done? {
        MeansOn(src, names, n, fl.locals, meta);
      }
      WrittenOn(src[1..], After(src[0], names), n, done + [st], locals, meta);
    }
  }

  /** Writing statements down and reading them gives a text that does what they mean. */
  lemma WrittenMeans(src: seq<Source>, names: Names, n: nat, locals: seq<Value>, meta: Meta)
    requires Fine(src, names, n) && |locals| == |names.actvar|
    ensures var text := Text(Written(src), names, n, []);
            text.Next? && C.AllScoped(text.more, |locals|) && C.Exec(text.more, locals, meta) == Means(src, names, n, locals, meta)
  {
    WrittenOn(src, names, n, [], locals, meta);
  }
}
