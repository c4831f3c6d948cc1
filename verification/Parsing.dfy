/**
  `subexpr` (lparser.c) as it is: it reads tokens by operator precedence and has code emitted
  for them at the same time. What the code computes is what the tree means that the
  precedences give.
 */
module Parsing {
  import opened LuaVm
  import opened Simulation
  import opened Expressions
  import opened Codegen
  import opened Sequencing
  import opened LuaK
  import P = Precedence

  // ---------- what trees mean ----------

  /** What an operand token is. */
  datatype Leaf = Constant(v: Value) | Name(id: nat)

  /** The operand tokens, and the names of the active local variables: variable `i` has register `i`. */
  datatype Names = Names(leaves: nat -> Leaf, actvar: seq<nat>)

  /** The innermost of the local variables called `id`, or -1. */
  function Innermost(actvar: seq<nat>, id: nat): (r: int)
    ensures -1 <= r < |actvar| && forall i :: 0 <= i < |actvar| && actvar[i] == id ==> i <= r
    ensures r >= 0 ==> actvar[r] == id
  {
    if actvar == [] then -1
    else if actvar[|actvar| - 1] == id then |actvar| - 1
    else Innermost(actvar[..|actvar| - 1], id)
  }

  /** `searchvar` */
  method SearchVar(actvar: seq<nat>, id: nat) returns (r: int)
    ensures r == Innermost(actvar, id)
  {
    r := |actvar| - 1;
    while r >= 0
      invariant -1 <= r < |actvar| && forall i :: r < i < |actvar| ==> actvar[i] != id
    {
      if actvar[r] == id {
        return;
      }
      r := r - 1;
    }
  }

  function UnaryOf(u: P.UnOpr): UnaryOp {
    match u
    case Minus => Minus
    case BNot => BNot
    case Not => Not
    case Len => Len
  }

  function BinaryOf(op: P.BinOpr): BinOpr {
    match op
    case And => OprAnd
    case Or => OprOr
    case Concat => OprBin(ConcatD)
    case Eq => OprBin(CompD(OpEq))
    case Lt => OprBin(CompD(OpLt))
    case Le => OprBin(CompD(OpLe))
    case Ne => OprBin(CompD(OpNe))
    case Gt => OprBin(CompD(OpGt))
    case Ge => OprBin(CompD(OpGe))
    case Add => OprBin(ArithD(Add))
    case Sub => OprBin(ArithD(Sub))
    case Mul => OprBin(ArithD(Mul))
    case Mod => OprBin(ArithD(Mod))
    case Pow => OprBin(ArithD(Pow))
    case Div => OprBin(ArithD(Div))
    case IDiv => OprBin(ArithD(IDiv))
    case BAnd => OprBin(ArithD(BAnd))
    case BOr => OprBin(ArithD(BOr))
    case BXor => OprBin(ArithD(BXor))
    case Shl => OprBin(ArithD(Shl))
    case Shr => OprBin(ArithD(Shr))
  }

  /** Every name is that of a local variable. */
  predicate Known(e: P.Expr, names: Names) {
    match e
    case Atom(n) => names.leaves(n).Name? ==> Innermost(names.actvar, names.leaves(n).id) >= 0
    case Paren(x) => Known(x, names)
    case Un(_, x) => Known(x, names)
    case Bin(_, a, b) => Known(a, names) && Known(b, names)
  }

  ghost function Meaning(e: P.Expr, names: Names): Expr
    requires Known(e, names)
  {
    match e
    case Atom(n) => (match names.leaves(n) case Constant(v) => Literal(v) case Name(id) => Local(Innermost(names.actvar, id)))
    case Paren(x) => Paren(Meaning(x, names))
    case Un(u, x) => UnaryE(UnaryOf(u), Meaning(x, names))
    case Bin(op, a, b) => Apply2(BinaryOf(op), Meaning(a, names), Meaning(b, names))
  }

  lemma {:induction false} MeaningScoped(e: P.Expr, names: Names, n: int)
    requires |names.actvar| <= n && Known(e, names)
    ensures Scoped(Meaning(e, names), n)
  {
    match e
    case Atom(_) =>
    case Paren(x) => MeaningScoped(x, names, n);
    case Un(_, x) => MeaningScoped(x, names, n);
    case Bin(op, a, b) =>
      MeaningScoped(a, names, n);
      MeaningScoped(b, names, n);
  }

  lemma {:induction false} KnownStripped(e: P.Expr, names: Names)
    ensures Known(e, names) <==> Known(P.Strip(e), names)
  {
    match e
    case Atom(_) =>
    case Paren(x) => KnownStripped(x, names);
    case Un(_, x) => KnownStripped(x, names);
    case Bin(_, a, b) =>
      KnownStripped(a, names);
      KnownStripped(b, names);
  }

  /** Parentheses do not change what an expression evaluates to. */
  lemma {:induction false} MeaningStripped(e: P.Expr, names: Names, regs: Regs, meta: Meta)
    requires Known(e, names) && Known(P.Strip(e), names)
    ensures Eval(Meaning(e, names), regs, meta) == Eval(Meaning(P.Strip(e), names), regs, meta)
  {
    match e
    case Atom(_) =>
    case Paren(x) => MeaningStripped(x, names, regs, meta);
    case Un(_, x) => MeaningStripped(x, names, regs, meta);
    case Bin(op, a, b) =>
      MeaningStripped(a, names, regs, meta);
      MeaningStripped(b, names, regs, meta);
  }

  // ---------- reading and emitting ----------

  /** An expression has been read, or there is a syntax error, or a name is not a local variable, or a limit of the machine is reached. */
  datatype Read = Done(d: ExpDesc) | Refused(why: P.Fault) | NotLocal | Full(limit: Limit)

  /** Code and descriptor stand for the tree `e`, for which `used` tokens have been read since state `s`. */
  ghost predicate Built(fs: FuncState, d: ExpDesc, l: Lists, s: State, e: P.Expr, names: Names, used: int)
    reads fs
  {
    && Known(e, names) && fs.Valid(d, l, Context(s, s.free, -1), Meaning(e, names)) && fs.TrueConstant(d.k)
    && Grew(s, fs.S(), 26 * used, 8 * used)
  }

  /** The state cannot take what `p` reads out of `size` tokens. */
  ghost predicate Short(s: State, p: P.Parsed, size: nat) {
    var used := if p.Ok? then size - |p.rest| else size;
    Exhausted(s, 26 * used, 8 * used, used + 2)
  }

  /** `p` has not been read, for a reason. */
  ghost predicate Failed(r: Read, p: P.Parsed, s: State, names: Names, size: nat)
    requires !r.Done?
  {
    match r
    case Full(_) => Short(s, p, size)
    case NotLocal => p.Ok? ==> !Known(p.e, names)
    case Refused(why) => p == P.Err(why)
  }

  /** `p` has been read, out of `size` tokens. */
  ghost predicate Followed(r: Read, p: P.Parsed, fs: FuncState, ls: P.LexState, l: Lists, s: State, names: Names, size: nat, n: nat)
    reads fs, ls
  {
    if r.Done? then p.Ok? && ls.toks == p.rest && |p.rest| < size && ls.nCcalls == n && Built(fs, r.d, l, s, p.e, names, size - |p.rest|)
    else Failed(r, p, s, names, size)
  }

  method SubExpr(fs: FuncState, ls: P.LexState, limit: nat, names: Names) returns (r: Read, op: seq<P.BinOpr>, ghost l: Lists)
    requires Sane(fs.S()) && |names.actvar| == fs.nactvar
    modifies fs, ls
    ensures Followed(r, P.SubExpr(old(ls.toks), limit, old(ls.nCcalls)), fs, ls, l, old(fs.S()), names, |old(ls.toks)|, old(ls.nCcalls))
    ensures r.Done? ==> op == P.BinOprAt(ls.toks)
    decreases |ls.toks|, 2
  {
    hide Sane, Built, Short, Meaning, P.SubExpr, P.Start, P.Loop, P.Right, Innermost;
    op, l := [], Lists([], []);
    ghost var s, all, n := fs.S(), ls.toks, ls.nCcalls;
    SubExprIs(all, limit, n);
    if ls.nCcalls >= P.LUAI_MAXCCALLS {
      return Refused(P.TooManyLevels), op, l;
    }
    ls.nCcalls := ls.nCcalls + 1;
    r, l := Start(fs, ls, names);
    ghost var first := P.Start(all, n + 1);
    if !r.Done? {
      if first.Ok? {
        FailsOn(r, first, first.e, limit, n + 1, s, names, |all|);
      }
      return;
    }
    ghost var e := first.e;
    op := P.BinOprAt(ls.toks);
    while op != [] && P.Left(op[0]) > limit
      invariant r.Done? && op == P.BinOprAt(ls.toks) && ls.nCcalls == n + 1 && |ls.toks| < |all|
      invariant P.SubExpr(all, limit, n) == P.Loop(e, ls.toks, limit, n + 1)
      invariant Built(fs, r.d, l, s, e, names, |all| - |ls.toks|)
      decreases |ls.toks|
    {
      ScopeStays(fs, r.d, l, s, e, names, |all| - |ls.toks|);
      LoopIs(e, ls.toks, limit, n + 1);
      ghost var x := P.SubExpr(ls.toks[1..], P.Right(op[0]), ls.nCcalls);
      ghost var o, e0 := op[0], e;
      r, op, l, e := Round(fs, ls, op[0], names, r.d, l, s, e, |all|);
      if !r.Done? {
        if x.Ok? {
          FailsOn(r, x, P.Bin(o, e0, x.e), limit, n + 1, s, names, |all|);
        }
        return;
      }
    }
    LoopIs(e, ls.toks, limit, n + 1);
    ls.nCcalls := ls.nCcalls - 1;
  }

  lemma SubExprIs(toks: seq<P.Token>, limit: nat, n: nat)
    ensures P.SubExpr(toks, limit, n) ==
            if n >= P.LUAI_MAXCCALLS then P.Err(P.TooManyLevels)
            else var first := P.Start(toks, n + 1); if first.Err? then first else P.Loop(first.e, first.rest, limit, n + 1)
  {
  }

  lemma LoopIs(e: P.Expr, toks: seq<P.Token>, limit: nat, n: nat)
    ensures var op := P.BinOprAt(toks);
            P.Loop(e, toks, limit, n) ==
            if op == [] || P.Left(op[0]) <= limit then P.Ok(e, toks)
            else var x := P.SubExpr(toks[1..], P.Right(op[0]), n); if x.Err? then x else P.Loop(P.Bin(op[0], e, x.e), x.rest, limit, n)
  {
  }

  /** What is read further on does not make names known. */
  lemma {:induction false} LoopKnown(e: P.Expr, toks: seq<P.Token>, limit: nat, n: nat, names: Names)
    ensures var r := P.Loop(e, toks, limit, n); r.Ok? && Known(r.e, names) ==> Known(e, names)
    decreases |toks|
  {
    if P.Follow(toks) > limit {
      var x := P.SubExpr(toks[1..], P.Right(toks[0].op), n);
      if x.Ok? {
        LoopKnown(P.Bin(toks[0].op, e, x.e), x.rest, limit, n, names);
      }
    }
  }

  /** When a part of an expression cannot be read, the expression cannot. */
  lemma FailsOn(r: Read, x: P.Parsed, e: P.Expr, limit: nat, n: nat, s: State, names: Names, size: nat)
    requires !r.Done? && x.Ok? && |x.rest| <= size && Failed(r, x, s, names, size) && (Known(e, names) ==> Known(x.e, names))
    ensures Failed(r, P.Loop(e, x.rest, limit, n), s, names, size)
  {
    hide P.Loop, P.SubExpr;
    LoopKnown(e, x.rest, limit, n, names);
  }

  lemma ScopeStays(fs: FuncState, d: ExpDesc, l: Lists, s: State, e: P.Expr, names: Names, used: int)
    requires Built(fs, d, l, s, e, names, used)
    ensures fs.nactvar == s.nact
  {
  }

  /** A round of the loop: `luaK_infix`, the second operand, `luaK_posfix`. */
  method Round(fs: FuncState, ls: P.LexState, o: P.BinOpr, names: Names, d: ExpDesc, ghost l0: Lists, ghost s: State, ghost e: P.Expr, ghost size: nat)
    returns (r: Read, op: seq<P.BinOpr>, ghost l: Lists, ghost e': P.Expr)
    requires ls.toks != [] && ls.toks[0] == P.Operator(o) && |ls.toks| < size && |names.actvar| == fs.nactvar
    requires Built(fs, d, l0, s, e, names, size - |ls.toks|)
    modifies fs, ls
    ensures var x := P.SubExpr(old(ls.toks)[1..], P.Right(o), old(ls.nCcalls));
            if r.Done? then
              && x.Ok? && e' == P.Bin(o, e, x.e) && ls.toks == x.rest && ls.nCcalls == old(ls.nCcalls)
              && Built(fs, r.d, l, s, e', names, size - |x.rest|) && op == P.BinOprAt(ls.toks)
            else Failed(r, x, s, names, size)
    decreases |ls.toks|, 0
  {
    hide Stands, Chains, Chain, Sane, Fits, Rep, RegsOk, AfterInfix, Exhausted, Later, Grew, P.SubExpr;
    op, l, e' := [], Lists([], []), e;
    ghost var x1, e1, n1, locals := Context(s, s.free, -1), Meaning(e, names), size - |ls.toks|, fs.nactvar;
    ghost var p := P.SubExpr(ls.toks[1..], P.Right(o), ls.nCcalls);
    ghost var n2: nat := |ls.toks| - 1 - if p.Ok? then |p.rest| else 0;
    ls.toks := ls.toks[1..];
    var d1;
    ghost var l1: Lists;
    fs.RegsInFrame(d, l0, x1, e1);
    ghost var s0 := fs.S();
    d1, l1 := fs.Infix(BinaryOf(o), d, l0, x1, e1);
    if d1.Fail? {
      InfixFull(s, s0, n1, n2);
      return Full(d1.why), op, l, e';
    }
    ghost var s1, x2 := fs.S(), Context(fs.S(), fs.freereg, -1);
    InfixGrew(s, s0, s1, n1);
    AfterInfixParts(BinaryOf(o), d1.value, l1, s1, x1, e1, fs.fold);
    ghost var l2: Lists;
    var r2;
    r2, op, l2 := SubExpr(fs, ls, P.Right(o), names);
    if !r2.Done? {
      r := r2;
      SecondFull(s, s1, n1, n2);
      return;
    }
    ghost var e2 := Meaning(p.e, names);
    MeaningScoped(p.e, names, locals);
    ScopedMore(e2, locals, x1.n);
    ghost var s2 := fs.S();
    fs.RegsInFrame(r2.d, l2, x2, e2);
    LastFull(s, s1, s2, n1, n2);
    var d2;
    d2, l := fs.Posfix(BinaryOf(o), d1.value, r2.d, l1, s1, x1, e1, l2, x2, e2);
    if d2.Fail? {
      return Full(d2.why), op, l, e';
    }
    e' := P.Bin(o, e, p.e);
    FuncState.GrewThrough(s, s1, s2, fs.S(), n1, n2);
    r := Done(d2.value);
  }

  lemma InfixFull(s: State, s0: State, n1: nat, n2: nat)
    requires Grew(s, s0, 26 * n1, 8 * n1) && n1 > 0 && s0.free <= s.free + 1 && Exhausted(s0, 5, 2, 1)
    ensures Exhausted(s, 26 * (n1 + n2 + 1), 8 * (n1 + n2 + 1), n1 + n2 + 3)
  {
  }

  lemma InfixGrew(s: State, s0: State, s1: State, n1: nat)
    requires Grew(s, s0, 26 * n1, 8 * n1) && Grew(s0, s1, 5, 2)
    ensures Grew(s, s1, 26 * n1 + 5, 8 * n1 + 2) && s1.nact == s.nact == s0.nact
  {
  }

  lemma SecondFull(s: State, s1: State, n1: nat, n2: nat)
    requires Grew(s, s1, 26 * n1 + 5, 8 * n1 + 2) && s1.free <= s.free + 1
    ensures Exhausted(s1, 26 * n2, 8 * n2, n2 + 2) ==> Exhausted(s, 26 * (n1 + n2 + 1), 8 * (n1 + n2 + 1), n1 + n2 + 3)
  {
  }

  lemma LastFull(s: State, s1: State, s2: State, n1: nat, n2: nat)
    requires Grew(s, s1, 26 * n1 + 5, 8 * n1 + 2) && Grew(s1, s2, 26 * n2, 8 * n2) && s2.free <= s1.free + 1 <= s.free + 2
    requires n1 > 0 && n2 > 0
    ensures Later(s1, s2)
    ensures Exhausted(s2, 21, 6, 3) ==> Exhausted(s, 26 * (n1 + n2 + 1), 8 * (n1 + n2 + 1), n1 + n2 + 3)
  {
  }

  /** The first operand: a unary operator with its operand, or a simple expression. */
  method Start(fs: FuncState, ls: P.LexState, names: Names) returns (r: Read, ghost l: Lists)
    requires Sane(fs.S()) && |names.actvar| == fs.nactvar
    modifies fs, ls
    ensures Followed(r, P.Start(old(ls.toks), old(ls.nCcalls)), fs, ls, l, old(fs.S()), names, |old(ls.toks)|, old(ls.nCcalls))
    decreases |ls.toks|, 1
  {
    hide Sane, Stands, Chains, Chain, Fits, Rep, RegsOk, P.SubExpr;
    l := Lists([], []);
    if ls.toks == [] {
      return Refused(P.UnexpectedSymbol), l;
    }
    var uop := P.GetUnOpr(ls.toks[0]);
    if uop == [] {
      r, l := SimpleExp(fs, ls, names);
      return;
    }
    ghost var s, size := fs.S(), |ls.toks|;
    ls.toks := ls.toks[1..];
    ghost var p := P.SubExpr(ls.toks, P.UNARY_PRIORITY, ls.nCcalls);
    var op;
    r, op, l := SubExpr(fs, ls, P.UNARY_PRIORITY, names);
    if !r.Done? {
      return;
    }
    ghost var x, e, s1 := Context(s, s.free, -1), Meaning(p.e, names), fs.S();
    fs.RegsInFrame(r.d, l, x, e);
    var d;
    d, l := fs.Prefix1(UnaryOf(uop[0]), r.d, l, x, e);
    if d.Fail? {
      return Full(d.why), l;
    }
    r := Done(d.value);
  }

  /** `simpleexp`, and `primaryexp` for parentheses. */
  method SimpleExp(fs: FuncState, ls: P.LexState, names: Names) returns (r: Read, ghost l: Lists)
    requires ls.toks != [] && Sane(fs.S()) && |names.actvar| == fs.nactvar
    modifies fs, ls
    ensures Followed(r, P.SimpleExp(old(ls.toks), old(ls.nCcalls)), fs, ls, l, old(fs.S()), names, |old(ls.toks)|, old(ls.nCcalls))
    decreases |ls.toks|, 0
  {
    hide Sane, Stands, Chains, Chain, Fits, Rep, RegsOk, P.SubExpr;
    l := Lists([], []);
    var t := ls.toks[0];
    ghost var s, size := fs.S(), |ls.toks|;
    if t.Operand? {
      ls.toks := ls.toks[1..];
      if ls.toks != [] && ls.toks[0] == P.Open {
        return Refused(P.NotModelled), l;
      }
      r := Atom(fs, t.n, names);
    } else if t == P.Open {
      ls.toks := ls.toks[1..];
      ghost var p := P.SubExpr(ls.toks, 0, ls.nCcalls);
      var op;
      r, op, l := SubExpr(fs, ls, 0, names);
      if !r.Done? {
        return;
      }
      if ls.toks == [] || ls.toks[0] != P.Close {
        return Refused(P.CloseExpected), l;
      }
      ls.toks := ls.toks[1..];
      if ls.toks != [] && ls.toks[0] == P.Open {
        return Refused(P.NotModelled), l;
      }
      fs.DischargeVarsStands(r.d, l, Context(s, s.free, -1), Meaning(p.e, names));
      InParens(fs.S(), Context(s, s.free, -1), Delayed(fs.DischargeVars(r.d).k), l, Meaning(p.e, names), fs.fold);
      r := Done(fs.DischargeVars(r.d));
    } else {
      r := Refused(P.UnexpectedSymbol);
    }
  }

  /** A literal, or a name, which `singlevar` looks up. */
  method Atom(fs: FuncState, n: nat, names: Names) returns (r: Read)
    requires Sane(fs.S()) && |names.actvar| == fs.nactvar
    modifies fs
    ensures match r
            case Full(_) => Exhausted(old(fs.S()), 26, 8, 3)
            case NotLocal => !Known(P.Atom(n), names)
            case Refused(_) => false
            case Done(d) => Built(fs, d, Lists([], []), old(fs.S()), P.Atom(n), names, 1)
  {
    hide Stands, Chains, Chain, Fits, Rep;
    ghost var s := fs.S();
    SaneParts(s);
    match names.leaves(n) {
      case Constant(v) =>
        var d := fs.CompileLiteral(v);
        if d.Fail? {
          return Full(d.why);
        }
        r := Done(d.value);
      case Name(id) =>
        var i := SearchVar(names.actvar, id);
        if i < 0 {
          return NotLocal;
        }
        Begin(s, fs.freereg, VLocal(i), Local(i), fs.fold);
        NoChains(s);
        r := Done(ExpDesc(VLocal(i), NO_JUMP, NO_JUMP));
    }
  }
}
