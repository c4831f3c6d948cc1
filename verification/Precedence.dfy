/**
  Expressions as `subexpr` (lparser.c) reads them: operator precedence by a left and a right
  priority of each operator, against the grammar that these priorities mean.
 */
module Precedence {

  const LUAI_MAXCCALLS := 200
  const UNARY_PRIORITY := 12

  datatype BinOpr = Add | Sub | Mul | Mod | Pow | Div | IDiv | BAnd | BOr | BXor | Shl | Shr | Concat | Eq | Lt | Le | Ne | Gt | Ge | And | Or
  datatype UnOpr = Minus | BNot | Not | Len

  /** `-` and `~` are both unary and binary; `local`, `=` and `;` belong to statements. */
  datatype Token = Operator(op: BinOpr) | OnlyUnary(un: UnOpr) | Operand(n: nat) | Open | Close | Local | Assign | Semicolon | Other

  /** Syntax trees that keep the parentheses. */
  datatype Expr = Atom(n: nat) | Paren(e: Expr) | Un(u: UnOpr, e: Expr) | Bin(op: BinOpr, a: Expr, b: Expr)

  /** The `priority` table. */
  function Left(op: BinOpr): (p: nat)
    ensures 1 <= p <= 14 && p != 12 && p != 13
  {
    match op
    case Add => 10 case Sub => 10
    case Mul => 11 case Mod => 11
    case Pow => 14
    case Div => 11 case IDiv => 11
    case BAnd => 6 case BOr => 4 case BXor => 5
    case Shl => 7 case Shr => 7
    case Concat => 9
    case Eq => 3 case Lt => 3 case Le => 3
    case Ne => 3 case Gt => 3 case Ge => 3
    case And => 2 case Or => 1
  }

  function Right(op: BinOpr): (p: nat)
    ensures Left(op) - 1 <= p <= Left(op)
  {
    match op
    case Pow => 13
    case Concat => 8
    case _ => Left(op)
  }

  function GetUnOpr(t: Token): (r: seq<UnOpr>)
    ensures |r| <= 1
  {
    match t
    case OnlyUnary(u) => if u == Not || u == Len then [u] else []
    case Operator(op) => if op == Sub then [Minus] else if op == BXor then [BNot] else []
    case _ => []
  }

  function UnToken(u: UnOpr): (t: Token)
    ensures GetUnOpr(t) == [u]
  {
    match u
    case Minus => Operator(Sub)
    case BNot => Operator(BXor)
    case Not => OnlyUnary(Not)
    case Len => OnlyUnary(Len)
  }

  /** The left priority of the operator in front, 0 if there is none. */
  function Follow(toks: seq<Token>): nat {
    if toks != [] && toks[0].Operator? then Left(toks[0].op) else 0
  }

  // ---------- what the parser does ----------

  /** The errors: too many nested calls, an unexpected symbol, a missing parenthesis; calls and other statements are not modelled. */
  datatype Fault = TooManyLevels | UnexpectedSymbol | CloseExpected | NotModelled

  datatype Parsed = Ok(e: Expr, rest: seq<Token>) | Err(why: Fault)

  /** `subexpr`: `n` nested calls are active around it. */
  function SubExpr(toks: seq<Token>, limit: nat, n: nat): (r: Parsed)
    ensures r.Ok? ==> |r.rest| < |toks|
    decreases |toks|, 1, 0
  {
    if n >= LUAI_MAXCCALLS then Err(TooManyLevels)
    else
      var first := Start(toks, n + 1);
      if first.Err? then first else Loop(first.e, first.rest, limit, n + 1)
  }

  /** The first operand: a unary operator with its operand, or a simple expression. */
  function Start(toks: seq<Token>, n: nat): (r: Parsed)
    ensures r.Ok? ==> |r.rest| < |toks|
    decreases |toks|, 0, 1
  {
    if toks == [] then Err(UnexpectedSymbol)
    else if GetUnOpr(toks[0]) != [] then
      var x := SubExpr(toks[1..], UNARY_PRIORITY, n);
      if x.Ok? then Ok(Un(GetUnOpr(toks[0])[0], x.e), x.rest) else x
    else SimpleExp(toks, n)
  }

  /** `simpleexp`, and `primaryexp` for parentheses; what follows must not make it a call. */
  function SimpleExp(toks: seq<Token>, n: nat): (r: Parsed)
    requires toks != []
    ensures r.Ok? ==> |r.rest| < |toks|
    decreases |toks|, 0, 0
  {
    if toks[0].Operand? then
      if |toks| > 1 && toks[1] == Open then Err(NotModelled) else Ok(Atom(toks[0].n), toks[1..])
    else if toks[0] == Open then
      var x := SubExpr(toks[1..], 0, n);
      if x.Err? then x
      else if x.rest == [] || x.rest[0] != Close then Err(CloseExpected)
      else if |x.rest| > 1 && x.rest[1] == Open then Err(NotModelled)
      else Ok(Paren(x.e), x.rest[1..])
    else Err(UnexpectedSymbol)
  }

  /** The loop: while the operator has a left priority above `limit`. */
  function Loop(e: Expr, toks: seq<Token>, limit: nat, n: nat): (r: Parsed)
    ensures r.Ok? ==> |r.rest| <= |toks|
    decreases |toks|, 0, 0
  {
    if Follow(toks) <= limit then Ok(e, toks)
    else
      var op := toks[0].op;
      var x := SubExpr(toks[1..], Right(op), n);
      if x.Err? then x else Loop(Bin(op, e, x.e), x.rest, limit, n)
  }

  // ---------- the grammar ----------

  function Yield(e: Expr): seq<Token> {
    match e
    case Atom(n) => [Operand(n)]
    case Paren(x) => [Open] + Yield(x) + [Close]
    case Un(u, x) => [UnToken(u)] + Yield(x)
    case Bin(op, a, b) => Yield(a) + [Operator(op)] + Yield(b)
  }

  /** `e` may stand, as it is, behind an operator with right priority `l` and before one with left priority `f`. */
  predicate Well(e: Expr, l: nat, f: nat) {
    match e
    case Atom(_) => true
    case Paren(x) => Well(x, 0, 0)
    case Un(_, x) => f <= UNARY_PRIORITY && Well(x, UNARY_PRIORITY, f)
    case Bin(op, a, b) => Left(op) > l && f <= Right(op) && Well(a, l, Left(op)) && Well(b, Right(op), f)
  }

  /** The nested calls of `subexpr` that reading `e` takes. */
  function Levels(e: Expr): (n: nat)
    ensures n >= 1
  {
    match e
    case Atom(_) => 1
    case Paren(x) => 1 + Levels(x)
    case Un(_, x) => 1 + Levels(x)
    case Bin(_, a, b) => if Levels(a) < 1 + Levels(b) then 1 + Levels(b) else Levels(a)
  }

  /** Whatever tokens come, the tree that is read is made of them and well-formed. */
  lemma {:induction false} ReadIsWell(toks: seq<Token>, limit: nat, n: nat)
    ensures var r := SubExpr(toks, limit, n);
            r.Ok? ==> toks == Yield(r.e) + r.rest && Well(r.e, limit, Follow(r.rest)) && Follow(r.rest) <= limit
    decreases |toks|, 1, 0
  {
    if n < LUAI_MAXCCALLS {
      StartIsWell(toks, limit, n + 1);
      var first := Start(toks, n + 1);
      if first.Ok? {
        LoopIsWell(first.e, first.rest, limit, n + 1);
      }
    }
  }

  lemma {:induction false} StartIsWell(toks: seq<Token>, limit: nat, n: nat)
    ensures var r := Start(toks, n);
            r.Ok? ==> toks == Yield(r.e) + r.rest && Well(r.e, limit, Follow(r.rest))
    decreases |toks|, 0, 0
  {
    hide SubExpr, Loop;
    if toks != [] {
      if GetUnOpr(toks[0]) != [] {
        ReadIsWell(toks[1..], UNARY_PRIORITY, n);
        var x := SubExpr(toks[1..], UNARY_PRIORITY, n);
        if x.Ok? {
          YieldUn(toks, x.e, x.rest);
        }
      } else if toks[0].Operand? {
        assert toks == [toks[0]] + toks[1..];
      } else if toks[0] == Open {
        ReadIsWell(toks[1..], 0, n);
        var x := SubExpr(toks[1..], 0, n);
        if x.Ok? && x.rest != [] && x.rest[0] == Close {
          YieldParen(toks, x.e, x.rest, Follow(x.rest[1..]), limit);
        }
      }
    }
  }

  lemma YieldUn(toks: seq<Token>, x: Expr, rest: seq<Token>)
    requires toks != [] && GetUnOpr(toks[0]) != [] && toks[1..] == Yield(x) + rest
    ensures toks == Yield(Un(GetUnOpr(toks[0])[0], x)) + rest
  {
    assert toks == [toks[0]] + (Yield(x) + rest);
    assert UnToken(GetUnOpr(toks[0])[0]) == toks[0];
  }

  lemma YieldParen(toks: seq<Token>, x: Expr, rest: seq<Token>, f: nat, limit: nat)
    requires toks != [] && toks[0] == Open && toks[1..] == Yield(x) + rest && rest != [] && rest[0] == Close && Well(x, 0, 0)
    ensures toks == Yield(Paren(x)) + rest[1..] && Well(Paren(x), limit, f)
  {
    assert rest == [Close] + rest[1..];
    assert toks == [Open] + (Yield(x) + ([Close] + rest[1..]));
  }

  lemma YieldBin(op: BinOpr, e: Expr, x: Expr, toks: seq<Token>, rest: seq<Token>)
    requires toks != [] && toks[0] == Operator(op) && toks[1..] == Yield(x) + rest
    ensures Yield(e) + toks == Yield(Bin(op, e, x)) + rest
  {
    assert toks == [toks[0]] + (Yield(x) + rest);
  }

  lemma WellBin(op: BinOpr, e: Expr, x: Expr, l: nat, f: nat, f': nat)
    requires f == Left(op) > l && Well(e, l, f) && Well(x, Right(op), f') && f' <= Right(op)
    ensures Well(Bin(op, e, x), l, f')
  {
  }

  lemma {:induction false} LoopIsWell(e: Expr, toks: seq<Token>, limit: nat, n: nat)
    requires Well(e, limit, Follow(toks))
    ensures var r := Loop(e, toks, limit, n);
            r.Ok? ==> Yield(e) + toks == Yield(r.e) + r.rest && Well(r.e, limit, Follow(r.rest)) && Follow(r.rest) <= limit
    decreases |toks|, 0, 0
  {
    if Follow(toks) > limit {
      var op := toks[0].op;
      ReadIsWell(toks[1..], Right(op), n);
      var x := SubExpr(toks[1..], Right(op), n);
      if x.Ok? {
        YieldBin(op, e, x.e, toks, x.rest);
        WellBin(op, e, x.e, limit, Follow(toks), Follow(x.rest));
        hide Well, Yield;
        LoopIsWell(Bin(op, e, x.e), x.rest, limit, n);
      }
    }
  }

  /** Every well-formed tree is read from its tokens, unless that takes too many nested calls. */
  lemma {:induction false} WellIsRead(e: Expr, limit: nat, n: nat, rest: seq<Token>)
    requires n < LUAI_MAXCCALLS && Well(e, limit, Follow(rest)) && (rest == [] || rest[0] != Open)
    ensures SubExpr(Yield(e) + rest, limit, n) == if n + Levels(e) <= LUAI_MAXCCALLS then Loop(e, rest, limit, n + 1) else Err(TooManyLevels)
    decreases e
  {
    hide SubExpr, Start, SimpleExp, Loop, Yield;
    match e
    case Atom(k) =>
      ReadAtom(k, limit, n, rest);
    case Paren(x) =>
      if n + 1 < LUAI_MAXCCALLS {
        WellIsRead(x, 0, n + 1, [Close] + rest);
      }
      ReadParen(x, limit, n, rest);
    case Un(u, x) =>
      if n + 1 < LUAI_MAXCCALLS {
        WellIsRead(x, UNARY_PRIORITY, n + 1, rest);
      }
      ReadUn(u, x, limit, n, rest);
    case Bin(op, a, b) =>
      var more := [Operator(op)] + (Yield(b) + rest);
      YieldSplit(op, a, b, rest);
      WellIsRead(a, limit, n, more);
      if n + 1 < LUAI_MAXCCALLS {
        WellIsRead(b, Right(op), n + 1, rest);
      }
      if n + Levels(a) <= LUAI_MAXCCALLS {
        LoopOn(op, a, b, limit, n, rest);
      }
  }

  lemma YieldSplit(op: BinOpr, a: Expr, b: Expr, rest: seq<Token>)
    ensures Yield(Bin(op, a, b)) + rest == Yield(a) + ([Operator(op)] + (Yield(b) + rest))
  {
  }

  lemma ReadAtom(k: nat, limit: nat, n: nat, rest: seq<Token>)
    requires n < LUAI_MAXCCALLS && (rest == [] || rest[0] != Open)
    ensures SubExpr(Yield(Atom(k)) + rest, limit, n) == Loop(Atom(k), rest, limit, n + 1)
  {
    assert ([Operand(k)] + rest)[1..] == rest;
    assert SimpleExp([Operand(k)] + rest, n + 1) == Ok(Atom(k), rest);
    assert Start([Operand(k)] + rest, n + 1) == Ok(Atom(k), rest);
  }

  lemma ReadParen(x: Expr, limit: nat, n: nat, rest: seq<Token>)
    requires n < LUAI_MAXCCALLS && (rest == [] || rest[0] != Open)
    requires n + 1 < LUAI_MAXCCALLS ==>
               SubExpr(Yield(x) + ([Close] + rest), 0, n + 1) ==
               if n + 1 + Levels(x) <= LUAI_MAXCCALLS then Loop(x, [Close] + rest, 0, n + 2) else Err(TooManyLevels)
    ensures SubExpr(Yield(Paren(x)) + rest, limit, n) ==
            if n + 1 + Levels(x) <= LUAI_MAXCCALLS then Loop(Paren(x), rest, limit, n + 1) else Err(TooManyLevels)
  {
    var toks, t := Yield(Paren(x)) + rest, [Close] + rest;
    assert toks[1..] == Yield(x) + t && t[1..] == rest;
    assert Loop(x, t, 0, n + 2) == Ok(x, t);
    assert SubExpr(toks[1..], 0, n + 1) == if n + 1 + Levels(x) <= LUAI_MAXCCALLS then Ok(x, t) else Err(TooManyLevels);
    assert SimpleExp(toks, n + 1) == if n + 1 + Levels(x) <= LUAI_MAXCCALLS then Ok(Paren(x), rest) else Err(TooManyLevels);
  }

  lemma ReadUn(u: UnOpr, x: Expr, limit: nat, n: nat, rest: seq<Token>)
    requires n < LUAI_MAXCCALLS && Follow(rest) <= UNARY_PRIORITY
    requires n + 1 < LUAI_MAXCCALLS ==>
               SubExpr(Yield(x) + rest, UNARY_PRIORITY, n + 1) ==
               if n + 1 + Levels(x) <= LUAI_MAXCCALLS then Loop(x, rest, UNARY_PRIORITY, n + 2) else Err(TooManyLevels)
    ensures SubExpr(Yield(Un(u, x)) + rest, limit, n) ==
            if n + 1 + Levels(x) <= LUAI_MAXCCALLS then Loop(Un(u, x), rest, limit, n + 1) else Err(TooManyLevels)
  {
    var toks := Yield(Un(u, x)) + rest;
    assert toks[1..] == Yield(x) + rest && toks[0] == UnToken(u);
    assert Loop(x, rest, UNARY_PRIORITY, n + 2) == Ok(x, rest);
    assert SubExpr(toks[1..], UNARY_PRIORITY, n + 1) == if n + 1 + Levels(x) <= LUAI_MAXCCALLS then Ok(x, rest) else Err(TooManyLevels);
    assert Start(toks, n + 1) == if n + 1 + Levels(x) <= LUAI_MAXCCALLS then Ok(Un(u, x), rest) else Err(TooManyLevels);
  }

  /** One round of the loop. */
  lemma LoopOn(op: BinOpr, a: Expr, b: Expr, limit: nat, n: nat, rest: seq<Token>)
    requires n < LUAI_MAXCCALLS && Left(op) > limit && Follow(rest) <= Right(op)
    requires n + 1 < LUAI_MAXCCALLS ==>
               SubExpr(Yield(b) + rest, Right(op), n + 1) ==
               if n + 1 + Levels(b) <= LUAI_MAXCCALLS then Loop(b, rest, Right(op), n + 2) else Err(TooManyLevels)
    ensures Loop(a, [Operator(op)] + (Yield(b) + rest), limit, n + 1) ==
            if n + 1 + Levels(b) <= LUAI_MAXCCALLS then Loop(Bin(op, a, b), rest, limit, n + 1) else Err(TooManyLevels)
  {
    var more := [Operator(op)] + (Yield(b) + rest);
    assert more[1..] == Yield(b) + rest;
    assert Loop(b, rest, Right(op), n + 2) == Ok(b, rest);
    assert SubExpr(more[1..], Right(op), n + 1) == if n + 1 + Levels(b) <= LUAI_MAXCCALLS then Ok(b, rest) else Err(TooManyLevels);
  }

  /** An expression: reading and writing undo each other, for exactly the well-formed trees. */
  lemma ReadYield(e: Expr, n: nat, rest: seq<Token>)
    requires n + Levels(e) <= LUAI_MAXCCALLS && Follow(rest) == 0 && (rest == [] || rest[0] != Open)
    ensures SubExpr(Yield(e) + rest, 0, n) == Ok(e, rest) <==> Well(e, 0, 0)
  {
    if Well(e, 0, 0) {
      WellIsRead(e, 0, n, rest);
    }
    ReadIsWell(Yield(e) + rest, 0, n);
  }

  // ---------- the fewest parentheses ----------

  /** The tree without parentheses. */
  function Strip(e: Expr): Expr {
    match e
    case Atom(_) => e
    case Paren(x) => Strip(x)
    case Un(u, x) => Un(u, Strip(x))
    case Bin(op, a, b) => Bin(op, Strip(a), Strip(b))
  }

  /** Parentheses put where the priorities ask for them, and nowhere else. */
  function Wrap(e: Expr, l: nat, f: nat): (r: Expr)
    ensures f <= UNARY_PRIORITY || f == 14 ==> Well(r, l, f)
    ensures Strip(r) == Strip(e)
  {
    match e
    case Atom(_) => e
    case Paren(x) => Wrap(x, l, f)
    case Un(u, x) => if f <= UNARY_PRIORITY then Un(u, Wrap(x, UNARY_PRIORITY, f)) else Paren(Un(u, Wrap(x, UNARY_PRIORITY, 0)))
    case Bin(op, a, b) =>
      if Left(op) > l && f <= Right(op) then Bin(op, Wrap(a, l, Left(op)), Wrap(b, Right(op), f))
      else Paren(Bin(op, Wrap(a, 0, Left(op)), Wrap(b, Right(op), 0)))
  }

  function Parens(e: Expr): nat {
    match e
    case Atom(_) => 0
    case Paren(x) => 1 + Parens(x)
    case Un(_, x) => Parens(x)
    case Bin(_, a, b) => Parens(a) + Parens(b)
  }

  /** A left operand needs the same parentheses wherever its operator may stand. */
  lemma {:induction false} WrapLeft(e: Expr, l: nat, f: nat)
    requires l < f
    ensures Wrap(e, l, f) == Wrap(e, 0, f)
  {
    match e
    case Atom(_) =>
    case Paren(x) => WrapLeft(x, l, f);
    case Un(_, _) =>
    case Bin(op, a, b) =>
      if f <= Right(op) {
        WrapLeft(a, l, Left(op));
      }
  }

  /** So does a right operand. */
  lemma {:induction false} WrapRight(e: Expr, l: nat, f: nat)
    requires f <= l && f <= UNARY_PRIORITY && f < 13
    ensures Wrap(e, l, f) == Wrap(e, l, 0)
  {
    match e
    case Atom(_) =>
    case Paren(x) => WrapRight(x, l, f);
    case Un(_, x) => WrapRight(x, UNARY_PRIORITY, f);
    case Bin(op, a, b) =>
      if Left(op) > l {
        WrapRight(b, Right(op), f);
      }
  }

  /** No well-formed tree for the same expression has fewer parentheses. */
  lemma {:induction false} WrapIsMinimal(t: Expr, l: nat, f: nat)
    requires Well(t, l, f) && (f < 12 || f == 14)
    ensures Parens(Wrap(t, l, f)) <= Parens(t)
    decreases t
  {
    match t
    case Atom(_) =>
    case Paren(x) =>
      WrapIsMinimal(x, 0, 0);
      OneMorePair(x, l, f);
    case Un(_, x) =>
      WrapIsMinimal(x, UNARY_PRIORITY, f);
    case Bin(op, a, b) =>
      WrapIsMinimal(a, l, Left(op));
      WrapIsMinimal(b, Right(op), f);
  }

  /** A tighter place costs at most one pair. */
  lemma {:induction false} OneMorePair(e: Expr, l: nat, f: nat)
    requires f < 12 || f == 14
    ensures Parens(Wrap(e, l, f)) <= 1 + Parens(Wrap(e, 0, 0))
  {
    match e
    case Atom(_) =>
    case Paren(x) => OneMorePair(x, l, f);
    case Un(_, x) =>
      if f <= UNARY_PRIORITY {
        WrapRight(x, UNARY_PRIORITY, f);
      }
    case Bin(op, a, b) =>
      if Left(op) > l && f <= Right(op) {
        WrapLeft(a, l, Left(op));
        WrapRight(b, Right(op), f);
      }
  }

  /** Printing with the fewest parentheses and reading again gives the expression back. */
  lemma PrintThenRead(e: Expr, n: nat)
    requires n + Levels(Wrap(e, 0, 0)) <= LUAI_MAXCCALLS
    ensures var r := SubExpr(Yield(Wrap(e, 0, 0)), 0, n);
            r.Ok? && r.rest == [] && Strip(r.e) == Strip(e)
    ensures forall t: Expr :: Well(t, 0, 0) && Strip(t) == Strip(e) ==> Parens(Wrap(e, 0, 0)) <= Parens(t)
  {
    ReadYield(Wrap(e, 0, 0), n, []);
    assert Yield(Wrap(e, 0, 0)) + [] == Yield(Wrap(e, 0, 0));
    forall t: Expr | Well(t, 0, 0) && Strip(t) == Strip(e) ensures Parens(Wrap(e, 0, 0)) <= Parens(t) {
      WrapIsMinimal(t, 0, 0);
      WrapStripped(e, 0, 0);
      WrapStripped(t, 0, 0);
    }
  }

  /** Old parentheses do not matter. */
  lemma {:induction false} WrapStripped(e: Expr, l: nat, f: nat)
    ensures Wrap(e, l, f) == Wrap(Strip(e), l, f)
  {
    match e
    case Atom(_) =>
    case Paren(x) => WrapStripped(x, l, f);
    case Un(_, x) =>
      WrapStripped(x, UNARY_PRIORITY, f);
      WrapStripped(x, UNARY_PRIORITY, 0);
    case Bin(op, a, b) =>
      WrapStripped(a, l, Left(op));
      WrapStripped(a, 0, Left(op));
      WrapStripped(b, Right(op), f);
      WrapStripped(b, Right(op), 0);
  }

  // ---------- the parser ----------

  /** The token stream with the counter of nested calls. */
  class LexState {
    var toks: seq<Token>
    var nCcalls: nat

    constructor (toks: seq<Token>, nCcalls: nat)
      ensures this.toks == toks && this.nCcalls == nCcalls
    {
      this.toks, this.nCcalls := toks, nCcalls;
    }

    /** The state after reading as the specification says: an error leaves the rest open. */
    ghost predicate After(r: Parsed, got: seq<Expr>, why: Fault, n: nat)
      reads this
    {
      if got == [] then r == Err(why) else |got| == 1 && r == Ok(got[0], toks) && nCcalls == n
    }

    /** `subexpr`: one expression, or none and an error; also the operator behind it. */
    method SubExprTree(limit: nat) returns (got: seq<Expr>, why: Fault, op: seq<BinOpr>)
      modifies this
      ensures After(SubExpr(old(toks), limit, old(nCcalls)), got, why, old(nCcalls))
      ensures got != [] ==> op == BinOprAt(toks)
      decreases |toks|, 1
    {
      got, why, op := [], TooManyLevels, [];
      ghost var all, n := toks, nCcalls;
      if nCcalls >= LUAI_MAXCCALLS {
        return;
      }
      nCcalls := nCcalls + 1;
      got, why := StartTree();
      if got == [] {
        return;
      }
      op := BinOprAt(toks);
      while op != [] && Left(op[0]) > limit
        invariant |got| == 1 && op == BinOprAt(toks) && nCcalls == n + 1 && |toks| < |all|
        invariant SubExpr(all, limit, n) == Loop(got[0], toks, limit, n + 1)
        decreases |toks|
      {
        var o := op[0];
        toks := toks[1..];
        var right;
        right, why, op := SubExprTree(Right(o));
        if right == [] {
          got := [];
          return;
        }
        got := [Bin(o, got[0], right[0])];
      }
      nCcalls := nCcalls - 1;
    }

    method StartTree() returns (got: seq<Expr>, why: Fault)
      modifies this
      ensures After(Start(old(toks), old(nCcalls)), got, why, old(nCcalls))
      decreases |toks|, 0
    {
      got, why := [], UnexpectedSymbol;
      if toks == [] {
        return;
      }
      var t := toks[0];
      var uop := GetUnOpr(t);
      var op;
      if uop != [] {
        toks := toks[1..];
        got, why, op := SubExprTree(UNARY_PRIORITY);
        if got != [] {
          got := [Un(uop[0], got[0])];
        }
      } else if t.Operand? {
        toks := toks[1..];
        if toks != [] && toks[0] == Open {
          return [], NotModelled;
        }
        got := [Atom(t.n)];
      } else if t == Open {
        toks := toks[1..];
        got, why, op := SubExprTree(0);
        if got == [] {
          return;
        }
        if toks == [] || toks[0] != Close {
          return [], CloseExpected;
        }
        toks := toks[1..];
        if toks != [] && toks[0] == Open {
          return [], NotModelled;
        }
        got := [Paren(got[0])];
      }
    }
  }

  /** `getbinopr`: the binary operator in front, if there is one. */
  function BinOprAt(toks: seq<Token>): (r: seq<BinOpr>)
    ensures |r| <= 1
  {
    if toks != [] && toks[0].Operator? then [toks[0].op] else []
  }
}
