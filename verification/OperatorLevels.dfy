/**
  Section 3.4.8 of the Lua 5.3 Reference Manual, which lists the operators by levels, against the
  table of priorities by which `subexpr` reads.
 */
module OperatorLevels {
  import opened Precedence

  // ---------- the manual ----------

  /** From lower to higher precedence; the unary operators stand between the last two levels. */
  function Listed(): seq<set<BinOpr>> {
    [
      {Or},
      {And},
      {Lt, Gt, Le, Ge, Ne, Eq},
      {BOr},
      {BXor},
      {BAnd},
      {Shl, Shr},
      {Concat},
      {Add, Sub},
      {Mul, Div, IDiv, Mod},
      {Pow}
    ]
  }

  const RIGHT_ASSOCIATIVE: set<BinOpr> := {Concat, Pow}

  predicate OnLevel(op: BinOpr, i: int) {
    0 <= i < |Listed()| && op in Listed()[i]
  }

  ghost predicate Higher(op1: BinOpr, op2: BinOpr) {
    exists i, j :: i > j && OnLevel(op1, i) && OnLevel(op2, j)
  }

  ghost predicate SameLevel(op1: BinOpr, op2: BinOpr) {
    exists i :: OnLevel(op1, i) && OnLevel(op2, i)
  }

  /** Of `a op1 b op2 c`, the operand `b` belongs to `op1`. */
  ghost predicate Takes(op1: BinOpr, op2: BinOpr) {
    Higher(op1, op2) || (SameLevel(op1, op2) && op1 !in RIGHT_ASSOCIATIVE)
  }

  /** No operator at the right end of `a` leaves its operand to `op`, and no unary operator there is weaker. */
  ghost predicate Before(a: Expr, op: BinOpr) {
    match a
    case Atom(_) => true
    case Paren(_) => true
    case Un(_, x) => op != Pow && Before(x, op)
    case Bin(o, _, b) => Takes(o, op) && Before(b, op)
  }

  /** No operator at the left end of `b` leaves its operand to `op`. */
  ghost predicate Behind(op: BinOpr, b: Expr) {
    match b
    case Atom(_) => true
    case Paren(_) => true
    case Un(_, _) => true
    case Bin(o, a, _) => !Takes(op, o) && Behind(op, a)
  }

  /** Only `^` takes the operand of a unary operator in front. */
  predicate BehindUnary(x: Expr) {
    match x
    case Atom(_) => true
    case Paren(_) => true
    case Un(_, _) => true
    case Bin(o, a, _) => o == Pow && BehindUnary(a)
  }

  /** Every operator of the tree has the operands that the manual gives it. */
  ghost predicate AsListed(e: Expr) {
    match e
    case Atom(_) => true
    case Paren(x) => AsListed(x)
    case Un(_, x) => AsListed(x) && BehindUnary(x)
    case Bin(op, a, b) => AsListed(a) && AsListed(b) && Before(a, op) && Behind(op, b)
  }

  // ---------- the table of priorities ----------

  /** The place of each operator in the list. */
  function Level(op: BinOpr): nat {
    match op
    case Or => 0 case And => 1
    case Lt => 2 case Gt => 2 case Le => 2 case Ge => 2 case Ne => 2 case Eq => 2
    case BOr => 3 case BXor => 4 case BAnd => 5
    case Shl => 6 case Shr => 6
    case Concat => 7
    case Add => 8 case Sub => 8
    case Mul => 9 case Div => 9 case IDiv => 9 case Mod => 9
    case Pow => 10
  }

  lemma LevelIs(op: BinOpr, i: int)
    ensures OnLevel(op, i) <==> i == Level(op)
  {
  }

  lemma HigherByLevel(op1: BinOpr, op2: BinOpr)
    ensures Higher(op1, op2) <==> Level(op1) > Level(op2)
    ensures SameLevel(op1, op2) <==> Level(op1) == Level(op2)
  {
    hide Level, OnLevel;
    LevelIs(op1, Level(op1));
    LevelIs(op2, Level(op2));
    if Higher(op1, op2) {
      var i, j :| i > j && OnLevel(op1, i) && OnLevel(op2, j);
      LevelIs(op1, i);
      LevelIs(op2, j);
    }
    if SameLevel(op1, op2) {
      var i :| OnLevel(op1, i) && OnLevel(op2, i);
      LevelIs(op1, i);
      LevelIs(op2, i);
    }
  }

  /** The priorities are those of the manual. */
  lemma PrioritiesAre(op1: BinOpr, op2: BinOpr)
    ensures Takes(op1, op2) <==> Left(op2) <= Right(op1)
    ensures Left(op2) <= UNARY_PRIORITY <==> op2 != Pow
  {
    HigherByLevel(op1, op2);
    hide Higher, SameLevel, OnLevel;
  }

  // ---------- trees ----------

  predicate LeftEnd(e: Expr, l: nat) {
    e.Bin? ==> Left(e.op) > l && LeftEnd(e.a, l)
  }

  predicate RightEnd(e: Expr, f: nat) {
    match e
    case Atom(_) => true
    case Paren(_) => true
    case Un(_, x) => f <= UNARY_PRIORITY && RightEnd(x, f)
    case Bin(o, _, b) => f <= Right(o) && RightEnd(b, f)
  }

  lemma {:induction false} AnyEnd(e: Expr)
    ensures LeftEnd(e, 0) && RightEnd(e, 0)
  {
    match e
    case Atom(_) =>
    case Paren(_) =>
    case Un(_, x) => AnyEnd(x);
    case Bin(_, a, b) =>
      AnyEnd(a);
      AnyEnd(b);
  }

  /** What stands around a tree matters to its two ends only. */
  lemma {:induction false} WellByEnds(e: Expr, l: nat, f: nat)
    ensures Well(e, l, f) <==> Well(e, 0, 0) && LeftEnd(e, l) && RightEnd(e, f)
  {
    hide Left, Right;
    match e
    case Atom(_) =>
    case Paren(_) =>
    case Un(_, x) =>
      AnyEnd(x);
      WellByEnds(x, UNARY_PRIORITY, f);
      WellByEnds(x, UNARY_PRIORITY, 0);
    case Bin(op, a, b) =>
      AnyEnd(a);
      AnyEnd(b);
      WellByEnds(a, l, Left(op));
      WellByEnds(a, 0, Left(op));
      WellByEnds(b, Right(op), f);
      WellByEnds(b, Right(op), 0);
  }

  lemma {:induction false} BeforeIs(a: Expr, op: BinOpr)
    ensures RightEnd(a, Left(op)) <==> Before(a, op)
  {
    hide Left, Right, Takes;
    match a
    case Atom(_) =>
    case Paren(_) =>
    case Un(_, x) =>
      PrioritiesAre(op, op);
      BeforeIs(x, op);
    case Bin(o, _, b) =>
      PrioritiesAre(o, op);
      BeforeIs(b, op);
  }

  lemma {:induction false} BehindIs(op: BinOpr, b: Expr)
    ensures LeftEnd(b, Right(op)) <==> Behind(op, b)
  {
    hide Left, Right, Takes;
    if b.Bin? {
      PrioritiesAre(op, b.op);
      BehindIs(op, b.a);
    }
  }

  lemma {:induction false} BehindUnaryIs(x: Expr)
    ensures LeftEnd(x, UNARY_PRIORITY) <==> BehindUnary(x)
  {
    hide Left, Takes;
    if x.Bin? {
      PrioritiesAre(x.op, x.op);
      BehindUnaryIs(x.a);
    }
  }

  /** The trees that respect the priorities are those that the manual describes. */
  lemma {:induction false} WellAsListed(e: Expr)
    ensures Well(e, 0, 0) <==> AsListed(e)
  {
    hide Left, Right, Before, Behind, BehindUnary, LeftEnd, RightEnd;
    match e
    case Atom(_) =>
    case Paren(x) => WellAsListed(x);
    case Un(_, x) =>
      WellAsListed(x);
      AnyEnd(x);
      WellByEnds(x, UNARY_PRIORITY, 0);
      BehindUnaryIs(x);
    case Bin(op, a, b) =>
      WellAsListed(a);
      WellAsListed(b);
      AnyEnd(a);
      AnyEnd(b);
      WellByEnds(a, 0, Left(op));
      WellByEnds(b, Right(op), 0);
      BeforeIs(a, op);
      BehindIs(op, b);
  }

  /** `subexpr` reads the tokens of a tree as that tree if and only if it is the one that the manual describes. */
  lemma ReadAsListed(e: Expr, n: nat, rest: seq<Token>)
    requires n + Levels(e) <= LUAI_MAXCCALLS && Follow(rest) == 0 && (rest == [] || rest[0] != Open)
    ensures SubExpr(Yield(e) + rest, 0, n) == Ok(e, rest) <==> AsListed(e)
  {
    ReadYield(e, n, rest);
    WellAsListed(e);
  }

  /** Whatever `subexpr` reads, it is a tree of the manual for exactly these tokens. */
  lemma ReadIsListed(toks: seq<Token>, n: nat)
    ensures var r := SubExpr(toks, 0, n); r.Ok? ==> AsListed(r.e) && toks == Yield(r.e) + r.rest
  {
    hide AsListed, SubExpr, Yield, Well, Follow;
    ReadIsWell(toks, 0, n);
    var r := SubExpr(toks, 0, n);
    if r.Ok? {
      WellFollowed(r.e, Follow(r.rest));
      WellAsListed(r.e);
    }
  }

  lemma WellFollowed(e: Expr, f: nat)
    requires Well(e, 0, f)
    ensures Well(e, 0, 0)
  {
    WellByEnds(e, 0, f);
  }

  // ---------- two operators ----------

  lemma Pair(op: BinOpr, a: nat, b: nat)
    ensures var e := Bin(op, Atom(a), Atom(b));
            && Yield(e) == [Operand(a), Operator(op), Operand(b)] && Levels(e) == 2
  {
    assert Yield(Atom(a)) == [Operand(a)] && Yield(Atom(b)) == [Operand(b)] && Levels(Atom(a)) == 1 == Levels(Atom(b));
  }

  lemma PairListed(op: BinOpr, a: nat, b: nat, after: BinOpr, before: BinOpr)
    ensures var e := Bin(op, Atom(a), Atom(b));
            && AsListed(e) && (Before(e, after) <==> Takes(op, after)) && (Behind(before, e) <==> !Takes(before, op)) && (BehindUnary(e) <==> op == Pow)
  {
    hide Takes;
    assert Before(Atom(b), after) && Behind(before, Atom(a)) && BehindUnary(Atom(a)) && Before(Atom(a), op) && Behind(op, Atom(b));
  }

  lemma UnaryAtom(u: UnOpr, a: nat, op: BinOpr)
    ensures var e := Un(u, Atom(a));
            Yield(e) == [UnToken(u), Operand(a)] && Levels(e) == 2 && AsListed(e) && (Before(e, op) <==> op != Pow)
  {
    assert Before(Atom(a), op) && BehindUnary(Atom(a)) && Yield(Atom(a)) == [Operand(a)] && Levels(Atom(a)) == 1;
  }

  /** `a op1 b op2 c`, for all pairs of operators. */
  lemma TwoBinary(op1: BinOpr, op2: BinOpr, a: nat, b: nat, c: nat, n: nat)
    requires n + 3 <= LUAI_MAXCCALLS
    ensures var toks := [Operand(a), Operator(op1), Operand(b), Operator(op2), Operand(c)];
            var left, right := Bin(op2, Bin(op1, Atom(a), Atom(b)), Atom(c)), Bin(op1, Atom(a), Bin(op2, Atom(b), Atom(c)));
            && SubExpr(toks, 0, n) == Ok(if Takes(op1, op2) then left else right, [])
            && (Takes(op1, op2) <==> Higher(op1, op2) || (SameLevel(op1, op2) && op1 != Pow && op1 != Concat))
  {
    hide SubExpr, Higher, SameLevel;
    var left, right := Bin(op2, Bin(op1, Atom(a), Atom(b)), Atom(c)), Bin(op1, Atom(a), Bin(op2, Atom(b), Atom(c)));
    var toks := [Operand(a), Operator(op1), Operand(b), Operator(op2), Operand(c)];
    Pair(op1, a, b);
    Pair(op2, b, c);
    PairListed(op1, a, b, op2, op1);
    PairListed(op2, b, c, op2, op1);
    assert Yield(left) + [] == toks && Yield(right) + [] == toks;
    if Takes(op1, op2) {
      ReadAsListed(left, n, []);
    } else {
      ReadAsListed(right, n, []);
    }
  }

  /** `-`, `~`, `not` and `#`; the first two are the tokens of subtraction and of the exclusive or. */
  function Sign(u: UnOpr): Token {
    match u
    case Minus => Operator(Sub)
    case BNot => Operator(BXor)
    case Not => OnlyUnary(Not)
    case Len => OnlyUnary(Len)
  }

  /** `u a op b`, for all pairs of a unary and a binary operator. */
  lemma UnaryBinary(u: UnOpr, op: BinOpr, a: nat, b: nat, n: nat)
    requires n + 3 <= LUAI_MAXCCALLS
    ensures SubExpr([Sign(u), Operand(a), Operator(op), Operand(b)], 0, n) ==
            Ok(if op == Pow then Un(u, Bin(op, Atom(a), Atom(b))) else Bin(op, Un(u, Atom(a)), Atom(b)), [])
  {
    hide SubExpr, Takes;
    var toks := [Sign(u), Operand(a), Operator(op), Operand(b)];
    var e := if op == Pow then Un(u, Bin(op, Atom(a), Atom(b))) else Bin(op, Un(u, Atom(a)), Atom(b));
    Pair(op, a, b);
    PairListed(op, a, b, op, op);
    UnaryAtom(u, a, op);
    assert Yield(e) + [] == toks;
    ReadAsListed(e, n, []);
  }
}
