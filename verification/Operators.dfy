/**
  What the operators on 64-bit integers come to, apart from how they are computed: bit by bit,
  modulo 2^64, by products and quotients of unsigned numbers, and by the order of numbers.
 */
module Operators {
  import opened LuaVm
  import opened Expressions
  import Parsing
  import P = Precedence
  import opened Shifts

  // ---------- bits ----------

  /** Bit `i` of a number. */
  predicate Bit(u: nat, i: nat) {
    u / Pow2(i) % 2 == 1
  }

  lemma LowestBit(u: nat)
    ensures Bit(u, 0) <==> u % 2 == 1
  {
  }

  lemma NextBit(u: nat, i: nat)
    requires i > 0
    ensures Bit(u, i) <==> Bit(u / 2, i - 1)
  {
    DivideTwice(u, 2, Pow2(i - 1));
  }

  lemma NoBits(i: nat)
    ensures !Bit(0, i)
  {
    hide Times;
    Quotient(0, Pow2(i));
    QuotientBelow(0, Pow2(i));
  }

  /** Numbers of `n` bits that agree in all of them are equal. */
  lemma {:induction false} BitsDecide(u: nat, v: nat, n: nat)
    requires u < Pow2(n) && v < Pow2(n) && forall i: nat :: i < n ==> Bit(u, i) == Bit(v, i)
    ensures u == v
  {
    if n > 0 {
      forall i: nat | i < n - 1 ensures Bit(u / 2, i) == Bit(v / 2, i) {
        NextBit(u, i + 1);
        NextBit(v, i + 1);
        assert Bit(u, i + 1) == Bit(v, i + 1);
      }
      LowestBit(u);
      LowestBit(v);
      assert Bit(u, 0) == Bit(v, 0);
      BitsDecide(u / 2, v / 2, n - 1);
    }
  }

  // ---------- conjunction, disjunction, exclusive or ----------

  function Both(a: bool, b: bool, op: ArithOp): bool
    requires op in {BAnd, BOr, BXor}
  {
    if op == BAnd then a && b else if op == BOr then a || b else a != b
  }

  /** The unsigned result of `&`, `|` and `~`. */
  function Bitwise(op: ArithOp, x: nat, y: nat): int
    requires op in {BAnd, BOr, BXor}
  {
    if op == BAnd then BitAnd(x, y) else if op == BOr then x + y - BitAnd(x, y) else x + y - 2 * BitAnd(x, y)
  }

  lemma HalfAnd(x: nat, y: nat)
    ensures BitAnd(x, y) == 2 * BitAnd(x / 2, y / 2) + if x % 2 == 1 && y % 2 == 1 then 1 else 0
  {
  }

  lemma BitwiseStep(op: ArithOp, x: nat, y: nat)
    requires op in {BAnd, BOr, BXor}
    ensures Bitwise(op, x, y) == 2 * Bitwise(op, x / 2, y / 2) + if Both(x % 2 == 1, y % 2 == 1, op) then 1 else 0
  {
    HalfAnd(x, y);
    hide BitAnd;
  }

  lemma {:induction false} BitwiseBelow(op: ArithOp, x: nat, y: nat, n: nat)
    requires op in {BAnd, BOr, BXor} && x < Pow2(n) && y < Pow2(n)
    ensures 0 <= Bitwise(op, x, y) < Pow2(n)
  {
    if n > 0 {
      BitwiseBelow(op, x / 2, y / 2, n - 1);
      BitwiseStep(op, x, y);
    }
  }

  lemma {:induction false} BitwiseBit(op: ArithOp, x: nat, y: nat, i: nat)
    requires op in {BAnd, BOr, BXor} && Bitwise(op, x, y) >= 0 && Bitwise(op, x / 2, y / 2) >= 0
    ensures Bit(Bitwise(op, x, y), i) <==> Both(Bit(x, i), Bit(y, i), op)
  {
    hide Bitwise, Bit;
    BitwiseStep(op, x, y);
    if i == 0 {
      LowestBit(x);
      LowestBit(y);
      LowestBit(Bitwise(op, x, y));
    } else {
      NextBit(x, i);
      NextBit(y, i);
      NextBit(Bitwise(op, x, y), i);
      Shorter(op, x / 2, y / 2);
      BitwiseBit(op, x / 2, y / 2, i - 1);
    }
  }

  lemma Shorter(op: ArithOp, x: nat, y: nat)
    requires op in {BAnd, BOr, BXor}
    ensures Bitwise(op, x / 2, y / 2) >= 0
  {
    AndAtMost(x / 2, y / 2);
  }

  lemma {:induction false} AndAtMost(x: nat, y: nat)
    ensures BitAnd(x, y) <= x && BitAnd(x, y) <= y
  {
    if x > 0 && y > 0 {
      AndAtMost(x / 2, y / 2);
    }
  }

  /** `&`, `|` and `~`: each bit of the result is that of the operands' bits, and these are all its bits. */
  lemma BitwiseBits(op: ArithOp, x: int, y: int)
    requires op in {BAnd, BOr, BXor} && -TWO63 <= x < TWO63 && -TWO63 <= y < TWO63
    ensures var z := IntArith(op, x, y);
            && z.Val? && z.v.Int? && -TWO63 <= z.v.i < TWO63
            && forall i: nat :: i < 64 ==> (Bit(Unsigned(z.v.i), i) <==> Both(Bit(Unsigned(x), i), Bit(Unsigned(y), i), op))
  {
    hide Bit, Pow2, BitAnd;
    var u, v := Unsigned(x), Unsigned(y);
    PowerOf64();
    UnsignedBelow(x);
    UnsignedBelow(y);
    BitwiseBelow(op, u, v, 64);
    var w := Bitwise(op, u, v);
    assert IntArith(op, x, y) == Val(Int(Wrap(w)));
    UnsignedOfWrap(w);
    Small(w);
    Shorter(op, u, v);
    hide Bitwise, Wrap, Unsigned;
    forall i: nat | i < 64 ensures Bit(w, i) <==> Both(Bit(u, i), Bit(v, i), op) {
      BitwiseBit(op, u, v, i);
    }
  }

  /** A 64-bit integer is decided by its bits. */
  lemma BitsOfInteger(x: int, y: int)
    requires -TWO63 <= x < TWO63 && -TWO63 <= y < TWO63
    requires forall i: nat :: i < 64 ==> Bit(Unsigned(x), i) == Bit(Unsigned(y), i)
    ensures x == y
  {
    hide Bit, Pow2;
    PowerOf64();
    UnsignedBelow(x);
    UnsignedBelow(y);
    BitsDecide(Unsigned(x), Unsigned(y), 64);
    SameUnsigned(x, y);
  }

  // ---------- sums, differences, products ----------

  /** `z` is a 64-bit integer that differs from `exact` by a multiple of 2^64, of which there is one only. */
  ghost predicate Reduced(z: int, exact: int) {
    -TWO63 <= z < TWO63 && exists k: int :: exact == z + Times(k, TWO64)
  }

  lemma WrapReduces(exact: int)
    ensures Reduced(Wrap(exact), exact)
  {
    var k := (exact + TWO63) / TWO64;
    assert exact == Wrap(exact) + Times(k, TWO64);
  }

  lemma ReducedOnce(z: int, z': int, exact: int)
    requires Reduced(z, exact) && Reduced(z', exact)
    ensures z == z'
  {
    var k: int :| exact == z + Times(k, TWO64);
    var k': int :| exact == z' + Times(k', TWO64);
  }

  lemma SumsReduced(x: int, y: int)
    ensures IntArith(Add, x, y).Val? && Reduced(IntArith(Add, x, y).v.i, x + y)
    ensures IntArith(Sub, x, y).Val? && Reduced(IntArith(Sub, x, y).v.i, x - y)
    ensures IntArith(Mul, x, y).Val? && Reduced(IntArith(Mul, x, y).v.i, Times(x, y))
  {
    WrapReduces(x + y);
    WrapReduces(x - y);
    WrapReduces(Times(x, y));
    hide Reduced, Wrap;
  }

  // ---------- shifts ----------

  /** `<<` and `>>` as operators: products modulo 2^64 and quotients of the unsigned number; a negative count shifts the other way. */
  lemma ShiftsAre(x: int, y: int)
    requires -TWO63 <= x < TWO63 && -TWO63 <= y < TWO63
    ensures var l, r := IntArith(Shl, x, y), IntArith(Shr, x, y);
            && l.Val? && r.Val? && -TWO63 <= l.v.i < TWO63 && -TWO63 <= r.v.i < TWO63
            && Unsigned(l.v.i) == (if y >= 0 then Times(Unsigned(x), Pow2(y)) % TWO64 else Unsigned(x) / Pow2(-y))
            && Unsigned(r.v.i) == (if y >= 0 then Unsigned(x) / Pow2(y) else Times(Unsigned(x), Pow2(-y)) % TWO64)
  {
    hide VShiftL, Pow2, Times;
    InRange(x, y);
    InRange(x, Wrap(-y));
    if y >= 0 {
      LeftMultiplies(x, y);
      RightDivides(x, y);
      SignedWrap(-y);
    } else {
      RightDivides(x, -y);
      LeftMultiplies(x, -y);
      if y == -TWO63 {
        FarShift(x);
      } else {
        SignedWrap(-y);
      }
    }
  }

  /** 2^63 is no 64-bit integer: its negation is itself, and the shift by it clears all bits either way. */
  lemma FarShift(x: int)
    ensures Wrap(TWO63) == -TWO63 && VShiftL(x, -TWO63) == 0 == VShiftL(x, TWO63)
  {
  }

  // ---------- unary operators ----------

  lemma {:induction false} ComplementBit(u: nat, n: nat, i: nat)
    requires u < Pow2(n) && i < n
    ensures Bit(Pow2(n) - 1 - u, i) <==> !Bit(u, i)
  {
    hide Bit;
    var w := Pow2(n) - 1 - u;
    if i == 0 {
      LowestBit(u);
      LowestBit(w);
    } else {
      assert w / 2 == Pow2(n - 1) - 1 - u / 2;
      NextBit(u, i);
      NextBit(w, i);
      ComplementBit(u / 2, n - 1, i - 1);
    }
  }

  /** Unary minus is the negation modulo 2^64, and unary `~` the complement of every bit. */
  lemma UnaryIs(x: int, meta: Meta)
    requires -TWO63 <= x < TWO63
    ensures var m, c := Unary(Minus, Int(x), meta), Unary(BNot, Int(x), meta);
            && m.Val? && m.v.Int? && Reduced(m.v.i, -x)
            && c.Val? && c.v.Int? && -TWO63 <= c.v.i < TWO63
            && forall i: nat :: i < 64 ==> (Bit(Unsigned(c.v.i), i) <==> !Bit(Unsigned(x), i))
  {
    hide Bit, Pow2, Reduced;
    WrapReduces(-x);
    PowerOf64();
    UnsignedBelow(x);
    var z := Wrap(-1 - x);
    assert Unsigned(z) == TWO64 - 1 - Unsigned(x) by {
      UnsignedOfWrap(-1 - x);
    }
    hide Wrap, Unsigned;
    forall i: nat | i < 64 ensures Bit(Unsigned(z), i) <==> !Bit(Unsigned(x), i) {
      ComplementBit(Unsigned(x), 64, i);
    }
  }

  // ---------- order and truth ----------

  /** All six comparisons of integers, by the sign of the difference. */
  lemma ComparisonsAre(x: int, y: int, meta: Meta)
    ensures CompareValues(OpLt, Int(x), Int(y), meta) == Val(Bool(y - x > 0)) == CompareValues(OpGt, Int(y), Int(x), meta)
    ensures CompareValues(OpLe, Int(x), Int(y), meta) == Val(Bool(y - x >= 0)) == CompareValues(OpGe, Int(y), Int(x), meta)
    ensures CompareValues(OpEq, Int(x), Int(y), meta) == Val(Bool(y - x == 0))
    ensures CompareValues(OpNe, Int(x), Int(y), meta) == Val(Bool(y - x != 0))
  {
  }

  /** Exactly `nil` and `false` count as false, for `not`, `and` and `or`. */
  lemma TruthIs(e1: Expr, e2: Expr, v: Value, regs: Regs, meta: Meta)
    requires Eval(e1, regs, meta) == Val(v)
    ensures var no := v == Nil || v == Bool(false);
            && Eval(UnaryE(Not, e1), regs, meta) == Val(Bool(no))
            && Eval(And(e1, e2), regs, meta) == (if no then Val(v) else Eval(e2, regs, meta))
            && Eval(Or(e1, e2), regs, meta) == if no then Eval(e2, regs, meta) else Val(v)
  {
  }

  // ---------- operators of the language on integers ----------

  ghost predicate Within(z: int) {
    -TWO63 <= z < TWO63
  }

  /** The greatest multiple of `y` that is not above `x`, for a negative `y` not below it. */
  ghost predicate FloorOf(x: int, y: int, q: int) {
    y != 0 && var r := x - Times(y, q); if y > 0 then 0 <= r < y else y < r <= 0
  }

  /** What `x op y` comes to, where it is an integer operation; the other operators ask the metamethods. */
  ghost predicate Denotes(op: P.BinOpr, x: int, y: int, o: Outcome, meta: Meta) {
    match op
    case Add => o.Val? && o.v.Int? && Reduced(o.v.i, x + y)
    case Sub => o.Val? && o.v.Int? && Reduced(o.v.i, x - y)
    case Mul => o.Val? && o.v.Int? && Reduced(o.v.i, Times(x, y))
    case IDiv => if y == 0 then o == Err(DIV_BY_ZERO) else o.Val? && o.v.Int? && exists q :: FloorOf(x, y, q) && Reduced(o.v.i, q)
    case Mod => if y == 0 then o == Err(DIV_BY_ZERO) else o.Val? && o.v.Int? && exists q :: FloorOf(x, y, q) && o.v.i == x - Times(y, q)
    case BAnd => o.Val? && o.v.Int? && Within(o.v.i) && forall i: nat :: i < 64 ==> (Bit(Unsigned(o.v.i), i) <==> Bit(Unsigned(x), i) && Bit(Unsigned(y), i))
    case BOr => o.Val? && o.v.Int? && Within(o.v.i) && forall i: nat :: i < 64 ==> (Bit(Unsigned(o.v.i), i) <==> Bit(Unsigned(x), i) || Bit(Unsigned(y), i))
    case BXor => o.Val? && o.v.Int? && Within(o.v.i) && forall i: nat :: i < 64 ==> (Bit(Unsigned(o.v.i), i) <==> Bit(Unsigned(x), i) != Bit(Unsigned(y), i))
    case Shl => o.Val? && o.v.Int? && Within(o.v.i) && Unsigned(o.v.i) == if y >= 0 then Times(Unsigned(x), Pow2(y)) % TWO64 else Unsigned(x) / Pow2(-y)
    case Shr => o.Val? && o.v.Int? && Within(o.v.i) && Unsigned(o.v.i) == if y >= 0 then Unsigned(x) / Pow2(y) else Times(Unsigned(x), Pow2(-y)) % TWO64
    case Lt => o == Val(Bool(y - x > 0))
    case Le => o == Val(Bool(y - x >= 0))
    case Gt => o == Val(Bool(x - y > 0))
    case Ge => o == Val(Bool(x - y >= 0))
    case Eq => o == Val(Bool(x - y == 0))
    case Ne => o == Val(Bool(x - y != 0))
    case And => o == Val(Int(y))
    case Or => o == Val(Int(x))
    case Pow => o == meta(OnArith(Pow), Int(x), Int(y))
    case Div => o == meta(OnArith(Div), Int(x), Int(y))
    case Concat => o == meta(OnConcat, Int(x), Int(y))
  }

  lemma QuotientsAre(x: int, y: int)
    requires Within(x) && Within(y)
    ensures y == 0 ==> IntArith(IDiv, x, y) == Err(DIV_BY_ZERO) == IntArith(Mod, x, y)
    ensures y != 0 ==> IntArith(IDiv, x, y).Val? && exists q :: FloorOf(x, y, q) && Reduced(IntArith(IDiv, x, y).v.i, q)
    ensures y != 0 ==> IntArith(Mod, x, y).Val? && exists q :: FloorOf(x, y, q) && IntArith(Mod, x, y).v.i == x - Times(y, q)
  {
    hide VDiv, VMod, Floor, Wrap, Reduced;
    if y != 0 {
      FloorDivision(x, y);
      WrapReduces(Floor(x, y));
      assert FloorOf(x, y, Floor(x, y));
    }
  }

  /** What the evaluator does with the two integers. */
  function OnIntegers(op: P.BinOpr, x: int, y: int, meta: Meta): Outcome {
    match Parsing.BinaryOf(op)
    case OprAnd => Val(Int(if Truthy(Int(x)) then y else x))
    case OprOr => Val(Int(if Truthy(Int(x)) then x else y))
    case OprBin(dop) => Apply(dop, Int(x), Int(y), meta)
  }

  lemma NumbersDenote(op: P.BinOpr, x: int, y: int, meta: Meta)
    requires Within(x) && Within(y) && op in {P.Add, P.Sub, P.Mul, P.IDiv, P.Mod, P.Pow, P.Div}
    ensures Denotes(op, x, y, OnIntegers(op, x, y, meta), meta)
  {
    hide Reduced, FloorOf, Within, IntArith;
    SumsReduced(x, y);
    QuotientsAre(x, y);
  }

  lemma BitsDenote(op: P.BinOpr, x: int, y: int, meta: Meta)
    requires Within(x) && Within(y) && op in {P.BAnd, P.BOr, P.BXor}
    ensures Denotes(op, x, y, OnIntegers(op, x, y, meta), meta)
  {
    hide Bit, IntArith;
    BitwiseBits(if op == P.BAnd then BAnd else if op == P.BOr then BOr else BXor, x, y);
  }

  lemma OthersDenote(op: P.BinOpr, x: int, y: int, meta: Meta)
    requires Within(x) && Within(y) && op in {P.Shl, P.Shr, P.Lt, P.Le, P.Gt, P.Ge, P.Eq, P.Ne, P.And, P.Or, P.Concat}
    ensures Denotes(op, x, y, OnIntegers(op, x, y, meta), meta)
  {
    hide Pow2, IntArith;
    if op == P.Shl || op == P.Shr {
      ShiftsAre(x, y);
    }
  }

  /** Every binary operator of the language on two integers, as the reader hands it to the evaluator. */
  lemma BinaryDenotes(op: P.BinOpr, a: P.Expr, b: P.Expr, x: int, y: int, names: Parsing.Names, regs: Regs, meta: Meta)
    requires Within(x) && Within(y) && Parsing.Known(a, names) && Parsing.Known(b, names)
    requires Eval(Parsing.Meaning(a, names), regs, meta) == Val(Int(x)) && Eval(Parsing.Meaning(b, names), regs, meta) == Val(Int(y))
    ensures Denotes(op, x, y, Eval(Parsing.Meaning(P.Bin(op, a, b), names), regs, meta), meta)
  {
    hide Denotes, Within, Apply, Parsing.BinaryOf;
    assert Eval(Parsing.Meaning(P.Bin(op, a, b), names), regs, meta) == OnIntegers(op, x, y, meta);
    if op in {P.Add, P.Sub, P.Mul, P.IDiv, P.Mod, P.Pow, P.Div} {
      NumbersDenote(op, x, y, meta);
    } else if op in {P.BAnd, P.BOr, P.BXor} {
      BitsDenote(op, x, y, meta);
    } else {
      OthersDenote(op, x, y, meta);
    }
  }

  /** Every unary operator on an integer. */
  lemma UnaryDenotes(op: P.UnOpr, a: P.Expr, x: int, names: Parsing.Names, regs: Regs, meta: Meta)
    requires Within(x) && Parsing.Known(a, names) && Eval(Parsing.Meaning(a, names), regs, meta) == Val(Int(x))
    ensures var o := Eval(Parsing.Meaning(P.Un(op, a), names), regs, meta);
            match op
            case Minus => o.Val? && o.v.Int? && Reduced(o.v.i, -x)
            case BNot => o.Val? && o.v.Int? && Within(o.v.i) && forall i: nat :: i < 64 ==> (Bit(Unsigned(o.v.i), i) <==> !Bit(Unsigned(x), i))
            case Not => o == Val(Bool(false))
            case Len => o == meta(OnUnary(Len), Int(x), Int(x))
  {
    hide Bit, Pow2, Reduced;
    UnaryIs(x, meta);
  }
}
