/**
  The register machine of `luaV_execute`, cut down to the instructions that
  expressions compile to: moves, loads, arithmetic, `not`, concatenation,
  comparisons, tests and jumps.

  Floats, strings, tables and metamethods are opaque: a `Meta` function says what
  an operation with such an operand yields, a value or an error.
 */
module LuaVm {

  // ---------- values and operations on them ----------

  datatype Value = Nil | Bool(b: bool) | Int(i: int) | Flt(bits: int) | Other(id: int)

  datatype ArithOp = Add | Sub | Mul | Mod | Pow | Div | IDiv | BAnd | BOr | BXor | Shl | Shr
  datatype UnaryOp = Minus | BNot | Len | Not
  datatype CompareOp = Eq | Lt | Le

  /** What a value-producing operation does: a value, a Lua error, or an access outside the frame. */
  datatype Outcome = Val(v: Value) | Err(code: int) | Bad

  /** The operations that an operand other than an integer can be asked for. */
  datatype Event = OnArith(op: ArithOp) | OnUnary(uop: UnaryOp) | OnCompare(cop: CompareOp) | OnConcat

  type Reply = o: Outcome | o != Bad witness Val(Nil)

  type Meta = (Event, Value, Value) -> Reply

  predicate Truthy(v: Value) {
    v != Nil && v != Bool(false)
  }

  // ---------- 64-bit integer arithmetic ----------

  const TWO63 := 0x8000_0000_0000_0000
  const TWO64 := 0x1_0000_0000_0000_0000
  const NBITS := 64
  const DIV_BY_ZERO := 1

  /** Two's-complement reduction to 64 bits, the effect of the `intop` casts. */
  function Wrap(x: int): (r: int)
    ensures -TWO63 <= r < TWO63
  {
    (x + TWO63) % TWO64 - TWO63
  }

  /** C division, which truncates towards zero. */
  function CDiv(m: int, n: int): int
    requires n != 0
  {
    if m >= 0 then (if n > 0 then m / n else -(m / -n))
    else (if n > 0 then -(-m / n) else -m / -n)
  }

  /** C remainder: its sign follows the dividend. */
  function CMod(m: int, n: int): int
    requires n != 0
  {
    m - n * CDiv(m, n)
  }

  function VDiv(m: int, n: int): int
    requires n != 0
  {
    if n == -1 then Wrap(0 - m)
    else
      var q := CDiv(m, n);
      if (m < 0) != (n < 0) && CMod(m, n) != 0 then q - 1 else q
  }

  function VMod(m: int, n: int): int
    requires n != 0
  {
    if n == -1 then 0
    else
      var r := CMod(m, n);
      if r != 0 && (m < 0) != (n < 0) then r + n else r
  }

  function Unsigned(x: int): nat {
    x % TWO64
  }

  function BitAnd(x: nat, y: nat): nat {
    if x == 0 || y == 0 then 0 else 2 * BitAnd(x / 2, y / 2) + (if x % 2 == 1 && y % 2 == 1 then 1 else 0)
  }

  function Pow2(n: nat): (r: nat)
    ensures r > 0
  {
    if n == 0 then 1 else 2 * Pow2(n - 1)
  }

  function VShiftL(x: int, y: int): int {
    if y < 0 then
      if y <= -NBITS then 0 else Wrap(Unsigned(x) / Pow2(-y))
    else
      if y >= NBITS then 0 else Wrap(x * Pow2(y))
  }

  /** Operators whose result is an integer whenever both operands are. */
  predicate StaysInteger(op: ArithOp) {
    op != Pow && op != Div
  }

  /** The integer cases of `luaO_arith`; the interpreter's cases compute the same. */
  function IntArith(op: ArithOp, x: int, y: int): (r: Outcome)
    requires StaysInteger(op)
    ensures r != Bad
    ensures r.Val? ==> r.v.Int?
    ensures r.Err? <==> op in {Mod, IDiv} && y == 0
  {
    match op
    case Add => Val(Int(Wrap(x + y)))
    case Sub => Val(Int(Wrap(x - y)))
    case Mul => Val(Int(Wrap(x * y)))
    case Mod => if y == 0 then Err(DIV_BY_ZERO) else Val(Int(VMod(x, y)))
    case IDiv => if y == 0 then Err(DIV_BY_ZERO) else Val(Int(VDiv(x, y)))
    case BAnd => Val(Int(Wrap(BitAnd(Unsigned(x), Unsigned(y)))))
    case BOr => Val(Int(Wrap(Unsigned(x) + Unsigned(y) - BitAnd(Unsigned(x), Unsigned(y)))))
    case BXor => Val(Int(Wrap(Unsigned(x) + Unsigned(y) - 2 * BitAnd(Unsigned(x), Unsigned(y)))))
    case Shl => Val(Int(VShiftL(x, y)))
    case Shr => Val(Int(VShiftL(x, Wrap(-y))))
  }

  /** C division leaves a remainder that is smaller than the divisor and has the sign of the dividend. */
  lemma TruncatedDivision(m: int, n: int)
    requires n != 0
    ensures m == n * CDiv(m, n) + CMod(m, n)
    ensures if m >= 0 then 0 <= CMod(m, n) else CMod(m, n) <= 0
    ensures -(if n > 0 then n else -n) < CMod(m, n) < if n > 0 then n else -n
  {
    var a, b := if m >= 0 then m else -m, if n > 0 then n else -n;
    assert a == b * (a / b) + a % b;
    if m >= 0 {
      assert n * CDiv(m, n) == b * (a / b);
    } else {
      assert n * CDiv(m, n) == -(b * (a / b));
    }
  }

  /** Division that rounds towards minus infinity. */
  function Floor(m: int, n: int): int
    requires n != 0
  {
    if n > 0 then m / n else -m / -n
  }

  lemma ProductOfDifference(b: int, q: int, q': int)
    ensures b * (q - q') == b * q - b * q'
  {
  }

  lemma ProductAtLeast(b: int, d: int)
    requires b > 0 && d >= 1
    ensures b * d >= b
  {
  }

  lemma SameQuotient(b: int, q: int, s: int, q': int, s': int)
    requires 0 <= s < b && 0 <= s' < b && b * q + s == b * q' + s'
    ensures q == q'
  {
    if q > q' {
      ProductOfDifference(b, q, q');
      ProductAtLeast(b, q - q');
    } else if q < q' {
      ProductOfDifference(b, q', q);
      ProductAtLeast(b, q' - q);
    }
  }

  lemma FloorUnique(m: int, n: int, q: int, r: int)
    requires n != 0 && m == n * q + r && if n > 0 then 0 <= r < n else n < r <= 0
    ensures Floor(m, n) == q
  {
    if n > 0 {
      SameQuotient(n, m / n, m % n, q, r);
    } else {
      var b, a := -n, -m;
      assert b * q == -(n * q);
      SameQuotient(b, a / b, a % b, q, -r);
    }
  }

  lemma QuotientFits(b: int, q: int, s: int, limit: int)
    requires 0 <= s < b && 0 < limit && -limit <= b * q + s
    requires b * q + s < limit || (b >= 2 && b * q + s <= limit)
    ensures -limit <= q < limit
  {
    Scaled(b, limit);
    if q >= limit {
      AtLeast(b, limit, q);
    } else if q <= -limit - 1 {
      AtLeast(b, q, -limit - 1);
    }
  }

  lemma Scaled(b: int, limit: int)
    requires 0 < b && 0 < limit
    ensures b * limit >= limit && (b >= 2 ==> b * limit >= 2 * limit) && b * (-limit - 1) == -(b * limit) - b
  {
  }

  lemma AtLeast(b: int, x: int, y: int)
    requires 0 < b && x <= y
    ensures b * x <= b * y
  {
  }

  /** The floor of a quotient of 64-bit integers is one, except for the least integer divided by -1. */
  lemma FloorFits(m: int, n: int)
    requires n != 0 && n != -1 && -TWO63 <= m < TWO63
    ensures -TWO63 <= Floor(m, n) < TWO63
  {
    if n > 0 {
      QuotientFits(n, m / n, m % n, TWO63);
    } else {
      var b, a := -n, -m;
      QuotientFits(b, a / b, a % b, TWO63);
    }
  }

  /** `luaV_div` and `luaV_mod` compute floor division, reduced to 64 bits, and its remainder. */
  lemma FloorDivision(m: int, n: int)
    requires n != 0 && -TWO63 <= m < TWO63 && -TWO63 <= n < TWO63
    ensures VDiv(m, n) == Wrap(Floor(m, n))
    ensures VMod(m, n) == m - n * Floor(m, n)
    ensures if n > 0 then 0 <= VMod(m, n) < n else n < VMod(m, n) <= 0
  {
    if n == -1 {
      FloorUnique(m, n, -m, 0);
      FloorByMinusOne(m);
    } else {
      hide CDiv, CMod, Floor, Wrap;
      FloorFits(m, n);
      TruncatedDivision(m, n);
      FloorOfTruncated(m, n, CDiv(m, n), CMod(m, n));
      Unwrapped(Floor(m, n));
    }
  }

  lemma FloorByMinusOne(m: int)
    requires Floor(m, -1) == -m
    ensures VDiv(m, -1) == Wrap(Floor(m, -1)) && VMod(m, -1) == 0 == m - -1 * Floor(m, -1)
  {
    hide Floor, Wrap, CDiv, CMod;
  }

  lemma Unwrapped(x: int)
    requires -TWO63 <= x < TWO63
    ensures Wrap(x) == x
  {
  }

  /** Rounding a truncated quotient `q` down. */
  lemma FloorOfTruncated(m: int, n: int, q: int, r: int)
    requires n != 0 && m == n * q + r && (if m >= 0 then 0 <= r else r <= 0)
    requires -(if n > 0 then n else -n) < r < if n > 0 then n else -n
    ensures Floor(m, n) == if (m < 0) != (n < 0) && r != 0 then q - 1 else q
    ensures m - n * Floor(m, n) == if (m < 0) != (n < 0) && r != 0 then r + n else r
  {
    if (m < 0) != (n < 0) && r != 0 {
      ProductOfDifference(n, q, 1);
      FloorUnique(m, n, q - 1, r + n);
    } else {
      FloorUnique(m, n, q, r);
    }
  }

  // ---------- operations on any values ----------

  function Arith(op: ArithOp, x: Value, y: Value, meta: Meta): Reply {
    if x.Int? && y.Int? && StaysInteger(op) then IntArith(op, x.i, y.i) else meta(OnArith(op), x, y)
  }

  function Unary(op: UnaryOp, x: Value, meta: Meta): Reply {
    match op
    case Not => Val(Bool(!Truthy(x)))
    case Minus => if x.Int? then Val(Int(Wrap(0 - x.i))) else meta(OnUnary(op), x, x)
    case BNot => if x.Int? then Val(Int(Wrap(-1 - x.i))) else meta(OnUnary(op), x, x)
    case Len => meta(OnUnary(op), x, x)
  }

  /** Comparisons yield a boolean; a metamethod's result is reduced to its truth. */
  function Compare(op: CompareOp, x: Value, y: Value, meta: Meta): (r: Reply)
    ensures r.Val? ==> r.v.Bool?
  {
    if op == Eq && !(x.Flt? || x.Other? || y.Flt? || y.Other?) then Val(Bool(x == y))
    else if x.Int? && y.Int? then Val(Bool(if op == Lt then x.i < y.i else x.i <= y.i))
    else
      var r := meta(OnCompare(op), x, y);
      if r.Val? then Val(Bool(Truthy(r.v))) else r
  }

  function Concat2(x: Value, y: Value, meta: Meta): Reply {
    meta(OnConcat, x, y)
  }

  // ---------- instructions ----------

  datatype Instr =
    | Move(a: int, b: int)
    | LoadK(a: int, bx: int)
    | LoadKX(a: int)
    | ExtraArg(ax: int)
    | LoadBool(a: int, value: bool, skip: bool)
    | LoadNil(a: int, b: int)
    | ArithI(a: int, op: ArithOp, b: int, c: int)
    | UnaryI(a: int, uop: UnaryOp, b: int)
    | ConcatI(a: int, b: int, c: int)
    | Jmp(sbx: int)
    | CompareI(cond: bool, cop: CompareOp, b: int, c: int)
    | Test(a: int, sense: bool)
    | TestSet(a: int, b: int, sense: bool)
    | Return(a: int, b: int)

  const BITRK := 256
  const MAXINDEXRK := 255
  const MAXARG_A := 255
  const MAXARG_C := 511
  const MAXARG_Bx := 262143
  const MAXARG_sBx := 131071
  const MAXARG_Ax := 0x3FF_FFFF
  const NO_REG := 255

  /** Instructions that must be followed by the jump they control. */
  predicate IsTest(i: Instr) {
    i.CompareI? || i.Test? || i.TestSet?
  }

  /** Instructions whose result goes to a register that can still be chosen. */
  predicate IsRelocatable(i: Instr) {
    i.ArithI? || i.UnaryI? || i.ConcatI?
  }

  /** SETARG_A on such an instruction. */
  function Retarget(i: Instr, reg: int): Instr
    requires IsRelocatable(i)
  {
    if i.ArithI? then ArithI(reg, i.op, i.b, i.c)
    else if i.UnaryI? then UnaryI(reg, i.uop, i.b)
    else ConcatI(reg, i.b, i.c)
  }

  /** The operands fit their fields: 8 bits for A and every register, 9 for B and C, 18 for Bx, 26 for Ax. */
  predicate Encodable(i: Instr) {
    match i
    case Move(a, b) => 0 <= a <= MAXARG_A && 0 <= b <= MAXARG_A
    case LoadK(a, bx) => 0 <= a <= MAXARG_A && 0 <= bx <= MAXARG_Bx
    case LoadKX(a) => 0 <= a <= MAXARG_A
    case ExtraArg(ax) => 0 <= ax <= MAXARG_Ax
    case LoadBool(a, _, _) => 0 <= a <= MAXARG_A
    case LoadNil(a, b) => 0 <= a && 0 <= b && a + b <= MAXARG_A
    case ArithI(a, _, b, c) => 0 <= a <= MAXARG_A && 0 <= b <= MAXARG_C && 0 <= c <= MAXARG_C
    case UnaryI(a, _, b) => 0 <= a <= MAXARG_A && 0 <= b <= MAXARG_A
    case ConcatI(a, b, c) => 0 <= a <= MAXARG_A && 0 <= b <= MAXARG_A && 0 <= c <= MAXARG_A
    case Jmp(sbx) => -MAXARG_sBx <= sbx <= MAXARG_sBx
    case CompareI(_, _, b, c) => 0 <= b <= MAXARG_C && 0 <= c <= MAXARG_C
    case Test(a, _) => 0 <= a <= MAXARG_A
    case TestSet(a, b, _) => 0 <= a <= MAXARG_A && 0 <= b <= MAXARG_A
    case Return(a, b) => 0 <= a <= MAXARG_A && 0 <= b <= MAXARG_C
  }

  // ---------- running code ----------

  type Regs = seq<Value>

  predicate IsReg(r: int, regs: Regs) {
    0 <= r < |regs|
  }

  /** RK(x): register or constant, none when out of range. */
  function RK(x: int, regs: Regs, ks: seq<Value>): Outcome {
    if 0 <= x < BITRK then
      if x < |regs| then Val(regs[x]) else Bad
    else if BITRK <= x && x - BITRK < |ks| then Val(ks[x - BITRK])
    else Bad
  }

  /** R(b) .. ... .. R(c), from right to left as `luaV_concat` does. */
  function ConcatRange(regs: Regs, b: int, c: int, meta: Meta): Outcome
    decreases c - b
  {
    if !(0 <= b <= c < |regs|) then Bad
    else if b == c then Val(regs[c])
    else
      var r := ConcatRange(regs, b + 1, c, meta);
      if r.Val? then Concat2(regs[b], r.v, meta) else r
  }

  /** The value that an instruction with a single register result puts there. */
  function Produce(i: Instr, regs: Regs, ks: seq<Value>, meta: Meta): Outcome {
    match i
    case Move(_, b) => if IsReg(b, regs) then Val(regs[b]) else Bad
    case LoadK(_, bx) => if 0 <= bx < |ks| then Val(ks[bx]) else Bad
    case ArithI(_, op, b, c) =>
      var x, y := RK(b, regs, ks), RK(c, regs, ks);
      if x.Val? && y.Val? then Arith(op, x.v, y.v, meta) else Bad
    case UnaryI(_, op, b) => if IsReg(b, regs) then Unary(op, regs[b], meta) else Bad
    case ConcatI(_, b, c) => if b < c then ConcatRange(regs, b, c, meta) else Bad
    case _ => Bad
  }

  /** Whether a test instruction goes on to the jump that follows it. */
  function TakesJump(i: Instr, regs: Regs, ks: seq<Value>, meta: Meta): (r: Outcome)
    ensures r.Val? ==> r.v.Bool?
  {
    match i
    case CompareI(cond, op, b, c) =>
      var x, y := RK(b, regs, ks), RK(c, regs, ks);
      if x.Val? && y.Val? then
        var r := Compare(op, x.v, y.v, meta);
        if r.Val? then Val(Bool(r.v.b == cond)) else r
      else Bad
    case Test(a, sense) => if IsReg(a, regs) then Val(Bool(Truthy(regs[a]) == sense)) else Bad
    case TestSet(_, b, sense) => if IsReg(b, regs) then Val(Bool(Truthy(regs[b]) == sense)) else Bad
    case _ => Bad
  }

  function SetNil(regs: Regs, a: int, b: int): (r: Regs)
    ensures |r| == |regs|
    ensures forall k :: 0 <= k < |regs| ==> r[k] == if a <= k <= a + b then Nil else regs[k]
  {
    seq(|regs|, k requires 0 <= k < |regs| => if a <= k <= a + b then Nil else regs[k])
  }

  /** One step: go on at a later instruction, execute the jump that a test controls or a plain jump, or fail. */
  datatype Next = Go(pc: nat, regs: Regs) | Take | PlainJump | Halt | Raise(code: int) | Wrong

  function Step(code: seq<Instr>, ks: seq<Value>, meta: Meta, p: nat, regs: Regs): (n: Next)
    requires p < |code|
    ensures n.Go? ==> p < n.pc <= p + 2
    ensures n.Take? ==> IsTest(code[p]) && p + 1 < |code| && code[p + 1].Jmp?
    ensures n.PlainJump? ==> code[p].Jmp? && !(p > 0 && IsTest(code[p - 1]))
  {
    var i := code[p];
    if i.Jmp? then
      if p > 0 && IsTest(code[p - 1]) then Wrong else PlainJump
    else if i.LoadBool? then
      if IsReg(i.a, regs) then Go(if i.skip then p + 2 else p + 1, regs[i.a := Bool(i.value)]) else Wrong
    else if i.LoadNil? then
      if 0 <= i.a && 0 <= i.b && i.a + i.b < |regs| then Go(p + 1, SetNil(regs, i.a, i.b)) else Wrong
    else if i.LoadKX? then
      if IsReg(i.a, regs) && p + 1 < |code| && code[p + 1].ExtraArg? && 0 <= code[p + 1].ax < |ks| then
        Go(p + 2, regs[i.a := ks[code[p + 1].ax]])
      else Wrong
    else if i.ExtraArg? then Wrong
    else if i.Return? then Halt
    else if IsTest(i) then
      match TakesJump(i, regs, ks, meta)
      case Val(t) => if !(p + 1 < |code| && code[p + 1].Jmp?) then Wrong else if t.b then Take else Go(p + 2, regs)
      case Err(e) => Raise(e)
      case Bad => Wrong
    else
      match Produce(i, regs, ks, meta)
      case Val(v) => if IsReg(i.a, regs) then Go(p + 1, regs[i.a := v]) else Wrong
      case Err(e) => Raise(e)
      case Bad => Wrong
  }

  /**
    How a run of a piece of code ends: it falls off the end, it arrives at a jump
    whose target is still to be decided, it returns, it raises an error, or it does
    something that compiled code never does.
   */
  datatype Exit = Fall(regs: Regs) | AtJump(j: nat, regs: Regs) | Returned(regs: Regs) | Raised(code: int) | Stuck

  /**
    Runs `code` from `p`. The jumps in `pend` have no target yet (their offset
    links them into a list), so a run stops there. Jumps go forward, which is why
    every run ends. A jump controlled by a test is reached through that test only.
   */
  function Run(code: seq<Instr>, ks: seq<Value>, meta: Meta, pend: set<nat>, p: nat, regs: Regs): Exit
    decreases |code| - p, 2
  {
    if p == |code| then Fall(regs)
    else if p > |code| then Stuck
    else
      match Step(code, ks, meta, p, regs)
      case Go(q, r) => Run(code, ks, meta, pend, q, r)
      case Take => Land(code, ks, meta, pend, p + 1, regs)
      case PlainJump => Jump(code, ks, meta, pend, p, regs)
      case Halt => Returned(regs)
      case Raise(e) => Raised(e)
      case Wrong => Stuck
  }

  /** Executes the jump at `j`. */
  function Jump(code: seq<Instr>, ks: seq<Value>, meta: Meta, pend: set<nat>, j: nat, regs: Regs): Exit
    decreases |code| - j, 0
  {
    if !(j < |code| && code[j].Jmp?) then Stuck
    else if j in pend then AtJump(j, regs)
    else
      var target := j + 1 + code[j].sbx;
      if j < target <= |code| then Run(code, ks, meta, pend, target, regs) else Stuck
  }

  /** Takes the jump at `j` from the test before it; a TESTSET first copies the tested register. */
  function Land(code: seq<Instr>, ks: seq<Value>, meta: Meta, pend: set<nat>, j: nat, regs: Regs): Exit
    decreases |code| - j, 1
  {
    if j in pend || !(0 < j <= |code|) || !code[j - 1].TestSet? then Jump(code, ks, meta, pend, j, regs)
    else if IsReg(code[j - 1].a, regs) && IsReg(code[j - 1].b, regs) then
      Jump(code, ks, meta, pend, j, regs[code[j - 1].a := regs[code[j - 1].b]])
    else Stuck
  }
}
