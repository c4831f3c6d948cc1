/**
  Expressions, what they evaluate to, and what it means for partly emitted code
  plus a descriptor to stand for an expression.
 */
module Expressions {
  import opened LuaVm
  import opened Simulation

  // ---------- source expressions and their values ----------

  datatype CompOp = OpEq | OpLt | OpLe | OpNe | OpGt | OpGe
  datatype Dyadic = ArithD(op: ArithOp) | CompD(cop: CompOp) | ConcatD

  datatype Expr =
    | Literal(v: Value)
    | Local(r: nat)
    | Paren(e: Expr)
    | UnaryE(uop: UnaryOp, e: Expr)
    | Binary(dop: Dyadic, e1: Expr, e2: Expr)
    | And(e1: Expr, e2: Expr)
    | Or(e1: Expr, e2: Expr)

  function CompareValues(op: CompOp, x: Value, y: Value, meta: Meta): Reply {
    match op
    case OpEq => Compare(Eq, x, y, meta)
    case OpLt => Compare(Lt, x, y, meta)
    case OpLe => Compare(Le, x, y, meta)
    case OpGt => Compare(Lt, y, x, meta)
    case OpGe => Compare(Le, y, x, meta)
    case OpNe => var r := Compare(Eq, x, y, meta); if r.Val? then Val(Bool(!r.v.b)) else r
  }

  function Apply(op: Dyadic, x: Value, y: Value, meta: Meta): Reply {
    match op
    case ArithD(aop) => Arith(aop, x, y, meta)
    case CompD(cop) => CompareValues(cop, x, y, meta)
    case ConcatD => Concat2(x, y, meta)
  }

  /** Applies `op` to two operands that may have failed; the first failure wins. */
  function ApplyBoth(op: Dyadic, x: Outcome, y: Outcome, meta: Meta): Outcome {
    if !x.Val? then x else if !y.Val? then y else Apply(op, x.v, y.v, meta)
  }

  /** Direct evaluation: operands from left to right, `and` and `or` skipping their second operand. */
  function Eval(e: Expr, regs: Regs, meta: Meta): Outcome {
    match e
    case Literal(v) => Val(v)
    case Local(r) => if r < |regs| then Val(regs[r]) else Bad
    case Paren(e1) => Eval(e1, regs, meta)
    case UnaryE(op, e1) =>
      var x := Eval(e1, regs, meta);
      if x.Val? then Unary(op, x.v, meta) else x
    case Binary(op, e1, e2) => ApplyBoth(op, Eval(e1, regs, meta), Eval(e2, regs, meta), meta)
    case And(e1, e2) =>
      var x := Eval(e1, regs, meta);
      if x.Val? && Truthy(x.v) then Eval(e2, regs, meta) else x
    case Or(e1, e2) =>
      var x := Eval(e1, regs, meta);
      if x.Val? && !Truthy(x.v) then Eval(e2, regs, meta) else x
  }

  /** All locals of `e` are registers below `n`. */
  predicate Scoped(e: Expr, n: int) {
    match e
    case Literal(_) => true
    case Local(r) => r < n
    case Paren(e1) => Scoped(e1, n)
    case UnaryE(_, e1) => Scoped(e1, n)
    case Binary(_, e1, e2) => Scoped(e1, n) && Scoped(e2, n)
    case And(e1, e2) => Scoped(e1, n) && Scoped(e2, n)
    case Or(e1, e2) => Scoped(e1, n) && Scoped(e2, n)
  }

  ghost predicate SameBelow(r: Regs, r': Regs, n: int) {
    && |r| == |r'|
    && forall i :: 0 <= i < n && i < |r| ==> r[i] == r'[i]
  }

  /** The value of an expression depends on the registers of its locals only. */
  lemma EvalSame(e: Expr, r: Regs, r': Regs, n: int, meta: Meta)
    requires Scoped(e, n) && SameBelow(r, r', n)
    ensures Eval(e, r, meta) == Eval(e, r', meta)
  {
  }

  // ---------- descriptors ----------

  /** The `expkind` of a descriptor with its payload. */
  datatype Kind =
    | VNil | VTrue | VFalse
    | VK(info: int)
    | VKFlt(nval: int)
    | VKInt(ival: int)
    | VNonReloc(info: int)
    | VLocal(info: int)
    | VJmp(info: int)
    | VReloc(info: int)

  datatype ExpDesc = ExpDesc(k: Kind, t: int, f: int)

  const NO_JUMP := -1

  predicate HasJumps(d: ExpDesc) {
    d.t != d.f
  }

  /** `getjump`: the next jump of the list that the pending jump at `pc` belongs to. */
  function GetJump(code: seq<Instr>, pc: nat): int
    requires pc < |code| && code[pc].Jmp?
  {
    if code[pc].sbx == NO_JUMP then NO_JUMP else pc + 1 + code[pc].sbx
  }

  ghost predicate LinkAt(code: seq<Instr>, s: seq<nat>, i: nat)
    requires i < |s|
  {
    && s[i] < |code|
    && code[s[i]].Jmp?
    && GetJump(code, s[i]) == if i + 1 < |s| then s[i + 1] else NO_JUMP
  }

  /** `head` starts a list of jumps, threaded through the code, whose positions are `s`. */
  ghost predicate Chain(code: seq<Instr>, head: int, s: seq<nat>) {
    && head == (if s == [] then NO_JUMP else s[0])
    && forall i :: 0 <= i < |s| ==> LinkAt(code, s, i)
  }

  ghost predicate Distinct(s: seq<nat>) {
    forall i, j :: 0 <= i < j < |s| ==> s[i] != s[j]
  }

  ghost predicate Apart(s: seq<nat>, t: seq<nat>) {
    forall x :: x in s ==> x !in t
  }

  lemma DistinctConcat(s: seq<nat>, t: seq<nat>)
    requires Distinct(s) && Distinct(t) && Apart(t, s)
    ensures Distinct(s + t)
  {
    forall i, j | 0 <= i < j < |s + t| ensures (s + t)[i] != (s + t)[j] {
      if i < |s| <= j {
        assert s[i] in s && t[j - |s|] in t;
      }
    }
  }

  lemma DistinctSplit(s: seq<nat>, t: seq<nat>)
    requires Distinct(s + t)
    ensures Distinct(s) && Apart(s, t)
  {
    forall x | x in s ensures x !in t {
      var i :| 0 <= i < |s| && s[i] == x;
      forall j | 0 <= j < |t| ensures t[j] != x {
        assert (s + t)[i] != (s + t)[|s| + j];
      }
    }
    forall i, j | 0 <= i < j < |s| ensures s[i] != s[j] {
      assert (s + t)[i] != (s + t)[j];
    }
  }

  ghost function Elems(s: seq<nat>): set<nat> {
    set x | x in s
  }

  /** The parts of the compiler's state that the meaning of code depends on. `js` lists the jumps pending to "here". */
  datatype State = State(c: seq<Instr>, ks: seq<Value>, pend: set<nat>, jpc: int, js: seq<nat>, lt: int,
                               free: int, nact: int, msize: int)

  /**
    Where the code of an expression begins: the code before it, the jumps then pending
    to its first instruction (`inlets`), the first free register, the register
    that the expression is stored into although it is not free (or -1), and the
    entry, which is one instruction early when an OP_LOADNIL there was widened.
   */
  datatype Ctx = Ctx(c0: seq<Instr>, pend0: set<nat>, inlets: set<nat>, n: int, hole: int, entry: nat)

  /** What falling through the code means for the value of the expression. */
  datatype Main = Delayed(k: Kind) | WasTrue | WasFalse | JustFalse | Operands(op: Dyadic, rk1: int, rk2: int) | UnaryOf(uop: UnaryOp, r: int)

  datatype Lists = Lists(t: seq<nat>, f: seq<nat>)

  /** Instructions at the end that a descriptor keeps open. */
  ghost function Tail(m: Main): nat {
    if m.Delayed? && m.k.VReloc? then 1 else if m.Delayed? && m.k.VJmp? then 2 else 0
  }

  ghost function Body(c: seq<Instr>, m: Main): seq<Instr>
    requires Tail(m) <= |c|
  {
    if Tail(m) == 0 then c else c[..|c| - Tail(m)]
  }

  ghost function ConstantOf(k: Kind, ks: seq<Value>): Outcome {
    match k
    case VNil => Val(Nil)
    case VTrue => Val(Bool(true))
    case VFalse => Val(Bool(false))
    case VK(i) => if 0 <= i < |ks| then Val(ks[i]) else Bad
    case VKFlt(x) => Val(Flt(x))
    case VKInt(x) => Val(Int(x))
    case _ => Bad
  }

  predicate IsConstant(k: Kind) {
    k.VNil? || k.VTrue? || k.VFalse? || k.VK? || k.VKFlt? || k.VKInt?
  }

  /** With registers `regs` at the end of the body, the descriptor denotes the outcome `ev`. */
  ghost predicate Denotes(m: Main, c: seq<Instr>, ks: seq<Value>, meta: Meta, regs: Regs, ev: Outcome)
    requires Tail(m) <= |c|
  {
    match m
    case WasTrue => ev.Val? && Truthy(ev.v)
    case WasFalse => ev.Val? && !Truthy(ev.v)
    case JustFalse => ev == Val(Bool(false))
    case UnaryOf(op, r) => IsReg(r, regs) && ev == Unary(op, regs[r], meta)
    case Operands(op, rk1, rk2) =>
      RK(rk1, regs, ks).Val? && RK(rk2, regs, ks).Val? && ev == ApplyBoth(op, RK(rk1, regs, ks), RK(rk2, regs, ks), meta)
    case Delayed(k) =>
      match k
      case VNonReloc(r) => IsReg(r, regs) && ev == Val(regs[r])
      case VLocal(r) => IsReg(r, regs) && ev == Val(regs[r])
      case VReloc(_) => ev == Produce(c[|c| - 1], regs, ks, meta) && ev != Bad
      case VJmp(_) => ev == TakesJump(c[|c| - 2], regs, ks, meta) && ev != Bad
      case _ => ev == ConstantOf(k, ks) && ev != Bad
  }

  /** A pending jump taken with value `v`: a TESTSET still has it in its register, other tests leave a boolean. */
  ghost predicate Carries(c: seq<Instr>, j: nat, regs: Regs, v: Value)
    requires j <= |c|
  {
    if j > 0 && c[j - 1].TestSet? then IsReg(c[j - 1].b, regs) && regs[c[j - 1].b] == v else v.Bool?
  }

  ghost predicate Kept(x: Ctx, r: Regs, r': Regs) {
    && |r| == |r'|
    && forall i :: 0 <= i < x.n && i < |r| && i != x.hole ==> r[i] == r'[i]
  }

  /** The exit `out` of a run that began with `regs` is one that an expression of outcome `ev` may have. */
  ghost predicate Settles(s: State, x: Ctx, m: Main, l: Lists, ev: Outcome, regs: Regs, meta: Meta, out: Exit)
    requires Tail(m) <= |s.c|
  {
    match out
    case Stuck => false
    case Returned(_) => false
    case Raised(e) => ev == Err(e)
    case Fall(r) => Kept(x, regs, r) && Denotes(m, s.c, s.ks, meta, r, ev)
    case AtJump(j, r) =>
      && Kept(x, regs, r)
      && if j in s.js then Denotes(m, s.c, s.ks, meta, r, ev)
         else
           && j < |s.c|
           && ev.Val?
           && (j in l.t || j in l.f)
           && (j in l.t ==> Truthy(ev.v))
           && (j in l.f ==> !Truthy(ev.v))
           && Carries(s.c, j, r, ev.v)
  }

  /** Where runs of the code of an expression start: at its entry, or by one of its inlets. */
  datatype Start = AtEntry | Via(j: nat)

  ghost predicate IsStart(x: Ctx, st: Start) {
    st.Via? ==> st.j in x.inlets
  }

  ghost function ExitOf(c: seq<Instr>, ks: seq<Value>, meta: Meta, pend: set<nat>, x: Ctx, st: Start, regs: Regs): Exit {
    match st
    case AtEntry => Run(c, ks, meta, pend, x.entry, regs)
    case Via(j) => Jump(c, ks, meta, pend, j, regs)
  }

  /** Folding of numerals at compile time, and its agreement with execution. */
  type Folder = (Event, Value, Value) -> Outcome

  ghost predicate Agrees(fold: Folder, meta: Meta) {
    forall ev, x, y :: fold(ev, x, y).Val? ==> meta(ev, x, y) == fold(ev, x, y)
  }

  /** The registers a run may start from: enough of them, with the nils an early entry relies on. */
  ghost predicate Admissible(s: State, x: Ctx, fold: Folder, regs: Regs, meta: Meta) {
    && s.msize <= |regs|
    && Agrees(fold, meta)
    && (x.entry < |x.c0| ==> NilsAt(x.c0[x.entry], regs))
  }

  /** `regs` is as after executing the OP_LOADNIL `i`. */
  ghost predicate NilsAt(i: Instr, regs: Regs) {
    i.LoadNil? && 0 <= i.a && 0 <= i.b && i.a + i.b < |regs| && SetNil(regs, i.a, i.b) == regs
  }

  /** The code from the context's start on, with descriptor `m` and lists `l`, computes `e`. */
  ghost predicate Rep(s: State, x: Ctx, m: Main, l: Lists, e: Expr, fold: Folder) {
    && Tail(m) <= |s.c|
    && forall st: Start, regs: Regs, meta: Meta :: IsStart(x, st) && Admissible(s, x, fold, regs, meta) ==>
         Settles(s, x, m, l, Eval(e, regs, meta), regs, meta, ExitOf(Body(s.c, m), s.ks, meta, s.pend, x, st, regs))
  }
}
