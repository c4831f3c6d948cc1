/**
  The main loop of `luaV_execute`, which updates the program counter and the
  registers in place, against the runs of `LuaVm`.
 */
module Interpreter {
  import opened LuaVm

  datatype End = Finished | Error(code: int) | Invalid

  /** The loop ended as the run did, with its registers in `regs`. */
  ghost predicate EndsAs(out: Exit, end: End, regs: Regs) {
    match out
    case Returned(r) => end == Finished && r == regs
    case Raised(c) => end == Error(c)
    case _ => end == Invalid
  }

  /** `donextjump`: fetches the jump after a test and takes it. */
  method DoNextJump(code: seq<Instr>, pc: nat) returns (q: nat, ok: bool)
    ensures ok <==> pc < |code| && code[pc].Jmp? && pc < pc + 1 + code[pc].sbx <= |code|
    ensures ok ==> q == pc + 1 + code[pc].sbx
  {
    ok := pc < |code| && code[pc].Jmp? && pc < pc + 1 + code[pc].sbx <= |code|;
    q := if ok then pc + 1 + code[pc].sbx else pc;
  }

  /** OP_LOADNIL: `do { setnilvalue(ra++); } while (b--);` */
  method LoadNils(regs: array<Value>, a: nat, b: nat)
    requires a + b < regs.Length
    modifies regs
    ensures regs[..] == SetNil(old(regs[..]), a, b)
  {
    var ra, n := a, b;
    regs[ra] := Nil;
    while n > 0
      invariant 0 <= n <= b && ra + n == a + b
      invariant forall k :: 0 <= k < regs.Length ==> regs[k] == if a <= k <= ra then Nil else old(regs[k])
    {
      n := n - 1;
      ra := ra + 1;
      regs[ra] := Nil;
    }
  }

  /** A test: skip the jump after it, or take it. */
  method RunTest(code: seq<Instr>, ks: seq<Value>, meta: Meta, regs: array<Value>, p: nat) returns (q: nat, end: End, stop: bool)
    requires p < |code| && IsTest(code[p])
    modifies regs
    ensures stop ==> EndsAs(Run(code, ks, meta, {}, p, old(regs[..])), end, regs[..])
    ensures !stop ==> p < q <= |code| && Run(code, ks, meta, {}, p, old(regs[..])) == Run(code, ks, meta, {}, q, regs[..])
  {
    var i := code[p];
    q, end, stop := p + 1, Invalid, true;
    match TakesJump(i, regs[..], ks, meta)
    case Err(c) => end := Error(c);
    case Bad =>
    case Val(t) =>
      if !(p + 1 < |code| && code[p + 1].Jmp?) {
        return;
      }
      if !t.b {
        q, stop := p + 2, false;
        return;
      }
      ghost var r := regs[..];
      assert Run(code, ks, meta, {}, p, r) == Land(code, ks, meta, {}, p + 1, r);
      if i.TestSet? {
        if !(0 <= i.a < regs.Length && 0 <= i.b < regs.Length) {
          return;
        }
        regs[i.a] := regs[i.b];
      }
      assert Land(code, ks, meta, {}, p + 1, r) == Jump(code, ks, meta, {}, p + 1, regs[..]);
      var ok;
      q, ok := DoNextJump(code, p + 1);
      stop := !ok;
  }

  /** The other instructions: registers are updated in place, and control goes on. */
  method RunPlain(code: seq<Instr>, ks: seq<Value>, meta: Meta, regs: array<Value>, p: nat) returns (q: nat, end: End, stop: bool)
    requires p < |code| && !IsTest(code[p]) && !code[p].Jmp?
    modifies regs
    ensures stop ==> EndsAs(Run(code, ks, meta, {}, p, old(regs[..])), end, regs[..])
    ensures !stop ==> p < q && Run(code, ks, meta, {}, p, old(regs[..])) == Run(code, ks, meta, {}, q, regs[..])
  {
    var i := code[p];
    q, end, stop := p + 1, Invalid, true;
    if i.Return? {
      end := Finished;
    } else if i.LoadBool? {
      if 0 <= i.a < regs.Length {
        regs[i.a] := Bool(i.value);
        q, stop := if i.skip then p + 2 else p + 1, false;
      }
    } else if i.LoadNil? {
      if 0 <= i.a && 0 <= i.b && i.a + i.b < regs.Length {
        LoadNils(regs, i.a, i.b);
        stop := false;
      }
    } else if i.LoadKX? {
      if 0 <= i.a < regs.Length && p + 1 < |code| && code[p + 1].ExtraArg? && 0 <= code[p + 1].ax < |ks| {
        regs[i.a] := ks[code[p + 1].ax];
        q, stop := p + 2, false;
      }
    } else if !i.ExtraArg? {
      var v := Produce(i, regs[..], ks, meta);
      if v.Err? {
        end := Error(v.code);
      } else if v.Val? && 0 <= i.a < regs.Length {
        regs[i.a] := v.v;
        stop := false;
      }
    }
  }

  /** `luaV_execute` from the first instruction: it ends, and as the run of the code says. */
  method Execute(code: seq<Instr>, ks: seq<Value>, meta: Meta, regs: array<Value>) returns (end: End)
    modifies regs
    ensures EndsAs(Run(code, ks, meta, {}, 0, old(regs[..])), end, regs[..])
  {
    var pc := 0;
    var stop := false;
    while pc < |code|
      invariant Run(code, ks, meta, {}, 0, old(regs[..])) == Run(code, ks, meta, {}, pc, regs[..])
      decreases |code| - pc
    {
      var i := code[pc];
      if i.Jmp? {
        var q, ok := DoNextJump(code, pc);
        if !ok || (pc > 0 && IsTest(code[pc - 1])) {
          return Invalid;
        }
        pc := q;
      } else if IsTest(i) {
        pc, end, stop := RunTest(code, ks, meta, regs, pc);
        if stop {
          return;
        }
      } else {
        pc, end, stop := RunPlain(code, ks, meta, regs, pc);
        if stop {
          return;
        }
      }
    }
    end := Invalid;
  }
}
