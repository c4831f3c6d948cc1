/**
  How a run changes when the compiler rewrites code it has already emitted:
  patching pending jumps, re-linking jump lists, giving a TESTSET its register or
  turning it into a TEST, and appending instructions. One relation covers all of
  these rewrites and one lemma says what they do to every run.
 */
module Simulation {
  import opened LuaVm

  /** What may happen to instruction `i` of `c` when the pending jumps in `moved` are touched. */
  ghost predicate EvolvesAt(c: seq<Instr>, pend: set<nat>, c': seq<Instr>, pend': set<nat>, moved: set<nat>, i: nat)
    requires i < |c| <= |c'|
  {
    if c[i].Jmp? then
      && c'[i].Jmp?
      && (i !in moved ==> c'[i] == c[i] && (i in pend <==> i in pend'))
    else if c[i].TestSet? && i + 1 in moved then
      || (c'[i] == c[i] && i + 1 in pend')
      || c'[i] == Test(c[i].b, c[i].sense)
      || (c'[i].TestSet? && c'[i].b == c[i].b && c'[i].sense == c[i].sense && i + 1 !in pend')
    else
      c'[i] == c[i]
  }

  ghost predicate Evolves(c: seq<Instr>, pend: set<nat>, c': seq<Instr>, pend': set<nat>, moved: set<nat>) {
    && |c| <= |c'|
    && moved <= pend
    && forall i :: 0 <= i < |c| ==> EvolvesAt(c, pend, c', pend', moved, i)
  }

  /** What the run `x` of the old code becomes in the new code. */
  ghost predicate Follows(x: Exit, y: Exit, c: seq<Instr>, c': seq<Instr>, ks': seq<Value>, meta: Meta, pend: set<nat>,
                          pend': set<nat>, moved: set<nat>)
  {
    match x
    case Fall(r) => y == Run(c', ks', meta, pend', |c|, r)
    case AtJump(j, r) =>
      && j in pend
      && j < |c|
      && c[j].Jmp?
      && y == if j in moved then Land(c', ks', meta, pend', j, r) else x
    case Returned(_) => y == x
    case Raised(_) => y == x
    case Stuck => true
  }

  lemma SameStep(c: seq<Instr>, ks: seq<Value>, c': seq<Instr>, ks': seq<Value>, meta: Meta, p: nat, regs: Regs)
    requires p < |c| <= |c'| && ks <= ks'
    requires c[p] == c'[p] || (c[p].TestSet? && (c'[p].TestSet? || c'[p].Test?) && c'[p].sense == c[p].sense
                               && c[p].b == if c'[p].Test? then c'[p].a else c'[p].b)
    requires p > 0 ==> IsTest(c[p - 1]) == IsTest(c'[p - 1])
    requires p + 1 < |c| ==> c[p + 1] == c'[p + 1] || (c[p + 1].Jmp? && c'[p + 1].Jmp?) || (IsTest(c[p + 1]) && IsTest(c'[p + 1]))
    requires Step(c, ks, meta, p, regs) != Wrong
    ensures Step(c, ks, meta, p, regs) == Step(c', ks', meta, p, regs)
  {
    var i := c[p];
    if i.ArithI? || i.CompareI? {
      SameRK(i.b, ks, ks', regs);
      SameRK(i.c, ks, ks', regs);
    }
  }

  lemma SameRK(x: int, ks: seq<Value>, ks': seq<Value>, regs: Regs)
    requires ks <= ks'
    ensures RK(x, regs, ks) != Bad ==> RK(x, regs, ks) == RK(x, regs, ks')
  {
  }

  /** Every run of the new code does what the old code's run did, and carries on where that one ended. */
  lemma {:induction false} Simulate(c: seq<Instr>, ks: seq<Value>, pend: set<nat>, c': seq<Instr>, ks': seq<Value>, pend': set<nat>,
                                    moved: set<nat>, meta: Meta, p: nat, regs: Regs)
    requires Evolves(c, pend, c', pend', moved) && ks <= ks'
    ensures Follows(Run(c, ks, meta, pend, p, regs), Run(c', ks', meta, pend', p, regs), c, c', ks', meta, pend, pend', moved)
    decreases |c| - p, 2
  {
    if p < |c| {
      var s := Step(c, ks, meta, p, regs);
      if s != Wrong {
        assert EvolvesAt(c, pend, c', pend', moved, p);
        assert p > 0 ==> EvolvesAt(c, pend, c', pend', moved, p - 1);
        assert p + 1 < |c| ==> EvolvesAt(c, pend, c', pend', moved, p + 1);
        if s == PlainJump {
          assert Step(c', ks', meta, p, regs) == PlainJump;
          SimulateJump(c, ks, pend, c', ks', pend', moved, meta, p, regs);
        } else {
          SameStep(c, ks, c', ks', meta, p, regs);
          if s.Go? {
            Simulate(c, ks, pend, c', ks', pend', moved, meta, s.pc, s.regs);
          } else if s.Take? {
            SimulateLand(c, ks, pend, c', ks', pend', moved, meta, p + 1, regs);
          }
        }
      }
    }
  }

  lemma {:induction false} SimulateJump(c: seq<Instr>, ks: seq<Value>, pend: set<nat>, c': seq<Instr>, ks': seq<Value>, pend': set<nat>,
                                        moved: set<nat>, meta: Meta, j: nat, regs: Regs)
    requires Evolves(c, pend, c', pend', moved) && ks <= ks'
    requires j < |c| && (j in moved && j !in pend' && j > 0 ==> !c'[j - 1].TestSet?)
    ensures Follows(Jump(c, ks, meta, pend, j, regs), Jump(c', ks', meta, pend', j, regs), c, c', ks', meta, pend, pend', moved)
    decreases |c| - j, 0
  {
    assert EvolvesAt(c, pend, c', pend', moved, j);
    assert j > 0 ==> EvolvesAt(c, pend, c', pend', moved, j - 1);
    if c[j].Jmp? && j !in pend && j < j + 1 + c[j].sbx <= |c| {
      Simulate(c, ks, pend, c', ks', pend', moved, meta, j + 1 + c[j].sbx, regs);
    }
  }

  lemma {:induction false} SimulateLand(c: seq<Instr>, ks: seq<Value>, pend: set<nat>, c': seq<Instr>, ks': seq<Value>, pend': set<nat>,
                                        moved: set<nat>, meta: Meta, j: nat, regs: Regs)
    requires Evolves(c, pend, c', pend', moved) && ks <= ks'
    requires 0 < j < |c| && IsTest(c[j - 1]) && c[j].Jmp?
    ensures Follows(Land(c, ks, meta, pend, j, regs), Land(c', ks', meta, pend', j, regs), c, c', ks', meta, pend, pend', moved)
    decreases |c| - j, 1
  {
    assert EvolvesAt(c, pend, c', pend', moved, j);
    assert EvolvesAt(c, pend, c', pend', moved, j - 1);
    if j !in pend && j < j + 1 + c[j].sbx <= |c| {
      var r := if c[j - 1].TestSet? && IsReg(c[j - 1].a, regs) && IsReg(c[j - 1].b, regs)
      then regs[c[j - 1].a := regs[c[j - 1].b]] else regs;
      Simulate(c, ks, pend, c', ks', pend', moved, meta, j + 1 + c[j].sbx, r);
    }
  }
}
