/**
  The code generator itself, `lcode.c`: the state it updates in place and the
  operations on it. Each operation is proved to leave code that stands for the
  expression it was given.
 */
module LuaK {
  import opened LuaVm
  import opened Simulation
  import opened Expressions
  import opened Codegen
  import opened Conditions
  import opened Results
  import opened Sequencing

  /** The errors of `luaX_syntaxerror` and `luaM_growvector` that code generation can raise. */
  datatype Limit = TooManyRegisters | JumpTooLong | TooManyConstants | TooManyOpcodes | TooManyLocals

  datatype Result<+T> = Ok(value: T) | Fail(why: Limit) {
    predicate IsFailure() {
      Fail?
    }

    function PropagateFailure<U>(): Result<U>
      requires Fail?
    {
      Fail(why)
    }

    function Extract(): T
      requires Ok?
    {
      value
    }
  }

  const MAX_INT := 0x7FFF_FFFF

  /** A limit is reached within `dc` more instructions, `dk` more constants or `dr` more registers. */
  ghost predicate Exhausted(s: State, dc: int, dk: int, dr: int) {
    |s.c| + dc > MAXARG_sBx || |s.ks| + dk > MAXARG_Ax || s.free + dr >= MAXREGS
  }

  /** An operation on one expression added at most `dc` instructions and `dk` constants. */
  ghost predicate Grew(s: State, s': State, dc: int, dk: int) {
    Later(s, s') && |s'.c| <= |s.c| + dc && |s'.ks| <= |s.ks| + dk
  }

  // Facts about hidden predicates, for the operations below.

  lemma StandsParts(s: State, x: Ctx, m: Main, l: Lists, e: Expr, fold: Folder)
    requires Stands(s, x, m, l, e, fold)
    ensures Sane(s) && Fits(s, x, m, l)
  {
  }

  lemma SaneParts(s: State)
    requires Sane(s)
    ensures Linked(s) && Chain(s.c, s.jpc, s.js) && Distinct(s.js) && AllEncodable(s.c) && |s.ks| <= MAXARG_Ax
  {
  }

  lemma OpenKind(s: State, x: Ctx, k: Kind, l: Lists)
    requires Fits(s, x, Delayed(k), l)
    ensures k.VReloc? ==> k.info == |s.c| - 1 && IsRelocatable(s.c[|s.c| - 1])
    ensures k.VJmp? ==> k.info == |s.c| - 1 >= 1
    ensures k.VK? ==> 0 <= k.info < |s.ks|
  {
  }

  /** A jump list that is not touched stays one. */
  lemma ChainSame(c: seq<Instr>, c': seq<Instr>, head: int, s: seq<nat>)
    requires Chain(c, head, s)
    requires forall j :: j in s && j < |c| ==> j < |c'| && c'[j] == c[j]
    ensures Chain(c', head, s)
  {
    forall i | 0 <= i < |s| ensures LinkAt(c', s, i) {
      assert LinkAt(c, s, i);
    }
  }

  lemma ChainBound(c: seq<Instr>, head: int, s: seq<nat>)
    requires Chain(c, head, s)
    ensures forall j :: j in s ==> j < |c| && c[j].Jmp?
  {
    forall i | 0 <= i < |s| ensures s[i] < |c| && c[s[i]].Jmp? {
      assert LinkAt(c, s, i);
    }
  }

  lemma ChainRelinked(c: seq<Instr>, c': seq<Instr>, own: set<nat>, head: int, s: seq<nat>)
    requires Chain(c, head, s) && Relinked(c, c', own) && forall j :: j in s ==> j !in own
    ensures Chain(c', head, s)
  {
    forall j | j in s && j < |c| ensures c'[j] == c[j] {
      assert RelinkedAt(c, c', own, j);
    }
    ChainSame(c, c', head, s);
  }

  lemma ChainPatched(c: seq<Instr>, c': seq<Instr>, own: set<nat>, vt: int, reg: int, dt: int, head: int, s: seq<nat>)
    requires Chain(c, head, s) && Patched(c, c', own, vt, reg, dt) && forall j :: j in s ==> j !in own
    ensures Chain(c', head, s)
  {
    forall j | j in s && j < |c| ensures c'[j] == c[j] {
      assert IsPatched(c, c', own, vt, reg, dt, j);
      var i :| 0 <= i < |s| && s[i] == j;
      assert LinkAt(c, s, i);
    }
    ChainSame(c, c', head, s);
  }

  lemma EmitTwice(s: State, s1: State, s2: State, i1: Instr, i2: Instr)
    requires Sane(s) && Emits(s, s1, i1) && Emits(s1, s2, i2) && IsPlain(i1) && IsPlain(i2)
    ensures Continues(s, s2.c, s2.pend) && s2.pend == s.pend - Elems(s.js) && |s2.c| == |s.c| + 2
    ensures s2.c[|s.c|] == i1 && s2.c[|s.c| + 1] == i2
  {
    EmitSane(s, s1, i1);
    forall i | 0 <= i < |s1.c| ensures s2.c[i] == s1.c[i] {
      assert IsPatched(s1.c, s2.c, Elems(s1.js), |s1.c|, NO_REG, |s1.c|, i);
    }
    forall i | 0 <= i < |s.c| ensures IsPatched(s.c, s2.c, Elems(s.js), |s.c|, NO_REG, |s.c|, i) {
      assert IsPatched(s.c, s1.c, Elems(s.js), |s.c|, NO_REG, |s.c|, i);
    }
  }

  // ---------- what `discharge2reg` has done, case by case ----------

  ghost predicate Discharged(s: State, x: Ctx, d: ExpDesc, l: Lists, e: Expr, fold: Folder, reg: int) {
    Stands(s, Holed(x, reg), Delayed(VNonReloc(reg)), l, e, fold) && Chains(s, d.t, d.f, l)
  }

  // ---------- pieces of conditions and negation ----------

  lemma TestsForSet(s: State, s': State, r: int, cond: bool)
    requires 0 <= r
    ensures TestsFor(s, s', Delayed(VNonReloc(r)), TestSet(NO_REG, r, cond), cond)
  {
  }

  lemma TestsForNot(s: State, s': State, r: int, cond: bool)
    requires 0 <= r
    ensures TestsFor(s, s', UnaryOf(Not, r), Test(r, !cond), cond)
  {
  }

  lemma ChainsTest(s: State, s': State, i: Instr, x: Ctx, m: Main, l: Lists, t: int, f: int)
    requires EmitsTest(s, s', i) && Fits(s, x, m, l) && Chains(s, t, f, l)
    ensures Chains(s', t, f, l)
  {
    ChainPatched(s.c, s'.c, Elems(s.js), |s.c|, NO_REG, |s.c|, t, l.t);
    ChainPatched(s.c, s'.c, Elems(s.js), |s.c|, NO_REG, |s.c|, f, l.f);
  }

  lemma ChainsCut(s: State, s': State, x: Ctx, k: Kind, l: Lists, t: int, f: int)
    requires Fits(s, x, Delayed(k), l) && Chains(s, t, f, l) && k.VReloc? && s' == s.(c := s.c[..|s.c| - 1])
    ensures Chains(s', t, f, l)
  {
    ChainSame(s.c, s'.c, t, l.t);
    ChainSame(s.c, s'.c, f, l.f);
  }

  /** Appending a jump to one list, then making the other list pending to "here". */
  lemma CloseLists(s: State, s1: State, s2: State, x: Ctx, l: Lists, e: Expr, fold: Folder, cond: bool, own: seq<nat>)
    requires Stands(s, x, if cond then WasFalse else WasTrue, l, e, fold)
    requires s1 == s.(c := s1.c) && Relinked(s.c, s1.c, Elems(own)) && AllEncodable(s1.c)
    requires forall j :: j in own ==> if cond then j in l.t else j in l.f
    requires s2 == s1.(c := s2.c, jpc := s2.jpc, js := s.js + (if cond then l.f else l.t), lt := |s.c|)
    requires Relinked(s1.c, s2.c, Elems(s.js)) && AllEncodable(s2.c) && Chain(s2.c, s2.jpc, s2.js)
    ensures Stands(s2, x, if cond then WasFalse else WasTrue, if cond then Lists(l.t, []) else Lists([], l.f), e, fold)
  {
    var m := if cond then WasFalse else WasTrue;
    var l' := if cond then Lists(l.t, []) else Lists([], l.f);
    hide Rep;
    forall i | 0 <= i < |s.c| ensures RelinkedAt(s.c, s1.c, Own(s, l), i) {
      assert RelinkedAt(s.c, s1.c, Elems(own), i);
    }
    forall i | 0 <= i < |s.c| ensures RelinkedAt(s1.c, s2.c, Own(s1, l), i) {
      assert RelinkedAt(s1.c, s2.c, Elems(s.js), i);
    }
    ChainRelinked(s.c, s1.c, Elems(own), s.jpc, s.js);
    Relink(s, s1, x, m, l, l, e, fold);
    Relink(s1, s2, x, m, l, l', e, fold);
  }

  lemma ComparisonFlipped(s: State, s': State)
    requires |s.c| >= 2 && s.c[|s.c| - 2].CompareI?
    requires s' == s.(c := s.c[|s.c| - 2 := CompareI(!s.c[|s.c| - 2].cond, s.c[|s.c| - 2].cop, s.c[|s.c| - 2].b, s.c[|s.c| - 2].c)])
    ensures |s'.c| == |s.c| && forall i :: 0 <= i < |s.c| && i != |s.c| - 2 ==> s'.c[i] == s.c[i]
    ensures AllEncodable(s.c) ==> AllEncodable(s'.c)
  {
    if AllEncodable(s.c) {
      forall i | 0 <= i < |s'.c| ensures EncodableAt(s'.c, i) {
        assert EncodableAt(s.c, i);
      }
    }
  }

  lemma ChainsFlipped(s: State, s': State, x: Ctx, k: Kind, l: Lists, t: int, f: int)
    requires Sane(s) && Fits(s, x, Delayed(k), l) && k.VJmp? && Chains(s, t, f, l)
    requires |s'.c| == |s.c| && forall i :: 0 <= i < |s.c| && i != |s.c| - 2 ==> s'.c[i] == s.c[i]
    ensures Chains(s', t, f, l) && Chain(s'.c, k.info, [k.info])
  {
    ChainSame(s.c, s'.c, t, l.t);
    ChainSame(s.c, s'.c, f, l.f);
    assert LinkAt(s'.c, [k.info as nat], 0);
  }

  lemma ComparisonKind(s: State, x: Ctx, k: Kind, l: Lists)
    requires Fits(s, x, Delayed(k), l) && k.VJmp?
    ensures k.info == |s.c| - 1 >= 1 && s.c[|s.c| - 2].CompareI?
  {
  }

  lemma ChainRemoved(c: seq<Instr>, c': seq<Instr>, own: seq<nat>, head: int, s: seq<nat>)
    requires Removed(c, c', Elems(own), |c|) && Chain(c, head, s)
    ensures Chain(c', head, s)
  {
    ChainBound(c, head, s);
    forall j | j in s && j < |c| ensures c'[j] == c[j] {
      assert IsRemoved(c, c', Elems(own), j);
    }
    ChainSame(c, c', head, s);
  }

  lemma RemovedTwice(c: seq<Instr>, c2: seq<Instr>, c3: seq<Instr>, s2: seq<nat>, s3: seq<nat>, limit: int)
    requires Removed(c, c2, Elems(s2), limit) && Removed(c2, c3, Elems(s3), |c2|)
    ensures Removed(c, c3, Elems(s2) + Elems(s3), limit)
  {
    forall i | 0 <= i < |c| && i < limit ensures IsRemoved(c, c3, Elems(s2) + Elems(s3), i) {
      assert IsRemoved(c, c2, Elems(s2), i) && IsRemoved(c2, c3, Elems(s3), i);
    }
  }

  /** `codenot` on a constant or a comparison. */
  lemma NegatedInPlace(s: State, s1: State, c2: seq<Instr>, s3: State, x: Ctx, k: Kind, k': Kind, l: Lists, e: Expr, fold: Folder)
    requires Stands(s, x, Delayed(k), l, e, fold) && s3 == s.(c := s3.c) && s1 == s.(c := s1.c) && |s1.c| == |s.c|
    requires if k.VJmp? then k' == k && s1.c[|s.c| - 2] == CompareI(!s.c[|s.c| - 2].cond, s.c[|s.c| - 2].cop, s.c[|s.c| - 2].b, s.c[|s.c| - 2].c)
                             && forall i :: 0 <= i < |s.c| && i != |s.c| - 2 ==> s1.c[i] == s.c[i]
             else s1 == s && IsConstant(k) && (k.VK? ==> Truthy(s.ks[k.info]))
                  && k' == if k.VNil? || k.VFalse? then VTrue else VFalse
    requires Removed(s1.c, c2, Elems(l.t), |s1.c|) && Removed(c2, s3.c, Elems(l.f), |c2|) && AllEncodable(s3.c)
    ensures Stands(s3, x, Delayed(k'), Lists(l.f, l.t), UnaryE(Not, e), fold)
  {
    var m, m' := Delayed(k), Delayed(k');
    var limit := |s.c| - Tail(m);
    assert Removed(s.c, c2, Elems(l.t), limit) by {
      forall i | 0 <= i < |s.c| && i < limit ensures IsRemoved(s.c, c2, Elems(l.t), i) {
        assert IsRemoved(s1.c, c2, Elems(l.t), i);
      }
    }
    RemovedTwice(s.c, c2, s3.c, l.t, l.f, limit);
    if k.VJmp? {
      assert IsRemoved(s1.c, c2, Elems(l.t), |s.c| - 1) && IsRemoved(c2, s3.c, Elems(l.f), |s.c| - 1);
      assert IsRemoved(s1.c, c2, Elems(l.t), |s.c| - 2) && IsRemoved(c2, s3.c, Elems(l.f), |s.c| - 2);
    }
    assert Negates(s, m, s3, m') by {
      hide Stands, Removed;
      NegatesInPlace(s, s3, k, k');
    }
    Negate(s, s3, x, m, m', l, e, fold);
  }

  lemma NegatesInPlace(s: State, s3: State, k: Kind, k': Kind)
    requires s3 == s.(c := s3.c) && |s3.c| == |s.c|
    requires if k.VJmp? then k' == k && |s.c| >= 2 && s.c[|s.c| - 2].CompareI?
                             && s3.c[|s.c| - 2] == CompareI(!s.c[|s.c| - 2].cond, s.c[|s.c| - 2].cop, s.c[|s.c| - 2].b, s.c[|s.c| - 2].c)
             else IsConstant(k) && (k.VK? ==> 0 <= k.info < |s.ks| && Truthy(s.ks[k.info]))
                  && k' == if k.VNil? || k.VFalse? then VTrue else VFalse
    ensures Negates(s, Delayed(k), s3, Delayed(k'))
  {
    forall regs: Regs, meta: Meta, ev: Outcome | Denotes(Delayed(k), s.c, s.ks, meta, regs, ev)
      ensures Denotes(Delayed(k'), s3.c, s3.ks, meta, regs, NotOutcome(ev))
    {
    }
  }

  ghost function RemoveAll(c: seq<Instr>, own: set<nat>): (c': seq<Instr>)
    ensures |c'| == |c| && Removed(c, c', own, |c|)
  {
    seq(|c|, i requires 0 <= i < |c| => RemovedAt(c, own, i))
  }

  /** `codenot` on a value in register `r`: as if the lists had lost their values before the OP_NOT was emitted. */
  lemma NegatedValue(s: State, s2: State, c3: seq<Instr>, s4: State, x: Ctx, r: int, l: Lists, e: Expr, fold: Folder)
    requires Stands(s, x, Delayed(VNonReloc(r)), l, e, fold)
    requires Emits(s, s2, UnaryI(0, Not, r)) && s4 == s2.(c := s4.c)
    requires Removed(s2.c, c3, Elems(l.t), |s2.c|) && Removed(c3, s4.c, Elems(l.f), |c3|) && AllEncodable(s4.c)
    ensures Stands(s4, x, Delayed(VReloc(|s.c|)), Lists(l.f, l.t), UnaryE(Not, e), fold)
  {
    var own := Elems(l.t) + Elems(l.f);
    var g := s.(c := RemoveAll(s.c, own));
    var m := UnaryOf(Not, r);
    RemovedTwice(s2.c, c3, s4.c, l.t, l.f, |s2.c|);
    RemovedEncodable(s.c, g.c, own);
    assert Removed(s.c, g.c, own, |s.c| - Tail(Delayed(VNonReloc(r))));
    Negate(s, g, x, Delayed(VNonReloc(r)), m, l, e, fold);
    RemovedCommutes(s, s2, g, s4, x, r, l, own);
    EmitSane(g, s4, UnaryI(0, Not, r));
    EmitOpen(g, s4, x, m, Delayed(VReloc(|s.c|)), Lists(l.f, l.t), UnaryE(Not, e), fold);
  }

  lemma RemovedLength(c: seq<Instr>, c2: seq<Instr>, c3: seq<Instr>, l: Lists)
    requires Removed(c, c2, Elems(l.t), |c|) && Removed(c2, c3, Elems(l.f), |c2|)
    ensures |c3| == |c|
  {
  }

  /** What an emission leaves of everything but the code. */
  lemma ChainsEmitted(s: State, s': State, i: Instr, d: ExpDesc, l: Lists, x: Ctx, m: Main)
    requires Emits(s, s', i) && Chains(s, d.t, d.f, l) && Sane(s) && Fits(s, x, m, l) && IsPlain(i)
    ensures Chain(s'.c, d.t, l.t) && Chain(s'.c, d.f, l.f) && AllEncodable(s'.c)
    ensures |s'.c| == |s.c| + 1 && s' == s.(c := s'.c, pend := s'.pend, jpc := s'.jpc, js := s'.js)
  {
    EmitSane(s, s', i);
    ChainsEmit(s, s', d, l, x, m);
  }

  lemma RemovedEncodable(c: seq<Instr>, c': seq<Instr>, own: set<nat>)
    requires AllEncodable(c) && Removed(c, c', own, |c|)
    ensures AllEncodable(c')
  {
    forall i | 0 <= i < |c'| ensures EncodableAt(c', i) {
      assert EncodableAt(c, i) && IsRemoved(c, c', own, i);
    }
  }

  lemma RemovedCommutes(s: State, s2: State, g: State, s4: State, x: Ctx, r: int, l: Lists, own: set<nat>)
    requires Sane(s) && Fits(s, x, Delayed(VNonReloc(r)), l) && own == Elems(l.t) + Elems(l.f)
    requires Emits(s, s2, UnaryI(0, Not, r)) && s4 == s2.(c := s4.c)
    requires g == s.(c := g.c) && Removed(s.c, g.c, own, |s.c|) && Removed(s2.c, s4.c, own, |s2.c|) && AllEncodable(s4.c)
    ensures Emits(g, s4, UnaryI(0, Not, r))
  {
    assert IsRemoved(s2.c, s4.c, own, |s.c|);
    forall i | 0 <= i < |g.c| ensures IsPatched(g.c, s4.c, Elems(g.js), |g.c|, NO_REG, |g.c|, i) {
      assert IsPatched(s.c, s2.c, Elems(s.js), |s.c|, NO_REG, |s.c|, i);
      assert IsRemoved(s.c, g.c, own, i) && IsRemoved(s2.c, s4.c, own, i);
      if i > 0 {
        assert IsRemoved(s.c, g.c, own, i - 1);
      }
    }
  }

  lemma SameChains(s: State, s': State, d: ExpDesc, l: Lists)
    requires Chains(s, d.t, d.f, l) && s'.c == s.c
    ensures Chains(s', d.t, d.f, l)
  {
  }

  lemma NoChain(c: seq<Instr>)
    ensures Chain(c, NO_JUMP, [])
  {
  }

  lemma NoChains(s: State)
    ensures Chains(s, NO_JUMP, NO_JUMP, Lists([], []))
  {
  }

  lemma DischargedFor(s: State, x: Ctx, d: ExpDesc, d': ExpDesc, l: Lists, e: Expr, fold: Folder, reg: int)
    requires Discharged(s, x, d, l, e, fold, reg) && d.t == d'.t && d.f == d'.f
    ensures Discharged(s, x, d', l, e, fold, reg)
  {
  }

  lemma DischargedParts(s: State, x: Ctx, d: ExpDesc, l: Lists, e: Expr, fold: Folder, reg: int)
    requires Chains(s, d.t, d.f, l) || Discharged(s, x, d, l, e, fold, reg)
    ensures Chain(s.c, d.t, l.t) && Chain(s.c, d.f, l.f)
    ensures Discharged(s, x, d, l, e, fold, reg) ==> Stands(s, Holed(x, reg), Delayed(VNonReloc(reg)), l, e, fold)
  {
  }

  lemma ChainsEmit(s: State, s': State, d: ExpDesc, l: Lists, x: Ctx, m: Main)
    requires Chains(s, d.t, d.f, l) && Fits(s, x, m, l) && Continues(s, s'.c, s'.pend)
    ensures Chains(s', d.t, d.f, l)
  {
    ChainPatched(s.c, s'.c, Elems(s.js), |s.c|, NO_REG, |s.c|, d.t, l.t);
    ChainPatched(s.c, s'.c, Elems(s.js), |s.c|, NO_REG, |s.c|, d.f, l.f);
  }

  lemma DischargeOne(s: State, s': State, x: Ctx, d: ExpDesc, l: Lists, e: Expr, fold: Folder, reg: int, i: Instr)
    requires Stands(s, x, Delayed(d.k), l, e, fold) && Chains(s, d.t, d.f, l) && x.hole in {-1, reg} && 0 <= reg < s.msize
    requires Emits(s, s', i)
    requires (d.k == VFalse && i == LoadBool(reg, false, false)) || (d.k == VTrue && i == LoadBool(reg, true, false))
             || (d.k == VNil && i == LoadNil(reg, 0))
             || (d.k.VNonReloc? && i == Move(reg, d.k.info) && 0 <= d.k.info < s.msize)
    ensures Discharged(s', x, d, l, e, fold, reg) && Grew(s, s', 2, 1)
  {
    EmitSane(s, s', i);
    ChainsEmit(s, s', d, l, x, Delayed(d.k));
    var q := |s.c|;
    assert Loads(s', q, reg, d.k) by {
      hide Sane, Stands;
      forall regs: Regs, meta: Meta | s'.msize <= |regs|
        ensures LoadsFrom(s', q, reg, d.k, regs, meta)
      {
        var r := regs[reg := KindValue(d.k, s'.ks, regs).v];
        assert i.LoadNil? ==> SetNil(regs, reg, 0) == r;
        assert Step(s'.c, s'.ks, meta, q, regs) == Go(q + 1, r);
        assert Run(s'.c, s'.ks, meta, s'.pend, q, regs) == Run(s'.c, s'.ks, meta, s'.pend, q + 1, r);
      }
    }
    LoadValue(s, s', x, d.k, l, e, fold, reg);
  }

  lemma DischargeK(s: State, s': State, x: Ctx, d: ExpDesc, l: Lists, e: Expr, fold: Folder, reg: int, idx: nat)
    requires Stands(s, x, Delayed(d.k), l, e, fold) && Chains(s, d.t, d.f, l) && x.hole in {-1, reg} && 0 <= reg < s.msize
    requires Sane(s') && Continues(s, s'.c, s'.pend) && s'.pend == s.pend - Elems(s.js) && s'.js == []
    requires Grew(s, s', 2, 1) && s'.lt == s.lt && |s.c| < |s'.c|
    requires s'.c[|s.c|..] == if idx <= MAXARG_Bx then [LoadK(reg, idx)] else [LoadKX(reg), ExtraArg(idx)]
    requires IsConstant(d.k) && idx < |s'.ks| && ConstantOf(d.k, s'.ks) == Val(s'.ks[idx])
    ensures Discharged(s', x, d, l, e, fold, reg) && Grew(s, s', 2, 1)
  {
    ChainsEmit(s, s', d, l, x, Delayed(d.k));
    var q := |s.c|;
    assert s'.c[q] == s'.c[q..][0] && (idx > MAXARG_Bx ==> s'.c[q + 1] == s'.c[q..][1]);
    assert Loads(s', q, reg, d.k) by {
      hide Sane, Stands;
      forall regs: Regs, meta: Meta | s'.msize <= |regs|
        ensures LoadsFrom(s', q, reg, d.k, regs, meta)
      {
        var r := regs[reg := s'.ks[idx]];
        assert Step(s'.c, s'.ks, meta, q, regs) == Go(|s'.c|, r);
        assert Run(s'.c, s'.ks, meta, s'.pend, q, regs) == Run(s'.c, s'.ks, meta, s'.pend, |s'.c|, r);
      }
    }
    LoadValue(s, s', x, d.k, l, e, fold, reg);
  }

  lemma DischargeNil(s: State, s': State, x: Ctx, d: ExpDesc, l: Lists, e: Expr, fold: Folder, reg: int)
    requires Stands(s, x, Delayed(d.k), l, e, fold) && Chains(s, d.t, d.f, l) && x.hole in {-1, reg} && 0 <= reg < s.msize && d.k.VNil?
    requires Emits(s, s', LoadNil(reg, 0))
             || (Mergeable(s) && s' == s.(c := s'.c) && |s'.c| == |s.c| && AllEncodable(s'.c)
                 && (forall i :: 0 <= i < |s.c| - 1 ==> s'.c[i] == s.c[i])
                 && WidensBy(s.c[|s.c| - 1], s'.c[|s.c| - 1], reg, 1))
    ensures Discharged(s', x, d, l, e, fold, reg) && Grew(s, s', 2, 1)
  {
    if Emits(s, s', LoadNil(reg, 0)) {
      DischargeOne(s, s', x, d, l, e, fold, reg, LoadNil(reg, 0));
    } else {
      forall i | 0 <= i < |s'.c| ensures PairedAt(s'.c, i) && TargetAt(s'.c, s'.pend, s'.lt, i) {
        assert PairedAt(s.c, i) && TargetAt(s.c, s.pend, s.lt, i);
      }
      ChainSame(s.c, s'.c, s.jpc, s.js);
      ChainSame(s.c, s'.c, d.t, l.t);
      ChainSame(s.c, s'.c, d.f, l.f);
      WidenNil(s, s', x, l, e, fold, reg);
    }
  }

  lemma DischargeReloc(s: State, s': State, x: Ctx, d: ExpDesc, l: Lists, e: Expr, fold: Folder, reg: int)
    requires Stands(s, x, Delayed(d.k), l, e, fold) && Chains(s, d.t, d.f, l) && x.hole in {-1, reg} && 0 <= reg < s.msize && d.k.VReloc?
    requires s' == s.(c := s'.c) && |s'.c| == |s.c| && Produces(s.c[|s.c| - 1], s'.c[|s.c| - 1], reg)
    requires forall i :: 0 <= i < |s.c| - 1 ==> s'.c[i] == s.c[i]
    ensures Discharged(s', x, d, l, e, fold, reg) && Grew(s, s', 2, 1)
  {
    RelocSane(s, s', x, d, l, e, fold, reg);
    RelocChains(s, s', x, d, l, e, fold, reg);
    hide Sane, Chains, Produces;
    SetTarget(s, s', x, d.k, l, e, fold, reg);
    hide Stands;
  }

  lemma RelocSane(s: State, s': State, x: Ctx, d: ExpDesc, l: Lists, e: Expr, fold: Folder, reg: int)
    requires Stands(s, x, Delayed(d.k), l, e, fold) && d.k.VReloc? && 0 <= reg < s.msize && s' == s.(c := s'.c) && |s'.c| == |s.c| > 0 && Produces(s.c[|s.c| - 1], s'.c[|s.c| - 1], reg)
    requires forall i :: 0 <= i < |s.c| - 1 ==> s'.c[i] == s.c[i]
    ensures Sane(s') && Grew(s, s', 2, 1)
  {
    hide Settles;
    forall i | 0 <= i < |s'.c| ensures PairedAt(s'.c, i) && TargetAt(s'.c, s'.pend, s'.lt, i) && EncodableAt(s'.c, i) {
      assert PairedAt(s.c, i) && TargetAt(s.c, s.pend, s.lt, i) && EncodableAt(s.c, i);
    }
  }

  lemma RelocChains(s: State, s': State, x: Ctx, d: ExpDesc, l: Lists, e: Expr, fold: Folder, reg: int)
    requires Stands(s, x, Delayed(d.k), l, e, fold) && Chains(s, d.t, d.f, l) && d.k.VReloc? && s' == s.(c := s'.c) && |s'.c| == |s.c| > 0 && Produces(s.c[|s.c| - 1], s'.c[|s.c| - 1], reg)
    requires forall i :: 0 <= i < |s.c| - 1 ==> s'.c[i] == s.c[i]
    ensures Chains(s', d.t, d.f, l)
  {
    hide Settles;
    ChainSame(s.c, s'.c, d.t, l.t);
    ChainSame(s.c, s'.c, d.f, l.f);
  }

  lemma DischargeHoled(s: State, x: Ctx, d: ExpDesc, l: Lists, e: Expr, fold: Folder, reg: int)
    requires Stands(s, x, Delayed(d.k), l, e, fold) && Chains(s, d.t, d.f, l) && d.k == VNonReloc(reg) && x.hole in {-1, reg}
    ensures Discharged(s, x, d, l, e, fold, reg)
  {
    var x' := Holed(x, reg);
    forall st: Start, regs: Regs, meta: Meta | IsStart(x', st) && Admissible(s, x', fold, regs, meta)
      ensures Settles(s, x', Delayed(d.k), l, Eval(e, regs, meta), regs, meta,
                      ExitOf(Body(s.c, Delayed(d.k)), s.ks, meta, s.pend, x', st, regs))
    {
      assert Admissible(s, x, fold, regs, meta);
      assert Settles(s, x, Delayed(d.k), l, Eval(e, regs, meta), regs, meta,
                     ExitOf(Body(s.c, Delayed(d.k)), s.ks, meta, s.pend, x, st, regs));
    }
  }

  // ---------- pieces of `exp2reg` ----------

  /** Some jump of the list does not carry the value. */
  ghost predicate Needs(c: seq<Instr>, s: seq<nat>) {
    exists j :: j in s && j < |c| && !TestSetBefore(c, j)
  }

  lemma EmitsNext(s: State, s': State, i: Instr)
    requires s.js == [] && Emits(s.(lt := |s.c|), s', i)
    ensures s'.c == s.c + [i] && s'.pend == s.pend && s'.js == [] && s'.ks == s.ks
  {
    forall k | 0 <= k < |s.c| ensures s'.c[k] == s.c[k] {
      assert IsPatched(s.c, s'.c, Elems(s.js), |s.c|, NO_REG, |s.c|, k);
    }
  }

  lemma SameWhenNothingRelinked(c: seq<Instr>, c': seq<Instr>)
    requires Relinked(c, c', Elems([]))
    ensures c == c'
  {
    forall i | 0 <= i < |c| ensures c[i] == c'[i] {
      assert RelinkedAt(c, c', Elems([]), i);
    }
  }

  /** `hasjumps` is right: the two heads are equal only when both lists are empty. */
  lemma NoLists(s: State, x: Ctx, m: Main, l: Lists, t: int, f: int, e: Expr, fold: Folder)
    requires Stands(s, x, m, l, e, fold) && Chain(s.c, t, l.t) && Chain(s.c, f, l.f)
    ensures t == f ==> l == Lists([], []) && t == NO_JUMP
  {
    if l.t != [] && l.f != [] {
      assert l.t[0] in l.t && l.f[0] in l.f;
    }
  }

  /** Another list has been appended to one of an expression's lists. */
  lemma RelinkOwn(s: State, s': State, x: Ctx, m: Main, l: Lists, e: Expr, fold: Folder, own: seq<nat>, other: int, ls: seq<nat>)
    requires Stands(s, x, m, l, e, fold) && s' == s.(c := s'.c)
    requires Relinked(s.c, s'.c, Elems(own)) && AllEncodable(s'.c)
    requires (forall j :: j in own ==> j in l.t) || (forall j :: j in own ==> j in l.f)
    requires forall j :: j in ls ==> j !in own
    requires Chain(s.c, other, ls)
    ensures Stands(s', x, m, l, e, fold) && Chain(s'.c, other, ls)
  {
    forall i | 0 <= i < |s.c| ensures RelinkedAt(s.c, s'.c, Own(s, l), i) {
      assert RelinkedAt(s.c, s'.c, Elems(own), i);
    }
    ChainRelinked(s.c, s'.c, Elems(own), s.jpc, s.js);
    ChainRelinked(s.c, s'.c, Elems(own), other, ls);
    Relink(s, s', x, m, l, l, e, fold);
  }

  lemma ListsApart(s: State, x: Ctx, m: Main, l: Lists)
    requires Sane(s) && Fits(s, x, m, l)
    ensures Distinct(l.t) && Distinct(l.f) && (forall j :: j in l.t ==> j !in Elems(l.f) && j !in s.js)
    ensures forall j :: j in l.f ==> j !in s.js
    ensures forall j :: j in s.js || j in l.t || j in l.f ==> j < |s.c|
    ensures Chain(s.c, s.jpc, s.js) && AllEncodable(s.c)
  {
  }

  /** Patching the list of false exits leaves the controls of the true exits as they were. */
  lemma ControlsKept(c1: seq<Instr>, c2: seq<Instr>, l: Lists, vt: int, reg: int, dt: int)
    requires Patched(c1, c2, Elems(l.f), vt, reg, dt) && forall j :: j in l.t ==> j !in Elems(l.f)
    requires forall j :: j in l.t || j in l.f ==> j < |c1| && c1[j].Jmp?
    ensures forall j :: j in l.t ==> TestSetBefore(c2, j) == TestSetBefore(c1, j)
  {
    forall j | j in l.t ensures TestSetBefore(c2, j) == TestSetBefore(c1, j) {
      if j > 0 {
        assert IsPatched(c1, c2, Elems(l.f), vt, reg, dt, j - 1);
      }
    }
  }

  lemma AnyTarget(c: seq<Instr>, c': seq<Instr>, own: set<nat>, vt: int, reg: int, dt: int, dt': int)
    requires Patched(c, c', own, vt, reg, dt)
    requires dt == dt' || forall j :: j in own && j < |c| ==> TestSetBefore(c, j)
    ensures Patched(c, c', own, vt, reg, dt')
  {
    forall i | 0 <= i < |c| ensures IsPatched(c, c', own, vt, reg, dt', i) {
      assert IsPatched(c, c', own, vt, reg, dt, i);
    }
  }

  /** The parts of `Finishes`. */
  lemma BoolsLength(s: State, c1: seq<Instr>, reg: int, need: bool, over: bool)
    requires LoadsBools(s, c1, reg, need, over)
    ensures |s.c| <= |c1| <= |s.c| + 3 && (need ==> |c1| >= |s.c| + 2)
  {
  }

  lemma FinishesNow(s: State, s': State, m: Main, l: Lists, reg: int, need: bool, c1: seq<Instr>, c2: seq<Instr>)
    requires m == Delayed(VNonReloc(reg)) || (m == JustFalse && need && s.js == [])
    requires LoadsBools(s, c1, reg, need, m != JustFalse)
    requires Patched(c1, c2, Elems(l.f), |c1|, reg, |c1| - 2) && |c2| == |c1|
    requires Patched(c2, s'.c, Elems(l.t), |c1|, reg, |c1| - 1) && |s'.c| == |c1|
    requires !need ==> !Needs(s.c, l.t) && !Needs(s.c, l.f)
    requires s' == s.(c := s'.c, pend := s'.pend, jpc := s'.jpc, js := s'.js, lt := |s'.c|) && 0 <= reg < s.msize
    requires s'.js == (if need && m != JustFalse then [|s.c|] + s.js else s.js)
    requires s'.pend == s.pend + (if need && m != JustFalse then {|s.c|} else {}) - Elems(l.t) - Elems(l.f)
    requires forall j :: j in l.t || j in l.f ==> j < |s.c|
    ensures Finishes(s, s', m, l, reg, need, c1, c2)
  {
  }

  lemma ChainPatchedTwice(c1: seq<Instr>, c2: seq<Instr>, c3: seq<Instr>, l: Lists, final: int, reg: int, pf: int, pt: int, head: int, s: seq<nat>)
    requires Chain(c1, head, s) && Patched(c1, c2, Elems(l.f), final, reg, pf) && Patched(c2, c3, Elems(l.t), final, reg, pt)
    requires forall j :: j in s ==> j !in l.t && j !in l.f
    ensures Chain(c3, head, s)
  {
    ChainPatched(c1, c2, Elems(l.f), final, reg, pf, head, s);
    ChainPatched(c2, c3, Elems(l.t), final, reg, pt, head, s);
  }

  lemma ChainsExtend(s: State, c1: seq<Instr>, t: int, f: int, l: Lists)
    requires s.c <= c1 && Chain(s.c, t, l.t) && Chain(s.c, f, l.f)
    ensures Chain(c1, t, l.t) && Chain(c1, f, l.f)
    ensures Needs(s.c, l.t) == Needs(c1, l.t) && Needs(s.c, l.f) == Needs(c1, l.f)
  {
    ChainBound(s.c, t, l.t);
    ChainBound(s.c, f, l.f);
    assert forall j :: j in l.t || j in l.f ==> TestSetBefore(c1, j) == TestSetBefore(s.c, j);
    ChainSame(s.c, c1, t, l.t);
    ChainSame(s.c, c1, f, l.f);
  }

  // ---------- pieces of binary operators ----------

  ghost predicate Held(s: State, x: Ctx, k: Kind, e: Expr, fold: Folder) {
    && Stands(s, x, Delayed(k), Lists([], []), e, fold)
    && RegsOk(s, x, Delayed(k))
    && x.hole == -1
    && (k.VNonReloc? || IsConstant(k))
  }

  predicate IsNumeral(k: Kind) {
    k.VKInt? || k.VKFlt?
  }

  /** The first operand is in place, and the code of the second ends with it in place. */
  lemma OperandsReady(s1: State, x1: Ctx, k1: Kind, e1: Expr, s2: State, x2: Ctx, k2: Kind, e2: Expr, fold: Folder, op: Dyadic)
    requires Held(s1, x1, k1, e1, fold) && IsOperand(k1) && IsOperand(k2)
    requires Stands(s2, x2, Delayed(k2), Lists([], []), e2, fold)
    requires x2 == Context(s1, s1.free, -1) && Later(s1, s2) && Scoped(e2, x1.n) && s1.free <= s2.msize
    ensures Stands(s2, x1, Operands(op, OperandRK(k1), OperandRK(k2)), Lists([], []), Binary(op, e1, e2), fold)
  {
    hide Stands, Sane, Settles, Rep;
    StandsParts(s1, x1, Delayed(k1), Lists([], []), e1, fold);
    OpenKind(s1, x1, k1, Lists([], []));
    assert InPlace(k1, s1.ks) == InPlace(k1, s2.ks);
    ReadOperands(s2, x2, k2, e2, fold, op, k1, true);
    Prefix(s1, x1, k1, e1, s2, x2, Operands(op, OperandRK(k1), OperandRK(k2)), op, e2, true, fold);
  }

  /** The first operand is a numeral, brought in place only after the code of the second. */
  lemma OperandsReadyLate(s1: State, x1: Ctx, k1: Kind, e1: Expr, s2: State, x2: Ctx, k2: Kind, e2: Expr,
                          s3: State, x3: Ctx, k1': Kind, fold: Folder, op: Dyadic)
    requires Held(s1, x1, k1, e1, fold) && IsNumeral(k1)
    requires Held(s2, x2, k2, e2, fold) && IsOperand(k2)
    requires Stands(s3, x3, Delayed(k1'), Lists([], []), Literal(ConstantOf(k1, []).v), fold) && IsOperand(k1')
    requires x2 == Context(s1, s1.free, -1) && Later(s1, s2) && Scoped(e2, x1.n)
    requires x3 == Context(s2, s2.free, -1) && Later(s2, s3) && s2.free <= s3.msize
    ensures Stands(s3, x1, Operands(op, OperandRK(k1'), OperandRK(k2)), Lists([], []), Binary(op, e1, e2), fold)
  {
    hide Rep, Sane;
    var lit := Literal(ConstantOf(k1, []).v);
    var m := Operands(op, OperandRK(k1'), OperandRK(k2));
    StandsParts(s2, x2, Delayed(k2), Lists([], []), e2, fold);
    OpenKind(s2, x2, k2, Lists([], []));
    assert InPlace(k2, s2.ks) == InPlace(k2, s3.ks);
    ReadOperands(s3, x3, k1', lit, fold, op, k2, false);
    Prefix(s2, x2, k2, e2, s3, x3, m, op, lit, false, fold);
    assert InPlace(k1, s1.ks) == lit;
    Prefix(s1, x1, k1, e1, s3, x2, m, op, e2, true, fold);
  }

  ghost predicate Computes(op: Dyadic, i: Instr, rk1: int, rk2: int) {
    match op
    case ArithD(aop) => i == ArithI(0, aop, rk1, rk2)
    case ConcatD => i == ConcatI(0, rk1, rk2) && 0 <= rk1 && rk2 == rk1 + 1 && rk2 < BITRK
    case CompD(cop) =>
      i == match cop
           case OpEq => CompareI(true, Eq, rk1, rk2)
           case OpLt => CompareI(true, Lt, rk1, rk2)
           case OpLe => CompareI(true, Le, rk1, rk2)
           case OpNe => CompareI(false, Eq, rk1, rk2)
           case OpGt => CompareI(true, Lt, rk2, rk1)
           case OpGe => CompareI(true, Le, rk2, rk1)
  }

  lemma ComputesOperands(s: State, s': State, op: Dyadic, i: Instr, rk1: int, rk2: int)
    requires s.ks == s'.ks && Computes(op, i, rk1, rk2)
    requires if op.CompD? then |s'.c| >= 2 && s'.c[|s'.c| - 2] == i else |s'.c| >= 1 && s'.c[|s'.c| - 1] == i
    ensures Opens(s, Operands(op, rk1, rk2), s', Delayed(if op.CompD? then VJmp(|s'.c| - 1) else VReloc(|s'.c| - 1)))
  {
    var m' := Delayed(if op.CompD? then VJmp(|s'.c| - 1) else VReloc(|s'.c| - 1));
    forall regs: Regs, meta: Meta, ev: Outcome | Denotes(Operands(op, rk1, rk2), s.c, s.ks, meta, regs, ev)
      ensures Denotes(m', s'.c, s'.ks, meta, regs, ev)
    {
      var v1, v2 := RK(rk1, regs, s.ks), RK(rk2, regs, s.ks);
      assert ev == Apply(op, v1.v, v2.v, meta);
      if op.ConcatD? {
        assert ConcatRange(regs, rk2, rk2, meta) == v2;
        assert ConcatRange(regs, rk1, rk2, meta) == Concat2(v1.v, v2.v, meta);
      }
    }
  }

  lemma EmitsOpens(s: State, s': State, x: Ctx, m: Main, i: Instr)
    requires Sane(s) && Emits(s, s', i) && IsRelocatable(i) && Tail(m) == 0 && (i.ConcatI? ==> i.b == x.n)
    ensures OpensAt(s, s', x, m, Delayed(VReloc(|s.c|))) && Sane(s')
    ensures |s'.c| == |s.c| + 1 && s'.c[|s.c|] == i && s' == s.(c := s'.c, pend := s'.pend, jpc := s'.jpc, js := s'.js)
  {
    EmitSane(s, s', i);
  }

  lemma TestOpens(s: State, s': State, x: Ctx, m: Main, i: Instr)
    requires Sane(s) && EmitsTest(s, s', i) && i.CompareI? && Tail(m) == 0 && s'.c[|s.c| + 1] == Jmp(NO_JUMP)
    ensures OpensAt(s, s', x, m, Delayed(VJmp(|s.c| + 1))) && Sane(s')
    ensures |s'.c| == |s.c| + 2 && s'.c[|s.c|] == i && s' == s.(c := s'.c, pend := s'.pend, jpc := s'.jpc, js := s'.js)
  {
    TestSane(s, s', i);
  }

  // ---------- operators as the parser applies them ----------

  datatype BinOpr = OprAnd | OprOr | OprBin(dop: Dyadic)

  ghost function Apply2(op: BinOpr, e1: Expr, e2: Expr): Expr {
    match op
    case OprAnd => And(e1, e2)
    case OprOr => Or(e1, e2)
    case OprBin(dop) => Binary(dop, e1, e2)
  }

  function NumeralValue(k: Kind): Value
    requires IsNumeral(k)
  {
    if k.VKInt? then Int(k.ival) else Flt(k.nval)
  }

  ghost function Nodes(e: Expr): (n: nat)
    ensures n > 0
  {
    match e
    case Literal(_) => 1
    case Local(_) => 1
    case Paren(e1) => 1 + Nodes(e1)
    case UnaryE(_, e1) => 1 + Nodes(e1)
    case Binary(_, e1, e2) => 1 + Nodes(e1) + Nodes(e2)
    case And(e1, e2) => 1 + Nodes(e1) + Nodes(e2)
    case Or(e1, e2) => 1 + Nodes(e1) + Nodes(e2)
  }

  /** The first operand after `luaK_infix`, in the state `s` at that point. */
  ghost predicate AfterInfix(op: BinOpr, d: ExpDesc, l: Lists, s: State, x: Ctx, e: Expr, fold: Folder) {
    match op
    case OprAnd => Stands(s, x, WasTrue, Lists([], l.f), e, fold) && Chain(s.c, d.f, l.f) && x.hole == -1 && s.nact <= x.n == s.free
    case OprOr => Stands(s, x, WasFalse, Lists(l.t, []), e, fold) && Chain(s.c, d.t, l.t) && x.hole == -1 && s.nact <= x.n == s.free
    case OprBin(dop) =>
      && Held(s, x, d.k, e, fold)
      && d.t == d.f == NO_JUMP
      && (IsOperand(d.k) || (dop.ArithD? && IsNumeral(d.k)))
      && (dop.ConcatD? ==> d.k == VNonReloc(x.n) && s.free == x.n + 1)
  }

  lemma InParens(s: State, x: Ctx, m: Main, l: Lists, e: Expr, fold: Folder)
    requires Stands(s, x, m, l, e, fold)
    ensures Stands(s, x, m, l, Paren(e), fold)
  {
    hide Sane, Fits, Settles;
    forall st: Start, regs: Regs, meta: Meta | IsStart(x, st) && Admissible(s, x, fold, regs, meta)
      ensures Settles(s, x, m, l, Eval(Paren(e), regs, meta), regs, meta, ExitOf(Body(s.c, m), s.ks, meta, s.pend, x, st, regs))
    {
      assert Settles(s, x, m, l, Eval(e, regs, meta), regs, meta, ExitOf(Body(s.c, m), s.ks, meta, s.pend, x, st, regs));
    }
  }

  lemma AfterInfixParts(op: BinOpr, d: ExpDesc, l: Lists, s: State, x: Ctx, e: Expr, fold: Folder)
    requires AfterInfix(op, d, l, s, x, e, fold)
    ensures Sane(s) && s.nact <= x.n
  {
  }

  lemma ScopedMore(e: Expr, n: int, n': int)
    requires Scoped(e, n) && n <= n'
    ensures Scoped(e, n')
  {
  }

  /** Pending jumps of the first operand are still chained after the second. */
  lemma ChainThrough(s1: State, x2: Ctx, s2: State, m2: Main, l2: Lists, e2: Expr, fold: Folder, head: int, s: seq<nat>)
    requires Sane(s1) && x2 == Context(s1, x2.n, -1) && Stands(s2, x2, m2, l2, e2, fold)
    requires Chain(s1.c, head, s) && forall j :: j in s ==> j in s1.pend && j !in s1.js
    ensures Chain(s2.c, head, s)
  {
    forall j | j in s && j < |s1.c| ensures j < |s2.c| && s2.c[j] == s1.c[j] {
      Untouched(s1, x2, Body(s2.c, m2), s2.pend, j);
    }
    ChainSame(s1.c, s2.c, head, s);
  }

  lemma ListsPending(s: State, x: Ctx, m: Main, l: Lists, e: Expr, fold: Folder)
    requires Stands(s, x, m, l, e, fold)
    ensures forall j :: j in l.t || j in l.f ==> j in s.pend && j !in s.js
    ensures Distinct(l.t) && Distinct(l.f) && (forall j :: j in l.t ==> j !in l.f)
  {
  }

  class FuncState {
    var code: seq<Instr>
    var k: seq<Value>
    var kcache: map<Value, nat>
    var jpc: int
    var lasttarget: int
    var freereg: int
    var nactvar: int
    var maxstacksize: int
    const fold: Folder
    ghost var pend: set<nat>
    ghost var js: seq<nat>

    ghost function S(): State
      reads this
    {
      State(code, k, pend, jpc, js, lasttarget, freereg, nactvar, maxstacksize)
    }

    /** A function whose first `nlocals` registers hold its local variables. */
    constructor (nlocals: nat, fold: Folder)
      requires nlocals < 200
      ensures Sane(S()) && code == [] && k == [] && js == [] && freereg == nactvar == nlocals && this.fold == fold
    {
      code, k, kcache, jpc, lasttarget := [], [], map[], NO_JUMP, 0;
      freereg, nactvar := nlocals, nlocals;
      maxstacksize := if nlocals < 2 then 2 else nlocals;
      this.fold := fold;
      pend, js := {}, [];
    }

    // ---------- jump lists ----------

    method FixJump(pc: nat, dest: nat) returns (r: Result<()>)
      requires pc < |code| && code[pc].Jmp?
      modifies this`code
      ensures r.Ok? ==> code == old(code)[pc := Jmp(dest - (pc + 1))] && Encodable(code[pc])
      ensures r.Fail? ==> code == old(code) && (dest - (pc + 1) > MAXARG_sBx || pc + 1 - dest > MAXARG_sBx)
    {
      var offset := dest - (pc + 1);
      if offset > MAXARG_sBx || -offset > MAXARG_sBx {
        return Fail(JumpTooLong);
      }
      code := code[pc := Jmp(offset)];
      r := Ok(());
    }

    /** `luaK_concat`. */
    method ConcatLists(l1: int, l2: int, ghost s1: seq<nat>, ghost s2: seq<nat>) returns (r: Result<int>)
      requires Chain(code, l1, s1) && Chain(code, l2, s2) && Distinct(s1) && Apart(s1, s2) && AllEncodable(code)
      modifies this`code
      ensures |code| == |old(code)|
      ensures r.Ok? ==> Chain(code, r.value, s1 + s2) && Relinked(old(code), code, Elems(s1)) && AllEncodable(code)
      ensures s1 == [] || s2 == [] ==> code == old(code)
      ensures r.Fail? ==> |code| > MAXARG_sBx
    {
      if l2 == NO_JUMP {
        assert s1 + s2 == s1;
        return Ok(l1);
      } else if l1 == NO_JUMP {
        assert s1 + s2 == s2;
        return Ok(l2);
      }
      var list := l1;
      ghost var i := 0;
      assert LinkAt(code, s1, 0) && LinkAt(code, s2, 0);
      var next := GetJump(code, list);
      while next != NO_JUMP
        invariant 0 <= i < |s1| && list == s1[i] && LinkAt(code, s1, i) && next == GetJump(code, list)
        decreases |s1| - i
      {
        list, i := next, i + 1;
        assert LinkAt(code, s1, i);
        next := GetJump(code, list);
      }
      assert i == |s1| - 1;
      ghost var c0 := code;
      assert list in s1 && l2 in s2;
      var _ :- FixJump(list, l2);
      ConcatChain(c0, code, s1, s2);
      r := Ok(l1);
    }

    static lemma ConcatChain(c: seq<Instr>, c': seq<Instr>, s1: seq<nat>, s2: seq<nat>)
      requires s1 != [] && s2 != [] && Chain(c, s1[0], s1) && Chain(c, s2[0], s2) && Distinct(s1) && Apart(s1, s2) && AllEncodable(c)
      requires s1[|s1| - 1] < |c| && s2[0] != s1[|s1| - 1]
      requires c' == c[s1[|s1| - 1] := Jmp(s2[0] as int - (s1[|s1| - 1] + 1))] && Encodable(c'[s1[|s1| - 1]])
      ensures Chain(c', s1[0], s1 + s2) && Relinked(c, c', Elems(s1)) && AllEncodable(c')
    {
      var n := |s1|;
      var last := s1[n - 1];
      assert last in s1 && LinkAt(c, s1, n - 1);
      forall i | 0 <= i < |s1 + s2| ensures LinkAt(c', s1 + s2, i) {
        if i < n {
          assert LinkAt(c, s1, i);
        } else {
          assert LinkAt(c, s2, i - n) && s2[i - n] in s2;
        }
      }
      forall i | 0 <= i < |c| ensures RelinkedAt(c, c', Elems(s1), i) && EncodableAt(c', i) {
        assert EncodableAt(c, i);
      }
    }
 
    /** `patchtestreg`: the register of the TESTSET that controls the jump at `node`, if there is one. */
    method PatchTestReg(node: nat, reg: int) returns (b: bool)
      requires node < |code| && code[node].Jmp? && AllEncodable(code) && 0 <= reg <= NO_REG
      modifies this`code
      ensures b == TestSetBefore(old(code), node) && |code| == |old(code)| && AllEncodable(code)
      ensures forall i :: 0 <= i < |code| ==>
                code[i] == if b && i == node - 1 then PatchedAt(old(code), {node}, 0, reg, 0, i) else old(code)[i]
    {
      var i := if node >= 1 && IsTest(code[node - 1]) then node - 1 else node;
      if !code[i].TestSet? {
        return false;
      }
      assert EncodableAt(code, i);
      ghost var c0 := code;
      if reg != NO_REG && reg != code[i].b {
        code := code[i := TestSet(reg, code[i].b, code[i].sense)];
      } else {
        code := code[i := Test(code[i].b, code[i].sense)];
      }
      forall j | 0 <= j < |code| ensures EncodableAt(code, j) {
        assert EncodableAt(c0, j);
      }
      return true;
    }

    method RemoveValues(list: int, ghost s: seq<nat>)
      requires Chain(code, list, s) && AllEncodable(code)
      modifies this`code
      ensures Removed(old(code), code, Elems(s), |code|) && AllEncodable(code)
    {
      var l := list;
      ghost var i := 0;
      ghost var done: set<nat> := {};
      while l != NO_JUMP
        invariant 0 <= i <= |s| && l == (if i < |s| then s[i] else NO_JUMP)
        invariant done == Elems(s[..i])
        invariant Removed(old(code), code, done, |code|) && AllEncodable(code)
        decreases |s| - i
      {
        ghost var c0 := code;
        assert LinkAt(old(code), s, i);
        assert IsRemoved(old(code), c0, done, l);
        var _ := PatchTestReg(l, NO_REG);
        assert s[..i + 1] == s[..i] + [s[i]];
        done := done + {l};
        forall k | 0 <= k < |code| ensures IsRemoved(old(code), code, done, k) {
          assert IsRemoved(old(code), c0, done - {l}, k) || l in Elems(s[..i]);
          assert IsRemoved(old(code), c0, Elems(s[..i]), k);
        }
        assert code[l] == old(code)[l];
        l := GetJump(code, l);
        i := i + 1;
      }
      assert s[..i] == s;
    }

    /** `patchlistaux`: tests that have a value go to `vtarget` with the value in `reg`, the others to `dtarget`. */
    method PatchListAux(list: int, vtarget: nat, reg: int, dtarget: int, ghost s: seq<nat>) returns (r: Result<()>)
      requires Chain(code, list, s) && Distinct(s) && AllEncodable(code)
      requires 0 <= reg <= NO_REG && vtarget <= |code| && dtarget <= |code|
      requires forall j :: j in s && j < |code| && !TestSetBefore(code, j) ==> dtarget >= 0
      modifies this`code
      ensures |code| == |old(code)|
      ensures r.Ok? ==> Patched(old(code), code, Elems(s), vtarget, reg, dtarget) && AllEncodable(code)
      ensures r.Fail? ==> |code| > MAXARG_sBx
    {
      var l := list;
      ghost var i := 0;
      assert Elems(s[..0]) == {};
      while l != NO_JUMP
        invariant 0 <= i <= |s| && l == (if i < |s| then s[i] else NO_JUMP) && |code| == |old(code)|
        invariant Patched(old(code), code, Elems(s[..i]), vtarget, reg, dtarget) && AllEncodable(code)
        decreases |s| - i
      {
        ghost var c0 := code;
        assert LinkAt(old(code), s, i) && s[i] !in s[..i];
        PatchedNext(old(code), c0, s, i, vtarget, reg, dtarget);
        var next := GetJump(code, l);
        var valued := PatchTestReg(l, reg);
        assert code[l] == c0[l];
        ghost var c1 := code;
        if valued {
          var _ :- FixJump(l, vtarget);
        } else {
          var _ :- FixJump(l, dtarget);
        }
        PatchedStep(old(code), c0, c1, code, s, i, vtarget, reg, dtarget, valued);
        l := next;
        i := i + 1;
      }
      assert s[..i] == s;
      r := Ok(());
    }

    /** The jump that comes next is still as it was, and so is its control. */
    static lemma PatchedNext(c: seq<Instr>, c0: seq<Instr>, s: seq<nat>, i: nat, vt: int, reg: int, dt: int)
      requires i < |s| && LinkAt(c, s, i) && s[i] !in s[..i] && Patched(c, c0, Elems(s[..i]), vt, reg, dt) && |c| == |c0|
      requires forall k :: 0 <= k < i ==> LinkAt(c, s, k)
      ensures c0[s[i]] == c[s[i]] && TestSetBefore(c0, s[i]) == TestSetBefore(c, s[i])
      ensures s[i] > 0 ==> c0[s[i] - 1] == c[s[i] - 1] || c[s[i] - 1].Jmp?
    {
      assert IsPatched(c, c0, Elems(s[..i]), vt, reg, dt, s[i]);
      if s[i] > 0 {
        assert IsPatched(c, c0, Elems(s[..i]), vt, reg, dt, s[i] - 1);
        if s[i] - 1 in s[..i] {
          var k :| 0 <= k < i && s[k] == s[i] - 1;
          assert LinkAt(c, s, k);
        }
      }
    }

    static lemma PatchedStep(c: seq<Instr>, c0: seq<Instr>, c1: seq<Instr>, c2: seq<Instr>, s: seq<nat>, i: nat,
                             vt: int, reg: int, dt: int, valued: bool)
      requires i < |s| && LinkAt(c, s, i) && s[i] !in s[..i] && Patched(c, c0, Elems(s[..i]), vt, reg, dt)
      requires |c| == |c0| == |c1| == |c2| && AllEncodable(c1)
      requires valued == TestSetBefore(c, s[i]) && (s[i] > 0 ==> c0[s[i] - 1] == c[s[i] - 1] || c[s[i] - 1].Jmp?)
      requires forall k :: 0 <= k < |c| ==>
                 c1[k] == if valued && k == s[i] - 1 then PatchedAt(c0, {s[i]}, 0, reg, 0, k) else c0[k]
      requires c2 == c1[s[i] := Jmp((if valued then vt else dt) - (s[i] + 1))] && Encodable(c2[s[i]])
      ensures Patched(c, c2, Elems(s[..i + 1]), vt, reg, dt) && AllEncodable(c2)
    {
      assert s[..i + 1] == s[..i] + [s[i]];
      var done := Elems(s[..i + 1]);
      forall k | 0 <= k < |c| ensures IsPatched(c, c2, done, vt, reg, dt, k) {
        assert IsPatched(c, c0, Elems(s[..i]), vt, reg, dt, k);
      }
      forall k | 0 <= k < |c| ensures EncodableAt(c2, k) {
        assert EncodableAt(c1, k);
      }
    }

    method DischargeJpc() returns (r: Result<()>)
      requires Chain(code, jpc, js) && Distinct(js) && AllEncodable(code)
      modifies this`code, this`jpc, this`js, this`pend
      ensures |code| == |old(code)|
      ensures r.Ok? ==> Patched(old(code), code, Elems(old(js)), |code|, NO_REG, |code|) && AllEncodable(code)
      ensures r.Ok? ==> jpc == NO_JUMP && js == [] && pend == old(pend) - Elems(old(js))
      ensures r.Fail? ==> |code| > MAXARG_sBx
    {
      var _ :- PatchListAux(jpc, |code|, NO_REG, |code|, js);
      pend := pend - Elems(js);
      jpc, js := NO_JUMP, [];
      r := Ok(());
    }

    // ---------- emitting instructions ----------

    /** `luaK_code`. */
    method Code(i: Instr) returns (r: Result<nat>)
      requires Chain(code, jpc, js) && Distinct(js) && AllEncodable(code) && Encodable(i)
      modifies this`code, this`jpc, this`js, this`pend
      ensures r.Ok? ==> r.value == |old(code)| && Emits(old(S()), S(), i)
      ensures r.Fail? ==> |old(code)| + 1 > MAXARG_sBx
    {
      ghost var s := S();
      var _ :- DischargeJpc();
      if |code| >= MAX_INT {
        return Fail(TooManyOpcodes);
      }
      ghost var c1 := code;
      code := code + [i];
      forall k | 0 <= k < |code| ensures EncodableAt(code, k) && (k < |c1| ==> IsPatched(s.c, code, Elems(s.js), |s.c|, NO_REG, |s.c|, k)) {
        if k < |c1| {
          assert EncodableAt(c1, k) && IsPatched(s.c, c1, Elems(s.js), |s.c|, NO_REG, |s.c|, k);
        }
      }
      r := Ok(|code| - 1);
    }

    /** `luaK_jump`: a jump whose target is not known yet; jumps that were pending to it are put on its list. */
    method JumpOut() returns (r: Result<int>)
      requires Chain(code, jpc, js) && Distinct(js) && AllEncodable(code)
      modifies this`code, this`jpc, this`js, this`pend
      ensures r.Ok? ==> S() == old(S()).(c := code, pend := old(pend) + {|old(code)|}, jpc := NO_JUMP, js := [])
      ensures r.Ok? ==> |code| == |old(code)| + 1 && old(code) <= code && code[|old(code)|].Jmp? && AllEncodable(code)
      ensures r.Ok? ==> Chain(code, r.value, [|old(code)| as nat] + old(js))
      ensures r.Ok? && old(js) == [] ==> r.value == |old(code)| && code[|old(code)|] == Jmp(NO_JUMP)
      ensures r.Fail? ==> |old(code)| + 1 > MAXARG_sBx
    {
      var jpc0 := jpc;
      ghost var js0, c0 := js, code;
      jpc, js := NO_JUMP, [];
      var j :- Code(Jmp(NO_JUMP));
      forall i | 0 <= i < |c0| ensures code[i] == c0[i] {
        assert IsPatched(c0, code, Elems([]), |c0|, NO_REG, |c0|, i);
      }
      pend := pend + {j};
      ChainSame(c0, code, jpc0, js0);
      assert LinkAt(code, [j], 0);
      ChainBound(c0, jpc0, js0);
      ghost var c1 := code;
      r := ConcatLists(j, jpc0, [j], js0);
      if r.Ok? {
        forall i | 0 <= i < |c0| ensures code[i] == c0[i] {
          assert RelinkedAt(c1, code, Elems([j]), i);
        }
        assert RelinkedAt(c1, code, Elems([j]), j);
        assert LinkAt(code, [j] + js0, 0);
      }
    }

    /** `condjump`. */
    method CondJump(i: Instr) returns (r: Result<int>)
      requires Chain(code, jpc, js) && Distinct(js) && AllEncodable(code) && Encodable(i)
      modifies this`code, this`jpc, this`js, this`pend
      ensures r.Ok? ==> r.value == |old(code)| + 1 && EmitsTest(old(S()), S(), i) && Chain(code, r.value, [|old(code)| + 1 as nat])
      ensures r.Ok? ==> code[r.value] == Jmp(NO_JUMP)
      ensures r.Fail? ==> |old(code)| + 2 > MAXARG_sBx
    {
      ghost var s := S();
      var _ :- Code(i);
      ghost var c1 := code;
      r := JumpOut();
      if r.Ok? {
        forall k | 0 <= k < |s.c| ensures IsPatched(s.c, code, Elems(s.js), |s.c|, NO_REG, |s.c|, k) {
          assert IsPatched(s.c, c1, Elems(s.js), |s.c|, NO_REG, |s.c|, k);
        }
        assert [|s.c| + 1 as nat] + [] == [|s.c| + 1 as nat];
      }
    }

    /** `luaK_getlabel`. */
    method GetLabel() returns (pc: nat)
      modifies this`lasttarget
      ensures pc == |code| == lasttarget
    {
      lasttarget := |code|;
      pc := |code|;
    }

    /** `luaK_patchtohere`. */
    method PatchToHere(list: int, ghost s: seq<nat>) returns (r: Result<()>)
      requires Chain(code, jpc, js) && Chain(code, list, s) && Distinct(js) && Apart(js, s) && AllEncodable(code)
      modifies this`code, this`jpc, this`js, this`lasttarget
      ensures |code| == |old(code)|
      ensures r.Ok? ==> js == old(js) + s && lasttarget == |code| && Chain(code, jpc, js)
      ensures r.Ok? ==> Relinked(old(code), code, Elems(old(js))) && AllEncodable(code)
      ensures r.Fail? ==> |code| > MAXARG_sBx
    {
      var _ := GetLabel();
      var l :- ConcatLists(jpc, list, js, s);
      jpc, js := l, js + s;
      r := Ok(());
    }
 
    // ---------- registers and constants ----------

    /** `luaK_checkstack` and `luaK_reserveregs`. */
    method ReserveRegs(n: nat) returns (r: Result<()>)
      requires 0 <= freereg <= maxstacksize < MAXREGS
      modifies this`freereg, this`maxstacksize
      ensures r.Ok? ==> freereg == old(freereg) + n && freereg <= maxstacksize < MAXREGS && old(maxstacksize) <= maxstacksize
      ensures r.Fail? ==> old(freereg) + n >= MAXREGS && freereg == old(freereg) && maxstacksize == old(maxstacksize)
    {
      var newstack := freereg + n;
      if newstack > maxstacksize {
        if newstack >= MAXREGS {
          return Fail(TooManyRegisters);
        }
        maxstacksize := newstack;
      }
      freereg := freereg + n;
      r := Ok(());
    }

    /** `freereg`: a temporary register is freed in stack order. */
    method FreeReg(reg: int)
      requires reg < BITRK && reg >= nactvar ==> reg == freereg - 1
      modifies this`freereg
      ensures freereg == if reg < BITRK && reg >= nactvar then old(freereg) - 1 else old(freereg)
    {
      if reg < BITRK && reg >= nactvar {
        freereg := freereg - 1;
      }
    }

    method FreeExp(kd: Kind)
      requires kd.VNonReloc? && nactvar <= kd.info < BITRK ==> kd.info == freereg - 1
      modifies this`freereg
      ensures freereg == if kd.VNonReloc? && nactvar <= kd.info < BITRK then old(freereg) - 1 else old(freereg)
    {
      if kd.VNonReloc? {
        FreeReg(kd.info);
      }
    }

    ghost predicate IsTemp(kd: Kind)
      reads this`nactvar
    {
      kd.VNonReloc? && nactvar <= kd.info < BITRK
    }

    /** `freeexps`: the operand in the higher register goes first. */
    method FreeExps(k1: Kind, k2: Kind)
      requires 0 <= nactvar
      requires k1.VNonReloc? ==> 0 <= k1.info < BITRK
      requires k2.VNonReloc? ==> 0 <= k2.info < BITRK
      requires IsTemp(k1) && IsTemp(k2) ==>
                 (k1.info == freereg - 1 && k2.info == freereg - 2) || (k2.info == freereg - 1 && k1.info == freereg - 2)
      requires IsTemp(k1) && !IsTemp(k2) ==> k1.info == freereg - 1
      requires IsTemp(k2) && !IsTemp(k1) ==> k2.info == freereg - 1
      modifies this`freereg
      ensures freereg == old(freereg) - (if IsTemp(k1) then 1 else 0) - (if IsTemp(k2) then 1 else 0)
    {
      var r1 := if k1.VNonReloc? then k1.info else -1;
      var r2 := if k2.VNonReloc? then k2.info else -1;
      if r1 > r2 {
        FreeReg(r1);
        FreeReg(r2);
      } else {
        FreeReg(r2);
        FreeReg(r1);
      }
    }

    /** The cache has the index of every constant. */
    ghost predicate AllCached()
      reads `k, `kcache
    {
      forall i :: 0 <= i < |k| ==> k[i] in kcache && kcache[k[i]] == i
    }

    /** The cached index holds the constant. */
    predicate IsCached(v: Value)
      reads `k, `kcache
    {
      v in kcache && kcache[v] < |k| && k[kcache[v]] == v
    }

    /**
      `addk`: a constant is reused exactly if the cached index still holds it; as long as all
      constants are cached, no constant is in the table twice.
     */
    method AddK(v: Value) returns (r: Result<nat>)
      modifies this`k, this`kcache
      ensures old(IsCached(v)) ==> r == Ok(old(kcache[v])) && k == old(k) && kcache == old(kcache)
      ensures !old(IsCached(v)) && r.Ok? ==> r.value == |old(k)| && k == old(k) + [v] && kcache == old(kcache)[v := |old(k)|]
      ensures old(AllCached()) ==> AllCached() && (old(IsCached(v)) <==> v in old(k))
      ensures old(k) <= k && |k| <= |old(k)| + 1
      ensures r.Ok? ==> r.value < |k| && k[r.value] == v
      ensures |old(k)| <= MAXARG_Ax ==> |k| <= MAXARG_Ax
      ensures r.Fail? ==> |old(k)| + 1 > MAXARG_Ax && k == old(k)
    {
      if v in kcache && kcache[v] < |k| && k[kcache[v]] == v {
        return Ok(kcache[v]);
      }
      if |k| >= MAXARG_Ax {
        return Fail(TooManyConstants);
      }
      kcache := kcache[v := |k|];
      k := k + [v];
      r := Ok(|k| - 1);
    }

    /** The constant of a descriptor (`boolK`, `nilK`, `luaK_intK`, `luaK_numberK`, or the one it already has). */
    method ConstantIndex(kd: Kind) returns (r: Result<nat>)
      requires IsConstant(kd) && |k| <= MAXARG_Ax && (kd.VK? ==> 0 <= kd.info < |k|)
      modifies this`k, this`kcache
      ensures old(k) <= k && |k| <= |old(k)| + 1 && |k| <= MAXARG_Ax
      ensures kd.VK? ==> r == Ok(kd.info) && k == old(k)
      ensures r.Ok? ==> r.value < |k| && ConstantOf(kd, k) == Val(k[r.value])
      ensures r.Fail? ==> |old(k)| + 1 > MAXARG_Ax && k == old(k)
    {
      match kd
      case VK(i) => r := Ok(i);
      case VTrue => r := AddK(Bool(true));
      case VFalse => r := AddK(Bool(false));
      case VNil => r := AddK(Nil);
      case VKInt(n) => r := AddK(Int(n));
      case VKFlt(n) => r := AddK(Flt(n));
      case _ => assert false;
    }

    /** `luaK_codek`: a load with a short or a long constant index. */
    method CodeK(reg: int, idx: nat) returns (r: Result<()>)
      requires Sane(S()) && 0 <= reg <= MAXARG_A && idx <= MAXARG_Ax
      modifies this`code, this`jpc, this`js, this`pend
      ensures r.Ok? ==> Sane(S()) && Continues(old(S()), code, pend) && S() == old(S()).(c := code, pend := pend, jpc := NO_JUMP, js := [])
      ensures r.Ok? ==> pend == old(pend) - Elems(old(js)) && |old(code)| < |code| <= |old(code)| + 2
      ensures r.Ok? ==> code[|old(code)|..] == if idx <= MAXARG_Bx then [LoadK(reg, idx)] else [LoadKX(reg), ExtraArg(idx)]
      ensures r.Fail? ==> |old(code)| + 2 > MAXARG_sBx
    {
      ghost var s := S();
      if idx <= MAXARG_Bx {
        var _ :- Code(LoadK(reg, idx));
        EmitSane(s, S(), LoadK(reg, idx));
      } else {
        var _ :- Code(LoadKX(reg));
        EmitSane(s, S(), LoadKX(reg));
        ghost var s1 := S();
        var _ :- Code(ExtraArg(idx));
        EmitSane(s1, S(), ExtraArg(idx));
        EmitTwice(s, s1, S(), LoadKX(reg), ExtraArg(idx));
      }
      r := Ok(());
    }

    // ---------- nil ----------

    /** `luaK_nil`: nil in registers `from` to `from + n - 1`, by widening a load that comes just before if nothing jumps here. */
    method CodeNil(from: int, n: nat) returns (r: Result<()>)
      requires Sane(S()) && 0 <= from && 0 < n && from + n - 1 <= MAXARG_A
      modifies this`code, this`jpc, this`js, this`pend
      ensures r.Ok? ==> Emits(old(S()), S(), LoadNil(from, n - 1))
                        || (Mergeable(old(S())) && S() == old(S()).(c := code) && |code| == |old(code)| && AllEncodable(code)
                            && (forall i :: 0 <= i < |code| - 1 ==> code[i] == old(code)[i])
                            && WidensBy(old(code)[|code| - 1], code[|code| - 1], from, n))
      ensures r.Fail? ==> |old(code)| + 1 > MAXARG_sBx
    {
      ghost var s := S();
      var from', l := from, from + n - 1;
      if |code| > lasttarget {
        var previous := code[|code| - 1];
        if previous.LoadNil? {
          assert EncodableAt(code, |code| - 1);
          var pfrom := previous.a;
          var pl := pfrom + previous.b;
          if (pfrom <= from <= pl + 1) || (from <= pfrom <= l + 1) {
            if pfrom < from' { from' := pfrom; }
            if pl > l { l := pl; }
            code := code[|code| - 1 := LoadNil(from', l - from')];
            forall i | 0 <= i < |code| ensures EncodableAt(code, i) {
              assert EncodableAt(s.c, i);
            }
            return Ok(());
          }
        }
      }
      var _ :- Code(LoadNil(from, n - 1));
      r := Ok(());
    }
 
    // ---------- values into registers ----------

    /** Descriptor `d` with lists `l` stands for `e`, its lists are chained, and its registers are in order. */
    ghost predicate Valid(d: ExpDesc, l: Lists, x: Ctx, e: Expr)
      reads this
    {
      && Stands(S(), x, Delayed(d.k), l, e, fold)
      && Chains(S(), d.t, d.f, l)
      && RegsOk(S(), x, Delayed(d.k))
      && x.hole == -1
    }

    /** `luaK_dischargevars`: a local variable is a value in a register. */
    function DischargeVars(d: ExpDesc): ExpDesc {
      if d.k.VLocal? then d.(k := VNonReloc(d.k.info)) else d
    }

    lemma DischargeVarsStands(d: ExpDesc, l: Lists, x: Ctx, e: Expr)
      requires Stands(S(), x, Delayed(d.k), l, e, fold)
      ensures Stands(S(), x, Delayed(DischargeVars(d).k), l, e, fold)
      ensures Valid(d, l, x, e) ==> Valid(DischargeVars(d), l, x, e)
    {
      if d.k.VLocal? {
        Reread(S(), x, Delayed(d.k), Delayed(VNonReloc(d.k.info)), l, e, e, fold);
      }
    }

    /** The registers a descriptor reads are within the frame. */
    ghost predicate InFrame(kd: Kind)
      reads this
    {
      kd.VNonReloc? || kd.VLocal? ==> 0 <= kd.info < maxstacksize
    }

    /** The constant kinds of `discharge2reg`. */
    method LoadConstant(d: ExpDesc, reg: int, ghost l: Lists, ghost x: Ctx, ghost e: Expr) returns (r: Result<()>)
      requires Stands(S(), x, Delayed(d.k), l, e, fold) && Chains(S(), d.t, d.f, l)
      requires 0 <= reg < maxstacksize && IsConstant(d.k) && x.hole in {-1, reg}
      modifies this`code, this`jpc, this`js, this`pend, this`k, this`kcache
      ensures r.Ok? ==> Grew(old(S()), S(), 2, 1)
      ensures r.Ok? ==> Discharged(S(), x, d, l, e, fold, reg)
      ensures r.Fail? ==> Exhausted(old(S()), 2, 1, 0)
    {
      hide Stands, Sane, Fits, Chain, Chains, Discharged, AllEncodable, Emits, WidensBy, Linked, Distinct, Settles;
      ghost var s := S();
      StandsParts(s, x, Delayed(d.k), l, e, fold);
      SaneParts(s);
      OpenKind(s, x, d.k, l);
      if d.k.VNil? {
        var _ :- CodeNil(reg, 1);
        DischargeNil(s, S(), x, d, l, e, fold, reg);
      } else if d.k.VFalse? || d.k.VTrue? {
        var _ :- Code(LoadBool(reg, d.k.VTrue?, false));
        DischargeOne(s, S(), x, d, l, e, fold, reg, LoadBool(reg, d.k.VTrue?, false));
      } else {
        r := LoadFromK(d, reg, l, x, e);
        return;
      }
      r := Ok(());
    }

    /** The constant goes into the table, if it is not there. */
    method LoadFromK(d: ExpDesc, reg: int, ghost l: Lists, ghost x: Ctx, ghost e: Expr) returns (r: Result<()>)
      requires Stands(S(), x, Delayed(d.k), l, e, fold) && Chains(S(), d.t, d.f, l)
      requires 0 <= reg < maxstacksize && IsConstant(d.k) && !d.k.VNil? && !d.k.VFalse? && !d.k.VTrue? && x.hole in {-1, reg}
      modifies this`code, this`jpc, this`js, this`pend, this`k, this`kcache
      ensures r.Ok? ==> Grew(old(S()), S(), 2, 1)
      ensures r.Ok? ==> Discharged(S(), x, d, l, e, fold, reg)
      ensures r.Fail? ==> Exhausted(old(S()), 2, 1, 0)
    {
      hide Stands, Sane, Fits, Chain, Chains, Discharged, AllEncodable, Emits, WidensBy, Linked, Distinct, Settles;
      ghost var s := S();
      StandsParts(s, x, Delayed(d.k), l, e, fold);
      SaneParts(s);
      OpenKind(s, x, d.k, l);
      var i :- ConstantIndex(d.k);
      var _ :- CodeK(reg, i);
      DischargeK(s, S(), x, d, l, e, fold, reg, i);
      r := Ok(());
    }

    /** `discharge2reg`. A comparison has no value to put anywhere yet. */
    method Discharge2Reg(d0: ExpDesc, reg: int, ghost l: Lists, ghost x: Ctx, ghost e: Expr) returns (r: Result<ExpDesc>)
      requires Stands(S(), x, Delayed(d0.k), l, e, fold) && Chains(S(), d0.t, d0.f, l)
      requires 0 <= reg < maxstacksize && InFrame(d0.k) && x.hole in {-1, reg}
      modifies this`code, this`jpc, this`js, this`pend, this`k, this`kcache
      ensures r.Ok? ==> Grew(old(S()), S(), 2, 1)
      ensures r.Ok? && d0.k.VJmp? ==> S() == old(S()) && r.value == d0
      ensures r.Ok? && !d0.k.VJmp? ==> r.value == d0.(k := VNonReloc(reg)) && Discharged(S(), x, d0, l, e, fold, reg)
      ensures r.Fail? ==> Exhausted(old(S()), 2, 1, 0)
    {
      hide Stands, Sane, Fits, Chain, Chains, Discharged, AllEncodable, Emits;
      ghost var s := S();
      var d := DischargeVars(d0);
      DischargeVarsStands(d0, l, x, e);
      StandsParts(s, x, Delayed(d.k), l, e, fold);
      SaneParts(s);
      OpenKind(s, x, d.k, l);
      if IsConstant(d.k) {
        var _ :- LoadConstant(d, reg, l, x, e);
      } else if d.k.VReloc? {
        code := code[d.k.info := Retarget(code[d.k.info], reg)];
        DischargeReloc(s, S(), x, d, l, e, fold, reg);
      } else if d.k.VNonReloc? {
        if reg != d.k.info {
          var _ :- Code(Move(reg, d.k.info));
          DischargeOne(s, S(), x, d, l, e, fold, reg, Move(reg, d.k.info));
        } else {
          DischargeHoled(s, x, d, l, e, fold, reg);
        }
      } else {
        return Ok(d);
      }
      DischargedFor(S(), x, d, d0, l, e, fold, reg);
      r := Ok(d.(k := VNonReloc(reg)));
    }

    /** `discharge2anyreg`. */
    method Discharge2AnyReg(d: ExpDesc, ghost l: Lists, ghost x: Ctx, ghost e: Expr) returns (r: Result<ExpDesc>)
      requires Valid(d, l, x, e) && !d.k.VJmp? && !d.k.VLocal?
      modifies this
      ensures r.Ok? ==> Valid(r.value, l, x, e) && r.value.k.VNonReloc? && r.value.t == d.t && r.value.f == d.f
      ensures r.Ok? ==> Grew(old(S()), S(), 2, 1)
      ensures r.Fail? ==> Exhausted(old(S()), 2, 1, 1)
    {
      if d.k.VNonReloc? {
        return Ok(d);
      }
      ghost var s := S();
      var _ :- ReserveRegs(1);
      Roomier(s, S(), x, Delayed(d.k), l, e, fold);
      r := Discharge2Reg(d, freereg - 1, l, x, e);
    }

    // ---------- results in one place ----------

    method CodeLoadBool(a: int, b: bool, jump: bool) returns (r: Result<nat>)
      requires Chain(code, jpc, js) && Distinct(js) && AllEncodable(code) && 0 <= a <= MAXARG_A
      modifies this`code, this`jpc, this`js, this`pend, this`lasttarget
      ensures lasttarget == |old(code)|
      ensures r.Ok? ==> r.value == |old(code)| && Emits(old(S()).(lt := |old(code)|), S(), LoadBool(a, b, jump))
      ensures r.Fail? ==> |old(code)| + 1 > MAXARG_sBx
    {
      var _ := GetLabel();
      r := Code(LoadBool(a, b, jump));
    }

    /** `need_value`. */
    method NeedValue(list: int, ghost s: seq<nat>) returns (b: bool)
      requires Chain(code, list, s)
      ensures b <==> Needs(code, s)
    {
      var l := list;
      ghost var i := 0;
      while l != NO_JUMP
        invariant 0 <= i <= |s| && l == (if i < |s| then s[i] else NO_JUMP)
        invariant forall q :: 0 <= q < i ==> s[q] < |code| && TestSetBefore(code, s[q])
        decreases |s| - i
      {
        assert LinkAt(code, s, i);
        var c := if l >= 1 && IsTest(code[l - 1]) then l - 1 else l;
        if !code[c].TestSet? {
          assert s[i] in s;
          return true;
        }
        l := GetJump(code, l);
        i := i + 1;
      }
      return false;
    }
 
    /** `exp2reg`: the value of the expression, also along its jumps, in register `reg`. */
    method Exp2Reg(d: ExpDesc, reg: int, ghost l: Lists, ghost x: Ctx, ghost e: Expr) returns (r: Result<ExpDesc>)
      requires Stands(S(), x, Delayed(d.k), l, e, fold) && Chains(S(), d.t, d.f, l)
      requires 0 <= reg < maxstacksize && InFrame(d.k) && x.hole == -1
      modifies this`code, this`jpc, this`js, this`pend, this`k, this`kcache, this`lasttarget
      ensures r.Ok? ==> Grew(old(S()), S(), 5, 1)
      ensures r.Ok? ==> r.value == ExpDesc(VNonReloc(reg), NO_JUMP, NO_JUMP)
      ensures r.Ok? ==> Stands(S(), Holed(x, reg), Delayed(VNonReloc(reg)), Lists([], []), e, fold)
      ensures r.Fail? ==> Exhausted(old(S()), 5, 1, 0)
    {
      hide Stands, Holed, Chain, Chains, Discharged, Fits, Sane, AllEncodable;
      StandsParts(S(), x, Delayed(d.k), l, e, fold);
      OpenKind(S(), x, d.k, l);
      var d1 :- Discharge2Reg(d, reg, l, x, e);
      var t := d1.t;
      DischargedParts(S(), x, d, l, e, fold, reg);
      ghost var m, l1, x1 := Delayed(VNonReloc(reg)), l, Holed(x, reg);
      if d1.k.VJmp? {
        t :- JoinOwnJump(d1, l, x, e);
        m, l1, x1 := JustFalse, AddTo(l, true, d1.k.info), x;
      }
      assert x1.hole in {-1, reg} && Holed(x1, reg) == Holed(x, reg) by { HoledTwice(x, reg); }
      NoLists(S(), x1, m, l1, t, d1.f, e, fold);
      if t != d1.f {
        var _ :- FinishJumps(t, d1.f, d1.k.VJmp?, reg, m, l1, x1, e);
      }
      r := Ok(ExpDesc(VNonReloc(reg), NO_JUMP, NO_JUMP));
    }

    static lemma HoledTwice(x: Ctx, reg: int)
      requires x.hole == -1
      ensures Holed(x, reg).hole in {-1, reg} && Holed(Holed(x, reg), reg) == Holed(x, reg)
    {
    }

    /** A comparison's own jump goes to the list of true exits. */
    method JoinOwnJump(d: ExpDesc, ghost l: Lists, ghost x: Ctx, ghost e: Expr) returns (r: Result<int>)
      requires Stands(S(), x, Delayed(d.k), l, e, fold) && Chains(S(), d.t, d.f, l) && d.k.VJmp?
      modifies this`code
      ensures r.Ok? ==> Stands(S(), x, JustFalse, AddTo(l, true, d.k.info), e, fold) && |code| == |old(code)| && js == []
      ensures r.Ok? ==> Chain(code, r.value, l.t + [d.k.info]) && Chain(code, d.f, l.f)
      ensures r.Ok? ==> Needs(code, l.t + [d.k.info])
      ensures r.Fail? ==> |old(code)| > MAXARG_sBx
    {
      ghost var s := S();
      ghost var l1 := AddTo(l, true, d.k.info);
      CloseComparison(s, s, x, d.k, l, e, fold, true);
      assert LinkAt(code, [d.k.info as nat], 0);
      r := ConcatLists(d.t, d.k.info, l.t, [d.k.info]);
      if r.Ok? {
        RelinkOwn(s, S(), x, JustFalse, l1, e, fold, l.t, d.f, l.f);
        assert RelinkedAt(s.c, code, Elems(l.t), d.k.info - 1);
        assert d.k.info in l1.t && !TestSetBefore(code, d.k.info);
      }
    }

    /** The loads that `exp2reg` puts at the end for jumps without a value. */
    method LoadBoolsIfNeeded(t: int, f: int, jmp: bool, reg: int, ghost l: Lists) returns (r: Result<(bool, int, int)>)
      requires Chain(code, t, l.t) && Chain(code, f, l.f) && Chain(code, jpc, js) && AllEncodable(code) && Linked(S())
      requires 0 <= reg < NO_REG && (jmp ==> js == [] && Needs(code, l.t))
      modifies this`code, this`jpc, this`js, this`pend, this`lasttarget
      ensures r.Ok? ==> LoadsBools(old(S()), code, reg, r.value.0, !jmp)
      ensures r.Ok? ==> r.value.0 == (Needs(old(code), l.t) || Needs(old(code), l.f))
      ensures r.Ok? ==> if r.value.0 then r.value.1 == |code| - 2 && r.value.2 == |code| - 1 else r.value.1 == r.value.2 == NO_JUMP
      ensures r.Ok? ==> r.value.0 && !jmp ==> js == [|old(code)|] + old(js) && pend == old(pend) + {|old(code)|}
      ensures r.Ok? ==> !r.value.0 || jmp ==> js == old(js) && pend == old(pend)
      ensures r.Ok? ==> Chain(code, jpc, js) && AllEncodable(code) && Chain(code, t, l.t) && Chain(code, f, l.f)
      ensures r.Ok? ==> Needs(code, l.t) == Needs(old(code), l.t) && Needs(code, l.f) == Needs(old(code), l.f)
      ensures r.Fail? ==> |old(code)| + 3 > MAXARG_sBx
    {
      hide Chain, Linked, AllEncodable, Needs;
      ghost var s := S();
      var needT := NeedValue(t, l.t);
      var needF := NeedValue(f, l.f);
      if !needT && !needF {
        return Ok((false, NO_JUMP, NO_JUMP));
      }
      var p :- CodeLoadBools(jmp, reg);
      ChainsExtend(s, code, t, f, l);
      r := Ok((true, p.0, p.1));
    }

    /** The part of `exp2reg` for expressions with jumps: loads for jumps without a value, and patching. */
    method FinishJumps(t: int, f: int, jmp: bool, reg: int, ghost m: Main, ghost l: Lists, ghost x: Ctx, ghost e: Expr)
      returns (r: Result<()>)
      requires Stands(S(), x, m, l, e, fold) && Chain(code, t, l.t) && Chain(code, f, l.f)
      requires 0 <= reg < maxstacksize && x.hole in {-1, reg}
      requires if jmp then m == JustFalse && js == [] && Needs(code, l.t)
               else m == Delayed(VNonReloc(reg))
      modifies this`code, this`jpc, this`js, this`pend, this`lasttarget
      ensures r.Ok? ==> Stands(S(), Holed(x, reg), Delayed(VNonReloc(reg)), Lists([], []), e, fold)
      ensures r.Ok? ==> Grew(old(S()), S(), 3, 0)
      ensures r.Fail? ==> |old(code)| + 3 > MAXARG_sBx
    {
      hide Stands, Sane, Fits, Chain, Chains, Linked, AllEncodable, Patched, Finishes, Needs, Elems, Distinct, Holed, Rep, LoadsBools;
      ghost var s := S();
      StandsParts(s, x, m, l, e, fold);
      SaneParts(s);
      var p :- LoadBoolsIfNeeded(t, f, jmp, reg, l);
      var (need, pf, pt) := p;
      ghost var c1 := code;
      BoolsLength(s, c1, reg, need, !jmp);
      var final := GetLabel();
      ListsApart(s, x, m, l);
      ghost var c2: seq<Instr>;
      r, c2 := PatchBoth(t, f, final, reg, need, pf, pt, l);
      if r.Ok? {
        pend := pend - Elems(l.t) - Elems(l.f);
        FinishesNow(s, S(), m, l, reg, need, c1, c2);
        Finish(s, S(), x, m, l, e, fold, reg, need, c1, c2);
      }
    }

    /** The two calls of `patchlistaux` in `exp2reg`. */
    method PatchBoth(t: int, f: int, final: nat, reg: int, need: bool, pf: int, pt: int, ghost l: Lists)
      returns (r: Result<()>, ghost c2: seq<Instr>)
      requires Chain(code, t, l.t) && Chain(code, f, l.f) && Chain(code, jpc, js) && AllEncodable(code)
      requires Distinct(l.t) && Distinct(l.f) && (forall j :: j in l.t ==> j !in Elems(l.f) && j !in js) && (forall j :: j in l.f ==> j !in js)
      requires final == |code| && 0 <= reg < NO_REG
      requires if need then pf == |code| - 2 >= 0 && pt == |code| - 1
               else pf == pt == NO_JUMP && !Needs(code, l.t) && !Needs(code, l.f)
      modifies this`code
      ensures r.Ok? ==> Patched(old(code), c2, Elems(l.f), final, reg, final - 2) && |c2| == final
      ensures r.Ok? ==> Patched(c2, code, Elems(l.t), final, reg, final - 1) && |code| == final
      ensures r.Ok? ==> Chain(code, jpc, js) && AllEncodable(code)
      ensures r.Fail? ==> |old(code)| > MAXARG_sBx
    {
      ghost var c1 := code;
      c2 := code;
      ChainBound(c1, t, l.t);
      ChainBound(c1, f, l.f);
      r := PatchListAux(f, final, reg, pf, l.f);
      if r.Fail? {
        return;
      }
      c2 := code;
      ChainPatched(c1, c2, Elems(l.f), final, reg, pf, t, l.t);
      ControlsKept(c1, c2, l, final, reg, pf);
      r := PatchListAux(t, final, reg, pt, l.t);
      if r.Ok? {
        ChainPatchedTwice(c1, c2, code, l, final, reg, pf, pt, jpc, js);
        AnyTarget(c1, c2, Elems(l.f), final, reg, pf, final - 2);
        AnyTarget(c2, code, Elems(l.t), final, reg, pt, final - 1);
      }
    }

    /** The loads of false and true in `exp2reg`, with a jump over them unless the expression is a comparison. */
    method CodeLoadBools(jmp: bool, reg: int) returns (r: Result<(int, int)>)
      requires Linked(S()) && 0 <= reg < NO_REG && (jmp ==> js == [])
      modifies this`code, this`jpc, this`js, this`pend, this`lasttarget
      ensures r.Ok? ==> LoadsBools(old(S()), code, reg, true, !jmp) && r.value == (|code| - 2, |code| - 1)
      ensures r.Ok? ==> Chain(code, jpc, js) && js == if jmp then [] else [|old(code)|] + old(js)
      ensures r.Ok? ==> pend == old(pend) + if jmp then {} else {|old(code)|}
      ensures r.Ok? ==> AllEncodable(code)
      ensures r.Fail? ==> |old(code)| + 3 > MAXARG_sBx
    {
      ghost var s := S();
      var fj := NO_JUMP;
      ghost var fjs: seq<nat> := [];
      if !jmp {
        fj :- JumpOut();
        fjs := [|s.c|] + s.js;
      }
      ghost var s1 := S();
      var pf :- CodeLoadBool(reg, false, true);
      EmitsNext(s1, S(), LoadBool(reg, false, true));
      ghost var s2 := S();
      var pt :- CodeLoadBool(reg, true, false);
      EmitsNext(s2, S(), LoadBool(reg, true, false));
      ChainSame(s1.c, code, fj, fjs);
      ghost var c3 := code;
      var _ :- PatchToHere(fj, fjs);
      SameWhenNothingRelinked(c3, code);
      assert [] + fjs == fjs;
      r := Ok((pf, pt));
    }
 
    /** `luaK_exp2nextreg`. */
    method Exp2NextReg(d: ExpDesc, ghost l: Lists, ghost x: Ctx, ghost e: Expr) returns (r: Result<ExpDesc>)
      requires Valid(d, l, x, e)
      modifies this
      ensures r.Ok? ==> r.value == ExpDesc(VNonReloc(x.n), NO_JUMP, NO_JUMP) && freereg == x.n + 1
      ensures r.Ok? ==> Valid(r.value, Lists([], []), x, e) && Grew(old(S()), S(), 5, 1)
      ensures r.Fail? ==> Exhausted(old(S()), 5, 1, 1)
    {
      hide Stands, Chains, Chain, Sane, Fits;
      ghost var s := S();
      DischargeVarsStands(d, l, x, e);
      RegsInFrame(d, l, x, e);
      var d1 := DischargeVars(d);
      FreeExp(d1.k);
      var _ :- ReserveRegs(1);
      Roomier(s, S(), x, Delayed(d1.k), l, e, fold);
      SameChains(s, S(), d1, l);
      r := Exp2Reg(d1, freereg - 1, l, x, e);
      NoChains(S());
    }

    /** The registers of a valid descriptor. */
    lemma RegsInFrame(d: ExpDesc, l: Lists, x: Ctx, e: Expr)
      requires Valid(d, l, x, e)
      ensures InFrame(d.k) && 0 <= nactvar <= x.n <= freereg <= x.n + 1 && freereg <= maxstacksize < MAXREGS
      ensures d.k.VNonReloc? && nactvar <= d.k.info ==> d.k.info == x.n == freereg - 1
      ensures !d.k.VNonReloc? || d.k.info < nactvar ==> freereg == x.n
    {
    }
 
    /** An operand that is already where an instruction can use it. */
    ghost predicate IsInPlace(d: ExpDesc)
      reads this
    {
      !HasJumps(d) && IsOperand(d.k) && (d.k.VK? ==> d.k.info < |k| <= MAXARG_Ax)
    }

    /** `luaK_exp2anyreg`. */
    method Exp2AnyReg(d: ExpDesc, ghost l: Lists, ghost x: Ctx, ghost e: Expr) returns (r: Result<ExpDesc>)
      requires (d.k.VNonReloc? && !HasJumps(d)) || Valid(d, l, x, e)
      modifies this
      ensures r.Ok? ==> r.value.k.VNonReloc? && !HasJumps(r.value)
      ensures d.k.VNonReloc? && !HasJumps(d) ==> r == Ok(d) && S() == old(S())
      ensures r.Ok? && old(Valid(d, l, x, e)) ==> Valid(r.value, Lists([], []), x, e) && Grew(old(S()), S(), 5, 1)
      ensures r.Fail? ==> Exhausted(old(S()), 5, 1, 1)
    {
      hide Stands, Chains, Chain, Sane, Fits;
      ghost var s := S();
      var d1 := DischargeVars(d);
      if Valid(d, l, x, e) {
        DischargeVarsStands(d, l, x, e);
        NoJumpsNoLists(d1, l, x, e);
        RegsInFrame(d1, l, x, e);
      }
      if d1.k.VNonReloc? {
        if !HasJumps(d1) {
          return Ok(d1);
        }
        if d1.k.info >= nactvar {
          var d2 :- Exp2Reg(d1, d1.k.info, l, x, e);
          NoChains(S());
          return Ok(d2);
        }
      }
      r := Exp2NextReg(d1, l, x, e);
    }

    lemma NoJumpsNoLists(d: ExpDesc, l: Lists, x: Ctx, e: Expr)
      requires Valid(d, l, x, e)
      ensures !HasJumps(d) ==> l == Lists([], [])
    {
      NoLists(S(), x, Delayed(d.k), l, d.t, d.f, e, fold);
    }

    /** `luaK_exp2val`. */
    method Exp2Val(d: ExpDesc, ghost l: Lists, ghost x: Ctx, ghost e: Expr) returns (r: Result<ExpDesc>)
      requires IsInPlace(d) || Valid(d, l, x, e)
      modifies this
      ensures r.Ok? ==> !HasJumps(r.value) && !r.value.k.VLocal?
      ensures r.Ok? && !HasJumps(d) ==> r.value == DischargeVars(d) && S() == old(S())
      ensures r.Ok? && HasJumps(d) ==> r.value.k.VNonReloc?
      ensures r.Ok? && old(Valid(d, l, x, e)) ==> Valid(r.value, Lists([], []), x, e) && Grew(old(S()), S(), 5, 1)
      ensures r.Fail? ==> Exhausted(old(S()), 5, 1, 1)
    {
      hide Stands, Chains, Chain, Sane, Fits;
      if HasJumps(d) {
        r := Exp2AnyReg(d, l, x, e);
      } else {
        if Valid(d, l, x, e) {
          DischargeVarsStands(d, l, x, e);
          NoJumpsNoLists(d, l, x, e);
        }
        r := Ok(DischargeVars(d));
      }
    }

    /** `luaK_exp2RK`: the expression as an operand, and its RK form. */
    method Exp2RK(d: ExpDesc, ghost l: Lists, ghost x: Ctx, ghost e: Expr) returns (r: Result<(ExpDesc, int)>)
      requires IsInPlace(d) || Valid(d, l, x, e)
      modifies this
      ensures r.Ok? ==> IsInPlace(r.value.0) && r.value.1 == OperandRK(r.value.0.k)
      ensures r.Ok? && old(IsInPlace(d)) ==> r.value.0 == d && S() == old(S())
      ensures r.Ok? && old(Valid(d, l, x, e)) ==> Valid(r.value.0, Lists([], []), x, e) && Grew(old(S()), S(), 5, 2)
      ensures r.Fail? ==> Exhausted(old(S()), 5, 2, 1)
    {
      hide Stands, Chains, Chain, Sane, Fits, RegsOk;
      ghost var valid := Valid(d, l, x, e);
      var d1 :- Exp2Val(d, l, x, e);
      if valid {
        ConstantsInFrame(d1, Lists([], []), x, e);
      }
      var d2 := d1;
      if IsConstant(d1.k) {
        d2 :- ConstantToK(d1, x, e);
        if d2.k.info <= MAXINDEXRK {
          return Ok((d2, d2.k.info + BITRK));
        }
      }
      var d3 :- Exp2AnyReg(d2, Lists([], []), x, e);
      if valid {
        RegsInFrame(d3, Lists([], []), x, e);
      }
      r := Ok((d3, d3.k.info));
    }

    /** The part of `luaK_exp2RK` that moves a constant to the constant table. */
    method ConstantToK(d: ExpDesc, ghost x: Ctx, ghost e: Expr) returns (r: Result<ExpDesc>)
      requires IsConstant(d.k) && !HasJumps(d) && |k| <= MAXARG_Ax && (d.k.VK? ==> 0 <= d.k.info < |k|)
      modifies this`k, this`kcache
      ensures r.Ok? ==> r.value.k.VK? && r.value == d.(k := r.value.k) && 0 <= r.value.k.info < |k| <= MAXARG_Ax
      ensures d.k.VK? ==> r == Ok(d) && S() == old(S())
      ensures r.Ok? && old(Valid(d, Lists([], []), x, e)) ==> Valid(r.value, Lists([], []), x, e)
      ensures old(k) <= k && |k| <= |old(k)| + 1
      ensures r.Fail? ==> |old(k)| + 1 > MAXARG_Ax
    {
      hide Stands, Chains, Chain, Sane, Fits;
      ghost var s := S();
      var i :- ConstantIndex(d.k);
      if old(Valid(d, Lists([], []), x, e)) {
        ToConstantIndex(s, S(), x, d.k, Lists([], []), e, fold, i);
        SameChains(s, S(), d, Lists([], []));
      }
      r := Ok(d.(k := VK(i)));
    }

    lemma ConstantsInFrame(d: ExpDesc, l: Lists, x: Ctx, e: Expr)
      requires Valid(d, l, x, e)
      ensures |k| <= MAXARG_Ax && (d.k.VK? ==> 0 <= d.k.info < |k|)
    {
    }
 
    /** `freeexp` of a value that the next instruction reads. */
    method FreeOperand(d: ExpDesc, ghost l: Lists, ghost x: Ctx, ghost e: Expr)
      requires Valid(d, l, x, e) && d.k.VNonReloc?
      modifies this`freereg
      ensures Stands(S(), x, Delayed(d.k), l, e, fold) && Chains(S(), d.t, d.f, l) && Sane(S()) && Fits(S(), x, Delayed(d.k), l)
      ensures freereg == x.n && 0 <= nactvar <= x.n <= maxstacksize < MAXREGS && 0 <= d.k.info < maxstacksize
      ensures Chain(code, jpc, js) && Distinct(js) && AllEncodable(code)
    {
      hide Stands, Chains, Chain, Sane, Fits, AllEncodable;
      ghost var s := S();
      RegsInFrame(d, l, x, e);
      FreeExp(d.k);
      Roomier(s, S(), x, Delayed(d.k), l, e, fold);
      SameChains(s, S(), d, l);
      StandsParts(S(), x, Delayed(d.k), l, e, fold);
      SaneParts(S());
    }

    // ---------- conditions ----------

    /** `jumponcond`: a jump for when the value is `cond`; a `not` just emitted is taken back. */
    method JumpOnCond(d: ExpDesc, cond: bool, ghost l: Lists, ghost x: Ctx, ghost e: Expr) returns (r: Result<nat>)
      requires Valid(d, l, x, e) && !d.k.VJmp? && !d.k.VLocal?
      modifies this
      ensures r.Ok? ==> r.value == |code| - 1 && Chain(code, r.value, [r.value]) && freereg == x.n
      ensures r.Ok? ==> Stands(S(), x, Past(cond), AddTo(l, cond, r.value), e, fold) && Chains(S(), d.t, d.f, l)
      ensures r.Ok? ==> Grew(old(S()), S(), 4, 1)
      ensures r.Fail? ==> Exhausted(old(S()), 4, 1, 1)
    {
      hide Stands, Chains, Chain, Sane, Fits, EmitsTest, TestsFor, AllEncodable;
      ghost var s := S();
      StandsParts(s, x, Delayed(d.k), l, e, fold);
      SaneParts(s);
      OpenKind(s, x, d.k, l);
      if d.k.VReloc? {
        var ie := code[d.k.info];
        if ie.UnaryI? && ie.uop == Not {
          r := JumpOnNot(d, cond, l, x, e);
          return;
        }
      }
      var d1 :- Discharge2AnyReg(d, l, x, e);
      FreeOperand(d1, l, x, e);
      r := EmitJumpOn(TestSet(NO_REG, d1.k.info, cond), cond, Delayed(d1.k), d1.t, d1.f, l, x, e);
    }

    /** The case of `jumponcond` that removes the previous OP_NOT. */
    method JumpOnNot(d: ExpDesc, cond: bool, ghost l: Lists, ghost x: Ctx, ghost e: Expr) returns (r: Result<nat>)
      requires Valid(d, l, x, e) && d.k.VReloc? && d.k.info == |code| - 1 >= 0 && code[d.k.info].UnaryI? && code[d.k.info].uop == Not
      modifies this`code, this`jpc, this`js, this`pend
      ensures r.Ok? ==> r.value == |code| - 1 == |old(code)| && Chain(code, r.value, [r.value])
      ensures r.Ok? ==> Stands(S(), x, Past(cond), AddTo(l, cond, r.value), e, fold) && Chains(S(), d.t, d.f, l)
      ensures r.Fail? ==> |old(code)| + 1 > MAXARG_sBx
    {
      hide Stands, Chains, Chain, Sane, Fits, AllEncodable;
      ghost var s := S();
      StandsParts(s, x, Delayed(d.k), l, e, fold);
      SaneParts(s);
      var b := code[d.k.info].b;
      code := code[..|code| - 1];
      DropNot(s, S(), x, d.k, l, e, fold);
      ChainsCut(s, S(), x, d.k, l, d.t, d.f);
      EncodableUnary(s.c, d.k.info);
      r := EmitJumpOn(Test(b, !cond), cond, UnaryOf(Not, b), d.t, d.f, l, x, e);
    }

    lemma EncodableUnary(c: seq<Instr>, i: nat)
      requires AllEncodable(c) && i < |c| && c[i].UnaryI?
      ensures 0 <= c[i].b <= MAXARG_A
    {
      assert EncodableAt(c, i);
    }

    /** The test and jump at the end of `jumponcond`. */
    method EmitJumpOn(i: Instr, cond: bool, ghost m: Main, ghost t: int, ghost f: int, ghost l: Lists, ghost x: Ctx, ghost e: Expr)
      returns (r: Result<nat>)
      requires Stands(S(), x, m, l, e, fold) && Chains(S(), t, f, l) && Encodable(i) && Tail(m) == 0
      requires (m.UnaryOf? && m.uop == Not && 0 <= m.r && i == Test(m.r, !cond))
               || (m.Delayed? && m.k.VNonReloc? && 0 <= m.k.info && i == TestSet(NO_REG, m.k.info, cond))
      modifies this`code, this`jpc, this`js, this`pend
      ensures r.Ok? ==> r.value == |code| - 1 == |old(code)| + 1 && Chain(code, r.value, [r.value])
      ensures r.Ok? ==> Stands(S(), x, Past(cond), AddTo(l, cond, r.value), e, fold) && Chains(S(), t, f, l)
      ensures r.Fail? ==> |old(code)| + 2 > MAXARG_sBx
    {
      hide Stands, Chains, Chain, Sane, Fits, EmitsTest, TestsFor, AllEncodable;
      ghost var s := S();
      StandsParts(s, x, m, l, e, fold);
      SaneParts(s);
      var j :- CondJump(i);
      if m.UnaryOf? {
        TestsForNot(s, S(), m.r, cond);
      } else {
        TestsForSet(s, S(), m.k.info, cond);
      }
      ChainsTest(s, S(), i, x, m, l, t, f);
      JumpOn(s, S(), x, m, l, e, fold, i, cond);
      assert |code| == |s.c| + 2 by { EmitsTestLength(s, S(), i); }
      r := Ok(j);
    }

    static lemma EmitsTestLength(s: State, s': State, i: Instr)
      requires EmitsTest(s, s', i)
      ensures |s'.c| == |s.c| + 2
    {
    }
 
    /** `negatecondition`: the comparison before the last jump accepts the opposite result. */
    method NegateCondition(pc: nat)
      requires pc == |code| - 1 >= 1 && code[pc - 1].CompareI?
      modifies this`code
      ensures S() == old(S()).(c := old(code)[pc - 1 := CompareI(!old(code)[pc - 1].cond, old(code)[pc - 1].cop,
                                                               old(code)[pc - 1].b, old(code)[pc - 1].c)])
    {
      var i := code[pc - 1];
      code := code[pc - 1 := CompareI(!i.cond, i.cop, i.b, i.c)];
    }

    /** Strings and other constants in the table are true. */
    ghost predicate TrueConstant(kd: Kind)
      reads this
    {
      kd.VK? ==> 0 <= kd.info < |k| && Truthy(k[kd.info])
    }

    /** `luaK_goiftrue`: go on if the value is true, jump otherwise. */
    method GoIfTrue(d0: ExpDesc, ghost l: Lists, ghost x: Ctx, ghost e: Expr) returns (r: Result<ExpDesc>, ghost lf: seq<nat>)
      requires Valid(d0, l, x, e) && TrueConstant(d0.k)
      modifies this
      ensures r.Ok? ==> Stands(S(), x, WasTrue, Lists([], lf), e, fold) && Chain(code, r.value.f, lf) && r.value.t == NO_JUMP
      ensures r.Ok? ==> Grew(old(S()), S(), 4, 1) && freereg == x.n
      ensures r.Fail? ==> Exhausted(old(S()), 4, 1, 1)
    {
      hide Stands, Chains, Chain, Sane, Fits, AllEncodable, Relinked;
      lf := [];
      ghost var s := S();
      DischargeVarsStands(d0, l, x, e);
      var d := DischargeVars(d0);
      var pc := NO_JUMP;
      ghost var l1 := l;
      StandsParts(s, x, Delayed(d.k), l, e, fold);
      SaneParts(s);
      if d.k.VJmp? {
        pc, l1 := d.k.info, AddTo(l, false, d.k.info);
        ComparisonKind(s, x, d.k, l);
        NegateCondition(d.k.info);
        ComparisonFlipped(s, S());
        CloseComparison(s, S(), x, d.k, l, e, fold, false);
        ChainsFlipped(s, S(), x, d.k, l, d.t, d.f);
      } else if d.k.VK? || d.k.VKFlt? || d.k.VKInt? || d.k.VTrue? {
        Reread(s, x, Delayed(d.k), WasTrue, l, e, e, fold);
        NoChain(s.c);
      } else {
        var j: Result<nat> := JumpOnCond(d, false, l, x, e);
        if j.Fail? {
          return Fail(j.why), [];
        }
        pc, l1 := j.value, AddTo(l, false, j.value);
      }
      r, lf := CloseCondition(d, pc, false, l, l1, x, e);
    }

    /** `luaK_goiffalse`: go on if the value is false, jump otherwise. */
    method GoIfFalse(d0: ExpDesc, ghost l: Lists, ghost x: Ctx, ghost e: Expr) returns (r: Result<ExpDesc>, ghost lt: seq<nat>)
      requires Valid(d0, l, x, e)
      modifies this
      ensures r.Ok? ==> Stands(S(), x, WasFalse, Lists(lt, []), e, fold) && Chain(code, r.value.t, lt) && r.value.f == NO_JUMP
      ensures r.Ok? ==> Grew(old(S()), S(), 4, 1) && freereg == x.n
      ensures r.Fail? ==> Exhausted(old(S()), 4, 1, 1)
    {
      hide Stands, Chains, Chain, Sane, Fits, AllEncodable, Relinked;
      lt := [];
      ghost var s := S();
      DischargeVarsStands(d0, l, x, e);
      var d := DischargeVars(d0);
      var pc := NO_JUMP;
      ghost var l1 := l;
      StandsParts(s, x, Delayed(d.k), l, e, fold);
      SaneParts(s);
      if d.k.VJmp? {
        pc, l1 := d.k.info, AddTo(l, true, d.k.info);
        ComparisonKind(s, x, d.k, l);
        ChainsFlipped(s, s, x, d.k, l, d.t, d.f);
        CloseComparison(s, s, x, d.k, l, e, fold, true);
        Reread(s, x, JustFalse, WasFalse, l1, e, e, fold);
      } else if d.k.VNil? || d.k.VFalse? {
        Reread(s, x, Delayed(d.k), WasFalse, l, e, e, fold);
        NoChain(s.c);
      } else {
        var j: Result<nat> := JumpOnCond(d, true, l, x, e);
        if j.Fail? {
          return Fail(j.why), [];
        }
        pc, l1 := j.value, AddTo(l, true, j.value);
      }
      r, lt := CloseCondition(d, pc, true, l, l1, x, e);
    }

    /**
      The end of `luaK_goiftrue` and `luaK_goiffalse`: the new jump joins the exits
      on `cond`, and the other exits come here to go through.
     */
    method CloseCondition(d: ExpDesc, pc: int, cond: bool, ghost l: Lists, ghost l1: Lists, ghost x: Ctx, ghost e: Expr)
      returns (r: Result<ExpDesc>, ghost own: seq<nat>)
      requires Stands(S(), x, Past(cond), l1, e, fold) && Chains(S(), d.t, d.f, l)
      requires if pc == NO_JUMP then l1 == l else 0 <= pc && l1 == AddTo(l, cond, pc) && Chain(code, pc, [pc])
      modifies this`code, this`jpc, this`js, this`lasttarget
      ensures |code| == |old(code)|
      ensures r.Ok? ==> Stands(S(), x, Past(cond), if cond then Lists(own, []) else Lists([], own), e, fold)
      ensures r.Ok? ==> Chain(code, if cond then r.value.t else r.value.f, own) && (if cond then r.value.f else r.value.t) == NO_JUMP
      ensures r.Ok? ==> r.value.k == d.k
      ensures r.Fail? ==> |code| > MAXARG_sBx
    {
      hide Stands, Sane, Rep, Fits, Settles, Chain;
      ghost var s := S();
      own := if cond then l1.t else l1.f;
      ghost var first, other := if cond then l.t else l.f, if cond then l.f else l.t;
      ghost var pcs: seq<nat> := if pc == NO_JUMP then [] else [pc];
      StandsParts(s, x, Past(cond), l1, e, fold);
      SaneParts(s);
      ListsApart(s, x, Past(cond), l1);
      assert own == first + pcs;
      DistinctSplit(first, pcs);
      ghost var js0 := js;
      var h := ConcatLists(if cond then d.t else d.f, pc, first, pcs);
      if h.Fail? {
        return Fail(h.why), own;
      }
      ghost var s1 := S();
      ChainRelinked(s.c, code, Elems(first), if cond then d.f else d.t, other);
      ChainRelinked(s.c, code, Elems(first), jpc, js);
      var p := PatchToHere(if cond then d.f else d.t, other);
      if p.Fail? {
        return Fail(p.why), own;
      }
      ChainRelinked(s1.c, code, Elems(js0), h.value, own);
      CloseLists(s, s1, S(), x, l1, e, fold, cond, first);
      r := Ok(if cond then ExpDesc(d.k, h.value, NO_JUMP) else ExpDesc(d.k, NO_JUMP, h.value));
    }

    // ---------- negation ----------

    /** `codenot`: the value is negated, the lists change places, and their tests carry no value any more. */
    method CodeNot(d0: ExpDesc, ghost l: Lists, ghost x: Ctx, ghost e: Expr) returns (r: Result<ExpDesc>)
      requires Valid(d0, l, x, e) && TrueConstant(d0.k)
      modifies this
      ensures r.Ok? ==> Valid(r.value, Lists(l.f, l.t), x, UnaryE(Not, e)) && !r.value.k.VK?
      ensures r.Ok? ==> Grew(old(S()), S(), 3, 1)
      ensures r.Fail? ==> Exhausted(old(S()), 3, 1, 1)
    {
      hide Stands, Chains, Chain, Sane, Fits, AllEncodable, Removed;
      DischargeVarsStands(d0, l, x, e);
      var d := DischargeVars(d0);
      RegsInFrame(d, l, x, e);
      ghost var s := S();
      StandsParts(s, x, Delayed(d.k), l, e, fold);
      SaneParts(s);
      DischargedParts(s, x, d, l, e, fold, 0);
      var k' := d.k;
      if d.k.VNil? || d.k.VFalse? {
        k' := VTrue;
      } else if d.k.VK? || d.k.VKFlt? || d.k.VKInt? || d.k.VTrue? {
        k' := VFalse;
      } else if d.k.VJmp? {
        ComparisonKind(s, x, d.k, l);
        NegateCondition(d.k.info);
        ComparisonFlipped(s, S());
        ChainsFlipped(s, S(), x, d.k, l, d.t, d.f);
      } else {
        r := NegateValue(d, l, x, e);
        return;
      }
      ghost var s1 := S();
      ghost var c2 := RemoveBoth(d, l);
      NegatedInPlace(s, s1, c2, S(), x, d.k, k', l, e, fold);
      r := Ok(ExpDesc(k', d.f, d.t));
    }

    /** The end of `codenot`: no test of either list produces a value. */
    method RemoveBoth(d: ExpDesc, ghost l: Lists) returns (ghost c2: seq<Instr>)
      requires Chain(code, d.t, l.t) && Chain(code, d.f, l.f) && AllEncodable(code)
      modifies this`code
      ensures Removed(old(code), c2, Elems(l.t), |old(code)|) && Removed(c2, code, Elems(l.f), |c2|) && AllEncodable(code)
      ensures Chains(S(), d.f, d.t, Lists(l.f, l.t))
    {
      ghost var c1 := code;
      RemoveValues(d.t, l.t);
      ChainRemoved(c1, code, l.t, d.f, l.f);
      ChainRemoved(c1, code, l.t, d.t, l.t);
      c2 := code;
      RemoveValues(d.f, l.f);
      ChainRemoved(c2, code, l.f, d.f, l.f);
      ChainRemoved(c2, code, l.f, d.t, l.t);
    }

    /** `codenot` for a value that has to be computed: it goes to a register, and OP_NOT is emitted. */
    method NegateValue(d: ExpDesc, ghost l: Lists, ghost x: Ctx, ghost e: Expr) returns (r: Result<ExpDesc>)
      requires Valid(d, l, x, e) && (d.k.VReloc? || d.k.VNonReloc?)
      modifies this
      ensures r.Ok? ==> Valid(r.value, Lists(l.f, l.t), x, UnaryE(Not, e)) && r.value.k.VReloc?
      ensures r.Ok? ==> Grew(old(S()), S(), 3, 1)
      ensures r.Fail? ==> Exhausted(old(S()), 3, 1, 1)
    {
      hide Stands, Chains, Chain, Sane, Fits, AllEncodable, Removed, Emits;
      var d1 :- Discharge2AnyReg(d, l, x, e);
      FreeOperand(d1, l, x, e);
      ghost var s2 := S();
      var pc :- Code(UnaryI(0, Not, d1.k.info));
      ghost var s3 := S();
      ChainsEmitted(s2, s3, UnaryI(0, Not, d1.k.info), d1, l, x, Delayed(d1.k));
      ghost var c4 := RemoveBoth(d1, l);
      NegatedValue(s2, s3, c4, S(), x, d1.k.info, l, e, fold);
      RemovedLength(s3.c, c4, code, l);
      r := Ok(ExpDesc(VReloc(pc), d1.f, d1.t));
    }
 
    // ---------- unary and binary operators that produce values ----------

    /** `codeunexpval`. */
    method CodeUnExpVal(op: UnaryOp, d: ExpDesc, ghost l: Lists, ghost x: Ctx, ghost e: Expr) returns (r: Result<ExpDesc>)
      requires Valid(d, l, x, e)
      modifies this
      ensures r.Ok? ==> Valid(r.value, Lists([], []), x, UnaryE(op, e)) && r.value.k.VReloc?
      ensures r.Ok? ==> Grew(old(S()), S(), 6, 1)
      ensures r.Fail? ==> Exhausted(old(S()), 6, 1, 1)
    {
      hide Stands, Chains, Chain, Sane, Fits, AllEncodable, Emits, Opens, OpensAt;
      ghost var none := Lists([], []);
      var d1 :- Exp2AnyReg(d, l, x, e);
      FreeOperand(d1, none, x, e);
      ghost var s2 := S();
      ReadOperand(s2, x, d1.k.info, e, fold, op);
      var pc :- Code(UnaryI(0, op, d1.k.info));
      EmitsOpens(s2, S(), x, UnaryOf(op, d1.k.info), UnaryI(0, op, d1.k.info));
      UnaryOpens(s2, S(), op, d1.k.info);
      EmitOpen(s2, S(), x, UnaryOf(op, d1.k.info), Delayed(VReloc(pc)), none, UnaryE(op, e), fold);
      NoChains(S());
      r := Ok(ExpDesc(VReloc(pc), NO_JUMP, NO_JUMP));
    }

    static lemma UnaryOpens(s: State, s': State, op: UnaryOp, r: int)
      requires s.ks == s'.ks && |s'.c| >= 1 && s'.c[|s'.c| - 1] == UnaryI(0, op, r)
      ensures Opens(s, UnaryOf(op, r), s', Delayed(VReloc(|s'.c| - 1)))
    {
      forall regs: Regs, meta: Meta, ev: Outcome | Denotes(UnaryOf(op, r), s.c, s.ks, meta, regs, ev)
        ensures Denotes(Delayed(VReloc(|s'.c| - 1)), s'.c, s'.ks, meta, regs, ev)
      {
      }
    }
 
    /** The operands of a binary operator are in place, and the registers they occupied are free again. */
    ghost predicate Ready(m: Main, x: Ctx, e: Expr)
      reads this
    {
      && Stands(S(), x, m, Lists([], []), e, fold)
      && x.hole == -1
      && nactvar <= x.n == freereg
    }

    /** What `luaK_infix` leaves of the first operand: it is in place, or it is a numeral that may still be folded. */
    ghost predicate First(d: ExpDesc, s1: State, x1: Ctx, e1: Expr, x2: Ctx)
      reads this
    {
      && Held(s1, x1, d.k, e1, fold)
      && d.t == d.f == NO_JUMP
      && x2 == Context(s1, s1.free, -1)
      && Later(s1, S())
      && (IsOperand(d.k) || IsNumeral(d.k))
    }

    /** The common part of `codebinexpval` and `codecomp` when the first operand is in place. */
    method SecondOperand(op: Dyadic, d1: ExpDesc, d2: ExpDesc, ghost s1: State, ghost x1: Ctx, ghost e1: Expr,
                         ghost l2: Lists, ghost x2: Ctx, ghost e2: Expr) returns (r: Result<(ExpDesc, int)>)
      requires First(d1, s1, x1, e1, x2) && IsOperand(d1.k) && Valid(d2, l2, x2, e2) && Scoped(e2, x1.n)
      modifies this
      ensures r.Ok? ==> IsOperand(r.value.0.k) && r.value.1 == OperandRK(r.value.0.k) && Grew(old(S()), S(), 5, 2)
      ensures r.Ok? && old(IsInPlace(d2)) ==> r.value.0 == d2
      ensures r.Ok? ==> Ready(Operands(op, OperandRK(d1.k), r.value.1), x1, Binary(op, e1, e2))
      ensures r.Fail? ==> Exhausted(old(S()), 5, 2, 1)
    {
      hide Stands, Chains, Chain, Sane, Fits;
      ghost var none := Lists([], []);
      var p :- Exp2RK(d2, l2, x2, e2);
      RegsInFrame(p.0, none, x2, e2);
      ghost var s2 := S();
      OperandsReady(s1, x1, d1.k, e1, s2, x2, p.0.k, e2, fold, op);
      FreeExps(d1.k, p.0.k);
      Roomier(s2, S(), x1, Operands(op, OperandRK(d1.k), p.1), none, Binary(op, e1, e2), fold);
      r := Ok(p);
    }
 
    /** `codebinexpval` when the first operand is a numeral that could not be folded. */
    method LateOperand(op: Dyadic, d1: ExpDesc, d2: ExpDesc, ghost s1: State, ghost x1: Ctx, ghost e1: Expr,
                       ghost l2: Lists, ghost x2: Ctx, ghost e2: Expr) returns (r: Result<(int, int)>)
      requires First(d1, s1, x1, e1, x2) && IsNumeral(d1.k) && Valid(d2, l2, x2, e2) && Scoped(e2, x1.n)
      modifies this
      ensures r.Ok? ==> Ready(Operands(op, r.value.0, r.value.1), x1, Binary(op, e1, e2))
      ensures r.Ok? ==> 0 <= r.value.0 <= MAXARG_C && 0 <= r.value.1 <= MAXARG_C && Grew(old(S()), S(), 10, 4)
      ensures r.Fail? ==> Exhausted(old(S()), 10, 4, 2)
    {
      hide Stands, Chains, Chain, Sane, Fits;
      var p2 :- Exp2RK(d2, l2, x2, e2);
      RegsInFrame(p2.0, Lists([], []), x2, e2);
      var rk1 :- LateNumeral(op, d1, p2.0, s1, x1, e1, x2, e2);
      r := Ok((rk1, p2.1));
    }

    method LateNumeral(op: Dyadic, d1: ExpDesc, d2: ExpDesc, ghost s1: State, ghost x1: Ctx, ghost e1: Expr, ghost x2: Ctx, ghost e2: Expr)
      returns (r: Result<int>)
      requires First(d1, s1, x1, e1, x2) && IsNumeral(d1.k) && Valid(d2, Lists([], []), x2, e2) && IsInPlace(d2) && Scoped(e2, x1.n)
      modifies this
      ensures r.Ok? ==> Ready(Operands(op, r.value, OperandRK(d2.k)), x1, Binary(op, e1, e2))
      ensures r.Ok? ==> 0 <= r.value <= MAXARG_C && 0 <= OperandRK(d2.k) <= MAXARG_C && Grew(old(S()), S(), 5, 2)
      ensures r.Fail? ==> Exhausted(old(S()), 5, 2, 1)
    {
      hide Stands, Chains, Chain, Sane, Fits, Rep, AllEncodable, Eval, Run, Agrees;
      ghost var none, lit := Lists([], []), Literal(ConstantOf(d1.k, []).v);
      RegsInFrame(d2, none, x2, e2);
      ghost var s2 := S();
      ghost var x3 := Context(s2, freereg, -1);
      StandsParts(s2, x2, Delayed(d2.k), none, e2, fold);
      Begin(s2, freereg, d1.k, lit, fold);
      NoChains(s2);
      var p1 :- Exp2RK(d1, none, x3, lit);
      RegsInFrame(p1.0, none, x3, lit);
      ghost var s3 := S();
      OperandsReadyLate(s1, x1, d1.k, e1, s2, x2, d2.k, e2, s3, x3, p1.0.k, fold, op);
      FreeExps(p1.0.k, d2.k);
      Roomier(s3, S(), x1, Operands(op, p1.1, OperandRK(d2.k)), none, Binary(op, e1, e2), fold);
      r := Ok(p1.1);
    }

    /** `codebinexpval`. */
    method CodeBinExpVal(op: Dyadic, d1: ExpDesc, d2: ExpDesc, ghost s1: State, ghost x1: Ctx, ghost e1: Expr,
                         ghost l2: Lists, ghost x2: Ctx, ghost e2: Expr) returns (r: Result<ExpDesc>)
      requires First(d1, s1, x1, e1, x2) && Valid(d2, l2, x2, e2) && Scoped(e2, x1.n) && !op.CompD?
      requires op.ConcatD? ==> d1.k == VNonReloc(x1.n) && s1.nact <= x1.n && d2.k == VNonReloc(x1.n + 1) && !HasJumps(d2)
      modifies this
      ensures r.Ok? ==> Valid(r.value, Lists([], []), x1, Binary(op, e1, e2)) && r.value.k.VReloc?
      ensures r.Ok? ==> Grew(old(S()), S(), 11, 4)
      ensures r.Fail? ==> Exhausted(old(S()), 11, 4, 2)
    {
      hide Stands, Chains, Chain, Sane, Fits, AllEncodable, Emits, Opens, OpensAt;
      RegsInFrame(d2, l2, x2, e2);
      var rk1, rk2;
      if IsOperand(d1.k) {
        rk1 := OperandRK(d1.k);
        var p :- SecondOperand(op, d1, d2, s1, x1, e1, l2, x2, e2);
        rk2 := p.1;
      } else {
        var p :- LateOperand(op, d1, d2, s1, x1, e1, l2, x2, e2);
        rk1, rk2 := p.0, p.1;
      }
      var i := if op.ArithD? then ArithI(0, op.op, rk1, rk2) else ConcatI(0, rk1, rk2);
      r := EmitReady(op, i, rk1, rk2, x1, Binary(op, e1, e2));
    }

    method EmitReady(op: Dyadic, i: Instr, ghost rk1: int, ghost rk2: int, ghost x: Ctx, ghost e: Expr) returns (r: Result<ExpDesc>)
      requires Ready(Operands(op, rk1, rk2), x, e) && Computes(op, i, rk1, rk2) && !op.CompD? && Encodable(i)
      requires op.ConcatD? ==> rk1 == x.n
      modifies this`code, this`jpc, this`js, this`pend
      ensures r.Ok? ==> Valid(r.value, Lists([], []), x, e) && r.value.k.VReloc? && |code| == |old(code)| + 1
      ensures r.Fail? ==> |old(code)| + 1 > MAXARG_sBx
    {
      hide Stands, Chains, Chain, Sane, Fits, AllEncodable, Emits, Opens, OpensAt;
      ghost var none, s := Lists([], []), S();
      ghost var m := Operands(op, rk1, rk2);
      StandsParts(s, x, m, none, e, fold);
      SaneParts(s);
      var pc :- Code(i);
      EmitsOpens(s, S(), x, m, i);
      ComputesOperands(s, S(), op, i, rk1, rk2);
      EmitOpen(s, S(), x, m, Delayed(VReloc(pc)), none, e, fold);
      NoChains(S());
      r := Ok(ExpDesc(VReloc(pc), NO_JUMP, NO_JUMP));
    }

    /** `codecomp`: a comparison that jumps when it is true. */
    method CodeComp(op: CompOp, d1: ExpDesc, d2: ExpDesc, ghost s1: State, ghost x1: Ctx, ghost e1: Expr,
                    ghost l2: Lists, ghost x2: Ctx, ghost e2: Expr) returns (r: Result<ExpDesc>)
      requires First(d1, s1, x1, e1, x2) && IsOperand(d1.k) && Valid(d2, l2, x2, e2) && Scoped(e2, x1.n)
      modifies this
      ensures r.Ok? ==> Valid(r.value, Lists([], []), x1, Binary(CompD(op), e1, e2)) && r.value.k.VJmp?
      ensures r.Ok? ==> Grew(old(S()), S(), 7, 2)
      ensures r.Fail? ==> Exhausted(old(S()), 7, 2, 1)
    {
      hide Stands, Chains, Chain, Sane, Fits, AllEncodable, EmitsTest, Opens, OpensAt, Rep, First;
      ghost var none, e := Lists([], []), Binary(CompD(op), e1, e2);
      var rk1 := OperandRK(d1.k);
      var p :- SecondOperand(CompD(op), d1, d2, s1, x1, e1, l2, x2, e2);
      var rk2 := p.1;
      var i := match op
        case OpNe => CompareI(false, Eq, rk1, rk2)
        case OpGt => CompareI(true, Lt, rk2, rk1)
        case OpGe => CompareI(true, Le, rk2, rk1)
        case OpEq => CompareI(true, Eq, rk1, rk2)
        case OpLt => CompareI(true, Lt, rk1, rk2)
        case OpLe => CompareI(true, Le, rk1, rk2);
      ghost var s := S();
      ghost var m := Operands(CompD(op), rk1, rk2);
      StandsParts(s, x1, m, none, e, fold);
      SaneParts(s);
      var j :- CondJump(i);
      TestOpens(s, S(), x1, m, i);
      ComputesOperands(s, S(), CompD(op), i, rk1, rk2);
      EmitOpen(s, S(), x1, m, Delayed(VJmp(j)), none, e, fold);
      NoChains(S());
      r := Ok(ExpDesc(VJmp(j), NO_JUMP, NO_JUMP));
    }
 
    // ---------- constant folding ----------

    /** `tonumeral`. */
    predicate ToNumeral(d: ExpDesc) {
      !HasJumps(d) && IsNumeral(d.k)
    }

    /** `validop`: no folding of a division by zero. */
    predicate ValidOp(op: ArithOp, v2: Value) {
      v2.Int? && op in {Div, IDiv, Mod} ==> v2.i != 0
    }

    /** The operation gives a number; for floats the parameter `fold` says which ones are used. */
    ghost predicate HasNumber(op: ArithOp, v1: Value, v2: Value) {
      exists v: Value :: (v.Int? || v.Flt?) && Folds(fold, op, v1, v2, v)
    }

    /** `constfolding` of a binary operator: it happens whenever it can. */
    method ConstFolding(op: ArithOp, d1: ExpDesc, d2: ExpDesc) returns (ok: bool, kd: Kind)
      ensures ok ==> ToNumeral(d1) && ToNumeral(d2) && IsNumeral(kd)
      ensures ok ==> Folds(fold, op, NumeralValue(d1.k), NumeralValue(d2.k), NumeralValue(kd))
      ensures ok <==> ToNumeral(d1) && ToNumeral(d2) && ValidOp(op, NumeralValue(d2.k)) && HasNumber(op, NumeralValue(d1.k), NumeralValue(d2.k))
    {
      kd := d1.k;
      if !ToNumeral(d1) || !ToNumeral(d2) {
        return false, kd;
      }
      var v1, v2 := NumeralValue(d1.k), NumeralValue(d2.k);
      if !ValidOp(op, v2) {
        return false, kd;
      }
      var res := if v1.Int? && v2.Int? && StaysInteger(op) then IntArith(op, v1.i, v2.i) else fold(OnArith(op), v1, v2);
      if res.Val? && res.v.Int? {
        return true, VKInt(res.v.i);
      } else if res.Val? && res.v.Flt? {
        return true, VKFlt(res.v.bits);
      }
      return false, kd;
    }

    /** `constfolding` of a unary operator. */
    method ConstFoldingUnary(op: UnaryOp, d: ExpDesc) returns (ok: bool, kd: Kind)
      requires op == Minus || op == BNot
      ensures ok ==> ToNumeral(d) && IsNumeral(kd) && FoldsUnary(fold, op, NumeralValue(d.k), NumeralValue(kd))
    {
      kd := d.k;
      if !ToNumeral(d) {
        return false, kd;
      }
      var v := NumeralValue(d.k);
      var res := if v.Int? then Val(Int(Wrap(if op == Minus then 0 - v.i else -1 - v.i))) else fold(OnUnary(op), v, v);
      if res.Val? && res.v.Int? {
        return true, VKInt(res.v.i);
      } else if res.Val? && res.v.Flt? {
        return true, VKFlt(res.v.bits);
      }
      return false, kd;
    }

    // ---------- operators ----------

    /** `luaK_prefix`. */
    method Prefix1(op: UnaryOp, d: ExpDesc, ghost l: Lists, ghost x: Ctx, ghost e: Expr) returns (r: Result<ExpDesc>, ghost l': Lists)
      requires Valid(d, l, x, e) && TrueConstant(d.k)
      modifies this
      ensures r.Ok? ==> Valid(r.value, l', x, UnaryE(op, e)) && !r.value.k.VK?
      ensures r.Ok? ==> Grew(old(S()), S(), 6, 1)
      ensures r.Fail? ==> Exhausted(old(S()), 6, 1, 1)
    {
      hide Stands, Chains, Chain, Sane, Fits;
      l' := Lists([], []);
      if op == Not {
        l' := Lists(l.f, l.t);
        r := CodeNot(d, l, x, e);
        return;
      }
      if op == Minus || op == BNot {
        var ok, kd := ConstFoldingUnary(op, d);
        if ok {
          NoJumpsNoLists(d, l, x, e);
          FoldUnary(S(), x, d.k, e, fold, op, kd);
          return Ok(d.(k := kd)), l';
        }
      }
      r := CodeUnExpVal(op, d, l, x, e);
    }

    /** `luaK_infix`: the first operand, before the second is read. */
    method Infix(op: BinOpr, d: ExpDesc, ghost l: Lists, ghost x: Ctx, ghost e: Expr) returns (r: Result<ExpDesc>, ghost l1: Lists)
      requires Valid(d, l, x, e) && TrueConstant(d.k)
      modifies this
      ensures r.Ok? ==> AfterInfix(op, r.value, l1, S(), x, e, fold)
      ensures r.Ok? ==> Grew(old(S()), S(), 5, 2) && x.n <= freereg <= x.n + 1
      ensures r.Fail? ==> Exhausted(old(S()), 5, 2, 1)
    {
      hide Stands, Chains, Chain, Sane, Fits;
      l1 := Lists([], []);
      RegsInFrame(d, l, x, e);
      if op.OprAnd? {
        ghost var lf: seq<nat>;
        r, lf := GoIfTrue(d, l, x, e);
        l1 := Lists([], lf);
      } else if op.OprOr? {
        ghost var lt: seq<nat>;
        r, lt := GoIfFalse(d, l, x, e);
        l1 := Lists(lt, []);
      } else if op.dop.ConcatD? {
        r := Exp2NextReg(d, l, x, e);
      } else if op.dop.ArithD? && ToNumeral(d) {
        NoJumpsNoLists(d, l, x, e);
        NumeralHeld(d, l, x, e);
        r := Ok(d);
      } else {
        var p := Exp2RK(d, l, x, e);
        if p.Fail? {
          return Fail(p.why), l1;
        }
        NumeralHeld(p.value.0, l1, x, e);
        RegsInFrame(p.value.0, l1, x, e);
        r := Ok(p.value.0);
      }
    }

    lemma NumeralHeld(d: ExpDesc, l: Lists, x: Ctx, e: Expr)
      requires Valid(d, l, x, e) && l == Lists([], [])
      ensures d.t == d.f == NO_JUMP
    {
    }
 
    /** `luaK_posfix`: the operation, once both operands have been read. */
    method Posfix(op: BinOpr, d1: ExpDesc, d2: ExpDesc, ghost l1: Lists, ghost s1: State, ghost x1: Ctx, ghost e1: Expr,
                  ghost l2: Lists, ghost x2: Ctx, ghost e2: Expr) returns (r: Result<ExpDesc>, ghost l: Lists)
      requires AfterInfix(op, d1, l1, s1, x1, e1, fold) && x2 == Context(s1, s1.free, -1) && Later(s1, S())
      requires Valid(d2, l2, x2, e2) && TrueConstant(d2.k) && Scoped(e2, x1.n)
      modifies this
      ensures r.Ok? ==> Valid(r.value, l, x1, Apply2(op, e1, e2)) && TrueConstant(r.value.k)
      ensures r.Ok? ==> Grew(old(S()), S(), 21, 6)
      ensures r.Fail? ==> Exhausted(old(S()), 21, 6, 3)
    {
      hide Stands, Chains, Chain, Sane, Fits, Rep;
      l := Lists([], []);
      match op {
        case OprAnd =>
          r, l := JoinAnd(d1, d2, l1.f, s1, x1, e1, l2, x2, e2);
        case OprOr =>
          r, l := JoinOr(d1, d2, l1.t, s1, x1, e1, l2, x2, e2);
        case OprBin(dop) =>
          match dop {
            case ArithD(aop) => r := PosfixArith(aop, d1, d2, s1, x1, e1, l2, x2, e2);
            case CompD(cop) => r := CodeComp(cop, d1, d2, s1, x1, e1, l2, x2, e2);
            case ConcatD => r := PosfixConcat(d1, d2, s1, x1, e1, l2, x2, e2);
          }
      }
    }

    /** `luaK_posfix` for `and`: the false exits of the first operand join those of the second. */
    method JoinAnd(d1: ExpDesc, d2: ExpDesc, ghost f1: seq<nat>, ghost s1: State, ghost x1: Ctx, ghost e1: Expr,
                   ghost l2: Lists, ghost x2: Ctx, ghost e2: Expr) returns (r: Result<ExpDesc>, ghost l: Lists)
      requires Stands(s1, x1, WasTrue, Lists([], f1), e1, fold) && Chain(s1.c, d1.f, f1) && x1.hole == -1 && s1.nact <= x1.n == s1.free
      requires x2 == Context(s1, s1.free, -1) && Later(s1, S()) && Valid(d2, l2, x2, e2) && TrueConstant(d2.k) && Scoped(e2, x1.n)
      modifies this`code
      ensures |code| == |old(code)|
      ensures r.Ok? ==> Valid(r.value, l, x1, And(e1, e2)) && TrueConstant(r.value.k)
      ensures r.Fail? ==> |code| > MAXARG_sBx
    {
      hide Stands, Sane, Fits, Rep, Relinked, AllEncodable;
      var d := DischargeVars(d2);
      DischargeVarsStands(d2, l2, x2, e2);
      ghost var s := S();
      l := Lists(l2.t, l2.f + f1);
      StandsParts(s1, x1, WasTrue, Lists([], f1), e1, fold);
      ListsPending(s1, x1, WasTrue, Lists([], f1), e1, fold);
      ChainThrough(s1, x2, s, Delayed(d.k), l2, e2, fold, d1.f, f1);
      AndThen(s1, x1, f1, e1, s, x2, Delayed(d.k), l2, e2, fold);
      ListsPending(s, x1, Delayed(d.k), l, And(e1, e2), fold);
      DistinctSplit(l2.f, f1);
      StandsParts(s, x1, Delayed(d.k), l, And(e1, e2), fold);
      SaneParts(s);
      var f := ConcatLists(d.f, d1.f, l2.f, f1);
      if f.Fail? {
        return Fail(f.why), l;
      }
      RelinkOwn(s, S(), x1, Delayed(d.k), l, And(e1, e2), fold, l2.f, d.t, l2.t);
      r := Ok(ExpDesc(d.k, d.t, f.value));
    }

    /** `luaK_posfix` for `or`. */
    method JoinOr(d1: ExpDesc, d2: ExpDesc, ghost t1: seq<nat>, ghost s1: State, ghost x1: Ctx, ghost e1: Expr,
                  ghost l2: Lists, ghost x2: Ctx, ghost e2: Expr) returns (r: Result<ExpDesc>, ghost l: Lists)
      requires Stands(s1, x1, WasFalse, Lists(t1, []), e1, fold) && Chain(s1.c, d1.t, t1) && x1.hole == -1 && s1.nact <= x1.n == s1.free
      requires x2 == Context(s1, s1.free, -1) && Later(s1, S()) && Valid(d2, l2, x2, e2) && TrueConstant(d2.k) && Scoped(e2, x1.n)
      modifies this`code
      ensures |code| == |old(code)|
      ensures r.Ok? ==> Valid(r.value, l, x1, Or(e1, e2)) && TrueConstant(r.value.k)
      ensures r.Fail? ==> |code| > MAXARG_sBx
    {
      hide Stands, Sane, Fits, Rep, Relinked, AllEncodable;
      var d := DischargeVars(d2);
      DischargeVarsStands(d2, l2, x2, e2);
      ghost var s := S();
      l := Lists(l2.t + t1, l2.f);
      StandsParts(s1, x1, WasFalse, Lists(t1, []), e1, fold);
      ListsPending(s1, x1, WasFalse, Lists(t1, []), e1, fold);
      ChainThrough(s1, x2, s, Delayed(d.k), l2, e2, fold, d1.t, t1);
      OrElse(s1, x1, t1, e1, s, x2, Delayed(d.k), l2, e2, fold);
      ListsPending(s, x1, Delayed(d.k), l, Or(e1, e2), fold);
      DistinctSplit(l2.t, t1);
      StandsParts(s, x1, Delayed(d.k), l, Or(e1, e2), fold);
      SaneParts(s);
      var t := ConcatLists(d.t, d1.t, l2.t, t1);
      if t.Fail? {
        return Fail(t.why), l;
      }
      RelinkOwn(s, S(), x1, Delayed(d.k), l, Or(e1, e2), fold, l2.t, d.f, l2.f);
      r := Ok(ExpDesc(d.k, t.value, d.f));
    }

    /** `luaK_posfix` for arithmetic: fold, or emit the operation. */
    method PosfixArith(op: ArithOp, d1: ExpDesc, d2: ExpDesc, ghost s1: State, ghost x1: Ctx, ghost e1: Expr,
                       ghost l2: Lists, ghost x2: Ctx, ghost e2: Expr) returns (r: Result<ExpDesc>)
      requires First(d1, s1, x1, e1, x2) && Valid(d2, l2, x2, e2) && Scoped(e2, x1.n)
      modifies this
      ensures r.Ok? ==> Valid(r.value, Lists([], []), x1, Binary(ArithD(op), e1, e2)) && !r.value.k.VK?
      ensures r.Ok? ==> Grew(old(S()), S(), 11, 4)
      ensures r.Fail? ==> Exhausted(old(S()), 11, 4, 2)
    {
      hide Stands, Chains, Chain, Sane, Fits, Rep, Folds;
      var ok, kd := ConstFolding(op, d1, d2);
      if ok {
        ghost var v1 := NumeralValue(d1.k);
        NoJumpsNoLists(d2, l2, x2, e2);
        FoldBinary(S(), x2, d2.k, e2, fold, op, v1, kd);
        assert InPlace(d1.k, s1.ks) == Literal(v1);
        Prefix(s1, x1, d1.k, e1, S(), x2, Delayed(kd), ArithD(op), e2, true, fold);
        NoChains(S());
        return Ok(ExpDesc(kd, NO_JUMP, NO_JUMP));
      }
      r := CodeBinExpVal(ArithD(op), d1, d2, s1, x1, e1, l2, x2, e2);
    }

    /** `luaK_posfix` for concatenation: `a .. (b .. c)` is one instruction. */
    method PosfixConcat(d1: ExpDesc, d2: ExpDesc, ghost s1: State, ghost x1: Ctx, ghost e1: Expr,
                        ghost l2: Lists, ghost x2: Ctx, ghost e2: Expr) returns (r: Result<ExpDesc>)
      requires First(d1, s1, x1, e1, x2) && d1.k == VNonReloc(x1.n) && s1.free == x1.n + 1 && Valid(d2, l2, x2, e2) && Scoped(e2, x1.n)
      modifies this
      ensures r.Ok? ==> Valid(r.value, Lists([], []), x1, Binary(ConcatD, e1, e2)) && !r.value.k.VK?
      ensures r.Ok? ==> Grew(old(S()), S(), 21, 6)
      ensures r.Fail? ==> Exhausted(old(S()), 21, 6, 3)
    {
      hide Stands, Chains, Chain, Sane, Fits, Rep, AllEncodable;
      ghost var none := Lists([], []);
      var d3 :- Exp2Val(d2, l2, x2, e2);
      StandsParts(S(), x2, Delayed(d3.k), none, e2, fold);
      OpenKind(S(), x2, d3.k, none);
      RegsInFrame(d3, none, x2, e2);
      if d3.k.VReloc? && code[d3.k.info].ConcatI? {
        ConcatInto(d1, d3, s1, x1, e1, x2, e2);
        return Ok(ExpDesc(d3.k, NO_JUMP, NO_JUMP));
      }
      r := ConcatApart(d1, d3, s1, x1, e1, x2, e2);
    }

    /** The second operand is a concatenation: it takes the first one in. */
    method ConcatInto(d1: ExpDesc, d2: ExpDesc, ghost s1: State, ghost x1: Ctx, ghost e1: Expr, ghost x2: Ctx, ghost e2: Expr)
      requires First(d1, s1, x1, e1, x2) && d1.k == VNonReloc(x1.n) && s1.free == x1.n + 1 && Scoped(e2, x1.n)
      requires Valid(d2, Lists([], []), x2, e2) && d2.k.VReloc? && d2.k.info == |code| - 1 >= 0 && code[d2.k.info].ConcatI?
      modifies this`code, this`freereg
      ensures Valid(ExpDesc(d2.k, NO_JUMP, NO_JUMP), Lists([], []), x1, Binary(ConcatD, e1, e2)) && |code| == |old(code)|
    {
      hide Stands, Chains, Chain, Sane, Fits, Rep, AllEncodable;
      ghost var s2 := S();
      RegsInFrame(d2, Lists([], []), x2, e2);
      var i := code[d2.k.info];
      FreeExp(d1.k);
      code := code[d2.k.info := ConcatI(i.a, d1.k.info, i.c)];
      MergeConcat(s2, s2.(c := code), x2, d2.k, e2, fold);
      Prefix(s1, x1, d1.k, e1, s2.(c := code), x2.(n := x1.n), Delayed(d2.k), ConcatD, e2, true, fold);
      Roomier(s2.(c := code), S(), x1, Delayed(d2.k), Lists([], []), Binary(ConcatD, e1, e2), fold);
      NoChains(S());
    }

    method ConcatApart(d1: ExpDesc, d2: ExpDesc, ghost s1: State, ghost x1: Ctx, ghost e1: Expr, ghost x2: Ctx, ghost e2: Expr)
      returns (r: Result<ExpDesc>)
      requires First(d1, s1, x1, e1, x2) && d1.k == VNonReloc(x1.n) && s1.free == x1.n + 1 && Scoped(e2, x1.n)
      requires Valid(d2, Lists([], []), x2, e2) && !HasJumps(d2)
      modifies this
      ensures r.Ok? ==> Valid(r.value, Lists([], []), x1, Binary(ConcatD, e1, e2)) && !r.value.k.VK?
      ensures r.Ok? ==> Grew(old(S()), S(), 16, 5)
      ensures r.Fail? ==> Exhausted(old(S()).(free := x2.n), 16, 5, 3)
    {
      hide Stands, Chains, Chain, Sane, Fits, Rep, AllEncodable;
      RegsInFrame(d2, Lists([], []), x2, e2);
      var d3 :- Exp2NextReg(d2, Lists([], []), x2, e2);
      r := CodeBinExpVal(ConcatD, d1, d3, s1, x1, e1, Lists([], []), x2, e2);
    }

    // ---------- whole expressions ----------

    /** The calls that `subexpr`, `simpleexp` and `primaryexp` make for an expression, in their order. */
    method Compile(e: Expr) returns (r: Result<ExpDesc>, ghost l: Lists)
      requires Sane(S()) && Scoped(e, nactvar)
      modifies this
      ensures r.Ok? ==> Valid(r.value, l, Context(old(S()), old(freereg), -1), e) && TrueConstant(r.value.k)
      ensures r.Ok? ==> Grew(old(S()), S(), 26 * Nodes(e), 8 * Nodes(e))
      ensures r.Fail? ==> Exhausted(old(S()), 26 * Nodes(e), 8 * Nodes(e), Nodes(e) + 2)
      decreases e, 1
    {
      hide Stands, Chains, Chain, Sane, Fits, Rep;
      l := Lists([], []);
      ghost var s, x := S(), Context(S(), freereg, -1);
      SaneParts(s);
      NoChains(s);
      match e {
        case Literal(v) =>
          r := CompileLiteral(v);
        case Local(i) =>
          Begin(s, freereg, VLocal(i), e, fold);
          r := Ok(ExpDesc(VLocal(i), NO_JUMP, NO_JUMP));
        case Paren(e1) =>
          var d;
          d, l := Compile(e1);
          if d.Fail? {
            return Fail(d.why), l;
          }
          DischargeVarsStands(d.value, l, x, e1);
          InParens(S(), x, Delayed(DischargeVars(d.value).k), l, e1, fold);
          r := Ok(DischargeVars(d.value));
        case UnaryE(op, e1) =>
          var d;
          d, l := Compile(e1);
          if d.Fail? {
            return Fail(d.why), l;
          }
          r, l := Prefix1(op, d.value, l, x, e1);
        case And(e1, e2) =>
          r, l := CompileBinary(OprAnd, e1, e2);
        case Or(e1, e2) =>
          r, l := CompileBinary(OprOr, e1, e2);
        case Binary(dop, e1, e2) =>
          r, l := CompileBinary(OprBin(dop), e1, e2);
      }
    }
 
    /** `simpleexp` for a literal; a string goes to the constant table at once. */
    method CompileLiteral(v: Value) returns (r: Result<ExpDesc>)
      requires Sane(S())
      modifies this`k, this`kcache
      ensures r.Ok? ==> Valid(r.value, Lists([], []), Context(old(S()), old(freereg), -1), Literal(v)) && TrueConstant(r.value.k)
      ensures r.Ok? ==> Grew(old(S()), S(), 0, 1)
      ensures r.Fail? ==> Exhausted(old(S()), 0, 1, 0)
    {
      hide Stands, Chains, Chain, Settles;
      ghost var s := S();
      SaneParts(s);
      var kd: Kind;
      match v {
        case Nil => kd := VNil;
        case Bool(b) => kd := if b then VTrue else VFalse;
        case Int(i) => kd := VKInt(i);
        case Flt(x) => kd := VKFlt(x);
        case Other(_) =>
          var i :- AddK(v);
          kd := VK(i);
      }
      Begin(S(), freereg, kd, Literal(v), fold);
      NoChains(S());
      r := Ok(ExpDesc(kd, NO_JUMP, NO_JUMP));
    }

    /** One round of the loop in `subexpr`: first operand, `luaK_infix`, second operand, `luaK_posfix`. */
    method CompileBinary(op: BinOpr, e1: Expr, e2: Expr) returns (r: Result<ExpDesc>, ghost l: Lists)
      requires Sane(S()) && Scoped(e1, nactvar) && Scoped(e2, nactvar)
      modifies this
      ensures r.Ok? ==> Valid(r.value, l, Context(old(S()), old(freereg), -1), Apply2(op, e1, e2)) && TrueConstant(r.value.k)
      ensures r.Ok? ==> Grew(old(S()), S(), 26 * (Nodes(e1) + Nodes(e2) + 1), 8 * (Nodes(e1) + Nodes(e2) + 1))
      ensures r.Fail? ==> Exhausted(old(S()), 26 * (Nodes(e1) + Nodes(e2) + 1), 8 * (Nodes(e1) + Nodes(e2) + 1), Nodes(e1) + Nodes(e2) + 3)
      decreases Apply2(op, e1, e2), 0
    {
      hide Stands, Chains, Chain, Sane, Fits, Rep, RegsOk, AfterInfix, Grew, Exhausted, Later;
      ghost var s, x1 := S(), Context(S(), freereg, -1);
      ghost var n1, n2, locals := Nodes(e1), Nodes(e2), nactvar;
      l := Lists([], []);
      ghost var l1: Lists;
      var d1;
      d1, l1 := CompileFirst(op, e1, e2);
      if d1.Fail? {
        WithinFirst(s, n1, n2);
        return Fail(d1.why), l;
      }
      ghost var s1, x2 := S(), Context(S(), freereg, -1);
      WithinSecond(s, s1, n1, n2);
      AfterInfixParts(op, d1.value, l1, s1, x1, e1, fold);
      ghost var l2: Lists;
      var d2;
      d2, l2 := Compile(e2);
      if d2.Fail? {
        return Fail(d2.why), l;
      }
      ghost var s2 := S();
      RegsInFrame(d2.value, l2, x2, e2);
      ScopedMore(e2, locals, x1.n);
      WithinLast(s, s1, s2, n1, n2);
      r, l := Posfix(op, d1.value, d2.value, l1, s1, x1, e1, l2, x2, e2);
      if r.Ok? {
        GrewThrough(s, s1, s2, S(), n1, n2);
      }
    }

    // The growth of a binary expression is within that of its nodes.

    static lemma WithinFirst(s: State, n1: nat, n2: nat)
      requires Exhausted(s, 26 * n1 + 5, 8 * n1 + 2, n1 + 2)
      ensures Exhausted(s, 26 * (n1 + n2 + 1), 8 * (n1 + n2 + 1), n1 + n2 + 3)
    {
    }

    static lemma WithinSecond(s: State, s1: State, n1: nat, n2: nat)
      requires Grew(s, s1, 26 * n1 + 5, 8 * n1 + 2) && s1.free <= s.free + 1
      ensures s.nact == s1.nact
      ensures Exhausted(s1, 26 * n2, 8 * n2, n2 + 2) ==> Exhausted(s, 26 * (n1 + n2 + 1), 8 * (n1 + n2 + 1), n1 + n2 + 3)
    {
    }

    static lemma WithinLast(s: State, s1: State, s2: State, n1: nat, n2: nat)
      requires Grew(s, s1, 26 * n1 + 5, 8 * n1 + 2) && Grew(s1, s2, 26 * n2, 8 * n2) && s2.free <= s1.free + 1 <= s.free + 2
      requires n1 > 0 && n2 > 0
      ensures Later(s1, s2)
      ensures Exhausted(s2, 21, 6, 3) ==> Exhausted(s, 26 * (n1 + n2 + 1), 8 * (n1 + n2 + 1), n1 + n2 + 3)
    {
    }

    static lemma GrewThrough(s: State, s1: State, s2: State, s3: State, n1: nat, n2: nat)
      requires Grew(s, s1, 26 * n1 + 5, 8 * n1 + 2) && Grew(s1, s2, 26 * n2, 8 * n2) && Grew(s2, s3, 21, 6)
      ensures Grew(s, s3, 26 * (n1 + n2 + 1), 8 * (n1 + n2 + 1))
    {
    }

    method CompileFirst(op: BinOpr, e1: Expr, ghost e2: Expr) returns (r: Result<ExpDesc>, ghost l: Lists)
      requires Sane(S()) && Scoped(e1, nactvar)
      modifies this
      ensures r.Ok? ==> AfterInfix(op, r.value, l, S(), Context(old(S()), old(freereg), -1), e1, fold)
      ensures r.Ok? ==> Grew(old(S()), S(), 26 * Nodes(e1) + 5, 8 * Nodes(e1) + 2) && old(freereg) <= freereg <= old(freereg) + 1
      ensures r.Fail? ==> Exhausted(old(S()), 26 * Nodes(e1) + 5, 8 * Nodes(e1) + 2, Nodes(e1) + 2)
      decreases Apply2(op, e1, e2), 0, 0
    {
      hide Stands, Chains, Chain, Sane, Fits, Rep, RegsOk, AfterInfix;
      ghost var x1 := Context(S(), freereg, -1);
      var d1;
      d1, l := Compile(e1);
      if d1.Fail? {
        return Fail(d1.why), l;
      }
      RegsInFrame(d1.value, l, x1, e1);
      r, l := Infix(op, d1.value, l, x1, e1);
    }
  }
}
