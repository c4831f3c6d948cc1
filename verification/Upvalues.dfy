/**
  Open upvalues of a thread (lfunc.c) and the reallocation of its stack (ldo.c): upvalues keep
  reading the same value when their slot goes away or moves.
 */
module Upvalues {

  datatype Value = Nil | Data(n: nat)

  /** Where the value of an upvalue is: in the stack, or in the upvalue itself. */
  datatype Place = Slot(addr: int) | Own

  /** The pointers of a call into the stack. */
  datatype CallInfo = CallInfo(func: int, top: int, isLua: bool, base: int)

  const LUAI_MAXSTACK := 1000000
  const ERRORSTACKSIZE := LUAI_MAXSTACK + 200
  const EXTRA_STACK := 5

  class UpVal {
    var v: Place
    var refcount: nat
    var next: UpVal?
    var value: Value
    /** The memory has been given back. */
    var freed: bool

    constructor (v: Place, next: UpVal?)
      ensures this.v == v && this.next == next && refcount == 0 && !freed
    {
      this.v, this.next, refcount, value, freed := v, next, 0, Nil, false;
    }
  }

  class Thread {
    /** The address of the first slot, and the slots. */
    var stack: int
    var slots: seq<Value>
    var top: int
    var calls: seq<CallInfo>
    var openupval: UpVal?
    var inTwups: bool
    /** The list of open upvalues. */
    ghost var opens: seq<UpVal>

    constructor (stack: int, size: nat)
      requires size > EXTRA_STACK
      ensures Valid() && opens == [] && this.stack == stack && |slots| == size && fresh(this)
    {
      this.stack, slots, top, calls, openupval, inTwups, opens := stack, seq(size, _ => Nil), stack, [], null, false, [];
    }

    predicate InStack(a: int)
      reads this`stack, this`slots
    {
      stack <= a < stack + |slots|
    }

    ghost predicate Linked()
      reads this`openupval, this`opens, opens
    {
      && openupval == At(opens, 0)
      && forall i :: 0 <= i < |opens| ==> opens[i].next == At(opens, i + 1)
    }

    static function At(us: seq<UpVal>, i: nat): UpVal? {
      if i < |us| then us[i] else null
    }

    /** Strictly descending by slot, so at most one for each. */
    ghost predicate Descending()
      reads this`opens, this`stack, this`slots, opens
    {
      && (forall i :: 0 <= i < |opens| ==> opens[i].v.Slot? && InStack(opens[i].v.addr))
      && forall i, j :: 0 <= i < j < |opens| ==> opens[j].v.addr < opens[i].v.addr
    }

    ghost predicate Valid()
      reads this`openupval, this`opens, this`stack, this`slots, this`inTwups, opens
    {
      Linked() && Descending() && (opens != [] ==> inTwups)
    }

    /** What an upvalue reads. */
    function Read(u: UpVal): Value
      reads this`stack, this`slots, u
      requires u.v.Slot? ==> InStack(u.v.addr)
    {
      if u.v.Slot? then slots[u.v.addr - stack] else u.value
    }

    /** `luaF_findupval`: the open upvalue of the slot, a new one if there is none. */
    method FindUpval(level: int) returns (r: UpVal)
      requires Valid() && InStack(level)
      modifies this`openupval, this`inTwups, this`opens, opens
      ensures Valid() && r in opens && r.v == Slot(level)
      ensures forall u :: u in old(opens) ==> u.v == old(u.v) && u.refcount == old(u.refcount) && u.value == old(u.value)
      ensures (exists u :: u in old(opens) && old(u.v) == Slot(level)) ==> opens == old(opens)
      ensures (forall u :: u in old(opens) ==> old(u.v) != Slot(level)) ==>
                fresh(r) && r.refcount == 0 && exists k :: 0 <= k <= |old(opens)| && opens == old(opens)[..k] + [r] + old(opens)[k..]
    {
      ghost var k := 0;
      var prev: UpVal? := null;
      var p := openupval;
      while p != null && p.v.addr >= level
        modifies {}
        invariant 0 <= k <= |opens| && p == (if k < |opens| then opens[k] else null)
        invariant prev == if k == 0 then null else opens[k - 1]
        invariant forall i :: 0 <= i < k ==> opens[i].v.addr > level
        decreases |opens| - k
      {
        if p.v.addr == level {
          return p;
        }
        prev, p := p, p.next;
        k := k + 1;
      }
      r := Insert(k, prev, level);
      if !inTwups {
        inTwups := true;
      }
    }

    /** A new upvalue is linked in at position `k` of the list. */
    method Insert(ghost k: nat, prev: UpVal?, level: int) returns (r: UpVal)
      requires Linked() && Descending() && InStack(level) && k <= |opens|
      requires prev == if k == 0 then null else opens[k - 1]
      requires forall i :: 0 <= i < k ==> opens[i].v.addr > level
      requires forall i :: k <= i < |opens| ==> opens[i].v.addr < level
      modifies this`openupval, this`opens, opens
      ensures Linked() && Descending() && fresh(r) && r.v == Slot(level) && r.refcount == 0
      ensures opens == old(opens)[..k] + [r] + old(opens)[k..]
      ensures forall u :: u in old(opens) ==> u.v == old(u.v) && u.refcount == old(u.refcount) && u.value == old(u.value)
    {
      hide Linked;
      ghost var was := opens;
      r := Link(k, prev, level);
      assert forall i :: 0 <= i < |opens| ==> opens[i] == if i < k then was[i] else if i == k then r else was[i - 1];
    }

    method Link(ghost k: nat, prev: UpVal?, level: int) returns (r: UpVal)
      requires Linked() && k <= |opens| && (forall i, j :: 0 <= i < j < |opens| ==> opens[i] != opens[j])
      requires prev == if k == 0 then null else opens[k - 1]
      modifies this`openupval, this`opens, prev
      ensures Linked() && fresh(r) && r.v == Slot(level) && r.refcount == 0
      ensures opens == old(opens)[..k] + [r] + old(opens)[k..]
      ensures prev != null ==> prev.v == old(prev.v) && prev.refcount == old(prev.refcount) && prev.value == old(prev.value)
    {
      ghost var was := opens;
      r := new UpVal(Slot(level), if prev == null then openupval else prev.next);
      if prev == null {
        openupval := r;
      } else {
        prev.next := r;
      }
      opens := opens[..k] + [r] + opens[k..];
      forall i | 0 <= i < |opens| ensures opens[i].next == At(opens, i + 1) {
        if i < k {
          assert opens[i] == was[i] && At(opens, i + 1) == if i + 1 < k then was[i + 1] else r;
        } else if i > k {
          assert opens[i] == was[i - 1] && was[i - 1].next == At(was, i) == At(opens, i + 1);
        }
      }
    }

    /** The value moves into the upvalue. */
    method CloseOne(uv: UpVal)
      requires Valid() && uv !in opens && uv.v.Slot? && InStack(uv.v.addr)
      modifies uv`v, uv`value
      ensures Valid() && uv.v == Own && uv.value == old(Read(uv))
    {
      uv.value := slots[uv.v.addr - stack];
      uv.v := Own;
    }

    method RemoveFirst()
      requires Valid() && opens != []
      modifies this`openupval, this`opens
      ensures Valid() && opens == old(opens)[1..]
    {
      hide InStack;
      ghost var was := opens;
      openupval := openupval.next;
      opens := opens[1..];
      assert forall i :: 0 <= i < |opens| ==> opens[i] == was[i + 1];
      assert openupval == At(was, 1) == At(opens, 0);
      forall i | 0 <= i < |opens| ensures opens[i].next == At(opens, i + 1) {
        assert was[i + 1].next == At(was, i + 2) == At(opens, i + 1);
      }
    }

    /** The first open upvalue is taken off the list, and closed or freed. */
    method CloseFirst()
      requires Valid() && opens != []
      modifies this`openupval, this`opens, opens[0]
      ensures Valid() && opens == old(opens)[1..] && openupval == At(opens, 0)
      ensures Left(old(opens)[0], old((opens[0].v.addr, opens[0].refcount, Read(opens[0]))))
    {
      var uv := openupval;
      assert forall i :: 1 <= i < |opens| ==> opens[i] != uv;
      RemoveFirst();
      if uv.refcount == 0 {
        uv.freed := true;
      } else {
        CloseOne(uv);
      }
      FirstOpen(opens);
    }

    /** What the open upvalues from `k` on hold: slot, references and value. */
    ghost function Snapshot(k: nat): (r: seq<(int, nat, Value)>)
      requires Descending() && k <= |opens|
      reads this, opens
      ensures |r| == |opens| - k
      ensures forall i :: 0 <= i < |r| ==> r[i] == (opens[k + i].v.addr, opens[k + i].refcount, Read(opens[k + i]))
      decreases |opens| - k
    {
      if k == |opens| then [] else [(opens[k].v.addr, opens[k].refcount, Read(opens[k]))] + Snapshot(k + 1)
    }

    /** A referenced upvalue is closed and keeps its value; an unreferenced one is freed. */
    ghost predicate Left(u: UpVal, was: (int, nat, Value))
      reads u
    {
      u.refcount == was.1 && if was.1 == 0 then u.freed else u.v == Own && u.value == was.2
    }

    /** `luaF_close`: exactly the upvalues at `level` and above, the first `k`, are taken off the list and closed or freed. */
    method Close(level: int) returns (ghost k: nat)
      requires Valid()
      modifies this`openupval, this`opens, opens
      ensures Valid() && k <= |old(opens)| && opens == old(opens)[k..]
      ensures forall i :: 0 <= i < k ==> old(Snapshot(0))[i].0 >= level && Left(old(opens)[i], old(Snapshot(0))[i])
      ensures forall i :: k <= i < |old(opens)| ==> old(Snapshot(0))[i].0 < level && Untouched(old(opens)[i], old(Snapshot(0))[i])
    {
      k := 0;
      ghost var was, held := opens, Snapshot(0);
      StartClosing(level);
      hide Closing;
      while openupval != null && openupval.v.addr >= level
        invariant 0 <= k <= |was| == |held| && Closing(was, held, k, level)
        invariant openupval != null ==> k < |was| && openupval.v.Slot?
        decreases |was| - k
      {
        CloseNext(was, held, k, level);
        k := k + 1;
      }
      EndClosing(was, held, k, level);
    }

    /** The first `k` of the upvalues `was` have left the list; `held` is what they all had. */
    ghost predicate Closing(was: seq<UpVal>, held: seq<(int, nat, Value)>, k: nat, level: int)
      reads this, opens, was
    {
      && k <= |was| == |held| && opens == was[k..] && Valid()
      && (forall i, j :: 0 <= i < j < |was| ==> was[i] != was[j])
      && (forall i :: 0 <= i < k ==> held[i].0 >= level && Left(was[i], held[i]))
      && (forall i :: k <= i < |was| ==> Untouched(was[i], held[i]) && Read(was[i]) == held[i].2)
    }

    lemma StartClosing(level: int)
      requires Valid()
      ensures Closing(opens, Snapshot(0), 0, level) && (openupval != null ==> opens != [] && openupval.v.Slot?)
    {
    }

    method CloseNext(ghost was: seq<UpVal>, ghost held: seq<(int, nat, Value)>, ghost k: nat, level: int)
      requires Closing(was, held, k, level) && openupval != null && openupval.v.Slot? && openupval.v.addr >= level
      modifies this`openupval, this`opens, opens
      ensures k < |was| && Closing(was, held, k + 1, level) && opens == old(opens)[1..]
      ensures openupval != null ==> k + 1 < |was| && openupval.v.Slot?
    {
      FirstOpen(opens);
      hide Linked, Descending, Left, Read;
      assert opens[0] == was[k];
      assert Untouched(was[k], held[k]);
      CloseFirst();
      assert was[k..][1..] == was[k + 1..];
      assert openupval != null ==> openupval == was[k + 1] && Untouched(was[k + 1], held[k + 1]);
    }

    lemma EndClosing(was: seq<UpVal>, held: seq<(int, nat, Value)>, k: nat, level: int)
      requires Closing(was, held, k, level) && (openupval != null ==> openupval.v.Slot? && openupval.v.addr < level)
      ensures Valid() && k <= |was| && opens == was[k..]
      ensures forall i :: 0 <= i < k ==> held[i].0 >= level && Left(was[i], held[i])
      ensures forall i :: k <= i < |was| ==> held[i].0 < level && Untouched(was[i], held[i])
    {
      RestIsBelow(level);
      assert forall i :: k <= i < |was| ==> was[i] == opens[i - k] && Untouched(was[i], held[i]);
    }

    ghost predicate Untouched(u: UpVal, was: (int, nat, Value))
      reads u, this
    {
      InStack(was.0) && u.v == Slot(was.0) && u.refcount == was.1
    }

    lemma FirstOpen(us: seq<UpVal>)
      requires Valid() && opens == us
      ensures openupval == At(us, 0)
    {
    }

    lemma RestIsBelow(level: int)
      requires Valid() && (openupval != null ==> openupval.v.Slot? && openupval.v.addr < level)
      ensures forall i :: 0 <= i < |opens| ==> opens[i].v.Slot? && opens[i].v.addr < level
    {
    }

    // ---------- the stack moves ----------

    function Moved(c: CallInfo, oldstack: int): CallInfo
      reads this`stack
    {
      CallInfo(c.func - oldstack + stack, c.top - oldstack + stack, c.isLua, if c.isLua then c.base - oldstack + stack else c.base)
    }

    /** Of the upvalues `us`, the first `k` point into the new stack and the others into the old one. */
    ghost predicate Moving(us: seq<UpVal>, held: seq<(int, nat, Value)>, k: nat, oldstack: int)
      reads this`stack, us
    {
      && |us| == |held|
      && forall i :: 0 <= i < |us| ==> us[i].v == Slot(if i < k then held[i].0 - oldstack + stack else held[i].0) && us[i].refcount == held[i].1
    }

    /** The next open upvalue is moved. */
    method MoveNext(up: UpVal, oldstack: int, ghost held: seq<(int, nat, Value)>, ghost k: nat)
      requires Linked() && Moving(opens, held, k, oldstack) && up == At(opens, k)
      requires forall i, j :: 0 <= i < j < |opens| ==> opens[i] != opens[j]
      modifies up`v
      ensures Linked() && Moving(opens, held, k + 1, oldstack) && k < |opens|
    {
      assert up == opens[k] && up.v == Slot(held[k].0);
      up.v := Slot(up.v.addr - oldstack + stack);
    }

    lemma NextOpen(k: nat)
      requires Linked() && k < |opens|
      ensures opens[k].next == At(opens, k + 1)
    {
    }

    method CorrectUpvalues(oldstack: int, ghost held: seq<(int, nat, Value)>)
      requires Linked() && Moving(opens, held, 0, oldstack)
      requires forall i, j :: 0 <= i < j < |opens| ==> opens[i] != opens[j]
      modifies opens
      ensures Linked() && Moving(opens, held, |held|, oldstack)
    {
      var up := openupval;
      ghost var k := 0;
      assert up == At(opens, 0);
      assert |opens| == |held|;
      hide Linked, Moving;
      while up != null
        invariant 0 <= k <= |opens| && up == At(opens, k)
        invariant Linked() && Moving(opens, held, k, oldstack)
        decreases |opens| - k
      {
        MoveNext(up, oldstack, held, k);
        NextOpen(k);
        up := up.next;
        k := k + 1;
      }
    }

    /** `correctstack`: every pointer into the old stack gets the same offset in the new one. */
    method CorrectStack(oldstack: int, ghost held: seq<(int, nat, Value)>)
      requires Linked() && Moving(opens, held, 0, oldstack)
      requires forall i, j :: 0 <= i < j < |opens| ==> opens[i] != opens[j]
      modifies this`top, this`calls, opens
      ensures Linked() && Moving(opens, held, |held|, oldstack)
      ensures top == old(top) - oldstack + stack
      ensures |calls| == |old(calls)| && forall i :: 0 <= i < |calls| ==> calls[i] == Moved(old(calls)[i], oldstack)
    {
      hide Linked, Moving;
      top := top - oldstack + stack;
      CorrectUpvalues(oldstack, held);
      var i := 0;
      while i < |calls|
        modifies this`calls
        invariant 0 <= i <= |calls| == |old(calls)|
        invariant forall j :: 0 <= j < |calls| ==> calls[j] == if j < i then Moved(old(calls)[j], oldstack) else old(calls)[j]
      {
        calls := calls[i := Moved(calls[i], oldstack)];
        i := i + 1;
      }
    }

    /** The open upvalues had the values `held` in the old stack; the new one starts with the same slots. */
    lemma MovedReads(held: seq<(int, nat, Value)>, oldstack: int, oldslots: seq<Value>)
      requires Moving(opens, held, |held|, oldstack)
      requires forall i :: 0 <= i < |held| ==> Fitting(held[i], oldstack, oldslots)
      ensures forall i :: 0 <= i < |opens| ==> KeepsReading(opens[i], held[i], oldstack)
    {
      forall i | 0 <= i < |opens| ensures KeepsReading(opens[i], held[i], oldstack) {
        assert Fitting(held[i], oldstack, oldslots);
      }
    }

    /** The slot fits into the new stack, and has the same value there. */
    ghost predicate Fitting(was: (int, nat, Value), oldstack: int, oldslots: seq<Value>)
      reads this`slots
    {
      var i := was.0 - oldstack;
      0 <= i < |slots| && i < |oldslots| && was.2 == oldslots[i] == slots[i]
    }

    lemma StartsMoving(held: seq<(int, nat, Value)>, oldstack: int)
      requires |held| == |opens| && forall i :: 0 <= i < |opens| ==> opens[i].v == Slot(held[i].0) && opens[i].refcount == held[i].1
      ensures Moving(opens, held, 0, oldstack)
    {
    }

    lemma MovedDescending(held: seq<(int, nat, Value)>, oldstack: int)
      requires Moving(opens, held, |held|, oldstack) && forall i, j :: 0 <= i < j < |held| ==> held[j].0 < held[i].0
      requires forall i :: 0 <= i < |opens| ==> KeepsReading(opens[i], held[i], oldstack)
      ensures Descending()
    {
    }

    lemma SnapshotFits(newslots: seq<Value>) returns (held: seq<(int, nat, Value)>)
      requires Valid() && forall i :: 0 <= i < |opens| ==> opens[i].v.addr - stack < |newslots|
      requires forall i :: 0 <= i < |newslots| && i < |slots| ==> newslots[i] == slots[i]
      ensures held == Snapshot(0) && |held| == |opens| && forall i :: 0 <= i < |opens| ==> opens[i].v == Slot(held[i].0) && opens[i].refcount == held[i].1
      ensures Linked() && (opens != [] ==> inTwups)
      ensures forall i, j :: 0 <= i < j < |held| ==> held[j].0 < held[i].0
      ensures forall i, j :: 0 <= i < j < |opens| ==> opens[i] != opens[j]
      ensures forall i :: 0 <= i < |held| ==>
                var k := held[i].0 - stack; 0 <= k < |newslots| && k < |slots| && held[i].2 == slots[k] == newslots[k]
    {
      hide Linked, Descending, InStack, Read;
      OpenParts();
      held := Snapshot(0);
      forall i | 0 <= i < |held|
        ensures opens[i].v == Slot(held[i].0)
        ensures 0 <= held[i].0 - stack < |newslots| && held[i].0 - stack < |slots| && held[i].2 == slots[held[i].0 - stack]
      {
        SnapshotAt(i);
      }
      forall i, j | 0 <= i < j < |held| ensures held[j].0 < held[i].0 && opens[i] != opens[j] {
        SnapshotFalls(i, j);
      }
    }

    lemma OpenParts()
      requires Valid()
      ensures Linked() && Descending() && (opens != [] ==> inTwups)
    {
      hide Linked, Descending;
    }

    lemma SnapshotAt(i: nat)
      requires Descending() && i < |opens|
      ensures opens[i].v.Slot? && 0 <= opens[i].v.addr - stack < |slots| && Read(opens[i]) == slots[opens[i].v.addr - stack]
    {
      assert InStack(opens[i].v.addr);
    }

    lemma SnapshotFalls(i: nat, j: nat)
      requires Descending() && i < j < |opens|
      ensures opens[i].v.Slot? && opens[j].v.Slot? && opens[j].v.addr < opens[i].v.addr
    {
      hide InStack;
    }

    /**
      `luaD_reallocstack` to `newsize` slots at the address `newstack`: every open upvalue reads
      the same value as before, and all pointers keep their offsets.
     */
    method ReallocStack(newstack: int, newsize: nat)
      requires Valid() && forall i :: 0 <= i < |opens| ==> opens[i].v.addr - stack < newsize
      modifies this`stack, this`slots, this`top, this`calls, opens
      ensures Valid() && stack == newstack && |slots| == newsize
      ensures forall i :: 0 <= i < newsize ==> slots[i] == if i < |old(slots)| then old(slots)[i] else Nil
      ensures |old(Snapshot(0))| == |opens| && forall i :: 0 <= i < |opens| ==> KeepsReading(opens[i], old(Snapshot(0))[i], old(stack))
      ensures top - stack == old(top - stack)
      ensures |calls| == |old(calls)| && forall i :: 0 <= i < |calls| ==> calls[i] == Moved(old(calls)[i], old(stack))
    {
      hide Linked, Moving, Snapshot, Descending, KeepsReading;
      ghost var oldslots := slots;
      var oldstack, lim := stack, |slots|;
      var newslots := if newsize <= lim then slots[..newsize] else slots + seq(newsize - lim, _ => Nil);
      ghost var held := SnapshotFits(newslots);
      stack, slots := newstack, newslots;
      StartsMoving(held, oldstack);
      CorrectStack(oldstack, held);
      assert forall i :: 0 <= i < |held| ==> Fitting(held[i], oldstack, oldslots);
      MovedReads(held, oldstack, oldslots);
      MovedDescending(held, oldstack);
    }

    /** At the same offset, with the same value. */
    ghost predicate KeepsReading(u: UpVal, was: (int, nat, Value), oldstack: int)
      reads this`stack, this`slots, u
    {
      u.v == Slot(was.0 - oldstack + stack) && InStack(u.v.addr) && u.refcount == was.1 && Read(u) == was.2
    }

    /** `luaD_growstack`: `newstack` is where the allocator puts the new stack. An overflow leaves room to handle it. */
    method GrowStack(n: nat, newstack: int) returns (r: Growth)
      requires Valid() && stack <= top <= stack + |slots|
      modifies this`stack, this`slots, this`top, this`calls, opens
      ensures Valid() && top - stack == old(top - stack)
      ensures r == ErrorInError <==> |old(slots)| > LUAI_MAXSTACK
      ensures r == ErrorInError ==> slots == old(slots)
      ensures r == Grown ==> top - stack + n + EXTRA_STACK <= |slots| <= LUAI_MAXSTACK && |slots| >= |old(slots)|
      ensures r == Overflow <==> |old(slots)| <= LUAI_MAXSTACK < top - stack + n + EXTRA_STACK
      ensures r == Overflow ==> |slots| == ERRORSTACKSIZE
      ensures r != ErrorInError ==> |old(Snapshot(0))| == |opens| && forall i :: 0 <= i < |opens| ==> KeepsReading(opens[i], old(Snapshot(0))[i], old(stack))
    {
      hide Snapshot, KeepsReading;
      var size := |slots|;
      if size > LUAI_MAXSTACK {
        return ErrorInError;
      }
      var needed := top - stack + n + EXTRA_STACK;
      var newsize := 2 * size;
      if newsize > LUAI_MAXSTACK {
        newsize := LUAI_MAXSTACK;
      }
      if newsize < needed {
        newsize := needed;
      }
      if newsize > LUAI_MAXSTACK {
        ReallocStack(newstack, ERRORSTACKSIZE);
        return Overflow;
      }
      ReallocStack(newstack, newsize);
      return Grown;
    }
  }

  datatype Growth = Grown | Overflow | ErrorInError
}
