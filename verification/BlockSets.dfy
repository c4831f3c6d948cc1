/**
  The block sets of `MemoryPool.cpp`: a header, and behind it blocks of one size whose free
  ones are threaded into a list by addresses that stand in the blocks themselves.
 */
module BlockSets {
  import opened Packing

  const SETLEN := 24 // the header of a set
  const IDLEN := 4
  const LINKLEN := 8
  const TWO32 := 0x1_0000_0000

  /** Addresses are counted from the start of the set, so that 0 is none; `mem` is what follows the header. */
  datatype BlockSet = BlockSet(id: nat, blockSize: nat, totalNum: nat, usedNum: nat, next: nat, mem: Bytes)

  // ---------- memory ----------

  function Get(mem: Bytes, at: nat, n: nat): nat
    requires at + n <= |mem|
  {
    FromLe(mem[at..at + n])
  }

  function Put(mem: Bytes, at: nat, b: Bytes): (r: Bytes)
    requires at + |b| <= |mem|
    ensures |r| == |mem|
  {
    mem[..at] + b + mem[at + |b|..]
  }

  lemma Written(mem: Bytes, at: nat, b: Bytes)
    requires at + |b| <= |mem|
    ensures Put(mem, at, b)[at..at + |b|] == b
  {
  }

  lemma GetPut(mem: Bytes, at: nat, u: nat, n: nat)
    requires at + n <= |mem| && u < Pow256(n)
    ensures Get(Put(mem, at, Le(u, n)), at, n) == u
  {
    hide Put, Le, FromLe, Pow256;
    Written(mem, at, Le(u, n));
    LeBack(u, n);
  }

  /** What lies before or behind what is written stays. */
  lemma Elsewhere(mem: Bytes, at: nat, b: Bytes, lo: nat, hi: nat)
    requires at + |b| <= |mem| && lo <= hi <= |mem| && (hi <= at || at + |b| <= lo)
    ensures Put(mem, at, b)[lo..hi] == mem[lo..hi]
  {
    var m := Put(mem, at, b);
    forall i | lo <= i < hi ensures m[i] == mem[i] {
    }
    assert forall i :: 0 <= i < hi - lo ==> m[lo..hi][i] == mem[lo..hi][i];
  }

  lemma Widths()
    ensures Pow256(IDLEN) == TWO32 && Pow256(LINKLEN) == TWO64
  {
    PowSmall(0);
    assert Pow256(1) == 0x100;
    assert Pow256(2) == 0x1_0000;
    assert Pow256(3) == 0x100_0000;
  }

  // ---------- blocks ----------

  /** Where block `k` begins behind the header. */
  function Off(k: nat, r: nat): nat {
    k * r
  }

  lemma OffStep(k: nat, r: nat)
    ensures Off(0, r) == 0 && Off(k + 1, r) == Off(k, r) + r
  {
  }

  lemma {:induction false} Apart(j: nat, k: nat, r: nat)
    requires j < k
    ensures Off(j, r) + r <= Off(k, r)
    decreases k
  {
    OffStep(k - 1, r);
    if j + 1 < k {
      Apart(j, k - 1, r);
    }
  }

  /**
    The blocks that `size` bytes are divided into: the last one is missing where the blocks
    would fill them up, and there is one even if it has no room.
   */
  function Blocks(size: nat, r: nat): (n: nat)
    requires r >= 1
    ensures n >= 1
  {
    if size < r then 1
    else
      DivideUp(size, r);
      if size % r == 0 && size > r then size / r - 1 else size / r
  }

  /** How far the blocks go. */
  function Reach(size: nat, r: nat): nat {
    if size < r then r else size
  }

  lemma DivideUp(size: nat, r: nat)
    requires 1 <= r <= size
    ensures size / r >= 1 && (size % r == 0 && size > r ==> size / r >= 2)
  {
    var t, m := size / r, size % r;
    assert size == t * r + m;
  }

  /** The loop that threads the blocks goes on from block `k` exactly as long as there is another one. */
  lemma BlocksEnd(size: nat, r: nat, k: nat)
    requires 1 <= r && k < Blocks(size, r)
    ensures Off(k, r) + 2 * r < size <==> k + 1 < Blocks(size, r)
    ensures Off(k, r) + r <= Reach(size, r)
  {
    OffStep(0, r);
    if r <= size {
      BlocksFit(size, r, k);
    }
  }

  lemma BlocksFit(size: nat, r: nat, k: nat)
    requires 1 <= r <= size && k < Blocks(size, r)
    ensures Off(k, r) + 2 * r < size <==> k + 1 < Blocks(size, r)
    ensures Off(k, r) + r <= size
  {
    var t, m, n := size / r, size % r, Blocks(size, r);
    assert size == t * r + m == Off(t, r) + m;
    DivideUp(size, r);
    hide Off;
    OffStep(n, r);
    OffStep(k, r);
    OffStep(k + 1, r);
    OffStep(0, r);
    if n < t {
      assert n + 1 == t;
    }
    if k + 1 < n {
      if k + 2 < n {
        Apart(k + 2, n, r);
      }
    }
    if k + 1 < n {
      Apart(k + 1, n, r);
    }
  }

  /** The free list, from address `a` on, goes through the blocks `list`. */
  predicate Threaded(mem: Bytes, a: nat, list: seq<nat>, r: nat)
    decreases |list|
  {
    if list == [] then a == 0
    else
      && a == SETLEN + Off(list[0], r)
      && Off(list[0], r) + LINKLEN <= |mem|
      && Threaded(mem, Get(mem, Off(list[0], r), LINKLEN), list[1..], r)
  }

  /** What is written inside a block that is not in the list does not change the list. */
  lemma {:induction false} ThreadedPut(mem: Bytes, a: nat, list: seq<nat>, r: nat, k: nat, at: nat, b: Bytes)
    requires Threaded(mem, a, list, r) && k !in list && LINKLEN <= r
    requires Off(k, r) <= at && at + |b| <= Off(k, r) + r && at + |b| <= |mem|
    ensures Threaded(Put(mem, at, b), a, list, r)
    decreases |list|
  {
    hide Off, Put;
    if list != [] {
      var j := list[0];
      if j < k {
        Apart(j, k, r);
      } else {
        Apart(k, j, r);
      }
      Elsewhere(mem, at, b, Off(j, r), Off(j, r) + LINKLEN);
      ThreadedPut(mem, Get(mem, Off(j, r), LINKLEN), list[1..], r, k, at, b);
    }
  }

  // ---------- counting ----------

  predicate Distinct(list: seq<nat>) {
    forall i, j :: 0 <= i < j < |list| ==> list[i] != list[j]
  }

  ghost function Upto(n: nat): (s: set<nat>)
    ensures |s| == n && forall k: nat :: k in s <==> k < n
  {
    if n == 0 then {} else Upto(n - 1) + {n - 1}
  }

  ghost function Members(list: seq<nat>): (s: set<nat>)
    ensures forall k :: k in s <==> k in list
  {
    set k: nat | k in list
  }

  lemma {:induction false} DistinctSize(list: seq<nat>)
    requires Distinct(list)
    ensures |Members(list)| == |list|
  {
    if list != [] {
      var rest := list[1..];
      DistinctSize(rest);
      assert Members(list) == Members(rest) + {list[0]};
    }
  }

  /** A list of different blocks below `n` is as long as `n` if and only if it has them all. */
  lemma Pigeons(list: seq<nat>, n: nat)
    requires Distinct(list) && forall k :: k in list ==> k < n
    ensures |list| <= n
    ensures |list| == n <==> forall k: nat :: k < n ==> k in list
  {
    var s := Members(list);
    DistinctSize(list);
    Subsets(s, Upto(n));
    if forall k: nat :: k < n ==> k in list {
      assert s == Upto(n);
    }
  }

  lemma {:induction false} Subsets(s: set<nat>, t: set<nat>)
    requires s <= t
    ensures |s| <= |t| && (|s| == |t| ==> s == t)
  {
    if s != {} {
      var x :| x in s;
      Subsets(s - {x}, t - {x});
    }
  }

  // ---------- sets ----------

  /** The block set `id`, whose free blocks are `list` in this order. */
  ghost predicate SetOk(s: BlockSet, id: nat, list: seq<nat>) {
    && LINKLEN <= s.blockSize <= |s.mem| < TWO32
    && s.id == id < TWO32
    && CountedAs(s)
    && Threaded(s.mem, s.next, list, s.blockSize)
    && Distinct(list)
    && (forall k :: k in list ==> k < Blocks(|s.mem|, s.blockSize))
    && s.usedNum + |list| == Blocks(|s.mem|, s.blockSize)
    && Marked(s, id, list)
  }

  /** `total_num` counts the blocks that have room; there may be none, and one block all the same. */
  predicate CountedAs(s: BlockSet)
    requires s.blockSize > 0
  {
    s.totalNum == |s.mem| / s.blockSize || (s.totalNum == 0 && |s.mem| == s.blockSize)
  }

  /** The blocks in use begin with the number of their set. */
  ghost predicate Marked(s: BlockSet, id: nat, list: seq<nat>)
    requires LINKLEN <= s.blockSize <= |s.mem|
  {
    forall k: nat :: k < Blocks(|s.mem|, s.blockSize) && k !in list ==> MarkedAt(s, id, k)
  }

  ghost predicate MarkedAt(s: BlockSet, id: nat, k: nat)
    requires LINKLEN <= s.blockSize <= |s.mem| && k < Blocks(|s.mem|, s.blockSize)
  {
    InSet(s, k);
    Get(s.mem, Off(k, s.blockSize), IDLEN) == id
  }

  /** No block goes beyond the others. */
  lemma InSet(s: BlockSet, k: nat)
    requires LINKLEN <= s.blockSize <= |s.mem| && k < Blocks(|s.mem|, s.blockSize)
    ensures Off(k, s.blockSize) + s.blockSize <= |s.mem|
  {
    BlocksEnd(|s.mem|, s.blockSize, k);
  }

  /** What the user of block `k` has. */
  function Payload(s: BlockSet, k: nat): (b: Bytes)
    requires LINKLEN <= s.blockSize <= |s.mem| && k < Blocks(|s.mem|, s.blockSize)
    ensures |b| == s.blockSize - IDLEN
  {
    InSet(s, k);
    s.mem[Off(k, s.blockSize) + IDLEN..Off(k, s.blockSize) + s.blockSize]
  }

  /** Writing inside block `k` does not touch another one. */
  lemma OthersStay(s: BlockSet, k: nat, at: nat, b: Bytes, j: nat)
    requires LINKLEN <= s.blockSize <= |s.mem| && k < Blocks(|s.mem|, s.blockSize) && j < Blocks(|s.mem|, s.blockSize) && j != k
    requires Off(k, s.blockSize) <= at && at + |b| <= Off(k, s.blockSize) + s.blockSize && at + |b| <= |s.mem|
    ensures Payload(s.(mem := Put(s.mem, at, b)), j) == Payload(s, j)
    ensures MarkedAt(s.(mem := Put(s.mem, at, b)), s.id, j) == MarkedAt(s, s.id, j)
  {
    hide Off, Put, Blocks;
    var r := s.blockSize;
    if j < k {
      Apart(j, k, r);
    } else {
      Apart(k, j, r);
    }
    InSet(s, j);
    Elsewhere(s.mem, at, b, Off(j, r), Off(j, r) + IDLEN);
    Elsewhere(s.mem, at, b, Off(j, r) + IDLEN, Off(j, r) + r);
  }

  /** Used and free blocks are `totalNum` together, unless the blocks fill the set up, or there is no room for one. */
  lemma CountsAll(s: BlockSet, id: nat, list: seq<nat>)
    requires SetOk(s, id, list)
    ensures s.usedNum + |list| == s.totalNum <==> s.totalNum > 0 && (|s.mem| % s.blockSize != 0 || |s.mem| == s.blockSize)
    ensures s.usedNum + |list| == s.totalNum || s.usedNum + |list| + 1 == s.totalNum || (s.totalNum == 0 && s.usedNum + |list| == 1)
  {
    hide Threaded, Distinct, Marked, Blocks;
    BlockCount(|s.mem|, s.blockSize);
  }

  lemma BlockCount(size: nat, r: nat)
    requires 1 <= r <= size
    ensures Blocks(size, r) == size / r <==> size % r != 0 || size == r
    ensures Blocks(size, r) == size / r || Blocks(size, r) + 1 == size / r
  {
    DivideUp(size, r);
    if size == r {
      assert size / r == 1;
    }
  }

  /** Whether a block is in use is what `usedNum` tells when it is 0. */
  lemma Unused(s: BlockSet, id: nat, list: seq<nat>)
    requires SetOk(s, id, list)
    ensures s.usedNum == 0 <==> forall k: nat :: k < Blocks(|s.mem|, s.blockSize) ==> k in list
    ensures s.next == 0 <==> list == []
  {
    hide Threaded, Marked, Off;
    Pigeons(list, Blocks(|s.mem|, s.blockSize));
    FirstFree(s, id, list);
  }

  lemma FirstFree(s: BlockSet, id: nat, list: seq<nat>)
    requires SetOk(s, id, list)
    ensures s.next == 0 <==> list == []
    ensures list != [] ==> s.next == SETLEN + Off(list[0], s.blockSize) && Off(list[0], s.blockSize) + s.blockSize <= |s.mem|
    ensures s.next < TWO64
  {
    hide Distinct, Marked, Off, Get;
    if list != [] {
      assert list[0] in list;
      InSet(s, list[0]);
    }
  }

  // ---------- taking and giving back ----------

  /** The set when its first free block has been taken and has got the number of the set. */
  function Taken(s: BlockSet): BlockSet
    requires SETLEN <= s.next && s.next - SETLEN + LINKLEN <= |s.mem|
  {
    var p := s.next - SETLEN;
    s.(next := Get(s.mem, p, LINKLEN), usedNum := s.usedNum + 1, mem := Put(s.mem, p, Le(s.id, IDLEN)))
  }

  lemma TakenOk(s: BlockSet, id: nat, list: seq<nat>)
    requires SetOk(s, id, list) && list != []
    ensures SETLEN <= s.next && s.next - SETLEN + LINKLEN <= |s.mem| && list[0] !in list[1..] && list[0] < Blocks(|s.mem|, s.blockSize)
    ensures SetOk(Taken(s), id, list[1..])
    ensures forall j: nat :: j < Blocks(|s.mem|, s.blockSize) && j != list[0] ==> Payload(Taken(s), j) == Payload(s, j)
  {
    hide Off, Put, Blocks, Le, Payload, Get, Distinct, Threaded, MarkedAt;
    var k, rest := list[0], list[1..];
    FirstFree(s, id, list);
    DistinctTail(list);
    TakenThreads(s, id, list);
    forall j: nat | j < Blocks(|s.mem|, s.blockSize) && j != k
      ensures Payload(Taken(s), j) == Payload(s, j)
      ensures j !in rest ==> MarkedAt(Taken(s), id, j)
    {
      TakenOther(s, id, list, j);
    }
  }

  lemma DistinctTail(list: seq<nat>)
    requires Distinct(list) && list != []
    ensures Distinct(list[1..]) && list[0] !in list[1..] && list[0] in list && forall j :: j in list[1..] ==> j in list
  {
  }

  /** The rest of the list is threaded, and the block that has been taken is marked. */
  lemma TakenThreads(s: BlockSet, id: nat, list: seq<nat>)
    requires SetOk(s, id, list) && list != [] && SETLEN <= s.next && s.next - SETLEN + LINKLEN <= |s.mem| && list[0] < Blocks(|s.mem|, s.blockSize)
    ensures var t := Taken(s); Threaded(t.mem, t.next, list[1..], s.blockSize) && MarkedAt(t, id, list[0])
  {
    hide Off, Put, Blocks, Le, Get, Marked, CountedAs;
    var k, r := list[0], s.blockSize;
    FirstFree(s, id, list);
    DistinctTail(list);
    ThreadedPut(s.mem, Get(s.mem, Off(k, r), LINKLEN), list[1..], r, k, Off(k, r), Le(s.id, IDLEN));
    Widths();
    GetPut(s.mem, Off(k, r), s.id, IDLEN);
  }

  lemma TakenOther(s: BlockSet, id: nat, list: seq<nat>, j: nat)
    requires SetOk(s, id, list) && list != [] && j < Blocks(|s.mem|, s.blockSize) && j != list[0]
    requires SETLEN <= s.next && s.next - SETLEN + LINKLEN <= |s.mem|
    ensures Payload(Taken(s), j) == Payload(s, j) && (j !in list[1..] ==> MarkedAt(Taken(s), id, j))
  {
    hide Off, Put, Blocks, Le, Payload, Get, MarkedAt, Threaded, Distinct;
    var k, b := list[0], Le(s.id, IDLEN);
    FirstFree(s, id, list);
    assert k in list;
    OthersStay(s, k, Off(k, s.blockSize), b, j);
    SamePayload(Taken(s), s.(mem := Put(s.mem, Off(k, s.blockSize), b)), j);
    if j !in list[1..] {
      assert MarkedAt(s, id, j);
    }
  }

  lemma SamePayload(s: BlockSet, t: BlockSet, k: nat)
    requires s.mem == t.mem && s.blockSize == t.blockSize && LINKLEN <= s.blockSize <= |s.mem| && k < Blocks(|s.mem|, s.blockSize)
    ensures Payload(s, k) == Payload(t, k) && forall id :: MarkedAt(s, id, k) == MarkedAt(t, id, k)
  {
  }

  /** The set when the block at `at` has been given back. */
  function Given(s: BlockSet, at: nat): BlockSet
    requires at + LINKLEN <= |s.mem| && s.usedNum > 0
  {
    s.(next := SETLEN + at, usedNum := s.usedNum - 1, mem := Put(s.mem, at, Le(s.next, LINKLEN)))
  }

  lemma GivenOk(s: BlockSet, id: nat, list: seq<nat>, k: nat)
    requires SetOk(s, id, list) && k < Blocks(|s.mem|, s.blockSize) && k !in list
    ensures s.usedNum > 0 && Off(k, s.blockSize) + LINKLEN <= |s.mem|
    ensures SetOk(Given(s, Off(k, s.blockSize)), id, [k] + list)
    ensures forall j: nat :: j < Blocks(|s.mem|, s.blockSize) && j != k ==> Payload(Given(s, Off(k, s.blockSize)), j) == Payload(s, j)
  {
    var r, b := s.blockSize, Le(s.next, LINKLEN);
    hide Off, Put, Blocks, Le, Payload, Get;
    InSet(s, k);
    Unused(s, id, list);
    FirstFree(s, id, list);
    Widths();
    GetPut(s.mem, Off(k, r), s.next, LINKLEN);
    ThreadedPut(s.mem, s.next, list, r, k, Off(k, r), b);
    var g, t := Given(s, Off(k, r)), s.(mem := Put(s.mem, Off(k, r), b));
    assert ([k] + list)[1..] == list;
    forall j: nat | j < Blocks(|s.mem|, r) && j != k
      ensures Payload(g, j) == Payload(s, j)
      ensures j !in list ==> MarkedAt(g, id, j)
    {
      OthersStay(s, k, Off(k, r), b, j);
      SamePayload(g, t, j);
      if j !in list {
        assert MarkedAt(s, id, j);
      }
    }
  }

  /** The set when the user of block `k` has written `b` at `i`. */
  function Stored(s: BlockSet, k: nat, i: nat, b: Bytes): BlockSet
    requires LINKLEN <= s.blockSize <= |s.mem| && k < Blocks(|s.mem|, s.blockSize) && i + |b| <= s.blockSize - IDLEN
  {
    InSet(s, k);
    s.(mem := Put(s.mem, Off(k, s.blockSize) + IDLEN + i, b))
  }

  lemma StoredOk(s: BlockSet, id: nat, list: seq<nat>, k: nat, i: nat, b: Bytes)
    requires SetOk(s, id, list) && k < Blocks(|s.mem|, s.blockSize) && k !in list && i + |b| <= s.blockSize - IDLEN
    ensures SetOk(Stored(s, k, i, b), id, list)
    ensures Payload(Stored(s, k, i, b), k) == Put(Payload(s, k), i, b)
    ensures forall j: nat :: j < Blocks(|s.mem|, s.blockSize) && j != k ==> Payload(Stored(s, k, i, b), j) == Payload(s, j)
  {
    hide Off, Blocks, Put, Payload, Get, MarkedAt, Distinct, Threaded;
    var at, t := Off(k, s.blockSize) + IDLEN + i, Stored(s, k, i, b);
    InSet(s, k);
    StoredHere(s, k, i, b);
    ThreadedPut(s.mem, s.next, list, s.blockSize, k, at, b);
    forall j: nat | j < Blocks(|s.mem|, s.blockSize)
      ensures j != k ==> Payload(t, j) == Payload(s, j)
      ensures j !in list ==> MarkedAt(t, id, j)
    {
      StoredOther(s, id, list, k, at, b, j);
    }
  }

  lemma StoredHere(s: BlockSet, k: nat, i: nat, b: Bytes)
    requires LINKLEN <= s.blockSize <= |s.mem| && k < Blocks(|s.mem|, s.blockSize) && i + |b| <= s.blockSize - IDLEN
    ensures Payload(Stored(s, k, i, b), k) == Put(Payload(s, k), i, b)
  {
    hide Off, Blocks, Put;
    InSet(s, k);
    Inside(s.mem, Off(k, s.blockSize) + IDLEN, Off(k, s.blockSize) + s.blockSize, i, b);
  }

  lemma StoredOther(s: BlockSet, id: nat, list: seq<nat>, k: nat, at: nat, b: Bytes, j: nat)
    requires SetOk(s, id, list) && k < Blocks(|s.mem|, s.blockSize) && j < Blocks(|s.mem|, s.blockSize)
    requires Off(k, s.blockSize) + IDLEN <= at && at + |b| <= Off(k, s.blockSize) + s.blockSize && at + |b| <= |s.mem|
    ensures var t := s.(mem := Put(s.mem, at, b));
            (j != k ==> Payload(t, j) == Payload(s, j)) && (j !in list ==> MarkedAt(t, id, j))
  {
    hide Off, Blocks, Put, Payload, Threaded, Distinct;
    if j !in list {
      assert MarkedAt(s, id, j);
    }
    if j != k {
      OthersStay(s, k, at, b, j);
    } else {
      Elsewhere(s.mem, at, b, Off(k, s.blockSize), Off(k, s.blockSize) + IDLEN);
    }
  }

  lemma Inside(mem: Bytes, lo: nat, hi: nat, i: nat, b: Bytes)
    requires lo <= hi <= |mem| && i + |b| <= hi - lo
    ensures Put(mem, lo + i, b)[lo..hi] == Put(mem[lo..hi], i, b)
  {
  }

  // ---------- making a set ----------

  /** Bytes that are asked for: the least number of pages with room for the header and `minNum` blocks. */
  function MallocSize(r: nat, minNum: nat, page: nat): (n: nat)
    requires page > 0
    ensures SETLEN + r * minNum <= n < SETLEN + r * minNum + page && exists k: nat :: n == Off(k, page)
  {
    var need := SETLEN + r * minNum;
    var pages := need / page + if need % page > 0 then 1 else 0;
    Pages(need, page, pages);
    assert pages * page == Off(pages, page);
    pages * page
  }

  lemma Pages(need: nat, page: nat, pages: nat)
    requires page > 0 && pages == need / page + if need % page > 0 then 1 else 0
    ensures need <= pages * page < need + page
  {
    var q, m := need / page, need % page;
    assert need == q * page + m;
    assert pages * page == q * page + (if m > 0 then page else 0);
  }

  /** All blocks that a set of `size` bytes behind its header gives out lie in these bytes. */
  ghost predicate AllInside(size: nat, r: nat)
    requires r >= 1
  {
    forall k: nat :: k < Blocks(size, r) ==> InsideAt(size, r, k)
  }

  ghost predicate InsideAt(size: nat, r: nat, k: nat) {
    Off(k, r) + r <= size
  }

  /** They do if and only if the pages leave room for one block. */
  lemma InsideExactly(r: nat, minNum: nat, page: nat)
    requires r >= 1 && page > 0
    ensures var size := MallocSize(r, minNum, page) - SETLEN;
            AllInside(size, r) <==> r <= size
  {
    hide MallocSize;
    InsideRoom(MallocSize(r, minNum, page) - SETLEN, r);
  }

  lemma InsideRoom(size: nat, r: nat)
    requires r >= 1
    ensures AllInside(size, r) <==> r <= size
  {
    hide Blocks;
    if r <= size {
      forall k: nat | k < Blocks(size, r) ensures InsideAt(size, r, k) {
        BlocksEnd(size, r, k);
      }
    } else {
      OffStep(0, r);
      assert !InsideAt(size, r, 0);
    }
  }

  /** A set that asks for at least one block has room for it. */
  lemma RoomForOne(r: nat, minNum: nat, page: nat)
    requires page > 0 && minNum >= 1
    ensures r <= MallocSize(r, minNum, page) - SETLEN
  {
    hide MallocSize;
    assert r * minNum == r * (minNum - 1) + r;
  }

  ghost function From(i: nat, n: nat): (list: seq<nat>)
    requires i <= n
    ensures |list| == n - i && forall k :: 0 <= k < n - i ==> list[k] == i + k
  {
    seq(n - i, k => i + k)
  }

  /** Blocks from `i` up to `n` are linked one to the next. */
  ghost predicate Chain(mem: Bytes, i: nat, n: nat, r: nat) {
    forall k: nat :: i <= k < n ==> LinkedAt(mem, k, r)
  }

  ghost predicate LinkedAt(mem: Bytes, k: nat, r: nat) {
    Off(k, r) + LINKLEN <= |mem| && Get(mem, Off(k, r), LINKLEN) == SETLEN + Off(k + 1, r)
  }

  lemma {:induction false} ChainThreads(mem: Bytes, i: nat, n: nat, r: nat)
    requires i < n && Chain(mem, i, n - 1, r)
    requires Off(n - 1, r) + LINKLEN <= |mem| && Get(mem, Off(n - 1, r), LINKLEN) == 0
    ensures Threaded(mem, SETLEN + Off(i, r), From(i, n), r)
    decreases n - i
  {
    hide Off, Get;
    var list := From(i, n);
    if i + 1 < n {
      assert LinkedAt(mem, i, r);
      ChainThreads(mem, i + 1, n, r);
      assert list[1..] == From(i + 1, n);
    } else {
      assert list == [i] && list[1..] == [];
    }
  }

  /**
    The set that `Malloc` makes from `size` bytes behind the header, with all its blocks in the
    list. Memory is given as far as the blocks reach, which may be further than `size`. With no
    byte behind the header the loop does not run, and what is in the first block stays.
   */
  method NewSet(id: nat, r: nat, size: nat, junk: Bytes) returns (s: BlockSet)
    requires LINKLEN <= r < TWO32 && size < TWO32 && id < TWO32 && |junk| == Reach(size, r)
    ensures s.blockSize == r && |s.mem| == Reach(size, r) && s.usedNum == 0 && s.totalNum == size / r && s.next == SETLEN && s.id == id
    ensures Blocks(|s.mem|, r) == Blocks(size, r) && (size > 0 ==> SetOk(s, id, From(0, Blocks(|s.mem|, r))))
    ensures size == 0 ==> s.mem == junk
    ensures AllInside(size, r) <==> r <= size
  {
    hide Off, Get, Put, Le, Blocks, Chain, Threaded, SetOk, Reach, AllInside, CountedAs, From;
    ReachIs(size, r);
    InsideRoom(size, r);
    var mem := ThreadBlocks(r, size, junk);
    s := BlockSet(id, r, size / r, 0, SETLEN, mem);
    ReachCounts(s, size);
    if size > 0 {
      AllFree(s, id, Blocks(size, r));
    }
  }

  /** The loop: `p` goes from block to block, as long as there is another one behind the next. */
  method ThreadBlocks(r: nat, size: nat, junk: Bytes) returns (mem: Bytes)
    requires LINKLEN <= r && |junk| == Reach(size, r) < TWO32
    ensures |mem| == |junk| && (size == 0 ==> mem == junk)
    ensures size > 0 ==> Threaded(mem, SETLEN, From(0, Blocks(size, r)), r)
  {
    hide Off, Get, Put, Le, Blocks, Chain, Threaded, Reach, From;
    mem := junk;
    var p, q := SETLEN, SETLEN + size;
    ghost var n := Blocks(size, r);
    ghost var k: nat := 0;
    ChainStarts(mem, r);
    var more := true;
    while p < q && more
      invariant |mem| == Reach(size, r) && p == SETLEN + Off(k, r)
      invariant k < n && Chain(mem, 0, k, r) && (size > 0 ==> p < q) && (size == 0 ==> mem == junk)
      invariant !more ==> k == n - 1 && Off(k, r) + LINKLEN <= |mem| && Get(mem, Off(k, r), LINKLEN) == 0
      decreases more, n - k
    {
      BlocksEnd(size, r, k);
      OffStep(k, r);
      if p + 2 * r < q {
        Linked(mem, k, r);
        mem := Put(mem, p - SETLEN, Le(p + r, LINKLEN));
        p, k := p + r, k + 1;
      } else {
        LinkedLast(mem, k, r);
        mem := Put(mem, p - SETLEN, Le(0, LINKLEN));
        more := false;
      }
    }
    if size > 0 {
      ChainThreads(mem, 0, n, r);
    }
  }

  lemma ReachIs(size: nat, r: nat)
    requires r >= 1
    ensures r <= Reach(size, r) && (size < TWO32 && r < TWO32 ==> Reach(size, r) < TWO32)
  {
  }

  lemma ChainStarts(mem: Bytes, r: nat)
    ensures Chain(mem, 0, 0, r) && Off(0, r) == 0
  {
  }

  /** Block `k` is linked to the next one. */
  lemma Linked(mem: Bytes, k: nat, r: nat)
    requires Chain(mem, 0, k, r) && LINKLEN <= r && Off(k, r) + r <= |mem| < TWO32
    ensures Chain(Put(mem, Off(k, r), Le(SETLEN + Off(k, r) + r, LINKLEN)), 0, k + 1, r)
  {
    hide Off, Get, Put, Le;
    var next := SETLEN + Off(k, r) + r;
    OffStep(k, r);
    Widths();
    GetPut(mem, Off(k, r), next, LINKLEN);
    ChainKept(mem, k, r, Le(next, LINKLEN));
    assert LinkedAt(Put(mem, Off(k, r), Le(next, LINKLEN)), k, r);
  }

  lemma LinkedLast(mem: Bytes, k: nat, r: nat)
    requires Chain(mem, 0, k, r) && LINKLEN <= r && Off(k, r) + r <= |mem|
    ensures var m := Put(mem, Off(k, r), Le(0, LINKLEN));
            Chain(m, 0, k, r) && Get(m, Off(k, r), LINKLEN) == 0
  {
    hide Off, Get, Put, Le;
    Widths();
    GetPut(mem, Off(k, r), 0, LINKLEN);
    ChainKept(mem, k, r, Le(0, LINKLEN));
  }

  lemma ReachCounts(s: BlockSet, size: nat)
    requires s.blockSize > 0 && |s.mem| == Reach(size, s.blockSize) && s.totalNum == size / s.blockSize
    ensures CountedAs(s) && Blocks(|s.mem|, s.blockSize) == Blocks(size, s.blockSize)
  {
    var r := s.blockSize;
    if size < r {
      assert size / r == 0;
      assert r / r == 1;
    }
  }

  lemma AllFree(s: BlockSet, id: nat, n: nat)
    requires LINKLEN <= s.blockSize <= |s.mem| < TWO32 && s.id == id < TWO32 && CountedAs(s) && s.usedNum == 0
    requires n == Blocks(|s.mem|, s.blockSize) && Threaded(s.mem, s.next, From(0, n), s.blockSize)
    ensures SetOk(s, id, From(0, n))
  {
    hide Threaded, Blocks, MarkedAt;
    var list := From(0, n);
    forall k: nat | k < n ensures k in list {
      assert list[k] == k;
    }
  }

  lemma ChainKept(mem: Bytes, k: nat, r: nat, b: Bytes)
    requires Chain(mem, 0, k, r) && LINKLEN <= r && |b| == LINKLEN && Off(k, r) + LINKLEN <= |mem|
    ensures Chain(Put(mem, Off(k, r), b), 0, k, r)
  {
    hide Off, Put;
    forall j: nat | j < k ensures LinkedAt(Put(mem, Off(k, r), b), j, r) {
      assert LinkedAt(mem, j, r);
      Apart(j, k, r);
      Elsewhere(mem, Off(k, r), b, Off(j, r), Off(j, r) + LINKLEN);
    }
  }

  /**
    Blocks of 20 bytes on pages of 32, with 0 as the least number of blocks: 8 bytes are left
    behind the header. What the user of the one block writes from its fifth byte on replaces
    what is in memory behind the set.
   */
  method Overrun(junk: Bytes, b: Bytes) returns (s: BlockSet)
    requires |junk| == 20 && |b| == 16
    ensures MallocSize(20, 0, 32) - SETLEN == 8 && !AllInside(8, 20)
    ensures |s.mem| == 20 && s.mem[8..] == b[4..]
  {
    hide Off, Put, Le, Get;
    OnePage();
    InsideExactly(20, 0, 32);
    s := NewSet(1, 20, 8, junk);
    TakenOk(s, 1, From(0, 1));
    OffStep(0, 20);
    s := Taken(s);
    StoredOk(s, 1, [], 0, 0, b);
    s := Stored(s, 0, 0, b);
    WholePayload(s, b);
  }

  lemma OnePage()
    ensures MallocSize(20, 0, 32) == 32
  {
  }

  lemma WholePayload(s: BlockSet, b: Bytes)
    requires |b| == 16 && s.blockSize == |s.mem| == 20
    requires exists c: Bytes :: |c| == 16 && Payload(s, 0) == Put(c, 0, b)
    ensures s.mem[8..] == b[4..]
  {
    OffStep(0, 20);
    assert Payload(s, 0) == b;
    assert s.mem[8..] == s.mem[4..20][4..];
  }
}
