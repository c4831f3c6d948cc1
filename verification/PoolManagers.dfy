/** `MemoryPoolMgr.cpp`: requests go to the pool with the smallest blocks that are large enough, or to the system. */
module PoolManagers {
  import opened Packing
  import opened BlockSets
  import opened MemoryPools

  const SIZELEN := 8
  const BASE := 8 // sizes of blocks are multiples of it

  /** What requests return, behind the size that stands in front of it. */
  datatype Ptr = Null | InPool(pool: nat, a: Addr) | InSystem(h: nat)

  function CalPoolIndex(n: nat): nat {
    n / BASE + if n % BASE > 0 then 1 else 0
  }

  lemma IndexBounds(n: nat, b: nat)
    requires b % BASE == 0
    ensures CalPoolIndex(n) <= b / BASE <==> n <= b
  {
  }

  /** The sizes of blocks, which the constructor sorts. */
  ghost predicate SizesOk(sizes: seq<nat>) {
    && sizes != []
    && (forall i :: 0 <= i < |sizes| ==> sizes[i] > 0 && sizes[i] % BASE == 0)
    && (forall i, j :: 0 <= i < j < |sizes| ==> sizes[i] < sizes[j])
  }

  /** `j` is the first pool whose blocks have `i` times `BASE` bytes. */
  ghost predicate FirstFit(sizes: seq<nat>, i: nat, j: nat) {
    j < |sizes| && i <= sizes[j] / BASE && forall k :: 0 <= k < j ==> sizes[k] / BASE < i
  }

  /** `j` is the pool with the smallest blocks of at least `n` bytes. */
  ghost predicate BestFit(sizes: seq<nat>, n: nat, j: nat) {
    j < |sizes| && n <= sizes[j] && forall k :: 0 <= k < j ==> sizes[k] < n
  }

  lemma FitsBest(sizes: seq<nat>, n: nat, j: nat)
    requires SizesOk(sizes) && FirstFit(sizes, CalPoolIndex(n), j)
    ensures BestFit(sizes, n, j)
  {
    IndexBounds(n, sizes[j]);
    forall k | 0 <= k < j ensures sizes[k] < n {
      IndexBounds(n, sizes[k]);
    }
  }

  lemma FitsOnce(sizes: seq<nat>, n: nat, i: nat, j: nat)
    requires BestFit(sizes, n, i) && BestFit(sizes, n, j)
    ensures i == j
  {
  }

  /** Exactly then the blocks of a pool lie in the bytes of their sets. */
  ghost predicate RoomFor(blockSize: nat, pageSize: nat, minNum: nat)
    requires pageSize > 0
  {
    var n := MallocSize(IDLEN + blockSize, minNum, pageSize);
    LINKLEN <= IDLEN + blockSize <= n - SETLEN && n < TWO32
  }

  ghost predicate Apiece(pools: seq<MemoryPool>) {
    forall i, j :: 0 <= i < j < |pools| ==> pools[i] != pools[j]
  }

  ghost function UserOf(raw: Bytes): Bytes {
    if |raw| < SIZELEN || |raw| < SIZELEN + Get(raw, 0, SIZELEN) then [] else raw[SIZELEN..SIZELEN + Get(raw, 0, SIZELEN)]
  }

  lemma HeadWritten(raw: Bytes, n: nat)
    requires |raw| >= SIZELEN + n && n < TWO64
    ensures var r := Put(raw, 0, Le(n, SIZELEN));
            |r| == |raw| && Get(r, 0, SIZELEN) == n && UserOf(r) == raw[SIZELEN..SIZELEN + n]
  {
    hide Put, Le, Pow256, Get;
    Widths();
    GetPut(raw, 0, n, SIZELEN);
    Elsewhere(raw, 0, Le(n, SIZELEN), SIZELEN, SIZELEN + n);
  }

  lemma Longer(raw: Bytes, n: nat)
    requires |raw| >= SIZELEN && Get(raw, 0, SIZELEN) <= n && SIZELEN + n <= |raw|
    ensures |UserOf(raw)| == Get(raw, 0, SIZELEN) && UserOf(raw) <= raw[SIZELEN..SIZELEN + n]
  {
  }

  lemma Overwritten(raw: Bytes, i: nat, b: Bytes)
    requires |raw| >= SIZELEN && |raw| >= SIZELEN + Get(raw, 0, SIZELEN) && i + |b| <= Get(raw, 0, SIZELEN)
    ensures var r := Put(raw, SIZELEN + i, b);
            Get(r, 0, SIZELEN) == Get(raw, 0, SIZELEN) && UserOf(r) == Put(UserOf(raw), i, b)
  {
    var n := Get(raw, 0, SIZELEN);
    Elsewhere(raw, SIZELEN + i, b, 0, SIZELEN);
    Inside(raw, SIZELEN, SIZELEN + n, i, b);
  }

  class MemoryPoolMgr {
    const sizes: seq<nat>
    const maxBlock: nat
    const pools: seq<MemoryPool>
    const fastIdx: array<nat>
    var system: map<nat, Bytes>

    ghost predicate Table()
      reads fastIdx
    {
      && SizesOk(sizes)
      && |pools| == |sizes| && Apiece(pools)
      && maxBlock == sizes[|sizes| - 1] < TWO64
      && fastIdx.Length == maxBlock / BASE + 1
      && forall i :: 0 <= i < fastIdx.Length ==> FirstFit(sizes, i, fastIdx[i])
    }

    ghost predicate PoolOk(j: nat)
      requires j < |pools| == |sizes|
      reads pools[j]
    {
      pools[j].Valid() && pools[j].blockSize == sizes[j] + SIZELEN
    }

    ghost predicate Base()
      reads this, fastIdx, pools
    {
      && Table()
      && (forall j :: 0 <= j < |pools| ==> PoolOk(j))
      && forall h :: h in system ==> |system[h]| >= SIZELEN
    }

    ghost predicate Live(p: Ptr)
      reads this, pools
    {
      match p
      case Null => false
      case InPool(j, a) => j < |pools| && a in pools[j].Live()
      case InSystem(h) => h in system
    }

    /** All that stands at a pointer, with the size in front. */
    ghost function Raw(p: Ptr): (b: Bytes)
      requires Base() && Live(p)
      reads this, fastIdx, pools
      ensures |b| >= SIZELEN
    {
      match p
      case InPool(j, a) =>
        assert PoolOk(j);
        pools[j].Content(a)
      case InSystem(h) => system[h]
    }

    /** The size in front fits the room, and leads to the pool. */
    ghost predicate Fits(p: Ptr, raw: Bytes)
      requires |raw| >= SIZELEN
    {
      var n := Get(raw, 0, SIZELEN);
      match p
      case Null => false
      case InPool(j, a) => 1 <= n <= maxBlock && BestFit(sizes, n, j) && |raw| == sizes[j] + SIZELEN
      case InSystem(h) => n == |raw| - SIZELEN && n > maxBlock
    }

    ghost predicate Valid()
      reads this, fastIdx, pools
    {
      Base() && forall p :: Live(p) ==> Fits(p, Raw(p))
    }

    /** What the program has at a pointer. */
    ghost function User(p: Ptr): Bytes
      requires Valid() && Live(p)
      reads this, fastIdx, pools
    {
      UserOf(Raw(p))
    }

    static method MakePools(sizes: seq<nat>, pageSize: nat, expected: nat, minNum: nat) returns (pools: seq<MemoryPool>)
      requires pageSize > 0 && forall i :: 0 <= i < |sizes| ==> RoomFor(sizes[i] + SIZELEN, pageSize, minNum)
      ensures |pools| == |sizes| && Apiece(pools)
      ensures forall i :: 0 <= i < |pools| ==> fresh(pools[i]) && pools[i].Valid() && pools[i].Live() == {} && pools[i].lastId == 0 && pools[i].blockSize == sizes[i] + SIZELEN
    {
      pools := [];
      var k := 0;
      while k < |sizes|
        invariant 0 <= k <= |sizes| && |pools| == k && Apiece(pools)
        invariant forall i :: 0 <= i < k ==> fresh(pools[i]) && pools[i].Valid() && pools[i].Live() == {} && pools[i].lastId == 0 && pools[i].blockSize == sizes[i] + SIZELEN
      {
        assert RoomFor(sizes[k] + SIZELEN, pageSize, minNum);
        var pool := new MemoryPool(sizes[k] + SIZELEN, pageSize, expected, minNum);
        pools := pools + [pool];
        k := k + 1;
      }
    }

    constructor (sizes: seq<nat>, pageSize: nat, expected: nat, minNum: nat)
      requires SizesOk(sizes) && sizes[|sizes| - 1] < TWO64
      requires pageSize > 0 && forall i :: 0 <= i < |sizes| ==> RoomFor(sizes[i] + SIZELEN, pageSize, minNum)
      ensures Valid() && this.sizes == sizes && (forall p :: !Live(p)) && forall k: nat :: k < TWO32 ==> Room(k)
    {
      hide MemoryPool.Valid, MemoryPool.Content, FirstFit, RoomFor, Apiece;
      var made := MakePools(sizes, pageSize, expected, minNum);
      this.sizes, pools, system := sizes, made, map[];
      maxBlock := sizes[|sizes| - 1];
      var index := new nat[sizes[|sizes| - 1] / BASE + 1];
      FillIndex(sizes, index);
      fastIdx := index;
    }

    static method FillIndex(sizes: seq<nat>, index: array<nat>)
      requires SizesOk(sizes) && index.Length == sizes[|sizes| - 1] / BASE + 1
      modifies index
      ensures forall i :: 0 <= i < index.Length ==> FirstFit(sizes, i, index[i])
    {
      var used := 0; // entries that have been filled
      var j := 0;
      while j < |sizes|
        invariant 0 <= j <= |sizes| && used == (if j == 0 then 0 else sizes[j - 1] / BASE + 1) <= index.Length
        invariant forall i :: 0 <= i < used ==> FirstFit(sizes, i, index[i])
      {
        assert sizes[j] <= sizes[|sizes| - 1];
        assert forall k :: 0 <= k < j ==> sizes[k] <= sizes[j - 1];
        ghost var from := used;
        while used <= sizes[j] / BASE
          invariant from <= used <= sizes[j] / BASE + 1
          invariant forall i :: 0 <= i < used ==> FirstFit(sizes, i, index[i])
        {
          index[used] := j;
          used := used + 1;
        }
        j := j + 1;
      }
    }

    // ---------- bytes ----------

    method RawStore(p: Ptr, at: nat, b: Bytes)
      requires Base() && Live(p) && at + |b| <= |Raw(p)|
      modifies `system, pools
      ensures forall j :: 0 <= j < |pools| ==> pools[j].lastId == old(pools[j].lastId)
      ensures Base() && forall q :: Live(q) <==> old(Live(q))
      ensures Raw(p) == Put(old(Raw(p)), at, b)
      ensures forall q :: Live(q) && q != p ==> Raw(q) == old(Raw(q))
    {
      hide MemoryPool.Valid, MemoryPool.Content, SizesOk, FirstFit, Put;
      match p
      case InPool(j, a) =>
        assert PoolOk(j);
        pools[j].Store(a, at, b);
      case InSystem(h) =>
        system := system[h := Put(system[h], at, b)];
    }

    function RawLoad(p: Ptr, at: nat, n: nat): (b: Bytes)
      requires Base() && Live(p) && at + n <= |Raw(p)|
      reads this, fastIdx, pools
      ensures b == Raw(p)[at..at + n]
    {
      match p
      case InPool(j, a) =>
        assert PoolOk(j);
        pools[j].Loaded(a, at, n);
        pools[j].Load(a, at, n)
      case InSystem(h) => system[h][at..at + n]
    }

    method PoolMalloc(j: nat) returns (p: Ptr)
      requires Base() && j < |pools| && pools[j].lastId + 1 < TWO32
      modifies pools[j]
      ensures pools[j].lastId <= old(pools[j].lastId) + 1
      ensures Base() && p.InPool? && p.pool == j && !old(Live(p)) && Live(p) && |Raw(p)| == sizes[j] + SIZELEN
      ensures forall q :: Live(q) <==> old(Live(q)) || q == p
      ensures forall q :: old(Live(q)) ==> Raw(q) == old(Raw(q))
    {
      hide MemoryPool.Valid, MemoryPool.Content, SizesOk, FirstFit, Put;
      assert PoolOk(j);
      var a := pools[j].Malloc();
      p := InPool(j, a);
    }

    method PoolFree(j: nat, a: Addr)
      requires Base() && Live(InPool(j, a))
      modifies pools[j]
      ensures Base() && pools[j].lastId == old(pools[j].lastId)
      ensures forall q :: Live(q) <==> old(Live(q)) && q != InPool(j, a)
      ensures forall q :: Live(q) ==> Raw(q) == old(Raw(q))
    {
      hide MemoryPool.Valid, MemoryPool.Content, SizesOk, FirstFit, Put;
      assert PoolOk(j);
      pools[j].Free(a);
    }

    method SystemFree(h: nat)
      requires Base() && h in system
      modifies `system
      ensures Base()
      ensures forall q :: Live(q) <==> old(Live(q)) && q != InSystem(h)
      ensures forall q :: Live(q) ==> Raw(q) == old(Raw(q))
    {
      hide PoolOk, SizesOk, FirstFit, Apiece, MemoryPool.Live, MemoryPool.Valid, MemoryPool.Content;
      system := system - {h};
    }

    // ---------- requests ----------

    function Lookup(n: nat): (j: nat)
      requires Table() && n <= maxBlock
      reads fastIdx
      ensures BestFit(sizes, n, j)
    {
      IndexBounds(n, maxBlock);
      FitsBest(sizes, n, fastIdx[CalPoolIndex(n)]);
      fastIdx[CalPoolIndex(n)]
    }

    /** The pools can give `k` more numbers to sets. */
    ghost predicate Room(k: nat)
      reads pools
    {
      forall j :: 0 <= j < |pools| ==> pools[j].lastId + k < TWO32
    }

    /** `n` bytes; the system gives address `h` if it is asked. */
    method Malloc(n: nat, h: nat) returns (p: Ptr)
      requires Valid() && Room(1) && 0 < n < TWO63 && h !in system
      modifies `system, pools
      ensures Valid() && !old(Live(p)) && Live(p) && |User(p)| == n
      ensures forall q :: Live(q) <==> old(Live(q)) || q == p
      ensures forall q :: old(Live(q)) ==> User(q) == old(User(q))
      ensures forall k: nat :: old(Room(k + 1)) ==> Room(k)
      ensures if n > maxBlock then p == InSystem(h) else p.InPool? && BestFit(sizes, n, p.pool)
    {
      hide PoolOk, SizesOk, FirstFit, Apiece, Put, Get, UserOf, Le, MemoryPool.Live, MemoryPool.Valid, MemoryPool.Content;
      if n > maxBlock {
        var junk: Bytes := Copies(0, n);
        HeadWritten(Copies(0, SIZELEN) + junk, n);
        system := system[h := Put(Copies(0, SIZELEN) + junk, 0, Le(n, SIZELEN))];
        p := InSystem(h);
      } else {
        var j := Lookup(n);
        p := PoolMalloc(j);
        HeadWritten(Raw(p), n);
        RawStore(p, 0, Le(n, SIZELEN));
      }
      assert Fits(p, Raw(p)) && |UserOf(Raw(p))| == n;
      forall q | Live(q) ensures Fits(q, Raw(q)) {
        if q != p {
          assert old(Live(q)) && Raw(q) == old(Raw(q));
        }
      }
    }

    /** The size in front of a pointer. */
    function SizeOf(p: Ptr): (n: nat)
      requires Valid() && Live(p)
      reads this, fastIdx, pools
      ensures n == |User(p)| && Fits(p, Raw(p)) && n == Get(Raw(p), 0, SIZELEN)
    {
      assert Fits(p, Raw(p));
      FromLe(RawLoad(p, 0, SIZELEN))
    }

    /** The size in front says where the block goes back to: the pool that it is from, or the system. */
    method Free(p: Ptr)
      requires Valid() && (p == Null || Live(p))
      modifies `system, pools
      ensures Valid()
      ensures forall k: nat :: old(Room(k)) ==> Room(k)
      ensures forall q :: Live(q) <==> old(Live(q)) && q != p
      ensures forall q :: Live(q) ==> User(q) == old(User(q))
    {
      hide PoolOk, SizesOk, FirstFit, Apiece, Put, Get, UserOf, MemoryPool.Live, MemoryPool.Valid, MemoryPool.Content;
      if p == Null {
        return;
      }
      var n := SizeOf(p);
      if n > maxBlock {
        SystemFree(p.h);
      } else {
        var j := Lookup(n);
        FitsOnce(sizes, n, j, p.pool);
        PoolFree(j, p.a);
      }
    }

    /** The program writes behind a pointer. */
    method Store(p: Ptr, i: nat, b: Bytes)
      requires Valid() && Live(p) && i + |b| <= |User(p)|
      modifies `system, pools
      ensures Valid() && forall q :: Live(q) <==> old(Live(q))
      ensures forall k: nat :: old(Room(k)) ==> Room(k)
      ensures User(p) == Put(old(User(p)), i, b)
      ensures forall q :: Live(q) && q != p ==> User(q) == old(User(q))
    {
      hide PoolOk, SizesOk, FirstFit, Apiece, Put, Get, UserOf, MemoryPool.Live, MemoryPool.Valid, MemoryPool.Content;
      ghost var n := SizeOf(p);
      Overwritten(Raw(p), i, b);
      RawStore(p, SIZELEN + i, b);
    }

    /** The size in front becomes `n`; the block has room for it. */
    method SetSize(p: Ptr, n: nat)
      requires Valid() && Live(p) && p.InPool? && |User(p)| <= n <= maxBlock && BestFit(sizes, n, p.pool)
      modifies `system, pools
      ensures Valid() && forall q :: Live(q) <==> old(Live(q))
      ensures forall k: nat :: old(Room(k)) ==> Room(k)
      ensures |User(p)| == n && old(User(p)) <= User(p)
      ensures forall q :: Live(q) && q != p ==> User(q) == old(User(q))
    {
      hide PoolOk, SizesOk, FirstFit, Apiece, Put, Get, Le, UserOf, MemoryPool.Live, MemoryPool.Valid, MemoryPool.Content;
      ghost var size := SizeOf(p);
      HeadWritten(Raw(p), n);
      Longer(Raw(p), n);
      RawStore(p, 0, Le(n, SIZELEN));
    }

    /** What was there stays, at the same address or at another one; it is never cut. */
    method Realloc(p: Ptr, n: nat, h: nat) returns (r: Ptr)
      requires Valid() && Room(1) && (p == Null || Live(p)) && n < TWO63 && (p == Null ==> n > 0) && h !in system
      modifies `system, pools
      ensures Valid() && Live(r)
      ensures p == Null ==> |User(r)| == n
      ensures p != Null ==>
                var was := old(User(p));
                |User(r)| == (if n > |was| then n else |was|) && was <= User(r)
      ensures r == p || !old(Live(r))
      ensures forall k: nat :: old(Room(k + 1)) ==> Room(k)
      ensures forall q :: Live(q) <==> (old(Live(q)) && q != p) || q == r
      ensures forall q :: Live(q) && q != r ==> User(q) == old(User(q))
    {
      hide PoolOk, SizesOk, FirstFit, Apiece, Get, UserOf, MemoryPool.Live, MemoryPool.Valid, MemoryPool.Content;
      if p != Null {
        var size := SizeOf(p);
        if size >= n {
          return p;
        }
        if n <= maxBlock {
          var j := Lookup(n);
          if Lookup(size) == j {
            FitsOnce(sizes, size, j, p.pool);
            SetSize(p, n);
            return p;
          }
        }
      }
      r := Malloc(n, h);
      if p != Null {
        Move(p, r);
      }
    }

    /** All that the program has at a pointer. */
    function UserBytes(p: Ptr): (b: Bytes)
      requires Valid() && Live(p)
      reads this, fastIdx, pools
      ensures b == User(p)
    {
      RawLoad(p, SIZELEN, SizeOf(p))
    }

    /** The content of `p` goes to the beginning of `r`, and `p` is given back. */
    method Move(p: Ptr, r: Ptr)
      requires Valid() && Live(p) && Live(r) && p != r && |User(p)| <= |User(r)|
      modifies `system, pools
      ensures Valid() && forall q :: Live(q) <==> old(Live(q)) && q != p
      ensures forall k: nat :: old(Room(k)) ==> Room(k)
      ensures |User(r)| == |old(User(r))| && old(User(p)) <= User(r)
      ensures forall q :: Live(q) && q != r ==> User(q) == old(User(q))
    {
      hide *;
      var b := UserBytes(p);
      PutFront(User(r), b);
      Store(r, 0, b);
      Free(p);
    }
  }

  lemma PutFront(mem: Bytes, b: Bytes)
    requires |b| <= |mem|
    ensures b <= Put(mem, 0, b)
  {
  }
}
