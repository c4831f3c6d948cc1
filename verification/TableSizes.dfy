/**
  The choice of the array size in `ltable.c`: how integer keys are counted in
  slices between powers of two, and what `computesizes` makes of the counts.
 */
module TableSizes {

  const MAXABITS := 31

  function Pow2(n: nat): (r: nat)
    ensures r >= 1
  {
    if n == 0 then 1 else 2 * Pow2(n - 1)
  }

  lemma {:induction false} Pow2Monotone(a: nat, b: nat)
    requires a <= b
    ensures Pow2(a) <= Pow2(b)
    ensures a < b ==> 2 * Pow2(a) <= Pow2(b)
    decreases b
  {
    if a < b {
      Pow2Monotone(a, b - 1);
    }
  }

  lemma {:induction false} Pow2Sum(a: nat, b: nat)
    ensures Pow2(a + b) == Pow2(a) * Pow2(b)
    decreases b
  {
    if b > 0 {
      Pow2Sum(a, b - 1);
    }
  }

  /** Slice `lg` holds the integers above this and up to 2^lg. */
  function Low(lg: nat): nat {
    if lg == 0 then 0 else Pow2(lg - 1)
  }

  // ---------- `luaO_ceillog2` ----------

  /** The table `log_2`: the number of bits of `x`. */
  function Bits(x: nat): (b: nat)
    ensures x < Pow2(b) && (b > 0 ==> Pow2(b - 1) <= x)
  {
    if x == 0 then 0 else 1 + Bits(x / 2)
  }

  lemma BitsShift(x: nat)
    requires x >= 256
    ensures Bits(x) == 8 + Bits(x / 256)
  {
    var x1, x2, x3, x4, x5, x6, x7 := x / 2, x / 4, x / 8, x / 16, x / 32, x / 64, x / 128;
    assert Bits(x) == 1 + Bits(x1) && x1 / 2 == x2;
    assert Bits(x1) == 1 + Bits(x2) && x2 / 2 == x3;
    assert Bits(x2) == 1 + Bits(x3) && x3 / 2 == x4;
    assert Bits(x3) == 1 + Bits(x4) && x4 / 2 == x5;
    assert Bits(x4) == 1 + Bits(x5) && x5 / 2 == x6;
    assert Bits(x5) == 1 + Bits(x6) && x6 / 2 == x7;
    assert Bits(x6) == 1 + Bits(x7) && x7 / 2 == x / 256;
  }

  /** `luaO_ceillog2`: the slice that `x` falls into. */
  method CeilLog2(x0: nat) returns (l: nat)
    requires x0 >= 1
    ensures Low(l) < x0 <= Pow2(l)
  {
    l := 0;
    var x := x0 - 1;
    while x >= 256
      invariant 0 <= x && l + Bits(x) == Bits(x0 - 1)
    {
      BitsShift(x);
      l := l + 8;
      x := x / 256;
    }
    l := l + Bits(x);
  }

  lemma SliceOrder(x: int, a: nat, b: nat)
    requires x <= Pow2(a) && Low(b) < x
    ensures b <= a
  {
    if a < b {
      Pow2Monotone(a, b - 1);
    }
  }

  lemma SliceUnique(x: int, a: nat, b: nat)
    requires Low(a) < x <= Pow2(a) && Low(b) < x <= Pow2(b)
    ensures a == b
  {
    SliceOrder(x, a, b);
    SliceOrder(x, b, a);
  }

  // ---------- counting ----------

  ghost function Between(s: set<int>, lo: int, hi: int): set<int> {
    set k | k in s && lo < k <= hi
  }

  /** How many integers of `s` are above `lo` and up to `hi`. */
  ghost function CountIn(s: set<int>, lo: int, hi: int): nat {
    |Between(s, lo, hi)|
  }

  lemma CountSplit(s: set<int>, a: int, b: int, c: int)
    requires a <= b <= c
    ensures CountIn(s, a, c) == CountIn(s, a, b) + CountIn(s, b, c)
  {
    assert Between(s, a, c) == Between(s, a, b) + Between(s, b, c);
  }

  lemma {:induction false} CountBound(s: set<int>, a: int, b: int)
    requires a <= b
    ensures CountIn(s, a, b) <= b - a
    decreases b - a
  {
    if a == b {
      assert Between(s, a, b) == {};
    } else {
      CountBound(s, a, b - 1);
      CountSplit(s, a, b - 1, b);
      assert Between(s, b - 1, b) <= {b};
      if Between(s, b - 1, b) != {} {
        assert Between(s, b - 1, b) == {b};
      }
    }
  }

  lemma CountAdd(s: set<int>, k: int, lo: int, hi: int)
    requires k !in s
    ensures CountIn(s + {k}, lo, hi) == CountIn(s, lo, hi) + if lo < k <= hi then 1 else 0
  {
    if lo < k <= hi {
      assert Between(s + {k}, lo, hi) == Between(s, lo, hi) + {k};
    } else {
      assert Between(s + {k}, lo, hi) == Between(s, lo, hi);
    }
  }

  /** `nums[lg]` is the number of keys of `s` in slice `lg`. */
  ghost predicate Counted(nums: seq<nat>, s: set<int>) {
    |nums| == MAXABITS + 1 && forall lg :: 0 <= lg <= MAXABITS ==> nums[lg] == CountIn(s, Low(lg), Pow2(lg))
  }

  lemma CountedNone()
    ensures Counted(seq(MAXABITS + 1, _ => 0), {})
  {
    forall lg | 0 <= lg <= MAXABITS ensures CountIn({}, Low(lg), Pow2(lg)) == 0 {
      assert Between({}, Low(lg), Pow2(lg)) == {};
    }
  }

  lemma CountedAdd(nums: seq<nat>, s: set<int>, k: int, l: nat)
    requires Counted(nums, s) && k !in s && Low(l) < k <= Pow2(l) && l <= MAXABITS
    ensures Counted(nums[l := nums[l] + 1], s + {k})
  {
    forall lg | 0 <= lg <= MAXABITS ensures nums[l := nums[l] + 1][lg] == CountIn(s + {k}, Low(lg), Pow2(lg)) {
      CountAdd(s, k, Low(lg), Pow2(lg));
      if Low(lg) < k <= Pow2(lg) {
        SliceUnique(k, lg, l);
      }
    }
  }

  lemma CountedSame(nums: seq<nat>, s: set<int>, k: int)
    requires Counted(nums, s) && (k <= 0 || k > Pow2(MAXABITS))
    ensures Counted(nums, s + {k}) && CountIn(s + {k}, 0, Pow2(MAXABITS)) == CountIn(s, 0, Pow2(MAXABITS))
  {
    hide CountIn, Pow2, Low;
    forall lg | 0 <= lg <= MAXABITS ensures CountIn(s + {k}, Low(lg), Pow2(lg)) == CountIn(s, Low(lg), Pow2(lg)) {
      Pow2Monotone(lg, MAXABITS);
      OutsideCount(s, k, Low(lg), Pow2(lg));
    }
    OutsideCount(s, k, 0, Pow2(MAXABITS));
  }

  lemma OutsideCount(s: set<int>, k: int, lo: int, hi: int)
    requires k <= lo || k > hi
    ensures CountIn(s + {k}, lo, hi) == CountIn(s, lo, hi)
  {
    assert Between(s + {k}, lo, hi) == Between(s, lo, hi);
  }

  // ---------- `computesizes` ----------

  /** More than half of the slots of an array of size `n` would be in use. */
  ghost predicate Worthwhile(s: set<int>, n: nat) {
    CountIn(s, 0, n) > n / 2
  }

  ghost predicate IsPow2(n: nat) {
    exists i :: 0 <= i <= MAXABITS && n == Pow2(i)
  }

  /** The largest power of two that is worthwhile as array size, or 0. */
  ghost predicate Optimal(s: set<int>, n: nat) {
    && (n == 0 || (IsPow2(n) && Worthwhile(s, n)))
    && (forall i :: 0 <= i <= MAXABITS && Pow2(i) > n ==> !Worthwhile(s, Pow2(i)))
  }

  lemma CountAccumulates(nums: seq<nat>, s: set<int>, i: nat)
    requires Counted(nums, s) && i <= MAXABITS
    ensures CountIn(s, 0, Pow2(i)) == CountIn(s, 0, Low(i)) + nums[i]
    ensures CountIn(s, 0, Low(i)) <= Pow2(i) / 2
  {
    CountSplit(s, 0, Low(i), Pow2(i));
    CountBound(s, 0, Low(i));
  }

  lemma TooFew(s: set<int>, i: nat, j: nat, all: nat)
    requires all == CountIn(s, 0, Pow2(MAXABITS)) && all <= Pow2(i) / 2 && i <= j <= MAXABITS
    ensures !Worthwhile(s, Pow2(j))
  {
    Pow2Monotone(i, j);
    Pow2Monotone(j, MAXABITS);
    CountSplit(s, 0, Pow2(j), Pow2(MAXABITS));
  }

  /** Doubling an unsigned int. */
  function Twice(t: nat): nat {
    t * 2 % 0x1_0000_0000
  }

  /** The candidate 2^i has been looked at. */
  lemma Candidate(nums: seq<nat>, s: set<int>, i: nat, a: nat, optimal: nat)
    requires Counted(nums, s) && i <= MAXABITS && a == CountIn(s, 0, Low(i)) && (i > 0 ==> optimal < Pow2(i)) && (i == 0 ==> optimal == 0)
    ensures IsPow2(Pow2(i)) && Low(i + 1) == Pow2(i) < Pow2(i + 1)
    ensures Twice(Pow2(i)) == if i < MAXABITS then Pow2(i + 1) else 0
    ensures a + nums[i] == CountIn(s, 0, Pow2(i))
    ensures Worthwhile(s, Pow2(i)) <==> nums[i] > 0 && a + nums[i] > Pow2(i) / 2
  {
    CountAccumulates(nums, s, i);
    Pow2Wraps(i);
  }

  /** `computesizes`: `twotoi` is an unsigned int, which wraps to 0 after 2^31. */
  method ComputeSizes(nums: seq<nat>, pna: nat, ghost s: set<int>) returns (optimal: nat, na: nat)
    requires Counted(nums, s) && pna == CountIn(s, 0, Pow2(MAXABITS))
    ensures Optimal(s, optimal) && na == CountIn(s, 0, optimal) && na <= optimal
  {
    hide CountIn, IsPow2, Twice, Counted, LookedAt, Worthwhile, Optimal, Low, Pow2;
    var i, twotoi, a := 0, 1, 0;
    na, optimal := 0, 0;
    NoneBelow(nums, s);
    while twotoi > 0 && pna > twotoi / 2
      invariant 0 <= i <= MAXABITS + 1 && twotoi == (if i <= MAXABITS then Pow2(i) else 0)
      invariant a == CountIn(s, 0, Low(i)) && |nums| == MAXABITS + 1
      invariant na == CountIn(s, 0, optimal) && (optimal == 0 || (IsPow2(optimal) && Worthwhile(s, optimal)))
      invariant LookedAt(s, i, optimal) && if i == 0 then optimal == 0 else optimal < Pow2(i)
      decreases MAXABITS + 1 - i
    {
      Candidate(nums, s, i, a, optimal);
      ghost var before := optimal;
      if nums[i] > 0 {
        a := a + nums[i];
        if a > twotoi / 2 {
          optimal := twotoi;
          na := a;
        }
      }
      LookedOn(s, i, before, optimal);
      i := i + 1;
      twotoi := Twice(twotoi);
    }
    AllLookedAt(s, i, optimal, pna);
    CountBound(s, 0, optimal);
  }

  /** No candidate below 2^i and above `optimal` is worthwhile. */
  ghost predicate LookedAt(s: set<int>, i: nat, optimal: nat) {
    forall j :: 0 <= j < i && Pow2(j) > optimal ==> !Worthwhile(s, Pow2(j))
  }

  lemma LookedOn(s: set<int>, i: nat, before: nat, optimal: nat)
    requires LookedAt(s, i, before)
    requires if Worthwhile(s, Pow2(i)) then optimal == Pow2(i) else optimal == before
    ensures LookedAt(s, i + 1, optimal)
  {
    forall j | 0 <= j < i + 1 && Pow2(j) > optimal ensures !Worthwhile(s, Pow2(j)) {
      if j < i && optimal == Pow2(i) {
        Pow2Monotone(j, i);
      }
    }
  }

  lemma AllLookedAt(s: set<int>, i: nat, optimal: nat, pna: nat)
    requires pna == CountIn(s, 0, Pow2(MAXABITS)) && LookedAt(s, i, optimal) && (optimal == 0 || (IsPow2(optimal) && Worthwhile(s, optimal)))
    requires i > MAXABITS || pna <= Pow2(i) / 2
    ensures Optimal(s, optimal)
  {
    forall j | 0 <= j <= MAXABITS && Pow2(j) > optimal ensures !Worthwhile(s, Pow2(j)) {
      if j >= i {
        TooFew(s, i, j, pna);
      }
    }
  }

  lemma NoneBelow(nums: seq<nat>, s: set<int>)
    requires Counted(nums, s)
    ensures CountIn(s, 0, 0) == 0 && Low(0) == 0 && Pow2(0) == 1 && |nums| == MAXABITS + 1 && LookedAt(s, 0, 0)
  {
    assert Between(s, 0, 0) == {};
  }

  lemma Pow2Wraps(i: nat)
    requires i <= MAXABITS
    ensures Twice(Pow2(i)) == if i < MAXABITS then Pow2(i + 1) else 0
    ensures Pow2(i) < Pow2(i + 1)
  {
    Pow2At31();
    if i < MAXABITS {
      Pow2Monotone(i, MAXABITS - 1);
    }
  }

  lemma Pow2At31()
    ensures Pow2(31) == 0x8000_0000 && Pow2(30) == 0x4000_0000
  {
    assert Pow2(8) == 256;
    Pow2Sum(8, 8);
    assert Pow2(16) == 65536;
    Pow2Sum(16, 8);
    assert Pow2(6) == 64;
    Pow2Sum(24, 6);
    assert Pow2(31) == 2 * Pow2(30);
  }
}
