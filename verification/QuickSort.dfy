/**
  `table.sort` (ltablib.c): quicksort in place, with the ends of the interval as sentinels of
  the partition loops, for any comparison function.
 */
module QuickSort {

  const RANLIMIT := 100
  const INT_MAX := 0x7FFF_FFFF

  ghost predicate StrictWeakOrder<T(!new)>(less: (T, T) -> bool) {
    && (forall x :: !less(x, x))
    && (forall x, y, z :: less(x, y) && less(y, z) ==> less(x, z))
    && (forall x, y, z :: less(x, z) ==> less(x, y) || less(y, z))
  }

  function Pow2(n: nat): nat {
    if n == 0 then 1 else 2 * Pow2(n - 1)
  }

  /** `choosePivot`: an element of the second or third quarter. */
  function ChoosePivot(lo: nat, up: nat, rnd: nat): (p: nat)
    requires up - lo >= RANLIMIT
    ensures lo + (up - lo) / 4 <= p <= up - (up - lo) / 4
  {
    var r4 := (up - lo) / 4;
    rnd % (r4 * 2) + (lo + r4)
  }

  ghost function Elements<T>(s: seq<T>, lo: nat, up: int): multiset<T>
    requires lo <= up + 1 <= |s|
  {
    multiset(s[lo..up + 1])
  }

  /** `t` has the elements of `s` from `lo` to `up` in some order, and is equal to it elsewhere. */
  ghost predicate Shuffled<T>(s: seq<T>, t: seq<T>, lo: nat, up: int) {
    && |s| == |t| && lo <= up + 1 <= |s|
    && (forall k :: 0 <= k < |s| && !(lo <= k <= up) ==> s[k] == t[k])
    && Elements(s, lo, up) == Elements(t, lo, up)
  }

  lemma ShuffledTrans<T>(s: seq<T>, t: seq<T>, u: seq<T>, lo: nat, up: int)
    requires Shuffled(s, t, lo, up) && Shuffled(t, u, lo, up)
    ensures Shuffled(s, u, lo, up)
  {
  }

  lemma ShuffledWider<T>(s: seq<T>, t: seq<T>, lo: nat, up: int, lo1: nat, up1: int)
    requires lo1 <= lo && up <= up1 < |s| && Shuffled(s, t, lo, up)
    ensures Shuffled(s, t, lo1, up1)
  {
    assert s[lo1..up1 + 1] == s[lo1..lo] + s[lo..up + 1] + s[up + 1..up1 + 1];
    assert t[lo1..up1 + 1] == t[lo1..lo] + t[lo..up + 1] + t[up + 1..up1 + 1];
    assert s[lo1..lo] == t[lo1..lo] && s[up + 1..up1 + 1] == t[up + 1..up1 + 1];
  }

  lemma SwapShuffles<T>(s: seq<T>, i: nat, j: nat, lo: nat, up: nat)
    requires lo <= i <= up < |s| && lo <= j <= up
    ensures Shuffled(s, s[i := s[j]][j := s[i]], lo, up)
  {
    hide Shuffled;
    SwapSlice(s, i, j, lo, up);
    SwapSame(s[lo..up + 1], i - lo, j - lo);
    SwapElsewhere(s, i, j, lo, up);
    IsShuffled(s, s[i := s[j]][j := s[i]], lo, up);
  }

  lemma IsShuffled<T>(s: seq<T>, t: seq<T>, lo: nat, up: nat)
    requires lo <= up < |s| == |t| && multiset(s[lo..up + 1]) == multiset(t[lo..up + 1])
    requires forall k :: 0 <= k < |s| && !(lo <= k <= up) ==> s[k] == t[k]
    ensures Shuffled(s, t, lo, up)
  {
  }

  lemma SwapElsewhere<T>(s: seq<T>, i: nat, j: nat, lo: nat, up: nat)
    requires lo <= i <= up < |s| && lo <= j <= up
    ensures var t := s[i := s[j]][j := s[i]];
            |t| == |s| && forall k :: 0 <= k < |s| && !(lo <= k <= up) ==> s[k] == t[k]
  {
  }

  lemma SwapSlice<T>(s: seq<T>, i: nat, j: nat, lo: nat, up: nat)
    requires lo <= i <= up < |s| && lo <= j <= up
    ensures var x := s[lo..up + 1];
            s[i := s[j]][j := s[i]][lo..up + 1] == x[i - lo := x[j - lo]][j - lo := x[i - lo]]
  {
    var t, x := s[i := s[j]][j := s[i]], s[lo..up + 1];
    var y, z := x[i - lo := x[j - lo]][j - lo := x[i - lo]], t[lo..up + 1];
    assert |y| == |z|;
    assert forall k :: 0 <= k < |y| ==> y[k] == z[k];
  }

  lemma SwapSame<T>(x: seq<T>, i: nat, j: nat)
    requires i < |x| && j < |x|
    ensures multiset(x[i := x[j]][j := x[i]]) == multiset(x)
  {
  }

  /** What a call of the comparison function comes to: true, false or an error. */
  datatype Answer = Yes | No | Raises

  class Sorter<T(!new)> {
    /** The list: slot 0 is not part of it. */
    const a: array<T>
    /** The answers of the comparison function, which may depend on earlier calls. */
    const lt: (nat, T, T) -> Answer
    /** The values of the clock for new pivots. */
    const clock: nat -> nat
    var calls: nat

    constructor (a: array<T>, lt: (nat, T, T) -> Answer, clock: nat -> nat)
      ensures this.a == a && this.lt == lt && this.clock == clock
    {
      this.a, this.lt, this.clock, calls := a, lt, clock, 0;
    }

    ghost function Less(): (T, T) -> bool {
      (x, y) => lt(0, x, y).Yes?
    }

    /** The comparison function always gives the same answers, and they are a strict weak order. */
    ghost predicate Consistent() {
      (forall n, x, y :: lt(n, x, y) == if Less()(x, y) then Yes else No) && StrictWeakOrder(Less())
    }

    ghost predicate Le(x: T, y: T) {
      !Less()(y, x)
    }

    ghost predicate Sorted(s: seq<T>, lo: nat, up: int)
      requires lo <= up + 1 <= |s|
    {
      forall i, j :: lo <= i < j <= up ==> Le(s[i], s[j])
    }

    lemma LeTrans(x: T, y: T, z: T)
      requires Consistent() && Le(x, y) && Le(y, z)
      ensures Le(x, z)
    {
    }

    /** An error leaves the sort at once. */
    method SortComp(x: T, y: T) returns (ok: bool, r: bool)
      modifies `calls
      ensures Consistent() ==> ok && r == Less()(x, y)
      ensures r ==> ok
    {
      var answer := lt(calls, x, y);
      ok, r := !answer.Raises?, answer.Yes?;
      calls := calls + 1;
    }

    /** `set2` with two elements that change places. */
    method Swap(i: nat, j: nat, ghost lo: nat, ghost up: nat)
      requires lo <= i <= up < a.Length && lo <= j <= up
      modifies a
      ensures a[..] == old(a[..])[i := old(a[j])][j := old(a[i])]
      ensures Shuffled(old(a[..]), a[..], lo, up)
    {
      SwapShuffles(a[..], i, j, lo, up);
      a[i], a[j] := a[j], a[i];
    }

    /** All elements from `lo` to `up` are at most, or at least, `x`. */
    ghost predicate AllBelow(s: seq<T>, lo: nat, up: int, x: T)
      requires up < |s|
    {
      forall k :: lo <= k <= up ==> Le(s[k], x)
    }

    ghost predicate AllAbove(s: seq<T>, lo: nat, up: int, x: T)
      requires up < |s|
    {
      forall k :: lo <= k <= up ==> Le(x, s[k])
    }

    /**
      `partition`: the pivot `P` is in slot `up` - 1, and the ends of the interval stop the loops.
      A comparison function that makes them run past is reported; no other slot is ever read.
     */
    method Partition(lo: nat, up: nat, P: T) returns (ok: bool, i: nat)
      requires lo + 3 <= up < a.Length && a[up - 1] == P
      requires Consistent() ==> Le(a[lo], P) && Le(P, a[up])
      modifies a, `calls
      ensures Shuffled(old(a[..]), a[..], lo, up)
      ensures ok ==> lo < i < up && a[i] == P
      ensures Consistent() ==> ok && AllBelow(a[..], lo, i - 1, P) && AllAbove(a[..], i + 1, up, P)
    {
      hide Shuffled;
      i := lo;
      var j := up - 1;
      Same(a[..], lo, up);
      while true
        invariant lo <= i <= j <= up - 1 && (i == lo ==> j == up - 1) && (i != lo ==> j < up - 1)
        invariant Shuffled(old(a[..]), a[..], lo, up) && a[up - 1] == P
        invariant Consistent() ==> AllBelow(a[..], lo, i, P) && AllAbove(a[..], j, up, P)
        decreases up - i
      {
        ok, i := ScanUp(lo, i, up, P);
        if !ok {
          return;
        }
        ok, j := ScanDown(lo, i, j, up, P);
        if !ok {
          return;
        }
        ghost var s := a[..];
        if j < i {
          Swap(up - 1, i, lo, up);
          ShuffledTrans(old(a[..]), s, a[..], lo, up);
          return true, i;
        }
        Swap(i, j, lo, up);
        ShuffledTrans(old(a[..]), s, a[..], lo, up);
      }
    }

    /** Repeats `++i` while `a[i] < P`. */
    method ScanUp(lo: nat, i0: nat, up: nat, P: T) returns (ok: bool, i: nat)
      requires lo <= i0 < up - 1 < a.Length && a[up - 1] == P
      requires Consistent() ==> AllBelow(a[..], lo, i0, P)
      modifies `calls
      ensures i0 < i <= up - 1
      ensures Consistent() ==> ok && AllBelow(a[..], lo, i - 1, P) && Le(P, a[i])
    {
      hide Consistent, AllBelow, Le;
      i := i0 + 1;
      var less;
      ok, less := SortComp(a[i], P);
      while less
        invariant i0 < i <= up - 1 && (less ==> ok)
        invariant Consistent() ==> ok && less == Less()(a[i], P) && AllBelow(a[..], lo, i - 1, P)
        decreases up - i, less
      {
        if i == up - 1 {
          if Consistent() { PivotNotLess(P); }
          return false, i;
        }
        if Consistent() { BelowOn(a[..], lo, i, P); }
        i := i + 1;
        ok, less := SortComp(a[i], P);
      }
      if Consistent() { NotLessLe(a[i], P); }
    }

    /** Repeats `--j` while `P < a[j]`. */
    method ScanDown(lo: nat, i: nat, j0: nat, up: nat, P: T) returns (ok: bool, j: nat)
      requires lo < j0 <= up < a.Length && lo < i < up
      requires Consistent() ==> AllBelow(a[..], lo, i - 1, P) && AllAbove(a[..], j0, up, P)
      modifies `calls
      ensures lo <= j < j0
      ensures Consistent() ==> ok && AllAbove(a[..], j + 1, up, P) && Le(a[j], P)
    {
      hide Consistent, AllBelow, AllAbove, Le;
      j := j0 - 1;
      var less;
      ok, less := SortComp(P, a[j]);
      while less
        invariant lo <= j < j0 && (less ==> ok)
        invariant Consistent() ==> ok && less == Less()(P, a[j]) && AllAbove(a[..], j + 1, up, P)
        decreases j, less
      {
        if j < i {
          if Consistent() { BelowAt(a[..], lo, i - 1, P, j); }
          return false, j;
        }
        if Consistent() { AboveOn(a[..], j, up, P); }
        j := j - 1;
        ok, less := SortComp(P, a[j]);
      }
      if Consistent() { NotLessLe(P, a[j]); }
    }

    lemma PivotNotLess(x: T)
      requires Consistent()
      ensures !Less()(x, x)
    {
    }

    lemma NotLessLe(x: T, y: T)
      requires Consistent() && !Less()(x, y)
      ensures Le(y, x)
    {
    }

    lemma BelowOn(s: seq<T>, lo: nat, i: nat, x: T)
      requires Consistent() && i < |s| && AllBelow(s, lo, i - 1, x) && Less()(s[i], x)
      ensures AllBelow(s, lo, i, x)
    {
      hide Consistent;
      LessLe(s[i], x);
    }

    lemma AboveOn(s: seq<T>, j: nat, up: nat, x: T)
      requires Consistent() && j <= up < |s| && AllAbove(s, j + 1, up, x) && Less()(x, s[j])
      ensures AllAbove(s, j, up, x)
    {
      hide Consistent;
      LessLe(x, s[j]);
    }

    lemma BelowAt(s: seq<T>, lo: nat, up: int, x: T, j: nat)
      requires lo <= j <= up < |s| && AllBelow(s, lo, up, x)
      ensures !Less()(x, s[j])
    {
    }

    lemma LessLe(x: T, y: T)
      requires Consistent() && Less()(x, y)
      ensures Le(x, y)
    {
      assert !Less()(x, x);
    }

    lemma Same(s: seq<T>, lo: nat, up: nat)
      requires lo <= up < |s|
      ensures Shuffled(s, s, lo, up)
    {
    }

    /** Every pair that is not inside `lo` to `up` is in order. */
    ghost predicate Placed(s: seq<T>, lo0: nat, up0: nat, lo: nat, up: int)
      requires up0 < |s|
    {
      forall i, j :: lo0 <= i < j <= up0 && (i < lo || up < j) ==> Le(s[i], s[j])
    }

    lemma PlacedShuffle(s: seq<T>, t: seq<T>, lo0: nat, up0: nat, lo: nat, up: int)
      requires lo0 <= lo && up <= up0 < |s| && Shuffled(s, t, lo, up) && Placed(s, lo0, up0, lo, up)
      ensures Placed(t, lo0, up0, lo, up)
    {
      forall i, j | lo0 <= i < j <= up0 && (i < lo || up < j) ensures Le(t[i], t[j]) {
        var i1, j1 := i, j;
        if lo <= i <= up {
          i1 := Origin(s, t, lo, up, i);
        }
        if lo <= j <= up {
          j1 := Origin(s, t, lo, up, j);
        }
        assert Le(s[i1], s[j1]);
      }
    }

    lemma Origin(s: seq<T>, t: seq<T>, lo: nat, up: int, k: nat) returns (q: nat)
      requires Shuffled(s, t, lo, up) && lo <= k <= up
      ensures lo <= q <= up && s[q] == t[k]
    {
      assert t[k] == t[lo..up + 1][k - lo];
      assert t[k] in Elements(s, lo, up);
      assert t[k] in s[lo..up + 1];
      var r :| 0 <= r < |s[lo..up + 1]| && s[lo..up + 1][r] == t[k];
      q := lo + r;
    }

    lemma PivotPlaced(s: seq<T>, lo0: nat, up0: nat, lo: nat, up: nat, p: nat, lower: bool)
      requires Consistent() && lo0 <= lo < p < up <= up0 < |s| && Placed(s, lo0, up0, lo, up)
      requires AllBelow(s, lo, p - 1, s[p]) && AllAbove(s, p + 1, up, s[p])
      requires if lower then Sorted(s, lo, p - 1) else Sorted(s, p + 1, up)
      ensures if lower then Placed(s, lo0, up0, p + 1, up) else Placed(s, lo0, up0, lo, p - 1)
    {
      forall i, j | lo <= i < j <= up && (if lower then i <= p else p <= j) ensures Le(s[i], s[j]) {
        if i < p < j {
          LeTrans(s[i], s[p], s[j]);
        }
      }
    }

    /** What holds between a pivot and an interval still does when the interval has been shuffled. */
    lemma BoundsKept(s: seq<T>, t: seq<T>, lo: nat, up: int, x: T)
      requires Shuffled(s, t, lo, up)
      ensures AllBelow(s, lo, up, x) ==> AllBelow(t, lo, up, x)
      ensures AllAbove(s, lo, up, x) ==> AllAbove(t, lo, up, x)
    {
      forall k | lo <= k <= up ensures exists q :: lo <= q <= up && s[q] == t[k] {
        var q := Origin(s, t, lo, up, k);
      }
    }

    /** The three elements `lo`, `p` and `up` are put in order. */
    method SortEnds(lo: nat, up: nat, p: nat) returns (ok: bool)
      requires lo < p < up < a.Length
      requires Consistent() ==> Le(a[lo], a[up])
      modifies a, `calls
      ensures Shuffled(old(a[..]), a[..], lo, up)
      ensures Consistent() ==> ok && Le(a[lo], a[p]) && Le(a[p], a[up]) && Le(a[lo], a[up])
    {
      hide Shuffled;
      Same(a[..], lo, up);
      var less;
      ok, less := SortComp(a[p], a[lo]);
      if less {
        Swap(p, lo, lo, up);
      } else if ok {
        ok, less := SortComp(a[up], a[p]);
        if less {
          Swap(p, up, lo, up);
        }
      }
    }

    /** Sorting one side leaves the pivot and the other side alone. */
    lemma PivotStays(s: seq<T>, t: seq<T>, lo: nat, up: nat, p: nat, lower: bool)
      requires lo < p < up < |s|
      requires AllBelow(s, lo, p - 1, s[p]) && AllAbove(s, p + 1, up, s[p])
      requires if lower then Shuffled(s, t, lo, p - 1) else Shuffled(s, t, p + 1, up)
      ensures |t| == |s| && t[p] == s[p]
      ensures if lower then AllAbove(t, p + 1, up, t[p]) else AllBelow(t, lo, p - 1, t[p])
    {
      hide Elements;
    }

    /** One side of the pivot has been sorted: what remains is the other side. */
    lemma SideDone(s: seq<T>, t: seq<T>, lo0: nat, up0: nat, lo: nat, up: nat, p: nat, lower: bool)
      requires Consistent() && lo0 <= lo < p < up <= up0 < |s| && Placed(s, lo0, up0, lo, up)
      requires AllBelow(s, lo, p - 1, s[p]) && AllAbove(s, p + 1, up, s[p])
      requires if lower then Shuffled(s, t, lo, p - 1) && Sorted(t, lo, p - 1) else Shuffled(s, t, p + 1, up) && Sorted(t, p + 1, up)
      ensures if lower then Placed(t, lo0, up0, p + 1, up) else Placed(t, lo0, up0, lo, p - 1)
    {
      hide Shuffled, Placed, AllBelow, AllAbove, Sorted, Consistent;
      PivotStays(s, t, lo, up, p, lower);
      if lower {
        ShuffledWider(s, t, lo, p - 1, lo, up);
        BoundsKept(s, t, lo, p - 1, s[p]);
      } else {
        ShuffledWider(s, t, p + 1, up, lo, up);
        BoundsKept(s, t, p + 1, up, s[p]);
      }
      PlacedShuffle(s, t, lo0, up0, lo, up);
      PivotPlaced(t, lo0, up0, lo, up, p, lower);
    }

    /** The part of `auxsort` before the recursive call: a short interval is sorted, a longer one divided at `p`. */
    method Divide(lo: nat, up: nat, rnd: nat) returns (ok: bool, done: bool, p: nat)
      requires lo < up < a.Length
      modifies a, `calls
      ensures Shuffled(old(a[..]), a[..], lo, up)
      ensures ok ==> (done <==> up - lo <= 2)
      ensures done ==> ok
      ensures ok && !done ==> lo < p < up
      ensures Consistent() ==> ok
      ensures Consistent() ==> if done then Sorted(a[..], lo, up) else AllBelow(a[..], lo, p - 1, a[p]) && AllAbove(a[..], p + 1, up, a[p])
    {
      hide Shuffled, AllBelow, AllAbove;
      Same(a[..], lo, up);
      ghost var s := a[..];
      var less;
      ok, less := SortComp(a[up], a[lo]);
      if !ok {
        return false, false, lo;
      }
      if less {
        Swap(lo, up, lo, up);
      }
      ghost var s1 := a[..];
      if up - lo == 1 {
        return true, true, lo;
      }
      p := if up - lo < RANLIMIT || rnd == 0 then (lo + up) / 2 else ChoosePivot(lo, up, rnd);
      ok := SortEnds(lo, up, p);
      ghost var s2 := a[..];
      ShuffledTrans(s, s1, s2, lo, up);
      if !ok {
        return false, false, p;
      }
      if up - lo == 2 {
        return true, true, p;
      }
      var P := a[p];
      Swap(p, up - 1, lo, up);
      ghost var s3 := a[..];
      ShuffledTrans(s, s2, s3, lo, up);
      done := false;
      ok, p := Partition(lo, up, P);
      ShuffledTrans(s, s3, a[..], lo, up);
    }

    /**
      `auxsort`: sorts the slots from `lo` to `up`, or reports an invalid comparison function, which
      cannot happen for a consistent one. `depth` counts the activations nested in this one.
     */
    method AuxSort(lo0: nat, up0: nat, rnd0: nat) returns (ok: bool, ghost depth: nat)
      requires lo0 <= up0 < a.Length
      modifies a, `calls
      ensures Shuffled(old(a[..]), a[..], lo0, up0)
      ensures Consistent() ==> ok && Sorted(a[..], lo0, up0)
      ensures Pow2(depth) <= up0 - lo0 + 1
      decreases up0 - lo0
    {
      hide Consistent, Shuffled, Sorted, Placed, AllBelow, AllAbove;
      var lo, up, rnd := lo0, up0, rnd0;
      depth := 0;
      Start(a[..], lo0, up0);
      while lo < up
        invariant lo0 <= lo <= up <= up0
        invariant Shuffled(old(a[..]), a[..], lo0, up0)
        invariant Consistent() ==> Placed(a[..], lo0, up0, lo, up)
        invariant Pow2(depth) <= up0 - lo0 + 1
        decreases up - lo
      {
        ghost var s0 := a[..];
        var done, p;
        ok, done, p := Divide(lo, up, rnd);
        ghost var s1 := a[..];
        Inside(old(a[..]), s0, s1, lo0, up0, lo, up);
        if !ok {
          return;
        }
        if done {
          if Consistent() { AllSorted(s1, lo0, up0, lo, up); }
          return;
        }
        var n;
        ghost var d;
        if p - lo < up - p {
          ok, d := AuxSort(lo, p - 1, rnd);
          Inside(old(a[..]), s1, a[..], lo0, up0, lo, p - 1);
          if !ok {
            return;
          }
          if Consistent() { SideDone(s1, a[..], lo0, up0, lo, up, p, true); }
          n := p - lo;
          lo := p + 1;
        } else {
          ok, d := AuxSort(p + 1, up, rnd);
          Inside(old(a[..]), s1, a[..], lo0, up0, p + 1, up);
          if !ok {
            return;
          }
          if Consistent() { SideDone(s1, a[..], lo0, up0, lo, up, p, false); }
          n := up - p;
          up := p - 1;
        }
        depth := if depth < d + 1 then d + 1 else depth;
        if (up - lo) / 128 > n {
          rnd := clock(calls);
        }
      }
      if Consistent() { AllSorted(a[..], lo0, up0, lo, up); }
      return true, depth;
    }

    lemma Start(s: seq<T>, lo: nat, up: nat)
      requires lo <= up < |s|
      ensures Shuffled(s, s, lo, up) && Placed(s, lo, up, lo, up)
    {
    }

    /** A further shuffle inside the interval; pairs that were in order outside of it still are. */
    lemma Inside(s: seq<T>, t: seq<T>, u: seq<T>, lo0: nat, up0: nat, lo: nat, up: int)
      requires lo0 <= lo && up <= up0 < |s| && Shuffled(s, t, lo0, up0) && Shuffled(t, u, lo, up)
      ensures Shuffled(s, u, lo0, up0)
      ensures Placed(t, lo0, up0, lo, up) ==> Placed(u, lo0, up0, lo, up)
    {
      ShuffledWider(t, u, lo, up, lo0, up0);
      ShuffledTrans(s, t, u, lo0, up0);
      if Placed(t, lo0, up0, lo, up) {
        PlacedShuffle(t, u, lo0, up0, lo, up);
      }
    }

    lemma AllSorted(s: seq<T>, lo0: nat, up0: nat, lo: nat, up: nat)
      requires lo0 <= lo <= up <= up0 < |s| && Placed(s, lo0, up0, lo, up)
      requires lo == up || Sorted(s, lo, up)
      ensures Sorted(s, lo0, up0)
    {
      forall i, j | lo0 <= i < j <= up0 ensures Le(s[i], s[j]) {
      }
    }

    /** `sort` of the first `n` elements; too long lists are refused. */
    method Sort(n: int) returns (ok: bool)
      requires n < a.Length
      modifies a, `calls
      ensures n <= 1 ==> ok && a[..] == old(a[..])
      ensures n >= INT_MAX ==> !ok && a[..] == old(a[..])
      ensures n > 1 ==> Shuffled(old(a[..]), a[..], 1, n)
      ensures 1 < n < INT_MAX && Consistent() ==> ok && Sorted(a[..], 1, n)
    {
      ok := true;
      if n > 1 {
        if n >= INT_MAX {
          return false;
        }
        ghost var depth;
        ok, depth := AuxSort(1, n, 0);
      }
    }
  }
}
