/** What shifts of 64-bit integers come to: multiplication and division of unsigned numbers. */
module Shifts {
  import opened LuaVm

  // ---------- products, quotients and remainders ----------

  function Times(a: int, b: int): int {
    a * b
  }

  lemma TimesOfTimes(a: int, b: int, c: int)
    ensures Times(Times(a, b), c) == Times(a, Times(b, c)) == Times(Times(a, c), b)
  {
  }

  lemma TimesOfSum(a: int, b: int, c: int)
    ensures Times(a + b, c) == Times(a, c) + Times(b, c) == Times(c, a + b) && Times(a, c) == Times(c, a)
  {
  }

  lemma TimesOrdered(p: int, a: int, b: int)
    requires p > 0 && a < b
    ensures Times(p, a) + p <= Times(p, b)
  {
    TimesPositive(p, b - a - 1);
    TimesOfSum(a, b - a - 1, p);
    TimesOfSum(b - 1, 1, p);
  }

  lemma TimesPositive(p: int, a: int)
    requires p >= 0 && a >= 0
    ensures Times(p, a) >= 0
  {
  }

  lemma Quotient(u: nat, p: nat)
    requires p > 0
    ensures u == Times(p, u / p) + u % p && u % p < p
  {
  }

  /** A number between two multiples has that quotient and that remainder. */
  lemma QuotientIs(u: nat, p: nat, q: int, r: nat)
    requires p > 0 && u == Times(p, q) + r && r < p
    ensures u / p == q && u % p == r
  {
    Quotient(u, p);
    var a, b := u / p, u % p;
    hide Times;
    if a < q {
      TimesOrdered(p, a, q);
    } else if q < a {
      TimesOrdered(p, q, a);
    }
  }

  lemma ModOfSum(z: int, k: int)
    ensures (z + Times(k, TWO64)) % TWO64 == z % TWO64
  {
  }

  lemma UnsignedOfWrap(z: int)
    ensures Unsigned(Wrap(z)) == z % TWO64
  {
  }

  lemma SignedWrap(x: int)
    requires -TWO63 <= x < TWO63
    ensures Unsigned(x) == (if x < 0 then x + TWO64 else x) && Wrap(x) == x
  {
  }

  lemma SameUnsigned(x: int, y: int)
    requires -TWO63 <= x < TWO63 && -TWO63 <= y < TWO63 && Unsigned(x) == Unsigned(y)
    ensures x == y
  {
  }

  // ---------- powers of 2 ----------

  lemma {:induction false} PowerOfSum(m: nat, n: nat)
    ensures Pow2(m + n) == Times(Pow2(m), Pow2(n))
    decreases n
  {
    if n > 0 {
      PowerOfSum(m, n - 1);
      TimesOfTimes(Pow2(m), 2, Pow2(n - 1));
      TimesOfTimes(Pow2(m), Pow2(n - 1), 2);
      DoublePower(m, n);
    }
  }

  lemma DoublePower(m: nat, n: nat)
    requires n > 0
    ensures Pow2(m + n) == Times(Pow2(m + (n - 1)), 2) && Pow2(n) == Times(2, Pow2(n - 1)) && Times(2, Pow2(n - 1)) == Times(Pow2(n - 1), 2)
  {
    assert m + n > 0;
  }

  lemma PowerOf64()
    ensures Pow2(64) == TWO64
  {
    assert Pow2(4) == 16;
    PowerOfSum(4, 4);
    PowerOfSum(8, 8);
    PowerOfSum(16, 16);
    PowerOfSum(32, 32);
  }

  lemma AtLeast64(n: nat)
    requires n >= 64
    ensures Pow2(n) == Times(TWO64, Pow2(n - 64)) && Pow2(n) >= TWO64
  {
    PowerOf64();
    PowerOfSum(64, n - 64);
    hide Times, Pow2;
    TimesOrdered(TWO64, 0, Pow2(n - 64));
    TimesZero(TWO64);
  }

  lemma TimesZero(p: int)
    ensures Times(p, 0) == 0 && Times(0, p) == 0 && Times(p, 1) == p
  {
  }

  // ---------- one shift ----------

  lemma InRange(x: int, n: int)
    requires -TWO63 <= x < TWO63
    ensures -TWO63 <= VShiftL(x, n) < TWO63
  {
  }

  lemma ShiftIs(x: int, n: nat)
    ensures VShiftL(x, n) == if n >= NBITS then 0 else Wrap(Times(x, Pow2(n)))
    ensures n > 0 ==> VShiftL(x, 0 - n) == if n >= NBITS then 0 else Wrap(Unsigned(x) / Pow2(n))
  {
  }

  /** Shifting to the left multiplies, modulo 2^64. */
  lemma LeftMultiplies(x: int, n: nat)
    requires -TWO63 <= x < TWO63
    ensures Unsigned(VShiftL(x, n)) == Times(Unsigned(x), Pow2(n)) % TWO64
  {
    ShiftIs(x, n);
    SignedWrap(x);
    hide Pow2, Wrap, Times, VShiftL;
    var u, p := Unsigned(x), Pow2(n);
    if n >= NBITS {
      AtLeast64(n);
      TimesOfTimes(u, TWO64, Pow2(n - 64));
      ModOfSum(0, Times(u, Pow2(n - 64)));
    } else {
      UnsignedOfWrap(Times(x, p));
      TimesOfSum(x, TWO64, p);
      ModOfSum(Times(x, p), p);
      TimesOfSum(0, TWO64, p);
    }
  }

  /** Shifting to the right divides. */
  lemma RightDivides(x: int, n: nat)
    requires -TWO63 <= x < TWO63
    ensures Unsigned(VShiftL(x, 0 - n)) == Unsigned(x) / Pow2(n)
  {
    hide Pow2, Wrap, Times, VShiftL, Unsigned;
    ShiftIs(x, n);
    SignedWrap(x);
    UnsignedBelow(x);
    if n == 0 {
      NoShift(x);
    } else if n >= NBITS {
      AtLeast64(n);
      TimesZero(Pow2(n));
      QuotientIs(Unsigned(x), Pow2(n), 0, Unsigned(x));
      UnsignedZero();
    } else {
      QuotientBelow(Unsigned(x), Pow2(n));
      UnsignedOfWrap(Unsigned(x) / Pow2(n));
      Small(Unsigned(x) / Pow2(n));
    }
  }

  lemma UnsignedZero()
    ensures Unsigned(0) == 0
  {
  }

  lemma NoShift(x: int)
    requires Wrap(x) == x
    ensures Pow2(0) == 1 && VShiftL(x, 0) == x && Unsigned(x) / 1 == Unsigned(x)
  {
  }

  lemma QuotientBelow(u: nat, p: nat)
    requires p > 0
    ensures 0 <= u / p <= u
  {
    Quotient(u, p);
    hide Times;
    var a := u / p;
    if a < 0 {
      TimesOrdered(p, a, 0);
      TimesZero(p);
    } else {
      TimesAtLeast(p, a);
    }
  }

  lemma TimesAtLeast(p: int, a: int)
    requires p > 0 && a >= 0
    ensures Times(p, a) >= a
  {
    TimesPositive(p - 1, a);
    TimesOfSum(p - 1, 1, a);
    TimesZero(a);
  }

  // ---------- two shifts ----------

  /** There and back: the lowest 64 - n bits are left. */
  lemma LeftThenRight(x: int, n: nat)
    requires -TWO63 <= x < TWO63 && n <= NBITS
    ensures Unsigned(VShiftL(VShiftL(x, n), 0 - n)) == Unsigned(x) % Pow2(NBITS - n)
  {
    PowerOf64();
    PowerOfSum(NBITS - n, n);
    LeftMultiplies(x, n);
    InRange(x, n);
    RightDivides(VShiftL(x, n), n);
    hide Pow2, VShiftL, Times;
    LowBits(Unsigned(x), Pow2(n), Pow2(NBITS - n));
  }

  lemma LowBits(u: nat, p: nat, q: nat)
    requires p > 0 && q > 0 && Times(q, p) == TWO64
    ensures (Times(u, p) % TWO64) / p == u % q
  {
    hide Times;
    Quotient(u, q);
    TopBits(u / q, u % q, p, q);
    ModOfSum(Times(u % q, p), u / q);
    LowPart(u % q, p, q);
  }

  lemma TopBits(a: int, b: int, p: nat, q: nat)
    requires Times(q, p) == TWO64
    ensures Times(Times(q, a) + b, p) == Times(b, p) + Times(a, TWO64)
  {
    hide Times;
    TimesOfSum(Times(q, a), b, p);
    TimesOfTimes(q, a, p);
    TimesOfSum(a, 0, TWO64);
  }

  lemma LowPart(b: nat, p: nat, q: nat)
    requires p > 0 && b < q && Times(q, p) == TWO64
    ensures 0 <= Times(b, p) < TWO64 && (Times(b, p) % TWO64) / p == b
  {
    hide Times;
    TimesOfSum(b, 0, p);
    TimesOfSum(q, 0, p);
    TimesOrdered(p, b, q);
    TimesPositive(p, b);
    Small(Times(b, p));
    QuotientIs(Times(b, p), p, b, 0);
  }

  /** Back and there: the lowest n bits become 0. */
  lemma RightThenLeft(x: int, n: nat)
    requires -TWO63 <= x < TWO63
    ensures Unsigned(VShiftL(VShiftL(x, 0 - n), n)) == Unsigned(x) - Unsigned(x) % Pow2(n)
  {
    RightDivides(x, n);
    InRange(x, 0 - n);
    LeftMultiplies(VShiftL(x, 0 - n), n);
    UnsignedBelow(x);
    hide Pow2, VShiftL, Times, Wrap, Unsigned;
    HighBits(Unsigned(x), Pow2(n));
  }

  lemma UnsignedBelow(x: int)
    ensures Unsigned(x) < TWO64
  {
  }

  lemma HighBits(u: nat, p: nat)
    requires p > 0 && u < TWO64
    ensures Times(u / p, p) % TWO64 == u - u % p
  {
    Quotient(u, p);
    TimesOfSum(u / p, 0, p);
    RemainderBelow(u, p);
    hide Times;
    var z := u - u % p;
    assert 0 <= z < TWO64;
    Small(z);
  }

  lemma Small(z: nat)
    requires z < TWO64
    ensures z % TWO64 == z
  {
  }

  lemma RemainderBelow(u: nat, p: nat)
    requires p > 0
    ensures 0 <= u % p <= u
  {
    Quotient(u, p);
    QuotientBelow(u, p);
    TimesPositive(p, u / p);
    hide Times;
  }

  /** Two shifts in one direction are one. */
  lemma ShiftTwice(x: int, m: nat, n: nat)
    requires -TWO63 <= x < TWO63
    ensures VShiftL(VShiftL(x, m), n) == VShiftL(x, m + n)
    ensures VShiftL(VShiftL(x, 0 - m), 0 - n) == VShiftL(x, 0 - (m + n))
  {
    hide VShiftL, Unsigned;
    LeftTwice(x, m, n);
    RightTwice(x, m, n);
    InRange(x, m);
    InRange(x, 0 - m);
    InRange(VShiftL(x, m), n);
    InRange(x, m + n);
    InRange(VShiftL(x, 0 - m), 0 - n);
    InRange(x, 0 - (m + n));
    SameUnsigned(VShiftL(VShiftL(x, m), n), VShiftL(x, m + n));
    SameUnsigned(VShiftL(VShiftL(x, 0 - m), 0 - n), VShiftL(x, 0 - (m + n)));
  }

  lemma LeftTwice(x: int, m: nat, n: nat)
    requires -TWO63 <= x < TWO63
    ensures Unsigned(VShiftL(VShiftL(x, m), n)) == Unsigned(VShiftL(x, m + n))
  {
    InRange(x, m);
    LeftMultiplies(x, m);
    LeftMultiplies(VShiftL(x, m), n);
    LeftMultiplies(x, m + n);
    PowerOfSum(m, n);
    hide VShiftL, Pow2, Times;
    var u, p, q := Unsigned(x), Pow2(m), Pow2(n);
    TimesOfTimes(u, p, q);
    TimesMod(Times(u, p), q);
  }

  lemma TimesMod(z: int, p: int)
    ensures Times(z % TWO64, p) % TWO64 == Times(z, p) % TWO64
  {
    hide Times;
    var a, b := z / TWO64, z % TWO64;
    Multiples(z);
    TimesOfSum(Times(a, TWO64), b, p);
    TimesOfTimes(a, TWO64, p);
    ModOfSum(Times(b, p), Times(a, p));
  }

  lemma Multiples(z: int)
    ensures z == Times(z / TWO64, TWO64) + z % TWO64
  {
  }

  lemma RightTwice(x: int, m: nat, n: nat)
    requires -TWO63 <= x < TWO63
    ensures Unsigned(VShiftL(VShiftL(x, 0 - m), 0 - n)) == Unsigned(VShiftL(x, 0 - (m + n)))
  {
    InRange(x, 0 - m);
    RightDivides(x, m);
    RightDivides(VShiftL(x, 0 - m), n);
    RightDivides(x, m + n);
    PowerOfSum(m, n);
    SignedWrap(x);
    hide VShiftL, Pow2, Times, Wrap;
    DivideTwice(Unsigned(x), Pow2(m), Pow2(n));
  }

  lemma DivideTwice(u: nat, p: nat, q: nat)
    requires p > 0 && q > 0
    ensures (u / p) / q == u / Times(p, q)
  {
    QuotientBelow(u, p);
    Quotient(u, p);
    var a: nat, b := u / p, u % p;
    Quotient(a, q);
    var d, c := a / q, a % q;
    RemainderBelow(a, q);
    hide Times;
    TimesOfSum(Times(q, d), c, p);
    TimesOfSum(a, 0, p);
    TimesOfTimes(q, d, p);
    TimesOfTimes(q, p, d);
    TimesOfSum(q, 0, p);
    TimesOfSum(c, 0, p);
    TimesOrdered(p, c, q);
    TimesPositive(p, c);
    RemainderBelow(u, p);
    assert u == Times(Times(p, q), d) + (Times(p, c) + b);
    QuotientIs(u, Times(p, q), d, Times(p, c) + b);
  }
}
