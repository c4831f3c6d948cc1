/**
  The bytes that `string.pack` makes of integers, by the list of options in section 6.4.2 of the
  Lua 5.3 Reference Manual and the sizes of the C types: which byte carries which power of 256.
 */
module PackedIntegers {
  import opened Packing

  /** A size from 1 to 16 as a numeral. */
  function Numeral(size: nat): string
    requires 1 <= size <= 16
  {
    if size < 10 then ['0' + size as char] else ['1', '0' + (size - 10) as char]
  }

  /** The options for integers, with the size of a char, a short, an int, a long, a `lua_Integer` or a `size_t`. */
  predicate IntegerOption(text: string, signed: bool, size: nat) {
    || (text == (if signed then "b" else "B") && size == 1)
    || (text == (if signed then "h" else "H") && size == 2)
    || (text == (if signed then "i" else "I") && size == 4)
    || (text == (if signed then "l" else "L") && size == 8)
    || (text == (if signed then "j" else "J") && size == 8)
    || (text == "T" && !signed && size == 8)
    || (1 <= size <= 16 && text == (if signed then "i" else "I") + Numeral(size))
  }

  predicate FloatOption(text: string, size: nat) {
    (text == "f" && size == 4) || ((text == "d" || text == "n") && size == 8)
  }

  lemma NumeralRead(size: nat, df: int, rest: string)
    requires 1 <= size <= 16 && (rest == "" || !IsDigit(rest[0]))
    ensures Number(Numeral(size) + rest, df) == (size, rest)
  {
    var fmt := Numeral(size) + rest;
    if size < 10 {
      assert fmt[1..] == rest;
    } else {
      var fmt1 := ['0' + (size - 10) as char] + rest;
      assert fmt[1..] == fmt1 && fmt1[1..] == rest;
      assert Digits(1, fmt1) == (size, rest);
    }
  }

  /** Each option is read with its kind and size, and nothing behind it. */
  lemma OptionRead(native: bool, h: Header, text: string, signed: bool, size: nat, rest: string)
    requires IntegerOption(text, signed, size) && (rest == "" || !IsDigit(rest[0]))
    ensures Option(native, h, text + rest) == Ok(Parsed(if signed then Kint else Kuint, size, h, rest))
  {
    var fmt := text + rest;
    if |text| == 1 {
      assert fmt[1..] == rest;
    } else {
      assert fmt[1..] == Numeral(size) + rest;
      NumeralRead(size, 4, rest);
    }
  }

  /** The three marks of the order of bytes. */
  predicate LittleAfter(mark: char, native: bool) {
    mark == '<' || (mark == '=' && native)
  }

  lemma MarkRead(native: bool, h: Header, mark: char, rest: string)
    requires mark in "<>="
    ensures Option(native, h, [mark] + rest) == Ok(Parsed(Knop, 0, h.(islittle := LittleAfter(mark, native)), rest))
  {
    assert ([mark] + rest)[1..] == rest;
  }

  // ---------- bytes ----------

  lemma DivideTwice(u: nat, p: nat)
    requires p >= 1
    ensures u / 256 / p == u / (256 * p)
  {
    var q, r := u / 256 / p, u / 256 % p;
    assert u / 256 == q * p + r;
    var s := u % 256 + 256 * r;
    assert u == 256 * (u / 256) + u % 256 == q * (256 * p) + s;
    assert 0 <= s < 256 * p;
    Quotient(u, 256 * p, q, s);
  }

  lemma Quotient(u: int, p: int, q: int, s: int)
    requires 0 <= s < p && u == q * p + s
    ensures u / p == q
  {
    var e, t := u / p, u % p;
    assert u == p * e + t && 0 <= t < p;
    SameQuotient(p, e, t, q, s);
  }

  lemma SameQuotient(p: int, e: int, t: int, q: int, s: int)
    requires 0 <= s < p && 0 <= t < p && p * e + t == q * p + s
    ensures e == q
  {
    var d := e - q;
    assert p * d == p * e - q * p == s - t;
    AtLeastOnce(p, d);
  }

  lemma AtLeastOnce(p: int, d: int)
    requires p > 0
    ensures (d >= 1 ==> p * d >= p) && (d <= -1 ==> p * d <= -p)
  {
    if d >= 1 {
      assert p * d >= p * 1;
    } else if d <= -1 {
      assert p * d <= p * -1;
    }
  }

  lemma {:induction false} LeAt(u: nat, size: nat, k: nat)
    requires k < size
    ensures Le(u, size)[k] == u / Pow256(k) % 256
    decreases k
  {
    if k > 0 {
      LeAt(u / 256, size - 1, k - 1);
      DivideTwice(u, Pow256(k - 1));
    }
  }

  lemma {:induction false} PowOver(k: nat)
    requires k >= SZINT
    ensures Pow256(k) >= TWO64
    decreases k
  {
    if k == SZINT {
      PowSmall(0);
    } else {
      PowOver(k - 1);
    }
  }

  /** The digits of a negative number are those of the number above it by a power of 256. */
  lemma SameDigit(n: Int64, k: nat)
    requires n < 0 && k < SZINT
    ensures n / Pow256(k) % 256 == Unsigned(n) / Pow256(k) % 256
  {
    PowAdd(k, SZINT - k);
    PowSmall(0);
    LessTimes(Unsigned(n), Pow256(k), Pow256(SZINT - 1 - k));
  }

  lemma LessTimes(u: nat, p: nat, b: nat)
    requires p >= 1
    ensures (u - p * (256 * b)) / p % 256 == u / p % 256
  {
    LessQuotient(u, p, 256 * b);
  }

  lemma LessQuotient(u: nat, p: nat, c: nat)
    requires p >= 1
    ensures (u - p * c) / p == u / p - c
  {
    var q, s := u / p, u % p;
    assert u == p * q + s && 0 <= s < p;
    assert (q - c) * p == p * q - p * c;
    Quotient(u - p * c, p, q - c, s);
  }

  /** The byte of the bytes that carries the power `k` of 256, in little or big endian. */
  function Place(b: Bytes, k: nat, little: bool): Byte
    requires k < |b|
  {
    if little then b[k] else b[|b| - 1 - k]
  }

  /** The number that is written: signed as it is, unsigned modulo 2^64. */
  function Written(n: Int64, signed: bool): int {
    if signed || n >= 0 then n else n + 0x1_0000_0000_0000_0000
  }

  lemma DigitAt(n: Int64, size: nat, signed: bool, k: nat)
    requires k < size
    ensures IntBytes(Unsigned(n), size, signed && n < 0)[k] == Written(n, signed) / Pow256(k) % 256
  {
    if k < SZINT {
      LeAt(Unsigned(n), if size <= SZINT then size else SZINT, k);
      if n < 0 {
        SameDigit(n, k);
      }
    } else {
      PowOver(k);
      if signed && n < 0 {
        Quotient(n, Pow256(k), -1, n + Pow256(k));
      } else {
        Quotient(Unsigned(n), Pow256(k), 0, Unsigned(n));
      }
    }
  }

  /**
    The bytes `b` show the number `v` in two's complement: the byte for the power `k` of 256 is
    the digit of `v` there, at `k` from the start in little endian and from the end in big endian.
   */
  ghost predicate Shows(b: Bytes, v: int, little: bool) {
    forall k :: 0 <= k < |b| ==> Place(b, k, little) == v / Pow256(k) % 256
  }

  lemma OrderedShows(n: Int64, size: nat, signed: bool, little: bool)
    ensures Shows(Ordered(IntBytes(Unsigned(n), size, signed && n < 0), little), Written(n, signed), little)
  {
    hide IntBytes, Pow256, Written;
    var b := Ordered(IntBytes(Unsigned(n), size, signed && n < 0), little);
    forall k | 0 <= k < |b| ensures Place(b, k, little) == Written(n, signed) / Pow256(k) % 256 {
      DigitAt(n, size, signed, k);
    }
  }

  // ---------- formats ----------

  /** The range of `size` bytes; from 8 bytes on every integer fits. */
  predicate InRange(n: Int64, size: nat, signed: bool) {
    size >= 8 || if signed then -(Pow256(size) as int) <= 2 * n < Pow256(size) else 0 <= n < Pow256(size)
  }

  lemma RangeIs(n: Int64, size: nat, signed: bool)
    requires size >= 1
    ensures Holds(n, size, signed) <==> InRange(n, size, signed)
  {
    if size < SZINT {
      PowSmall(size);
    }
  }

  lemma NoPadding(opt: KOption, align: nat, total: nat)
    ensures Padding(opt, align, 1, total) == Ok(0)
  {
  }

  /** A format of one option for one argument. */
  lemma OnlyItem(native: bool, h: Header, text: string, d: Details, x: Item)
    requires text != "" && text[0] != '\0' && Detail(native, h, 0, text) == Ok(d) && TakesItem(d.opt) && d.pad == 0 && d.rest == ""
    ensures PackFrom(native, h, 0, text, [x]) == Encode(native, d, x)
  {
    hide Detail, Encode, Copies;
    var r := Encode(native, d, x);
    if r.Ok? {
      assert [x][1..] == [];
      assert StepOf(native, h, 0, text, [x]) == Ok(Step(d, r.v, []));
      assert PackFrom(native, d.h, |r.v|, "", []) == Ok([]);
      assert Copies(0, 0) == [];
      assert [] + r.v + [] == r.v;
    }
  }

  lemma OptionShape(text: string, signed: bool, size: nat)
    requires IntegerOption(text, signed, size)
    ensures 1 <= size <= 16 && text != "" && text[0] != '\0'
  {
    assert text[0] in "bBhHiIlLjJT";
  }

  /** One option for an integer. */
  lemma IntegerWritten(native: bool, h: Header, text: string, signed: bool, size: nat, n: Int64)
    requires IntegerOption(text, signed, size) && h.maxalign == 1
    ensures var r := PackFrom(native, h, 0, text, [Int(n)]);
            if InRange(n, size, signed) then r.Ok? && |r.v| == size && Shows(r.v, Written(n, signed), h.islittle)
            else r == Err(if signed then IntegerOverflow else UnsignedOverflow)
  {
    OptionShape(text, signed, size);
    hide IntBytes, Pow256, Shows, InRange, Holds, Ordered, Option, Padding, PackFrom, IntegerOption;
    assert text + "" == text;
    OptionRead(native, h, text, signed, size, "");
    var opt := if signed then Kint else Kuint;
    NoPadding(opt, size, 0);
    var d := Details(opt, size, 0, h, "");
    assert Detail(native, h, 0, text) == Ok(d);
    RangeIs(n, size, signed);
    OrderedShows(n, size, signed, h.islittle);
    OnlyItem(native, h, text, d, Int(n));
  }

  /** A mark for the order of bytes in front of an option for one argument. */
  lemma UnderMark(native: bool, mark: char, text: string, x: Item)
    requires mark in "<>="
    ensures PackFrom(native, Header(native, 1), 0, [mark] + text, [x]) == PackFrom(native, Header(LittleAfter(mark, native), 1), 0, text, [x])
  {
    hide Option, Padding, Copies, LittleAfter;
    var fmt, h := [mark] + text, Header(native, 1);
    MarkRead(native, h, mark, text);
    NoPadding(Knop, 0, 0);
    var h' := h.(islittle := LittleAfter(mark, native));
    assert Detail(native, h, 0, fmt) == Ok(Details(Knop, 0, 0, h', text));
    assert StepOf(native, h, 0, fmt, [x]) == Ok(Step(Details(Knop, 0, 0, h', text), Copies(0, 0), [x]));
    var r := PackFrom(native, h', 0, text, [x]);
    assert Copies(0, 0) == [];
    assert r.Ok? ==> [] + [] + r.v == r.v;
  }

  /** Packing one integer under a mark for the order of bytes. */
  lemma IntegerPacked(native: bool, mark: char, text: string, signed: bool, size: nat, n: Int64)
    requires mark in "<>=" && IntegerOption(text, signed, size)
    ensures var r := PackFrom(native, Header(native, 1), 0, [mark] + text, [Int(n)]);
            if InRange(n, size, signed) then r.Ok? && |r.v| == size && Shows(r.v, Written(n, signed), LittleAfter(mark, native))
            else r == Err(if signed then IntegerOverflow else UnsignedOverflow)
  {
    hide Shows, InRange, IntegerOption, PackFrom, LittleAfter;
    UnderMark(native, mark, text, Int(n));
    IntegerWritten(native, Header(LittleAfter(mark, native), 1), text, signed, size, n);
  }

  /** Packing one float: its bytes in memory, turned round if another order is asked for than that of the machine. */
  lemma FloatPacked(native: bool, mark: char, text: string, size: nat, bits: Bytes)
    requires mark in "<>=" && FloatOption(text, size) && |bits| == size
    ensures var r, little := PackFrom(native, Header(native, 1), 0, [mark] + text, [Float(bits)]), LittleAfter(mark, native);
            r.Ok? && |r.v| == size && forall k :: 0 <= k < size ==> Place(r.v, k, little) == Place(bits, k, native)
  {
    hide Padding, PackFrom, LittleAfter;
    UnderMark(native, mark, text, Float(bits));
    var h := Header(LittleAfter(mark, native), 1);
    assert text[1..] == "";
    NoPadding(Kfloat, size, 0);
    var d := Details(Kfloat, size, 0, h, "");
    assert Detail(native, h, 0, text) == Ok(d);
    OnlyItem(native, h, text, d, Float(bits));
  }

  lemma StringOption(native: bool, h: Header, size: nat, text: string)
    requires 1 <= size <= 16
    requires text == "s" + Numeral(size) || (text == "s" && size == 8)
    ensures text != "" && text[0] == 's' && Option(native, h, text) == Ok(Parsed(Kstring, size, h, ""))
  {
    if |text| > 1 {
      assert text[1..] == Numeral(size) + "";
      NumeralRead(size, 8, "");
    }
  }

  /** A string is written behind its length, which takes the size of the option; 8 bytes when none is given. */
  lemma StringPacked(native: bool, mark: char, size: nat, text: string, s: Bytes)
    requires mark in "<>=" && 1 <= size <= 16 && |s| < TWO63
    requires text == "s" + Numeral(size) || (text == "s" && size == 8)
    ensures var r := PackFrom(native, Header(native, 1), 0, [mark] + text, [Str(s)]);
            if size >= 8 || |s| < Pow256(size) then
              r.Ok? && |r.v| == size + |s| && r.v[size..] == s && Shows(r.v[..size], |s|, LittleAfter(mark, native))
            else r == Err(LengthDoesNotFit)
  {
    hide Shows, Padding, PackFrom, IntBytes, Ordered, LittleAfter, Pow256, Option;
    UnderMark(native, mark, text, Str(s));
    var h := Header(LittleAfter(mark, native), 1);
    StringOption(native, h, size, text);
    NoPadding(Kstring, size, 0);
    var d := Details(Kstring, size, 0, h, "");
    assert Detail(native, h, 0, text) == Ok(d);
    OrderedShows(|s|, size, false, h.islittle);
    OnlyItem(native, h, text, d, Str(s));
    var len := Ordered(IntBytes(|s|, size, false), h.islittle);
    assert (len + s)[..size] == len && (len + s)[size..] == s;
  }

  /** A string of fixed size is filled up with zeros, and one that ends with a zero has no other. */
  lemma TextPacked(native: bool, s: Bytes, size: nat)
    requires 1 <= size <= 16
    ensures PackFrom(native, Header(native, 1), 0, "c" + Numeral(size), [Str(s)]) ==
            if |s| <= size then Ok(s + Copies(0, size - |s|)) else Err(LongerThanSize)
    ensures PackFrom(native, Header(native, 1), 0, "z", [Str(s)]) == if 0 in s then Err(ContainsZeros) else Ok(s + [0])
  {
    hide Padding, PackFrom, Copies;
    var h := Header(native, 1);
    var fmt := "c" + Numeral(size);
    assert fmt[1..] == Numeral(size) + "";
    NumeralRead(size, -1, "");
    NoPadding(Kchar, size, 0);
    var d := Details(Kchar, size, 0, h, "");
    assert Detail(native, h, 0, fmt) == Ok(d);
    OnlyItem(native, h, fmt, d, Str(s));
    NoPadding(Kzstr, 0, 0);
    var e := Details(Kzstr, 0, 0, h, "");
    assert "z"[1..] == "";
    assert Detail(native, h, 0, "z") == Ok(e);
    OnlyItem(native, h, "z", e, Str(s));
  }

  /** `!` sets the largest alignment, to 8 if no number is given. */
  lemma AlignmentSet(native: bool, h: Header, size: nat, rest: string)
    requires 1 <= size <= 16 && (rest == "" || !IsDigit(rest[0]))
    ensures Option(native, h, "!" + Numeral(size) + rest) == Ok(Parsed(Knop, 0, h.(maxalign := size), rest))
    ensures Option(native, h, "!" + rest) == Ok(Parsed(Knop, 0, h.(maxalign := 8), rest))
  {
    assert ("!" + Numeral(size) + rest)[1..] == Numeral(size) + rest;
    NumeralRead(size, MAXALIGN, rest);
    assert ("!" + rest)[1..] == rest;
  }
}
