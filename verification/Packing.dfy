/**
  `string.pack`, `string.unpack` and `string.packsize` of `lstrlib.c`, for a machine with
  64-bit integers, pointers and sizes, 32-bit `int`, and 8 as its largest alignment.
 */
module Packing {
  import LuaFind

  type Byte = b: nat | b < 256
  type Bytes = seq<Byte>

  const MAXINTSIZE := 16
  const SZINT := 8
  const MAXALIGN := 8
  const MAXSIZE := 0x7fff_ffff
  const TWO63 := 0x8000_0000_0000_0000
  const TWO64 := 0x1_0000_0000_0000_0000

  type Int64 = n: int | -TWO63 <= n < TWO63

  datatype KOption = Kint | Kuint | Kfloat | Kchar | Kstring | Kzstr | Kpadding | Kpaddalign | Knop

  datatype Header = Header(islittle: bool, maxalign: nat)

  datatype Fault =
    | SizeOutOfLimits | MissingSize | InvalidOption | InvalidNext | NotPowerOf2
    | IntegerOverflow | UnsignedOverflow | LongerThanSize | LengthDoesNotFit | ContainsZeros | BadArgument
    | TooShort | DoesNotFit | OutOfString | VariableLength | TooLarge | TooBig

  datatype Res<+T> = Ok(v: T) | Err(fault: Fault) {
    predicate IsFailure() {
      Err?
    }
    function PropagateFailure<U>(): Res<U>
      requires IsFailure()
    {
      Err(fault)
    }
    function Extract(): T
      requires !IsFailure()
    {
      v
    }
  }

  /** An argument or result: a float is the bytes that it has in memory as the type of its option. */
  datatype Item = Int(n: Int64) | Str(s: Bytes) | Float(bits: Bytes)

  // ---------- formats ----------

  /** The end of a C string. */
  predicate AtEnd(fmt: string) {
    fmt == "" || fmt[0] == '\0'
  }

  predicate IsDigit(c: char) {
    '0' <= c <= '9'
  }

  /** The number that the digits at the head of `fmt` continue `a` to, as long as it fits an `int`. */
  function Digits(a: nat, fmt: string): (r: (nat, string))
    requires fmt != "" && IsDigit(fmt[0]) && a <= (MAXSIZE - 9) / 10
    ensures |r.1| < |fmt| && r.0 <= MAXSIZE
    decreases |fmt|
  {
    var b := a * 10 + (fmt[0] as int - '0' as int);
    if |fmt| > 1 && IsDigit(fmt[1]) && b <= (MAXSIZE - 9) / 10 then Digits(b, fmt[1..]) else (b, fmt[1..])
  }

  function Number(fmt: string, df: int): (r: (int, string))
    ensures |r.1| <= |fmt| && (r.0 == df || 0 <= r.0 <= MAXSIZE)
  {
    if fmt == "" || !IsDigit(fmt[0]) then (df, fmt) else Digits(0, fmt)
  }

  function Limited(fmt: string, df: int): (r: Res<(nat, string)>)
    ensures r.Ok? ==> 1 <= r.v.0 <= MAXINTSIZE && |r.v.1| <= |fmt|
  {
    var (sz, rest) := Number(fmt, df);
    if sz > MAXINTSIZE || sz <= 0 then Err(SizeOutOfLimits) else Ok((sz, rest))
  }

  datatype Parsed = Parsed(opt: KOption, size: nat, h: Header, rest: string)

  function Sized(opt: KOption, h: Header, fmt: string, df: int): (r: Res<Parsed>)
    requires opt in {Kint, Kuint, Kstring}
    ensures r.Ok? ==> |r.v.rest| <= |fmt| && r.v.opt == opt && SizeOk(opt, r.v.size)
  {
    var (sz, rest) :- Limited(fmt, df);
    Ok(Parsed(opt, sz, h, rest))
  }

  /** The sizes that options have. */
  predicate SizeOk(opt: KOption, size: nat) {
    match opt
    case Kint => 1 <= size <= MAXINTSIZE
    case Kuint => 1 <= size <= MAXINTSIZE
    case Kfloat => size == 4 || size == 8
    case Kchar => true
    case Kstring => 1 <= size <= MAXINTSIZE
    case Kpadding => size == 1
    case _ => size == 0
  }

  /** `getoption`. */
  function Option(native: bool, h: Header, fmt: string): (r: Res<Parsed>)
    requires fmt != ""
    ensures r.Ok? ==> |r.v.rest| < |fmt| && SizeOk(r.v.opt, r.v.size)
  {
    var rest := fmt[1..];
    match fmt[0]
    case 'b' => Ok(Parsed(Kint, 1, h, rest))
    case 'B' => Ok(Parsed(Kuint, 1, h, rest))
    case 'h' => Ok(Parsed(Kint, 2, h, rest))
    case 'H' => Ok(Parsed(Kuint, 2, h, rest))
    case 'l' => Ok(Parsed(Kint, 8, h, rest))
    case 'L' => Ok(Parsed(Kuint, 8, h, rest))
    case 'j' => Ok(Parsed(Kint, 8, h, rest))
    case 'J' => Ok(Parsed(Kuint, 8, h, rest))
    case 'T' => Ok(Parsed(Kuint, 8, h, rest))
    case 'f' => Ok(Parsed(Kfloat, 4, h, rest))
    case 'd' => Ok(Parsed(Kfloat, 8, h, rest))
    case 'n' => Ok(Parsed(Kfloat, 8, h, rest))
    case 'i' => Sized(Kint, h, rest, 4)
    case 'I' => Sized(Kuint, h, rest, 4)
    case 's' => Sized(Kstring, h, rest, 8)
    case 'c' =>
      var (sz, rest') := Number(rest, -1);
      if sz == -1 then Err(MissingSize) else Ok(Parsed(Kchar, sz, h, rest'))
    case 'z' => Ok(Parsed(Kzstr, 0, h, rest))
    case 'x' => Ok(Parsed(Kpadding, 1, h, rest))
    case 'X' => Ok(Parsed(Kpaddalign, 0, h, rest))
    case ' ' => Ok(Parsed(Knop, 0, h, rest))
    case '<' => Ok(Parsed(Knop, 0, h.(islittle := true), rest))
    case '>' => Ok(Parsed(Knop, 0, h.(islittle := false), rest))
    case '=' => Ok(Parsed(Knop, 0, h.(islittle := native), rest))
    case '!' =>
      var (sz, rest') :- Limited(rest, MAXALIGN);
      Ok(Parsed(Knop, 0, h.(maxalign := sz), rest'))
    case _ => Err(InvalidOption)
  }

  datatype Details = Details(opt: KOption, size: nat, pad: nat, h: Header, rest: string)

  predicate IsPowerOf2(n: nat) {
    n == 1 || n == 2 || n == 4 || n == 8 || n == 16
  }

  /** `n & (a - 1)` for a power of 2. */
  function Low(n: nat, a: nat): nat
    requires IsPowerOf2(a)
  {
    if a == 1 then 0 else if a == 2 then n % 2 else if a == 4 then n % 4 else if a == 8 then n % 8 else n % 16
  }

  /** The padding in front of an item that is to be aligned at a multiple of `align`, at most `maxalign`. */
  function Padding(opt: KOption, align: nat, maxalign: nat, total: nat): (r: Res<nat>) {
    if align <= 1 || opt == Kchar then Ok(0)
    else
      var a := if align > maxalign then maxalign else align;
      if !IsPowerOf2(a) then Err(NotPowerOf2) else Ok(Low(a - Low(total, a), a))
  }

  /** The item is at a multiple of its alignment then, and no smaller padding `k` will do. */
  lemma PaddingAligns(opt: KOption, align: nat, maxalign: nat, total: nat, k: nat)
    requires Padding(opt, align, maxalign, total).Ok? && align > 1 && opt != Kchar
    ensures var a, pad := if align > maxalign then maxalign else align, Padding(opt, align, maxalign, total).v;
            IsPowerOf2(a) && Low(total + pad, a) == 0 && (k < pad ==> Low(total + k, a) != 0)
  {
    hide Low;
    var a, pad := if align > maxalign then maxalign else align, Padding(opt, align, maxalign, total).v;
    Least(total, a, 0);
    PadBelow(total, a);
    Least(total, a, pad);
    if k < pad {
      Least(total, a, k);
    }
  }

  /** `Low` is the remainder. */
  lemma LowIs(n: nat, a: nat, q: nat, r: nat)
    requires IsPowerOf2(a) && n == a * q + r && r < a
    ensures Low(n, a) == r
  {
    if a == 2 {
      assert n == 2 * q + r;
    } else if a == 4 {
      assert n == 4 * q + r;
    } else if a == 8 {
      assert n == 8 * q + r;
    } else if a == 16 {
      assert n == 16 * q + r;
    }
  }

  lemma PadBelow(total: nat, a: nat)
    requires IsPowerOf2(a) && Low(total, a) < a
    ensures Low(a - Low(total, a), a) < a
  {
  }

  lemma Least(total: nat, a: nat, k: nat)
    requires IsPowerOf2(a) && k < a
    ensures Low(total, a) < a && (Low(total + k, a) == 0 <==> k == Low(a - Low(total, a), a))
  {
    hide Low;
    var q, r := total / a, total % a;
    LowIs(total, a, q, r);
    LowIs(a - r, a, if r == 0 then 1 else 0, if r == 0 then 0 else a - r);
    if r + k < a {
      LowIs(total + k, a, q, r + k);
    } else {
      assert total + k == a * (q + 1) + (r + k - a);
      LowIs(total + k, a, q + 1, r + k - a);
    }
  }

  /** `getdetails`: the option with its padding; `X` takes the alignment from the option behind it. */
  function Detail(native: bool, h: Header, total: nat, fmt: string): (r: Res<Details>)
    requires fmt != ""
    ensures r.Ok? ==> |r.v.rest| < |fmt| && SizeOk(r.v.opt, r.v.size)
  {
    var o :- Option(native, h, fmt);
    if o.opt == Kpaddalign then
      if AtEnd(o.rest) then Err(InvalidNext)
      else
        var q :- Option(native, o.h, o.rest);
        if q.opt == Kchar || q.size == 0 then Err(InvalidNext)
        else
          var pad :- Padding(o.opt, q.size, q.h.maxalign, total);
          Ok(Details(o.opt, 0, pad, q.h, q.rest))
    else
      var pad :- Padding(o.opt, o.size, o.h.maxalign, total);
      Ok(Details(o.opt, o.size, pad, o.h, o.rest))
  }

  // ---------- integers ----------

  function Unsigned(n: Int64): nat {
    if n >= 0 then n else n + TWO64
  }

  function Signed(u: nat): Int64
    requires u < TWO64
  {
    if u < TWO63 then u else u - TWO64
  }

  /** The `size` lowest bytes, the lowest first. */
  function Le(u: nat, size: nat): (b: Bytes)
    ensures |b| == size
  {
    if size == 0 then [] else [u % 256] + Le(u / 256, size - 1)
  }

  function FromLe(b: Bytes): nat {
    if b == [] then 0 else b[0] + 256 * FromLe(b[1..])
  }

  function Pow256(k: nat): (p: nat)
    ensures p >= 1
  {
    if k == 0 then 1 else 256 * Pow256(k - 1)
  }

  function Copies(b: Byte, n: nat): (r: Bytes)
    ensures |r| == n
  {
    seq(n, i => b)
  }

  /** The bytes of an integer: those that are more than it has repeat its sign. */
  function IntBytes(u: nat, size: nat, neg: bool): (b: Bytes)
    ensures |b| == size
  {
    if size <= SZINT then Le(u, size) else Le(u, SZINT) + Copies(if neg then 255 else 0, size - SZINT)
  }

  function Reversed(b: Bytes): (r: Bytes)
    ensures |r| == |b|
  {
    seq(|b|, i requires 0 <= i < |b| => b[|b| - 1 - i])
  }

  function Ordered(b: Bytes, islittle: bool): (r: Bytes)
    ensures |r| == |b|
  {
    if islittle then b else Reversed(b)
  }

  lemma OrderedTwice(b: Bytes, islittle: bool)
    ensures Ordered(Ordered(b, islittle), islittle) == b
  {
  }

  lemma {:induction false} BelowPow(b: Bytes)
    ensures FromLe(b) < Pow256(|b|)
  {
    if b != [] {
      BelowPow(b[1..]);
    }
  }

  lemma PowSmall(k: nat)
    requires k <= SZINT
    ensures Pow256(SZINT) == TWO64 && (k < SZINT ==> 256 * Pow256(k) <= TWO64)
  {
    assert Pow256(1) == 0x100;
    assert Pow256(2) == 0x1_0000;
    assert Pow256(3) == 0x100_0000;
    assert Pow256(4) == 0x1_0000_0000;
    assert Pow256(5) == 0x100_0000_0000;
    assert Pow256(6) == 0x1_0000_0000_0000;
    assert Pow256(7) == 0x100_0000_0000_0000;
  }

  /** The integer that `unpackint` makes of bytes of which the lowest is the first. */
  function IntFrom(b: Bytes, signed: bool): Res<Int64> {
    if |b| < SZINT then
      BelowPow(b);
      PowSmall(|b|);
      var res := FromLe(b);
      Ok(if signed && 2 * res >= Pow256(|b|) then res - Pow256(|b|) else res)
    else
      BelowPow(b[..SZINT]);
      PowSmall(SZINT);
      var res := FromLe(b[..SZINT]);
      var fill := if !signed || res < TWO63 then 0 else 255;
      if forall i :: SZINT <= i < |b| ==> b[i] == fill then Ok(Signed(res)) else Err(DoesNotFit)
  }

  // ---------- packing ----------

  /** An integer that `size` bytes can hold. */
  predicate Holds(n: Int64, size: nat, signed: bool) {
    size >= SZINT || if signed then 2 * n + Pow256(size) >= 0 && 2 * n < Pow256(size) else Unsigned(n) < Pow256(size)
  }

  /** What `str_pack` writes for one argument. */
  function Encode(native: bool, d: Details, x: Item): (r: Res<Bytes>)
    requires d.opt in {Kint, Kuint, Kfloat, Kchar, Kstring, Kzstr}
    ensures r.Ok? && d.opt in {Kint, Kuint, Kfloat, Kchar} ==> |r.v| == d.size
    ensures r.Ok? && d.opt == Kstring ==> x.Str? && |r.v| == d.size + |x.s|
    ensures r.Ok? && d.opt == Kzstr ==> x.Str? && |r.v| == |x.s| + 1
  {
    match d.opt
    case Kint =>
      if !x.Int? then Err(BadArgument)
      else if !Holds(x.n, d.size, true) then Err(IntegerOverflow)
      else Ok(Ordered(IntBytes(Unsigned(x.n), d.size, x.n < 0), d.h.islittle))
    case Kuint =>
      if !x.Int? then Err(BadArgument)
      else if !Holds(x.n, d.size, false) then Err(UnsignedOverflow)
      else Ok(Ordered(IntBytes(Unsigned(x.n), d.size, false), d.h.islittle))
    case Kfloat =>
      if !x.Float? || |x.bits| != d.size then Err(BadArgument) else Ok(Ordered(x.bits, d.h.islittle == native))
    case Kchar =>
      if !x.Str? then Err(BadArgument)
      else if |x.s| > d.size then Err(LongerThanSize)
      else Ok(x.s + Copies(0, d.size - |x.s|))
    case Kstring =>
      if !x.Str? then Err(BadArgument)
      else if d.size < SZINT && |x.s| >= Pow256(d.size) then Err(LengthDoesNotFit)
      else Ok(Ordered(IntBytes(|x.s|, d.size, false), d.h.islittle) + x.s)
    case Kzstr =>
      if !x.Str? then Err(BadArgument)
      else if exists i :: 0 <= i < |x.s| && x.s[i] == 0 then Err(ContainsZeros)
      else Ok(x.s + [0])
  }

  predicate TakesItem(opt: KOption) {
    opt in {Kint, Kuint, Kfloat, Kchar, Kstring, Kzstr}
  }

  function Behind(b: Bytes, r: Res<Bytes>): Res<Bytes> {
    match r
    case Ok(c) => Ok(b + c)
    case Err(f) => Err(f)
  }

  /** What one option of a format does: its details, the bytes behind the padding, and the arguments left. */
  datatype Step = Step(d: Details, x: Bytes, args: seq<Item>)

  function StepOf(native: bool, h: Header, total: nat, fmt: string, args: seq<Item>): (r: Res<Step>)
    requires !AtEnd(fmt)
    ensures r.Ok? ==> |r.v.d.rest| < |fmt| && SizeOk(r.v.d.opt, r.v.d.size)
    ensures r.Ok? && TakesItem(r.v.d.opt) ==> args != [] && r.v.args == args[1..] && Encode(native, r.v.d, args[0]) == Ok(r.v.x)
    ensures r.Ok? && !TakesItem(r.v.d.opt) ==> r.v.args == args && r.v.x == Copies(0, r.v.d.size)
    ensures r.Ok? ==> Detail(native, h, total, fmt) == Ok(r.v.d)
  {
    var d :- Detail(native, h, total, fmt);
    if TakesItem(d.opt) then
      if args == [] then Err(BadArgument)
      else
        var x :- Encode(native, d, args[0]);
        Ok(Step(d, x, args[1..]))
    else Ok(Step(d, Copies(0, d.size), args))
  }

  /** `str_pack` from format `fmt` on, when `total` bytes have been written. */
  function PackFrom(native: bool, h: Header, total: nat, fmt: string, args: seq<Item>): Res<Bytes>
    decreases |fmt|
  {
    if AtEnd(fmt) then Ok([])
    else
      var st :- StepOf(native, h, total, fmt, args);
      Behind(Copies(0, st.d.pad) + st.x, PackFrom(native, st.d.h, total + st.d.pad + |st.x|, st.d.rest, st.args))
  }

  // ---------- unpacking ----------

  /** `strlen` from position `p` on; behind the last byte of a string there is a zero. */
  function ZeroAt(data: Bytes, p: nat): (e: nat)
    requires p <= |data|
    ensures p <= e <= |data| && (forall i :: p <= i < e ==> data[i] != 0) && (e < |data| ==> data[e] == 0)
    decreases |data| - p
  {
    if p == |data| || data[p] == 0 then p else ZeroAt(data, p + 1)
  }

  /** The item at position `p`, and the position behind it; the check of the length of a string wraps around. */
  function Decode(native: bool, d: Details, data: Bytes, p: nat): (r: Res<(Item, nat)>)
    requires TakesItem(d.opt) && p + d.size <= |data|
    ensures r.Ok? ==> p <= r.v.1
  {
    var b := data[p..p + d.size];
    match d.opt
    case Kint =>
      var n :- IntFrom(Ordered(b, d.h.islittle), true);
      Ok((Int(n), p + d.size))
    case Kuint =>
      var n :- IntFrom(Ordered(b, d.h.islittle), false);
      Ok((Int(n), p + d.size))
    case Kfloat => Ok((Float(Ordered(b, d.h.islittle == native)), p + d.size))
    case Kchar => Ok((Str(b), p + d.size))
    case Kstring =>
      var n :- IntFrom(Ordered(b, d.h.islittle), false);
      var len := Unsigned(n);
      var q := p + d.size;
      var e := if q + len < TWO64 then q + len else q + len - TWO64;
      if e > |data| then Err(TooShort)
      else if q + len > |data| then Err(TooBig)
      else Ok((Str(data[q..q + len]), q + len))
    case Kzstr =>
      var e := ZeroAt(data, p);
      Ok((Str(data[p..e]), e + 1))
  }

  function Before(items: seq<Item>, r: Res<(seq<Item>, nat)>): Res<(seq<Item>, nat)> {
    match r
    case Ok(c) => Ok((items + c.0, c.1))
    case Err(f) => Err(f)
  }

  /** `str_unpack` from format `fmt` on, at position `pos` (the first being 0). */
  function UnpackFrom(native: bool, h: Header, pos: nat, fmt: string, data: Bytes): Res<(seq<Item>, nat)>
    decreases |fmt|
  {
    if AtEnd(fmt) then Ok(([], pos))
    else
      var d :- Detail(native, h, pos, fmt);
      var p := pos + d.pad;
      if p + d.size > |data| then Err(TooShort)
      else if TakesItem(d.opt) then
        var x :- Decode(native, d, data, p);
        Before([x.0], UnpackFrom(native, d.h, x.1, d.rest, data))
      else UnpackFrom(native, d.h, p + d.size, d.rest, data)
  }

  // ---------- round trips ----------

  /** The item that comes back: a string of fixed size is filled up with zeros. */
  function BackItem(d: Details, x: Item): Item {
    if d.opt == Kchar && x.Str? && |x.s| <= d.size then Str(x.s + Copies(0, d.size - |x.s|)) else x
  }

  /** The arguments that a format uses, as they come back. */
  function Back(native: bool, h: Header, total: nat, fmt: string, args: seq<Item>): seq<Item>
    decreases |fmt|
  {
    if AtEnd(fmt) then []
    else
      match StepOf(native, h, total, fmt, args)
      case Err(_) => []
      case Ok(st) =>
        (if TakesItem(st.d.opt) then [BackItem(st.d, args[0])] else [])
        + Back(native, st.d.h, total + st.d.pad + |st.x|, st.d.rest, st.args)
  }

  /** Every string for an option `c` has the size of the option. */
  predicate Full(native: bool, h: Header, total: nat, fmt: string, args: seq<Item>)
    decreases |fmt|
  {
    AtEnd(fmt) ||
    match StepOf(native, h, total, fmt, args)
    case Err(_) => true
    case Ok(st) =>
      (st.d.opt == Kchar && args[0].Str? ==> |args[0].s| == st.d.size)
      && Full(native, st.d.h, total + st.d.pad + |st.x|, st.d.rest, st.args)
  }

  lemma SameItem(native: bool, d: Details, x: Item)
    requires TakesItem(d.opt) && Encode(native, d, x).Ok?
    ensures BackItem(d, x) == x <==> (d.opt == Kchar && x.Str? ==> |x.s| == d.size)
  {
    hide IntBytes, Ordered;
    if d.opt == Kchar {
      var y := x.s + Copies(0, d.size - |x.s|);
      assert |y| == d.size;
      if |x.s| == d.size {
        assert y == x.s;
      }
    }
  }

  /** The arguments that a format uses come back as they are if and only if strings of fixed size are full. */
  lemma {:induction false} BackIsPrefix(native: bool, h: Header, total: nat, fmt: string, args: seq<Item>)
    requires PackFrom(native, h, total, fmt, args).Ok?
    ensures Back(native, h, total, fmt, args) <= args <==> Full(native, h, total, fmt, args)
    decreases |fmt|
  {
    hide StepOf, Encode, BackItem, Detail, SizeOk, PackFrom, Copies;
    PackStep(native, h, total, fmt, args);
    if !AtEnd(fmt) {
      var st := StepOf(native, h, total, fmt, args).v;
      var next := total + st.d.pad + |st.x|;
      BackIsPrefix(native, st.d.h, next, st.d.rest, st.args);
      var rest := Back(native, st.d.h, next, st.d.rest, st.args);
      StepTakes(native, h, total, fmt, args);
      if TakesItem(st.d.opt) {
        SameItem(native, st.d, args[0]);
        ConsPrefix(BackItem(st.d, args[0]), rest, args);
      } else {
        assert [] + rest == rest;
      }
    }
  }

  lemma ConsPrefix(x: Item, rest: seq<Item>, args: seq<Item>)
    requires args != []
    ensures [x] + rest <= args <==> x == args[0] && rest <= args[1..]
  {
    if x == args[0] && rest <= args[1..] {
      assert args == [args[0]] + args[1..];
    }
    if [x] + rest <= args {
      assert ([x] + rest)[0] == args[0];
      assert rest == ([x] + rest)[1..];
    }
  }

  lemma StepTakes(native: bool, h: Header, total: nat, fmt: string, args: seq<Item>)
    requires !AtEnd(fmt) && StepOf(native, h, total, fmt, args).Ok?
    ensures var st := StepOf(native, h, total, fmt, args).v;
            if TakesItem(st.d.opt) then args != [] && st.args == args[1..] && Encode(native, st.d, args[0]).Ok?
            else st.args == args && st.d.opt != Kchar
  {
    hide Detail, Encode, Copies;
  }

  /** Multiples of the modulus do not matter. */
  lemma {:induction false} LeShift(u: nat, q: nat, k: nat)
    ensures Le(u + q * Pow256(k), k) == Le(u, k)
    decreases k
  {
    if k > 0 {
      var t := q * Pow256(k - 1);
      assert q * Pow256(k) == 256 * t;
      assert (u + 256 * t) % 256 == u % 256 && (u + 256 * t) / 256 == u / 256 + t;
      LeShift(u / 256, q, k - 1);
    }
  }

  lemma {:induction false} LeBack(u: nat, k: nat)
    requires u < Pow256(k)
    ensures FromLe(Le(u, k)) == u
    decreases k
  {
    if k > 0 {
      LeBack(u / 256, k - 1);
      assert Le(u, k)[1..] == Le(u / 256, k - 1);
    }
  }

  lemma {:induction false} PowAdd(a: nat, b: nat)
    ensures Pow256(a + b) == Pow256(a) * Pow256(b)
    decreases b
  {
    if b > 0 {
      PowAdd(a, b - 1);
      assert Pow256(a + b) == 256 * Pow256(a + (b - 1));
      assert Pow256(a) * Pow256(b) == 256 * (Pow256(a) * Pow256(b - 1));
    }
  }

  /** A negative number in few bytes is the number above it by a power of 256. */
  lemma NegativeBytes(n: Int64, size: nat)
    requires n < 0 && size < SZINT && n + Pow256(size) >= 0
    ensures Le(Unsigned(n), size) == Le(n + Pow256(size), size)
  {
    PowAdd(size, SZINT - size);
    PowSmall(size);
    var a, b := Pow256(size), Pow256(SZINT - size);
    assert TWO64 == a * b;
    hide Pow256, Le;
    assert (b - 1) * a == a * b - a;
    LeShift(n + a, b - 1, size);
  }

  /** Every integer that fits comes back. */
  lemma IntBack(n: Int64, size: nat, signed: bool)
    requires 1 <= size && Holds(n, size, signed)
    ensures IntFrom(IntBytes(Unsigned(n), size, signed && n < 0), signed) == Ok(n)
  {
    PowSmall(if size < SZINT then size else 0);
    if size < SZINT {
      if n < 0 {
        NegativeBytes(n, size);
        LeBack(n + Pow256(size), size);
      } else {
        LeBack(n, size);
      }
    } else {
      var b := IntBytes(Unsigned(n), size, signed && n < 0);
      assert b[..SZINT] == Le(Unsigned(n), SZINT);
      LeBack(Unsigned(n), SZINT);
    }
  }

  lemma LengthBack(len: nat, size: nat)
    requires 1 <= size && len < TWO63 && (size < SZINT ==> len < Pow256(size))
    ensures IntFrom(IntBytes(len, size, false), false) == Ok(len)
  {
    IntBack(len, size, false);
  }

  /** What is written for an argument is read back, wherever it stands. */
  lemma ItemBack(native: bool, d: Details, x: Item, data: Bytes, p: nat)
    requires TakesItem(d.opt) && SizeOk(d.opt, d.size) && Encode(native, d, x).Ok? && (x.Str? ==> |x.s| < TWO63)
    requires var b := Encode(native, d, x).v; p + |b| <= |data| && data[p..p + |b|] == b
    ensures p + d.size <= |data|
    ensures Decode(native, d, data, p) == Ok((BackItem(d, x), p + |Encode(native, d, x).v|))
  {
    hide IntBytes, IntFrom, Ordered, ZeroAt, Holds, Pow256;
    var b := Encode(native, d, x).v;
    if d.opt == Kint || d.opt == Kuint {
      assert b == data[p..p + d.size];
      IntBack(x.n, d.size, d.opt == Kint);
      OrderedTwice(IntBytes(Unsigned(x.n), d.size, d.opt == Kint && x.n < 0), d.h.islittle);
    } else if d.opt == Kfloat {
      OrderedTwice(x.bits, d.h.islittle == native);
    } else if d.opt == Kstring {
      StringBack(native, d, x.s, data, p);
    } else if d.opt == Kzstr {
      assert x.s + [0] == b;
      ZeroBack(data, p, x.s);
    }
  }

  lemma StringBack(native: bool, d: Details, s: Bytes, data: Bytes, p: nat)
    requires d.opt == Kstring && SizeOk(d.opt, d.size) && Encode(native, d, Str(s)).Ok? && |s| < TWO63
    requires var b := Encode(native, d, Str(s)).v; p + |b| <= |data| && data[p..p + |b|] == b
    ensures p + d.size <= |data| && Decode(native, d, data, p) == Ok((Str(s), p + d.size + |s|))
  {
    hide IntBytes, IntFrom, Ordered, Decode;
    var len := Ordered(IntBytes(|s|, d.size, false), d.h.islittle);
    var q := p + d.size;
    assert Encode(native, d, Str(s)).v == len + s;
    Parts(data, p, len, s);
    LengthBack(|s|, d.size);
    OrderedTwice(IntBytes(|s|, d.size, false), d.h.islittle);
    DecodeString(native, d, data, p, |s|);
  }

  lemma Parts(data: Bytes, p: nat, a: Bytes, b: Bytes)
    requires p + |a + b| <= |data| && data[p..p + |a + b|] == a + b
    ensures data[p..p + |a|] == a && data[p + |a|..p + |a| + |b|] == b
  {
    var c := data[p..p + |a + b|];
    assert data[p..p + |a|] == c[..|a|];
    assert data[p + |a|..p + |a| + |b|] == c[|a|..];
  }

  lemma DecodeString(native: bool, d: Details, data: Bytes, p: nat, len: nat)
    requires d.opt == Kstring && p + d.size + len <= |data| && len < TWO63
    requires IntFrom(Ordered(data[p..p + d.size], d.h.islittle), false) == Ok(len)
    ensures Decode(native, d, data, p) == Ok((Str(data[p + d.size..p + d.size + len]), p + d.size + len))
  {
    hide IntFrom, Ordered;
  }

  lemma ZeroBack(data: Bytes, p: nat, s: Bytes)
    requires p + |s| + 1 <= |data| && data[p..p + |s| + 1] == s + [0] && forall i :: 0 <= i < |s| ==> s[i] != 0
    ensures ZeroAt(data, p) == p + |s| && data[p..p + |s|] == s
  {
    var b := data[p..p + |s| + 1];
    assert data[p..p + |s|] == b[..|s|] == s;
    assert data[p + |s|] == b[|s|] == 0;
    forall i | p <= i < p + |s| ensures data[i] != 0 {
      assert data[i] == b[i - p];
    }
  }

  predicate Lengths(args: seq<Item>) {
    forall i :: 0 <= i < |args| && args[i].Str? ==> |args[i].s| < TWO63
  }

  lemma PackStep(native: bool, h: Header, total: nat, fmt: string, args: seq<Item>)
    requires PackFrom(native, h, total, fmt, args).Ok?
    ensures AtEnd(fmt) ==> PackFrom(native, h, total, fmt, args).v == []
    ensures !AtEnd(fmt) ==>
              && StepOf(native, h, total, fmt, args).Ok?
              && var st := StepOf(native, h, total, fmt, args).v;
                 var rest := PackFrom(native, st.d.h, total + st.d.pad + |st.x|, st.d.rest, st.args);
                 rest.Ok? && PackFrom(native, h, total, fmt, args).v == Copies(0, st.d.pad) + st.x + rest.v
  {
    hide StepOf, Encode, Detail, Copies, SizeOk, TakesItem;
  }

  lemma ArgumentsLeft(native: bool, h: Header, total: nat, fmt: string, args: seq<Item>)
    requires !AtEnd(fmt) && StepOf(native, h, total, fmt, args).Ok? && Lengths(args)
    ensures Lengths(StepOf(native, h, total, fmt, args).v.args)
  {
    hide Encode, Detail, TakesItem;
  }

  /** Unpacking what has been packed gives the arguments back, from any place in a format on. */
  lemma {:induction false} RestBack(native: bool, h: Header, fmt: string, args: seq<Item>, pre: Bytes, t: Bytes)
    requires PackFrom(native, h, |pre|, fmt, args).Ok? && Lengths(args)
    ensures var b := PackFrom(native, h, |pre|, fmt, args).v;
            UnpackFrom(native, h, |pre|, fmt, pre + b + t) == Ok((Back(native, h, |pre|, fmt, args), |pre| + |b|))
    decreases |fmt|
  {
    hide StepOf, Encode, Decode, Detail, BackItem, TakesItem, SizeOk, Lengths, PackFrom, Copies;
    PackStep(native, h, |pre|, fmt, args);
    if !AtEnd(fmt) {
      hide UnpackFrom, Back;
      var b := PackFrom(native, h, |pre|, fmt, args).v;
      var st := StepOf(native, h, |pre|, fmt, args).v;
      var d, pre' := st.d, pre + Copies(0, st.d.pad) + st.x;
      var b' := PackFrom(native, d.h, |pre'|, d.rest, st.args).v;
      var data := pre + b + t;
      assert pre' + b' + t == data;
      assert pre + Copies(0, d.pad) + st.x + (b' + t) == data;
      ArgumentsLeft(native, h, |pre|, fmt, args);
      RestBack(native, d.h, d.rest, st.args, pre', t);
      StepBack(native, h, fmt, args, pre, b' + t);
      StepOn(native, h, |pre|, fmt, args, data, st, |pre| + |b|);
    }
  }

  lemma StepOn(native: bool, h: Header, pos: nat, fmt: string, args: seq<Item>, data: Bytes, st: Step, e: nat)
    requires !AtEnd(fmt) && StepOf(native, h, pos, fmt, args) == Ok(st) && pos + st.d.pad + st.d.size <= |data|
    requires TakesItem(st.d.opt) ==> Decode(native, st.d, data, pos + st.d.pad) == Ok((BackItem(st.d, args[0]), pos + st.d.pad + |st.x|))
    requires !TakesItem(st.d.opt) ==> |st.x| == st.d.size
    requires var q := pos + st.d.pad + |st.x|;
             UnpackFrom(native, st.d.h, q, st.d.rest, data) == Ok((Back(native, st.d.h, q, st.d.rest, st.args), e))
    ensures UnpackFrom(native, h, pos, fmt, data) == Ok((Back(native, h, pos, fmt, args), e))
  {
    hide StepOf, Encode, Decode, Detail, BackItem, TakesItem, SizeOk;
    var back := Back(native, st.d.h, pos + st.d.pad + |st.x|, st.d.rest, st.args);
    UnpackStep(native, h, pos, fmt, data, st.d);
    if TakesItem(st.d.opt) {
      assert Back(native, h, pos, fmt, args) == [BackItem(st.d, args[0])] + back;
    } else {
      assert Back(native, h, pos, fmt, args) == [] + back == back;
    }
  }

  lemma UnpackStep(native: bool, h: Header, pos: nat, fmt: string, data: Bytes, d: Details)
    requires !AtEnd(fmt) && Detail(native, h, pos, fmt) == Ok(d) && pos + d.pad + d.size <= |data|
    ensures !TakesItem(d.opt) ==> UnpackFrom(native, h, pos, fmt, data) == UnpackFrom(native, d.h, pos + d.pad + d.size, d.rest, data)
    ensures TakesItem(d.opt) && Decode(native, d, data, pos + d.pad).Ok? ==>
              var x := Decode(native, d, data, pos + d.pad).v;
              UnpackFrom(native, h, pos, fmt, data) == Before([x.0], UnpackFrom(native, d.h, x.1, d.rest, data))
  {
    hide Decode, Detail;
  }

  /** What one option writes is what it reads. */
  lemma StepBack(native: bool, h: Header, fmt: string, args: seq<Item>, pre: Bytes, t: Bytes)
    requires !AtEnd(fmt) && StepOf(native, h, |pre|, fmt, args).Ok? && Lengths(args)
    ensures var st := StepOf(native, h, |pre|, fmt, args).v;
            var p, data := |pre| + st.d.pad, pre + Copies(0, st.d.pad) + st.x + t;
            && p + st.d.size <= |data|
            && (TakesItem(st.d.opt) ==> Decode(native, st.d, data, p) == Ok((BackItem(st.d, args[0]), p + |st.x|)))
            && (!TakesItem(st.d.opt) ==> |st.x| == st.d.size)
  {
    hide StepOf, Encode, Decode, Detail, BackItem, SizeOk;
    var st := StepOf(native, h, |pre|, fmt, args).v;
    var p, data := |pre| + st.d.pad, pre + Copies(0, st.d.pad) + st.x + t;
    assert data[p..p + |st.x|] == st.x;
    if TakesItem(st.d.opt) {
      ItemBack(native, st.d, args[0], data, p);
    }
  }

  /**
    `string.unpack(fmt, string.pack(fmt, ...))` gives the arguments back, strings of fixed size
    with zeros behind them, and the position behind what has been packed.
   */
  lemma RoundTrip(native: bool, fmt: string, args: seq<Item>, t: Bytes)
    requires Lengths(args)
    ensures var h := Header(native, 1);
            PackFrom(native, h, 0, fmt, args).Ok? ==>
              var b := PackFrom(native, h, 0, fmt, args).v;
              UnpackFrom(native, h, 0, fmt, b + t) == Ok((Back(native, h, 0, fmt, args), |b|))
  {
    hide PackFrom, UnpackFrom, Back;
    var h := Header(native, 1);
    if PackFrom(native, h, 0, fmt, args).Ok? {
      var b := PackFrom(native, h, 0, fmt, args).v;
      RestBack(native, h, fmt, args, [], t);
      assert [] + b + t == b + t;
    }
  }

  // ---------- sizes ----------

  predicate Variable(opt: KOption) {
    opt == Kstring || opt == Kzstr
  }

  /** `str_packsize` from format `fmt` on. */
  function SizeFrom(native: bool, h: Header, total: nat, fmt: string): Res<nat>
    decreases |fmt|
  {
    if AtEnd(fmt) then Ok(total)
    else
      var d :- Detail(native, h, total, fmt);
      if total > MAXSIZE - (d.size + d.pad) then Err(TooLarge)
      else if Variable(d.opt) then Err(VariableLength)
      else SizeFrom(native, d.h, total + d.size + d.pad, d.rest)
  }

  /** The format has only options of fixed size. */
  predicate Fixed(native: bool, h: Header, total: nat, fmt: string)
    decreases |fmt|
  {
    AtEnd(fmt) ||
    match Detail(native, h, total, fmt)
    case Err(_) => false
    case Ok(d) => !Variable(d.opt) && Fixed(native, d.h, total + d.pad + d.size, d.rest)
  }

  lemma StepSize(native: bool, h: Header, total: nat, fmt: string, args: seq<Item>)
    requires !AtEnd(fmt) && StepOf(native, h, total, fmt, args).Ok?
    ensures var st := StepOf(native, h, total, fmt, args).v; Detail(native, h, total, fmt) == Ok(st.d) && (!Variable(st.d.opt) ==> |st.x| == st.d.size)
  {
    hide Detail, Encode;
  }

  /** The size computed is the length of what is packed, for formats of fixed size that are not too large, and only for these. */
  lemma {:induction false} SizeAgrees(native: bool, h: Header, total: nat, fmt: string, args: seq<Item>)
    requires PackFrom(native, h, total, fmt, args).Ok? && total <= MAXSIZE
    ensures var n := total + |PackFrom(native, h, total, fmt, args).v|;
            && SizeFrom(native, h, total, fmt).Ok? == (Fixed(native, h, total, fmt) && n <= MAXSIZE)
            && (SizeFrom(native, h, total, fmt).Ok? ==> SizeFrom(native, h, total, fmt).v == n)
    decreases |fmt|
  {
    hide StepOf, Detail, PackFrom, Copies;
    PackStep(native, h, total, fmt, args);
    if !AtEnd(fmt) {
      StepSize(native, h, total, fmt, args);
      var st := StepOf(native, h, total, fmt, args).v;
      var next := total + st.d.pad + |st.x|;
      if !Variable(st.d.opt) && next <= MAXSIZE {
        SizeAgrees(native, st.d.h, next, st.d.rest, st.args);
      }
    }
  }

  // ---------- reading formats ----------

  /** A format that is being read, with the settings that its options change. */
  class Reader {
    const native: bool
    var islittle: bool
    var maxalign: nat
    var fmt: string

    constructor (native: bool, fmt: string)
      ensures this.native == native && this.fmt == fmt && Settings() == Header(native, 1)
    {
      this.native, this.fmt, islittle, maxalign := native, fmt, native, 1;
    }

    ghost function Settings(): Header
      reads `islittle, `maxalign
    {
      Header(islittle, maxalign)
    }

    method GetNum(df: int) returns (a: int)
      modifies `fmt
      ensures (a, fmt) == Number(old(fmt), df)
    {
      if fmt == "" || !IsDigit(fmt[0]) {
        return df;
      }
      a := 0;
      var more := true;
      while more
        invariant a >= 0
        invariant more ==> fmt != "" && IsDigit(fmt[0]) && a <= (MAXSIZE - 9) / 10
        invariant (if more then Digits(a, fmt) else (a, fmt)) == Digits(0, old(fmt))
        decreases more, |fmt|
      {
        a := a * 10 + (fmt[0] as int - '0' as int);
        fmt := fmt[1..];
        more := fmt != "" && IsDigit(fmt[0]) && a <= (MAXSIZE - 9) / 10;
      }
    }

    method GetNumLimit(df: int) returns (r: Res<nat>)
      modifies `fmt
      ensures match Limited(old(fmt), df)
              case Ok(p) => r == Ok(p.0) && fmt == p.1
              case Err(f) => r == Err(f)
    {
      var sz := GetNum(df);
      if sz > MAXINTSIZE || sz <= 0 {
        return Err(SizeOutOfLimits);
      }
      return Ok(sz);
    }

    /** What has been read is what `p` says. */
    ghost predicate Read(p: Res<Parsed>, r: Res<(KOption, nat)>)
      reads this
    {
      match p
      case Ok(o) => r == Ok((o.opt, o.size)) && Settings() == o.h && fmt == o.rest
      case Err(f) => r == Err(f)
    }

    method GetOption() returns (r: Res<(KOption, nat)>)
      requires fmt != ""
      modifies this
      ensures Read(Option(native, old(Settings()), old(fmt)), r)
    {
      hide Number, Digits, IsDigit, SizeOk;
      var opt := fmt[0];
      fmt := fmt[1..];
      match opt {
        case 'b' => return Ok((Kint, 1));
        case 'B' => return Ok((Kuint, 1));
        case 'h' => return Ok((Kint, 2));
        case 'H' => return Ok((Kuint, 2));
        case 'l' => return Ok((Kint, 8));
        case 'L' => return Ok((Kuint, 8));
        case 'j' => return Ok((Kint, 8));
        case 'J' => return Ok((Kuint, 8));
        case 'T' => return Ok((Kuint, 8));
        case 'f' => return Ok((Kfloat, 4));
        case 'd' => return Ok((Kfloat, 8));
        case 'n' => return Ok((Kfloat, 8));
        case 'i' =>
          var size :- GetNumLimit(4);
          return Ok((Kint, size));
        case 'I' =>
          var size :- GetNumLimit(4);
          return Ok((Kuint, size));
        case 's' =>
          var size :- GetNumLimit(8);
          return Ok((Kstring, size));
        case 'c' =>
          var size := GetNum(-1);
          if size == -1 {
            return Err(MissingSize);
          }
          return Ok((Kchar, size));
        case 'z' => return Ok((Kzstr, 0));
        case 'x' => return Ok((Kpadding, 1));
        case 'X' => return Ok((Kpaddalign, 0));
        case ' ' =>
        case '<' => islittle := true;
        case '>' => islittle := false;
        case '=' => islittle := native;
        case '!' => maxalign :- GetNumLimit(MAXALIGN);
        case _ => return Err(InvalidOption);
      }
      return Ok((Knop, 0));
    }

    method GetDetails(total: nat) returns (r: Res<(KOption, nat, nat)>)
      requires !AtEnd(fmt)
      modifies this
      ensures match Detail(native, old(Settings()), total, old(fmt))
              case Ok(d) => r == Ok((d.opt, d.size, d.pad)) && Settings() == d.h && fmt == d.rest
              case Err(f) => r == Err(f)
    {
      hide Option;
      var o :- GetOption();
      var opt, size := o.0, o.1;
      var align := size;
      if opt == Kpaddalign {
        if AtEnd(fmt) {
          return Err(InvalidNext);
        }
        var q :- GetOption();
        align := q.1;
        if q.0 == Kchar || align == 0 {
          return Err(InvalidNext);
        }
      }
      if align <= 1 || opt == Kchar {
        return Ok((opt, size, 0));
      }
      if align > maxalign {
        align := maxalign;
      }
      if !IsPowerOf2(align) {
        return Err(NotPowerOf2);
      }
      return Ok((opt, size, Low(align - Low(total, align), align)));
    }
  }

  // ---------- the loops ----------

  /** Bytes above the highest one of a number are zeros. */
  lemma {:induction false} LeTail(u: nat, k: nat, size: nat)
    requires k <= size && u < Pow256(k)
    ensures Le(u, size) == Le(u, k) + Copies(0, size - k)
    decreases size
  {
    if k > 0 {
      LeTail(u / 256, k - 1, size - 1);
    } else if size > 0 {
      LeTail(0, 0, size - 1);
    }
  }

  /** Where byte `i`, counted from the lowest, stands. */
  function At(i: nat, size: nat, islittle: bool): nat
    requires i < size
  {
    if islittle then i else size - 1 - i
  }

  lemma InOrder(got: Bytes, b: Bytes, islittle: bool)
    requires |got| == |b| && forall k :: 0 <= k < |b| ==> got[At(k, |b|, islittle)] == b[k]
    ensures got == Ordered(b, islittle)
  {
    forall k | 0 <= k < |b| ensures got[k] == Ordered(b, islittle)[k] {
      assert got[At(At(k, |b|, islittle), |b|, islittle)] == b[At(k, |b|, islittle)];
    }
  }

  method PackInt(n: nat, islittle: bool, size: nat, neg: bool) returns (buff: array<Byte>)
    requires 1 <= size && n < TWO64
    ensures fresh(buff) && buff[..] == Ordered(IntBytes(n, size, neg), islittle)
  {
    hide Le, Pow256;
    buff := PackBytes(n, islittle, size);
    if size > SZINT {
      PowSmall(0);
      LeTail(n, SZINT, size);
    }
    if neg && size > SZINT {
      ghost var all := Le(n, size);
      var i := SZINT;
      while i < size
        invariant SZINT <= i <= size && fresh(buff) && buff.Length == size
        invariant forall k :: 0 <= k < size ==> buff[At(k, size, islittle)] == if SZINT <= k < i then 255 else all[k]
      {
        buff[At(i, size, islittle)] := 255;
        i := i + 1;
      }
    }
    InOrder(buff[..], IntBytes(n, size, neg), islittle);
  }

  method PackBytes(u: nat, islittle: bool, size: nat) returns (buff: array<Byte>)
    requires 1 <= size
    ensures fresh(buff) && buff.Length == size
    ensures forall k :: 0 <= k < size ==> buff[At(k, size, islittle)] == Le(u, size)[k]
  {
    var n := u;
    ghost var all := Le(u, size);
    buff := new Byte[size];
    buff[At(0, size, islittle)] := n % 256;
    var i := 1;
    while i < size
      invariant 1 <= i <= size && fresh(buff) && buff.Length == size
      invariant all[i - 1..] == Le(n, size - i + 1)
      invariant forall k :: 0 <= k < i ==> buff[At(k, size, islittle)] == all[k]
    {
      assert all[i..] == all[i - 1..][1..] == Le(n / 256, size - i);
      n := n / 256;
      buff[At(i, size, islittle)] := n % 256;
      assert all[i] == all[i..][0];
      i := i + 1;
    }
  }

  lemma FromLeStep(b: Bytes, i: nat, limit: nat)
    requires i < limit <= |b|
    ensures FromLe(b[i..limit]) == b[i] + 256 * FromLe(b[i + 1..limit])
  {
    assert b[i..limit][1..] == b[i + 1..limit];
  }

  /** `unpackint`: flipping the top bit of the number and subtracting it extends the sign. */
  method UnpackInt(str: Bytes, islittle: bool, size: nat, issigned: bool) returns (r: Res<Int64>)
    requires 1 <= size == |str|
    ensures r == IntFrom(Ordered(str, islittle), issigned)
  {
    hide Pow256, FromLe, Le;
    ghost var b := Ordered(str, islittle);
    assert forall k :: 0 <= k < size ==> b[k] == str[At(k, size, islittle)];
    var limit := if size <= SZINT then size else SZINT;
    var res := Gather(str, islittle, size, limit);
    BelowPow(b[..limit]);
    PowSmall(if size < SZINT then size else 0);
    if size < SZINT {
      assert b[..limit] == b;
      if issigned {
        res := Extended(res, size);
      }
    } else if size > SZINT {
      var mask := if !issigned || Signed(res) >= 0 then 0 else 255;
      var i := limit;
      while i < size
        invariant limit <= i <= size
        invariant forall k :: limit <= k < i ==> b[k] == mask
      {
        if str[At(i, size, islittle)] != mask {
          return Err(DoesNotFit);
        }
        i := i + 1;
      }
    }
    return Ok(Signed(res));
  }

  method Gather(str: Bytes, islittle: bool, size: nat, limit: nat) returns (res: nat)
    requires limit <= size == |str|
    ensures res == FromLe(Ordered(str, islittle)[..limit])
  {
    ghost var b := Ordered(str, islittle);
    res := 0;
    var i := limit;
    while i > 0
      invariant 0 <= i <= limit
      invariant res == FromLe(b[i..limit])
    {
      i := i - 1;
      FromLeStep(b, i, limit);
      res := res * 256 + str[At(i, size, islittle)];
    }
    assert b[0..limit] == b[..limit];
  }

  function Extended(res: nat, size: nat): (r: nat)
    requires 1 <= size < SZINT && res < Pow256(size)
    ensures r < TWO64 && Signed(r) == if 2 * res >= Pow256(size) then res - Pow256(size) else res
  {
    PowSmall(size - 1);
    PowSmall(size);
    var mask := 128 * Pow256(size - 1);
    assert Pow256(size) == 256 * Pow256(size - 1);
    var flipped := if res >= mask then res - mask else res + mask;
    if flipped >= mask then flipped - mask else flipped - mask + TWO64
  }

  method CopyWithEndian(src: Bytes, same: bool) returns (dest: array<Byte>)
    ensures fresh(dest) && dest[..] == Ordered(src, same)
  {
    var size := |src|;
    dest := new Byte[size];
    var i := 0;
    while i < size
      invariant 0 <= i <= size && fresh(dest) && dest.Length == size
      invariant forall k :: 0 <= k < i ==> dest[At(k, size, same)] == src[k]
    {
      dest[At(i, size, same)] := src[i];
      i := i + 1;
    }
    InOrder(dest[..], src, same);
  }

  method Fill(b: Bytes, n: nat) returns (r: Bytes)
    ensures r == b + Copies(0, n)
  {
    r := b;
    var i := 0;
    while i < n
      invariant 0 <= i <= n && r == b + Copies(0, i)
    {
      r := r + [0];
      i := i + 1;
    }
  }

  // ---------- packing ----------

  method StrPackSize(native: bool, fmt: string) returns (r: Res<nat>)
    ensures r == SizeFrom(native, Header(native, 1), 0, fmt)
  {
    hide Detail;
    var h := new Reader(native, fmt);
    var total: nat := 0;
    while !AtEnd(h.fmt)
      invariant fresh(h) && h.native == native
      invariant SizeFrom(native, h.Settings(), total, h.fmt) == SizeFrom(native, Header(native, 1), 0, fmt)
      decreases |h.fmt|
    {
      var d :- h.GetDetails(total);
      var size := d.1 + d.2;
      if total > MAXSIZE - size {
        return Err(TooLarge);
      }
      total := total + size;
      if Variable(d.0) {
        return Err(VariableLength);
      }
    }
    return Ok(total);
  }

  /** The part of `str_pack` behind the padding, for options that take an argument. */
  method PackItem(native: bool, h: Reader, opt: KOption, size: nat, x: Item) returns (r: Res<Bytes>)
    requires h.native == native && TakesItem(opt) && SizeOk(opt, size) && (x.Str? ==> |x.s| < TWO63)
    ensures r == Encode(native, Details(opt, size, 0, h.Settings(), h.fmt), x)
  {
    hide IntBytes, Ordered, Copies;
    match opt
    case Kint =>
      if !x.Int? {
        return Err(BadArgument);
      }
      if !Holds(x.n, size, true) {
        return Err(IntegerOverflow);
      }
      var b := PackInt(Unsigned(x.n), h.islittle, size, x.n < 0);
      return Ok(b[..]);
    case Kuint =>
      if !x.Int? {
        return Err(BadArgument);
      }
      if !Holds(x.n, size, false) {
        return Err(UnsignedOverflow);
      }
      var b := PackInt(Unsigned(x.n), h.islittle, size, false);
      return Ok(b[..]);
    case Kfloat =>
      if !x.Float? || |x.bits| != size {
        return Err(BadArgument);
      }
      var b := CopyWithEndian(x.bits, h.islittle == native);
      return Ok(b[..]);
    case Kchar =>
      if !x.Str? {
        return Err(BadArgument);
      }
      if |x.s| > size {
        return Err(LongerThanSize);
      }
      var b := Fill(x.s, size - |x.s|);
      return Ok(b);
    case Kstring =>
      if !x.Str? {
        return Err(BadArgument);
      }
      if size < SZINT && |x.s| >= Pow256(size) {
        return Err(LengthDoesNotFit);
      }
      var b := PackInt(|x.s|, h.islittle, size, false);
      return Ok(b[..] + x.s);
    case Kzstr =>
      if !x.Str? {
        return Err(BadArgument);
      }
      if ZeroAt(x.s, 0) != |x.s| {
        return Err(ContainsZeros);
      }
      return Ok(x.s + [0]);
  }

  lemma EncodeSame(native: bool, d: Details, x: Item)
    requires TakesItem(d.opt)
    ensures Encode(native, d, x) == Encode(native, Details(d.opt, d.size, 0, d.h, d.rest), x)
  {
    hide IntBytes, Ordered, Copies, Holds, Pow256;
  }

  /** One round of the loop. */
  lemma PackOn(native: bool, h: Header, total: nat, fmt: string, args: seq<Item>, b: Bytes)
    requires !AtEnd(fmt)
    ensures var all := Behind(b, PackFrom(native, h, total, fmt, args));
            match Detail(native, h, total, fmt)
            case Err(f) => all == Err(f)
            case Ok(d) =>
              if !TakesItem(d.opt) then
                all == Behind(b + Copies(0, d.pad) + Copies(0, d.size), PackFrom(native, d.h, total + d.pad + d.size, d.rest, args))
              else if args == [] then all == Err(BadArgument)
              else
                match Encode(native, d, args[0])
                case Err(f) => all == Err(f)
                case Ok(x) => all == Behind(b + Copies(0, d.pad) + x, PackFrom(native, d.h, total + d.pad + |x|, d.rest, args[1..]))
  {
    hide Detail, Encode, Copies, SizeOk, TakesItem;
    match StepOf(native, h, total, fmt, args)
    case Err(f) =>
    case Ok(st) =>
      var rest := PackFrom(native, st.d.h, total + st.d.pad + |st.x|, st.d.rest, st.args);
      if rest.Ok? {
        assert b + (Copies(0, st.d.pad) + st.x + rest.v) == b + Copies(0, st.d.pad) + st.x + rest.v;
      }
  }

  method StrPack(native: bool, fmt: string, args: seq<Item>) returns (r: Res<Bytes>)
    requires Lengths(args)
    ensures r == PackFrom(native, Header(native, 1), 0, fmt, args)
  {
    hide PackFrom, Detail, Encode, Copies;
    ghost var all := PackFrom(native, Header(native, 1), 0, fmt, args);
    var h := new Reader(native, fmt);
    var b: Bytes := [];
    var arg, total: nat := 0, 0;
    PackEnds(native, Header(native, 1), total, fmt, args, b);
    while !AtEnd(h.fmt)
      invariant fresh(h) && h.native == native && arg <= |args| && total == |b|
      invariant Behind(b, PackFrom(native, h.Settings(), total, h.fmt, args[arg..])) == all
      decreases |h.fmt|
    {
      PackOn(native, h.Settings(), total, h.fmt, args[arg..], b);
      ghost var detail := Detail(native, h.Settings(), total, h.fmt);
      var d :- h.GetDetails(total);
      var opt, size, pad := d.0, d.1, d.2;
      total := total + pad + size;
      b := Fill(b, pad);
      if TakesItem(opt) {
        if arg == |args| {
          return Err(BadArgument);
        }
        EncodeSame(native, detail.v, args[arg]);
        var x :- PackItem(native, h, opt, size, args[arg]);
        b := b + x;
        assert args[arg..][1..] == args[arg + 1..];
        arg := arg + 1;
        if Variable(opt) {
          total := total + |x| - size;
        }
      } else {
        PaddingBytes(opt, size);
        assert b + [] == b;
        if opt == Kpadding {
          b := b + [0];
        }
      }
    }
    PackEnds(native, h.Settings(), total, h.fmt, args[arg..], b);
    return Ok(b);
  }

  lemma PackEnds(native: bool, h: Header, total: nat, fmt: string, args: seq<Item>, b: Bytes)
    ensures AtEnd(fmt) ==> Behind(b, PackFrom(native, h, total, fmt, args)) == Ok(b)
    ensures Behind([], PackFrom(native, h, total, fmt, args[0..])) == PackFrom(native, h, total, fmt, args)
  {
    hide StepOf;
    assert args[0..] == args;
    assert b + [] == b;
    var r := PackFrom(native, h, total, fmt, args);
    if r.Ok? {
      assert [] + r.v == r.v;
    }
  }

  lemma PaddingBytes(opt: KOption, size: nat)
    requires SizeOk(opt, size) && !TakesItem(opt)
    ensures Copies(0, size) == if opt == Kpadding then [0] else []
  {
  }

  // ---------- unpacking ----------

  /** The part of `str_unpack` behind the padding: the item at `pos`, and the position behind it. */
  method UnpackItem(native: bool, h: Reader, opt: KOption, size: nat, data: Bytes, pos: nat) returns (r: Res<(Item, nat)>)
    requires h.native == native && TakesItem(opt) && SizeOk(opt, size) && pos + size <= |data|
    ensures r == Decode(native, Details(opt, size, 0, h.Settings(), h.fmt), data, pos)
  {
    hide IntFrom, Ordered;
    var b := data[pos..pos + size];
    match opt
    case Kint =>
      var n :- UnpackInt(b, h.islittle, size, true);
      return Ok((Int(n), pos + size));
    case Kuint =>
      var n :- UnpackInt(b, h.islittle, size, false);
      return Ok((Int(n), pos + size));
    case Kfloat =>
      var u := CopyWithEndian(b, h.islittle == native);
      return Ok((Float(u[..]), pos + size));
    case Kchar =>
      return Ok((Str(b), pos + size));
    case Kstring =>
      var n :- UnpackInt(b, h.islittle, size, false);
      var len := Unsigned(n);
      var end := pos + len + size;
      if (if end < TWO64 then end else end - TWO64) > |data| {
        return Err(TooShort);
      }
      if end > |data| {
        return Err(TooBig);
      }
      return Ok((Str(data[pos + size..end]), end));
    case Kzstr =>
      var e := ZeroAt(data, pos);
      return Ok((Str(data[pos..e]), e + 1));
  }

  /** Positions are counted from 1 outside. */
  function OneMore(r: Res<(seq<Item>, nat)>): Res<(seq<Item>, nat)> {
    match r
    case Ok(p) => Ok((p.0, p.1 + 1))
    case Err(f) => Err(f)
  }

  lemma DecodeSame(native: bool, d: Details, data: Bytes, p: nat)
    requires TakesItem(d.opt) && p + d.size <= |data|
    ensures Decode(native, d, data, p) == Decode(native, Details(d.opt, d.size, 0, d.h, d.rest), data, p)
  {
    hide IntFrom, Ordered;
  }

  /** One round of the loop. */
  lemma UnpackOn(native: bool, h: Header, pos: nat, fmt: string, data: Bytes, items: seq<Item>)
    requires !AtEnd(fmt)
    ensures var all := Before(items, UnpackFrom(native, h, pos, fmt, data));
            match Detail(native, h, pos, fmt)
            case Err(f) => all == Err(f)
            case Ok(d) =>
              var p := pos + d.pad;
              if p + d.size > |data| then all == Err(TooShort)
              else if !TakesItem(d.opt) then all == Before(items, UnpackFrom(native, d.h, p + d.size, d.rest, data))
              else
                match Decode(native, d, data, p)
                case Err(f) => all == Err(f)
                case Ok(x) => all == Before(items + [x.0], UnpackFrom(native, d.h, x.1, d.rest, data))
  {
    hide Detail, Decode, SizeOk, TakesItem;
    match Detail(native, h, pos, fmt)
    case Err(f) =>
    case Ok(d) =>
      if pos + d.pad + d.size <= |data| && TakesItem(d.opt) && Decode(native, d, data, pos + d.pad).Ok? {
        var x := Decode(native, d, data, pos + d.pad).v;
        var rest := UnpackFrom(native, d.h, x.1, d.rest, data);
        if rest.Ok? {
          assert items + ([x.0] + rest.v.0) == items + [x.0] + rest.v.0;
        }
      }
  }

  lemma UnpackEnds(native: bool, h: Header, pos: nat, fmt: string, data: Bytes, items: seq<Item>)
    ensures AtEnd(fmt) ==> Before(items, UnpackFrom(native, h, pos, fmt, data)) == Ok((items, pos))
    ensures Before([], UnpackFrom(native, h, pos, fmt, data)) == UnpackFrom(native, h, pos, fmt, data)
  {
    hide Detail, Decode, TakesItem, SizeOk;
    assert items + [] == items;
    var r := UnpackFrom(native, h, pos, fmt, data);
    if r.Ok? {
      assert [] + r.v.0 == r.v.0;
    }
  }

  method StrUnpack(native: bool, fmt: string, data: Bytes, init: Int64) returns (r: Res<(seq<Item>, nat)>)
    ensures var i := LuaFind.PosRelat(init, |data|);
            r == if 1 <= i <= |data| + 1 then OneMore(UnpackFrom(native, Header(native, 1), i - 1, fmt, data)) else Err(OutOfString)
  {
    hide UnpackFrom, Detail, Decode;
    var i := LuaFind.PosRelat(init, |data|);
    if i < 1 || i - 1 > |data| {
      return Err(OutOfString);
    }
    var pos: nat := i - 1;
    ghost var all := UnpackFrom(native, Header(native, 1), pos, fmt, data);
    var items: seq<Item> := [];
    UnpackEnds(native, Header(native, 1), pos, fmt, data, items);
    var h := new Reader(native, fmt);
    while !AtEnd(h.fmt)
      invariant fresh(h) && h.native == native
      invariant Before(items, UnpackFrom(native, h.Settings(), pos, h.fmt, data)) == all
      decreases |h.fmt|
    {
      UnpackOn(native, h.Settings(), pos, h.fmt, data, items);
      ghost var detail := Detail(native, h.Settings(), pos, h.fmt);
      var d :- h.GetDetails(pos);
      var opt, size := d.0, d.1;
      if pos + d.2 + size > |data| {
        return Err(TooShort);
      }
      pos := pos + d.2;
      if TakesItem(opt) {
        DecodeSame(native, detail.v, data, pos);
        var x :- UnpackItem(native, h, opt, size, data, pos);
        items, pos := items + [x.0], x.1;
      } else {
        pos := pos + size;
      }
    }
    UnpackEnds(native, h.Settings(), pos, h.fmt, data, items);
    return Ok((items, pos + 1));
  }
}
