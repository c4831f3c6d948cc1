/**
  What the escape sequences in short strings stand for, by section 3.1 of the Lua 5.3 Reference
  Manual and the forms of UTF-8 in section 3 of RFC 3629.
 */
module Escapes {
  import opened Quoting

  /** The byte `c` is the hexadecimal digit of value `d`, in lower or upper case. */
  predicate HexDigit(c: Byte, d: nat) {
    d < 16 && (c == "0123456789abcdef"[d] as int || c == "0123456789ABCDEF"[d] as int)
  }

  lemma DigitRead(c: Byte, d: nat)
    requires HexDigit(c, d)
    ensures IsXDigit(c) && HexaValue(c) == d
  {
  }

  /** `\x` with two digits is the byte of that value. */
  lemma HexRead(c1: Byte, d1: nat, c2: Byte, d2: nat, rest: Bytes, line: nat)
    requires HexDigit(c1, d1) && HexDigit(c2, d2)
    ensures Escape(['x' as int, c1, c2] + rest, line) == Ok([16 * d1 + d2], rest, line)
  {
    hide HexDigit;
    DigitRead(c1, d1);
    DigitRead(c2, d2);
    var input := ['x' as int, c1, c2] + rest;
    assert input[1..] == [c1] + ([c2] + rest) && ([c1] + ([c2] + rest))[1..] == [c2] + rest && ([c2] + rest)[1..] == rest;
    assert HexEsc(input[1..]) == Num(16 * d1 + d2, rest);
  }

  /** A letter, and the code of the character that it stands for. */
  predicate Stands(c: char, code: Byte) {
    || (c == 'a' && code == 7) || (c == 'b' && code == 8) || (c == 't' && code == 9) || (c == 'n' && code == 10)
    || (c == 'v' && code == 11) || (c == 'f' && code == 12) || (c == 'r' && code == 13)
    || ((c == '\\' || c == '"' || c == '\'') && code == c as int)
  }

  lemma LetterRead(c: char, code: Byte, rest: Bytes, line: nat)
    requires Stands(c, code)
    ensures Escape([c as int] + rest, line) == Ok([code], rest, line)
  {
    assert ([c as int] + rest)[1..] == rest;
  }

  /** A backslash before a line break of one or two bytes gives one newline. */
  lemma BreakRead(b: Bytes, rest: Bytes, line: nat)
    requires b in {[10], [13], [10, 13], [13, 10]} && line + 1 < MAX_INT
    requires |b| == 1 && rest != [] ==> rest[0] == b[0] || !IsNewline(rest[0])
    ensures Escape(b + rest, line) == Ok([10], rest, line + 1)
  {
    var input := b + rest;
    assert IncLine(input, line) == Ok([], rest, line + 1) by {
      if |b| == 1 {
        assert input[1..] == rest;
      } else {
        assert input[2..] == rest;
      }
    }
  }

  // ---------- UTF-8 ----------

  /** The bits of a byte behind its mark. */
  function Bits(c: Byte, mark: int): int {
    c - mark
  }

  /** The bytes `b` are the code point `x` in its only form: the bits of `x`, the highest first, in the fewest bytes. */
  predicate IsUtf8(b: Bytes, x: nat) {
    if x <= 0x7F then b == [x]
    else if x <= 0x7FF then
      |b| == 2 && 0xC2 <= b[0] <= 0xDF && 0x80 <= b[1] <= 0xBF
      && x == 0x40 * Bits(b[0], 0xC0) + Bits(b[1], 0x80)
    else if x <= 0xFFFF then
      |b| == 3 && 0xE0 <= b[0] <= 0xEF && 0x80 <= b[1] <= 0xBF && 0x80 <= b[2] <= 0xBF
      && x == 0x1000 * Bits(b[0], 0xE0) + 0x40 * Bits(b[1], 0x80) + Bits(b[2], 0x80)
    else
      |b| == 4 && 0xF0 <= b[0] <= 0xF4 && 0x80 <= b[1] <= 0xBF && 0x80 <= b[2] <= 0xBF && 0x80 <= b[3] <= 0xBF
      && x == 0x4_0000 * Bits(b[0], 0xF0) + 0x1000 * Bits(b[1], 0x80) + 0x40 * Bits(b[2], 0x80) + Bits(b[3], 0x80)
  }

  /** The bytes that the lexer makes of a code point are its UTF-8 form. */
  lemma Utf8Is(x: nat)
    requires x <= 0x10FFFF
    ensures IsUtf8(Utf8(x), x)
  {
    if x >= 0x80 {
      var t1 := [128 + x % 64] + [];
      var y1 := x / 64;
      if y1 <= 31 {
        assert Utf8From(x, 63, []) == [192 + y1] + t1;
      } else {
        assert Utf8From(x, 63, []) == Utf8From(y1, 31, t1);
        var t2 := [128 + y1 % 64] + t1;
        var y2 := y1 / 64;
        if y2 <= 15 {
          assert Utf8From(y1, 31, t1) == [224 + y2] + t2;
        } else {
          assert Utf8From(y1, 31, t1) == Utf8From(y2, 15, t2);
          var t3 := [128 + y2 % 64] + t2;
          var y3 := y2 / 64;
          assert Utf8From(y2, 15, t2) == [240 + y3] + t3;
        }
      }
    }
  }

  /** No two code points share a form. */
  lemma Utf8Differs(x: nat, y: nat)
    requires x <= 0x10FFFF && y <= 0x10FFFF && Utf8(x) == Utf8(y)
    ensures x == y
  {
    hide Utf8;
    Utf8Is(x);
    Utf8Is(y);
  }

  // ---------- code points ----------

  ghost predicate HexDigits(s: Bytes) {
    forall i :: 0 <= i < |s| ==> IsXDigit(s[i])
  }

  /** The value of digits in base 16, the last one counting least. */
  ghost function HexNumber(s: Bytes): nat
    requires HexDigits(s)
  {
    if s == [] then 0 else 16 * HexNumber(s[..|s| - 1]) + HexaValue(s[|s| - 1])
  }

  /** The same number from the front, continuing `r`. */
  ghost function Continued(r: nat, s: Bytes): nat
    requires HexDigits(s)
    decreases |s|
  {
    if s == [] then r else Continued(16 * r + HexaValue(s[0]), s[1..])
  }

  lemma {:induction false} ContinuedLast(r: nat, s: Bytes, c: Byte)
    requires HexDigits(s + [c]) && HexDigits(s) && IsXDigit(c)
    ensures Continued(r, s + [c]) == 16 * Continued(r, s) + HexaValue(c)
    decreases |s|
  {
    if s == [] {
      assert ([] + [c])[1..] == [];
    } else {
      assert (s + [c])[1..] == s[1..] + [c];
      ContinuedLast(16 * r + HexaValue(s[0]), s[1..], c);
    }
  }

  lemma {:induction false} NumberContinued(s: Bytes)
    requires HexDigits(s)
    ensures HexNumber(s) == Continued(0, s)
    decreases |s|
  {
    if s != [] {
      var n := |s| - 1;
      NumberContinued(s[..n]);
      assert s == s[..n] + [s[n]];
      ContinuedLast(0, s[..n], s[n]);
    }
  }

  lemma {:induction false} AtLeast(r: nat, s: Bytes)
    requires HexDigits(s)
    ensures Continued(r, s) >= r
    decreases |s|
  {
    if s != [] {
      AtLeast(16 * r + HexaValue(s[0]), s[1..]);
    }
  }

  lemma {:induction false} DigitsRead(s: Bytes, rest: Bytes, r: nat)
    requires HexDigits(s) && r <= 0x10FFFF
    ensures Utf8Digits(s + [125] + rest, r) == if Continued(r, s) <= 0x10FFFF then Num(Continued(r, s), rest) else Bad(Utf8TooLarge)
    decreases |s|
  {
    var input := s + [125] + rest;
    if s == [] {
      assert input[1..] == rest;
    } else {
      var q := 16 * r + HexaValue(s[0]);
      assert input[1..] == s[1..] + [125] + rest;
      AtLeast(q, s[1..]);
      if q <= 0x10FFFF {
        DigitsRead(s[1..], rest, q);
      }
    }
  }

  /** `\u{...}` gives the UTF-8 form of the number between the braces, up to the largest code point. */
  lemma CodePointRead(s: Bytes, rest: Bytes, line: nat)
    requires s != [] && HexDigits(s)
    ensures var r := Escape(['u' as int, '{' as int] + s + ['}' as int] + rest, line);
            if HexNumber(s) <= 0x10FFFF then r.Ok? && IsUtf8(r.text, HexNumber(s)) && r.rest == rest && r.line == line
            else r == Err(Utf8TooLarge)
  {
    hide Utf8, IsUtf8, HexNumber;
    var input := ['u' as int, '{' as int] + s + ['}' as int] + rest;
    var d := input[1..][1..];
    assert d == s + [125] + rest;
    NumberContinued(s);
    assert d[1..] == s[1..] + [125] + rest;
    DigitsRead(s[1..], rest, HexaValue(s[0]));
    assert Continued(0, s) == Continued(HexaValue(s[0]), s[1..]);
    if HexNumber(s) <= 0x10FFFF {
      assert Utf8Num(input[1..]) == Num(HexNumber(s), rest);
      Utf8Is(HexNumber(s));
    }
  }
}
