/**
  `%q` quoting of `string.format` (lstrlib.c) and the lexer's short strings (llex.c):
  what the one writes, the other reads back.
 */
module Quoting {

  type Byte = x: nat | x < 256
  type Bytes = seq<Byte>

  const MAX_INT := 0x7FFF_FFFF
  const QUOTE: Byte := 34
  const BACKSLASH: Byte := 92

  datatype Fault = UnfinishedAtEnd | Unfinished | InvalidEscape | DecimalTooLarge | HexExpected | MissingOpen | MissingClose | Utf8TooLarge | TooManyLines

  predicate IsDigit(c: int) { 48 <= c <= 57 }
  predicate IsXDigit(c: int) { 48 <= c <= 57 || 65 <= c <= 70 || 97 <= c <= 102 }
  predicate IsSpace(c: int) { 9 <= c <= 13 || c == 32 }
  predicate IsNewline(c: int) { c == 10 || c == 13 }

  function HexaValue(c: int): (v: nat)
    requires IsXDigit(c)
    ensures v < 16
  {
    if c <= 57 then c - 48 else if c <= 70 then c - 55 else c - 87
  }

  // ---------- quoting ----------

  /** "%d". */
  function Decimal(c: Byte): Bytes {
    if c < 10 then [48 + c] else if c < 100 then [48 + c / 10, 48 + c % 10] else Decimal3(c)
  }

  /** "%03d". */
  function Decimal3(c: Byte): Bytes {
    [48 + c / 100, 48 + c / 10 % 10, 48 + c % 10]
  }

  function QuoteByte(cntrl: Byte -> bool, c: Byte, next: Byte): Bytes {
    if c == QUOTE || c == BACKSLASH || c == 10 then [BACKSLASH, c]
    else if cntrl(c) then [BACKSLASH] + (if !IsDigit(next) then Decimal(c) else Decimal3(c))
    else [c]
  }

  /** The quoted rest of a string, with the closing quote. A zero follows the last byte. */
  function QuoteRest(cntrl: Byte -> bool, s: Bytes): Bytes {
    if s == [] then [QUOTE]
    else QuoteByte(cntrl, s[0], if |s| > 1 then s[1] else 0) + QuoteRest(cntrl, s[1..])
  }

  /** `addquoted`; `cntrl` is the C library's `iscntrl`. */
  method AddQuoted(cntrl: Byte -> bool, b0: Bytes, s: Bytes) returns (b: Bytes)
    ensures b == b0 + [QUOTE] + QuoteRest(cntrl, s)
  {
    hide QuoteByte;
    b := b0 + [QUOTE];
    var i := 0;
    while i < |s|
      invariant 0 <= i <= |s|
      invariant b + QuoteRest(cntrl, s[i..]) == b0 + [QUOTE] + QuoteRest(cntrl, s)
    {
      ghost var was := b;
      var next: Byte := if i + 1 < |s| then s[i + 1] else 0;
      b := AddByte(cntrl, b, s[i], next);
      assert s[i..][1..] == s[i + 1..];
      assert QuoteRest(cntrl, s[i..]) == QuoteByte(cntrl, s[i], next) + QuoteRest(cntrl, s[i + 1..]);
      i := i + 1;
    }
    assert s[i..] == [];
    b := b + [QUOTE];
  }

  method AddByte(cntrl: Byte -> bool, b0: Bytes, c: Byte, next: Byte) returns (b: Bytes)
    ensures b == b0 + QuoteByte(cntrl, c, next)
  {
    b := b0;
    if c == QUOTE || c == BACKSLASH || c == 10 {
      b := b + [BACKSLASH];
      b := b + [c];
    } else if cntrl(c) {
      b := b + ([BACKSLASH] + if !IsDigit(next) then Decimal(c) else Decimal3(c));
    } else {
      b := b + [c];
    }
  }

  // ---------- short strings ----------

  /** A number in an escape sequence, and what follows it. */
  datatype Num = Num(v: nat, rest: Bytes) | Bad(why: Fault)

  /** A text that has been read, what follows it, and the line. */
  datatype Lexed = Ok(text: Bytes, rest: Bytes, line: nat) | Err(why: Fault)

  function Prepend(x: Bytes, r: Lexed): Lexed {
    if r.Ok? then r.(text := x + r.text) else r
  }

  /** `readdecesc`: up to three digits. */
  function DecEsc(input: Bytes, i: nat, r: nat): (n: Num)
    ensures n.Num? ==> |n.rest| <= |input| && n.v < 256
    decreases |input|
  {
    if i < 3 && input != [] && IsDigit(input[0]) then DecEsc(input[1..], i + 1, 10 * r + (input[0] - 48))
    else if r <= 255 then Num(r, input) else Bad(DecimalTooLarge)
  }

  function GetHexa(input: Bytes): (n: Num)
    ensures n.Num? ==> |n.rest| < |input| && n.v < 16
  {
    if input != [] && IsXDigit(input[0]) then Num(HexaValue(input[0]), input[1..]) else Bad(HexExpected)
  }

  /** `readhexaesc`, behind the `x`. */
  function HexEsc(input: Bytes): (n: Num)
    ensures n.Num? ==> |n.rest| < |input| && n.v < 256
  {
    var a := GetHexa(input);
    if a.Bad? then a
    else
      var b := GetHexa(a.rest);
      if b.Bad? then b else Num(a.v * 16 + b.v, b.rest)
  }

  function Utf8Digits(input: Bytes, r: nat): (n: Num)
    requires r <= 0x10FFFF
    ensures n.Num? ==> |n.rest| < |input| && n.v <= 0x10FFFF
    decreases |input|
  {
    if input != [] && IsXDigit(input[0]) then
      var q := r * 16 + HexaValue(input[0]);
      if q > 0x10FFFF then Bad(Utf8TooLarge) else Utf8Digits(input[1..], q)
    else if input != [] && input[0] == 125 then Num(r, input[1..])
    else Bad(MissingClose)
  }

  /** `readutf8esc`, behind the `u`. */
  function Utf8Num(input: Bytes): (n: Num)
    ensures n.Num? ==> |n.rest| < |input| && n.v <= 0x10FFFF
  {
    if input == [] || input[0] != 123 then Bad(MissingOpen)
    else
      var a := GetHexa(input[1..]);
      if a.Bad? then a else Utf8Digits(a.rest, a.v)
  }

  /** `luaO_utf8esc`: `mfb` is the largest value that fits into the first byte. */
  function Utf8From(x: nat, mfb: nat, tail: Bytes): Bytes
    requires mfb <= 63
  {
    var t, y, m := [128 + x % 64] + tail, x / 64, mfb / 2;
    if y > m then Utf8From(y, m, t) else [254 - 2 * m + y] + t
  }

  function Utf8(x: nat): Bytes {
    if x < 128 then [x] else Utf8From(x, 63, [])
  }

  /** `inclinenumber`: any of the four newline sequences is one line. */
  function IncLine(input: Bytes, line: nat): (r: Lexed)
    requires input != []
    ensures r.Ok? ==> |r.rest| < |input| && r.text == []
  {
    var rest := if |input| > 1 && IsNewline(input[1]) && input[1] != input[0] then input[2..] else input[1..];
    if line + 1 >= MAX_INT then Err(TooManyLines) else Ok([], rest, line + 1)
  }

  /** The spaces behind a backslash and `z`. */
  function Zap(input: Bytes, line: nat): (r: Lexed)
    ensures r.Ok? ==> |r.rest| <= |input| && r.text == []
    decreases |input|
  {
    if input == [] || !IsSpace(input[0]) then Ok([], input, line)
    else if IsNewline(input[0]) then
      var r := IncLine(input, line);
      if r.Ok? then Zap(r.rest, r.line) else r
    else Zap(input[1..], line)
  }

  /** The character that a one-letter escape stands for. */
  function Letter(c: Byte): (r: seq<Byte>)
    ensures |r| <= 1
  {
    if c == 97 then [7] else if c == 98 then [8] else if c == 102 then [12] else if c == 110 then [10]
    else if c == 114 then [13] else if c == 116 then [9] else if c == 118 then [11]
    else if c == 92 || c == 34 || c == 39 then [c] else []
  }

  function OfNum(n: Num, line: nat): Lexed
    requires n.Num? ==> n.v < 256
  {
    if n.Num? then Ok([n.v], n.rest, line) else Err(n.why)
  }

  /** One escape sequence, behind the backslash. */
  function Escape(input: Bytes, line: nat): (r: Lexed)
    ensures r.Ok? ==> |r.rest| <= |input|
  {
    if input == [] then Ok([], [], line)
    else
      var c := input[0];
      if Letter(c) != [] then Ok(Letter(c), input[1..], line)
      else if c == 120 then OfNum(HexEsc(input[1..]), line)
      else if c == 117 then
        var n := Utf8Num(input[1..]);
        if n.Num? then Ok(Utf8(n.v), n.rest, line) else Err(n.why)
      else if IsNewline(c) then Prepend([10], IncLine(input, line))
      else if c == 122 then Zap(input[1..], line)
      else if IsDigit(c) then OfNum(DecEsc(input, 0, 0), line)
      else Err(InvalidEscape)
  }

  /** The text up to the delimiter. */
  function Body(input: Bytes, del: Byte, line: nat): (r: Lexed)
    ensures r.Ok? ==> |r.rest| < |input|
    decreases |input|
  {
    if input == [] then Err(UnfinishedAtEnd)
    else if input[0] == del then Ok([], input[1..], line)
    else if IsNewline(input[0]) then Err(Unfinished)
    else if input[0] == BACKSLASH then
      var r := Escape(input[1..], line);
      if r.Ok? then Prepend(r.text, Body(r.rest, del, r.line)) else r
    else Prepend([input[0]], Body(input[1..], del, line))
  }

  // ---------- reading what was quoted ----------

  lemma DecimalBack(c: Byte, t: Bytes)
    requires t == [] || !IsDigit(t[0])
    ensures DecEsc(Decimal(c) + t, 0, 0) == Num(c, t) && IsDigit(Decimal(c)[0])
  {
    if c < 10 {
      DigitsBack([48 + c], t, 0, 0);
    } else if c < 100 {
      assert Decimal(c) + t == [48 + c / 10] + ([48 + c % 10] + t);
      assert DecEsc([48 + c % 10] + t, 1, c / 10) == Num(c, t) by { DigitsBack([48 + c % 10], t, 1, c / 10); }
      assert (Decimal(c) + t)[1..] == [48 + c % 10] + t;
    } else {
      Decimal3Back(c, t);
    }
  }

  /** The last digit. */
  lemma DigitsBack(d: Bytes, t: Bytes, i: nat, r: nat)
    requires |d| == 1 && IsDigit(d[0]) && i < 3 && 10 * r + (d[0] - 48) <= 255
    requires i == 2 || t == [] || !IsDigit(t[0])
    ensures DecEsc(d + t, i, r) == Num(10 * r + (d[0] - 48), t)
  {
    assert (d + t)[1..] == t;
  }

  lemma Decimal3Back(c: Byte, t: Bytes)
    ensures DecEsc(Decimal3(c) + t, 0, 0) == Num(c, t)
  {
    var x, y, z := c / 100, c / 10 % 10, c % 10;
    assert c == 10 * (10 * x + y) + z;
    var t2 := [48 + z] + t;
    var t1 := [48 + y] + t2;
    DigitsBack([48 + z], t, 2, 10 * x + y);
    assert DecEsc(t2, 2, 10 * x + y) == Num(c, t);
    assert t1[1..] == t2;
    assert DecEsc(t1, 1, x) == DecEsc(t2, 2, 10 * x + y);
    assert Decimal3(c) + t == [48 + x] + t1;
    assert ([48 + x] + t1)[1..] == t1;
    assert DecEsc([48 + x] + t1, 0, 0) == DecEsc(t1, 1, x);
  }

  function Newlines(s: Bytes): nat {
    if s == [] then 0 else (if s[0] == 10 then 1 else 0) + Newlines(s[1..])
  }

  /** What is read from a quoted string: the string itself, unless there are too many lines. */
  function Expected(s: Bytes, rest: Bytes, line: nat): Lexed {
    if Newlines(s) == 0 || line + Newlines(s) < MAX_INT then Ok(s, rest, line + Newlines(s)) else Err(TooManyLines)
  }

  /** One quoted byte is read as that byte, whatever follows in the quoted text. */
  lemma ByteBack(cntrl: Byte -> bool, c: Byte, next: Byte, more: Bytes, line: nat)
    requires cntrl(13) && more != []
    requires !IsNewline(more[0]) && (IsDigit(more[0]) ==> more[0] == next)
    ensures Body(QuoteByte(cntrl, c, next) + more, QUOTE, line) ==
            if c == 10 && line + 1 >= MAX_INT then Err(TooManyLines) else Prepend([c], Body(more, QUOTE, if c == 10 then line + 1 else line))
  {
    if c == QUOTE || c == BACKSLASH || c == 10 {
      EscapedBack(c, more, line);
    } else if cntrl(c) {
      var d := if !IsDigit(next) then Decimal(c) else Decimal3(c);
      if !IsDigit(next) {
        DecimalBack(c, more);
      } else {
        Decimal3Back(c, more);
      }
      CodeBack(d, c, more, line);
    } else {
      assert ([c] + more)[1..] == more;
    }
  }

  lemma EscapedBack(c: Byte, more: Bytes, line: nat)
    requires (c == QUOTE || c == BACKSLASH || c == 10) && more != [] && !IsNewline(more[0])
    ensures Body([BACKSLASH, c] + more, QUOTE, line) ==
            if c == 10 && line + 1 >= MAX_INT then Err(TooManyLines) else Prepend([c], Body(more, QUOTE, if c == 10 then line + 1 else line))
  {
    var q := [BACKSLASH, c] + more;
    assert q[1..] == [c] + more && ([c] + more)[1..] == more;
    assert Escape([c] + more, line) == if c == 10 && line + 1 >= MAX_INT then Err(TooManyLines) else Ok([c], more, if c == 10 then line + 1 else line);
  }

  lemma CodeBack(d: Bytes, c: Byte, more: Bytes, line: nat)
    requires d != [] && IsDigit(d[0]) && DecEsc(d + more, 0, 0) == Num(c, more)
    ensures Body([BACKSLASH] + d + more, QUOTE, line) == Prepend([c], Body(more, QUOTE, line))
  {
    var q := [BACKSLASH] + d + more;
    assert q[1..] == d + more && (d + more)[0] == d[0];
    assert Escape(d + more, line) == Ok([c], more, line);
  }

  /** The quoted text never starts with a newline, and with a digit only if the string does. */
  lemma QuoteStart(cntrl: Byte -> bool, s: Bytes, rest: Bytes)
    requires cntrl(13)
    ensures var q := QuoteRest(cntrl, s) + rest;
            q != [] && !IsNewline(q[0]) && (IsDigit(q[0]) ==> s != [] && q[0] == s[0])
  {
  }

  lemma {:induction false} RestBack(cntrl: Byte -> bool, s: Bytes, rest: Bytes, line: nat)
    requires cntrl(13)
    ensures Body(QuoteRest(cntrl, s) + rest, QUOTE, line) == Expected(s, rest, line)
  {
    hide QuoteByte, Escape;
    if s == [] {
      assert ([QUOTE] + rest)[1..] == rest;
    } else {
      var next: Byte := if |s| > 1 then s[1] else 0;
      var more := QuoteRest(cntrl, s[1..]) + rest;
      QuoteStart(cntrl, s[1..], rest);
      ByteBack(cntrl, s[0], next, more, line);
      assert QuoteRest(cntrl, s) + rest == QuoteByte(cntrl, s[0], next) + more;
      RestBack(cntrl, s[1..], rest, if s[0] == 10 then line + 1 else line);
      assert [s[0]] + s[1..] == s;
    }
  }

  ghost predicate ReadsBack(cntrl: Byte -> bool, s: Bytes, rest: Bytes, line: nat) {
    Body(QuoteRest(cntrl, s) + rest, QUOTE, line) == Expected(s, rest, line)
  }

  /**
    Every string is read back, with exactly the quoted literal consumed, if and only if the
    carriage return counts as a control character: it would end the literal otherwise.
   */
  lemma QuoteRoundTrip(cntrl: Byte -> bool)
    ensures (forall s: Bytes, rest: Bytes, line: nat :: ReadsBack(cntrl, s, rest, line)) <==> cntrl(13)
  {
    if cntrl(13) {
      forall s: Bytes, rest: Bytes, line: nat ensures ReadsBack(cntrl, s, rest, line) {
        RestBack(cntrl, s, rest, line);
      }
    } else {
      var s: Bytes := [13];
      assert QuoteRest(cntrl, s) + [] == [13] + QuoteRest(cntrl, s[1..]);
      assert !ReadsBack(cntrl, s, [], 1);
    }
  }

  // ---------- the lexer ----------

  class LexState {
    var input: Bytes
    var buff: Bytes
    var linenumber: nat

    constructor (input: Bytes, linenumber: nat)
      ensures this.input == input && this.linenumber == linenumber && buff == []
    {
      this.input, this.linenumber, buff := input, linenumber, [];
    }

    /** The current character, -1 at the end of the stream. */
    function Current(): int
      reads this
    {
      if input == [] then -1 else input[0]
    }

    method Next()
      modifies `input
      ensures input == if old(input) == [] then [] else old(input)[1..]
    {
      if input != [] {
        input := input[1..];
      }
    }

    method SaveAndNext()
      requires input != []
      modifies `input, `buff
      ensures input == old(input)[1..] && buff == old(buff) + [old(input)[0]]
    {
      buff := buff + [input[0]];
      input := input[1..];
    }

    method BuffRemove(n: nat)
      requires n <= |buff|
      modifies `buff
      ensures buff == old(buff)[..|old(buff)| - n]
    {
      buff := buff[..|buff| - n];
    }

    method IncLineNumber() returns (ok: bool)
      requires IsNewline(Current())
      modifies `input, `linenumber
      ensures var r := IncLine(old(input), old(linenumber));
              if ok then r == Ok([], input, linenumber) else r == Err(TooManyLines)
    {
      var c := Current();
      Next();
      if IsNewline(Current()) && Current() != c {
        Next();
      }
      linenumber := linenumber + 1;
      ok := linenumber < MAX_INT;
    }

    /** `gethexa`: the digit behind the current character. */
    method GetHexaDigit() returns (r: int)
      requires input != []
      modifies `input, `buff
      ensures input == old(input)[1..] && buff == old(buff) + [old(input)[0]]
      ensures r == if IsXDigit(Current()) then HexaValue(Current()) else -1
    {
      SaveAndNext();
      r := if IsXDigit(Current()) then HexaValue(Current()) else -1;
    }

    /** `readhexaesc`; the second digit stays current. */
    method ReadHexaEsc() returns (n: Num)
      requires input != []
      modifies `input, `buff
      ensures var e := HexEsc(old(input)[1..]);
              if e.Bad? then n == e else n == e.(rest := input) && input != [] && e.rest == input[1..] && buff == old(buff)
    {
      var was := buff;
      var a := GetHexaDigit();
      if a < 0 {
        return Bad(HexExpected);
      }
      var b := GetHexaDigit();
      if b < 0 {
        return Bad(HexExpected);
      }
      BuffRemove(2);
      assert buff == was;
      n := Num(a * 16 + b, input);
    }

    /** `readutf8esc`; the backslash is removed from the buffer, too. */
    method ReadUtf8Esc() returns (n: Num)
      requires input != [] && buff != []
      modifies `input, `buff
      ensures n == (var e := Utf8Num(old(input)[1..]); e)
      ensures n.Num? ==> input == n.rest && buff == old(buff)[..|old(buff)| - 1]
    {
      ghost var was := buff;
      var i := 4;
      SaveAndNext();
      if Current() != 123 {
        return Bad(MissingOpen);
      }
      var d := GetHexaDigit();
      if d < 0 {
        return Bad(HexExpected);
      }
      var r: nat := d;
      SaveAndNext();
      while IsXDigit(Current())
        invariant r <= 0x10FFFF && i >= 4 && |buff| == |was| + i - 1 && buff[..|was|] == was
        invariant Utf8Digits(input, r) == Utf8Num(old(input)[1..])
        decreases |input|
      {
        i := i + 1;
        r := r * 16 + HexaValue(Current());
        if r > 0x10FFFF {
          return Bad(Utf8TooLarge);
        }
        SaveAndNext();
      }
      if Current() != 125 {
        return Bad(MissingClose);
      }
      Next();
      BuffRemove(i);
      assert buff == was[..|was| - 1];
      n := Num(r, input);
    }

    /** `utf8esc`: the bytes of the code point, filled from the last one. */
    method Utf8Esc(x: nat) returns (b: Bytes)
      ensures b == Utf8(x)
    {
      if x < 128 {
        return [x];
      }
      var y, mfb := x / 64, 31;
      b := [128 + x % 64];
      assert [128 + x % 64] + [] == b;
      while y > mfb
        invariant 0 <= mfb <= 31 && y >= 0
        invariant Utf8(x) == if y > mfb then Utf8From(y, mfb, b) else [254 - 2 * mfb + y] + b
        decreases y
      {
        b := [128 + y % 64] + b;
        y, mfb := y / 64, mfb / 2;
      }
      b := [254 - 2 * mfb + y] + b;
    }

    method ReadDecEsc() returns (n: Num)
      modifies `input, `buff
      ensures n == DecEsc(old(input), 0, 0)
      ensures n.Num? ==> input == n.rest && buff == old(buff)
    {
      ghost var was := buff;
      var i, r := 0, 0;
      while i < 3 && IsDigit(Current())
        invariant 0 <= i <= 3 && r >= 0 && |buff| == |was| + i && buff[..|was|] == was
        invariant DecEsc(input, i, r) == DecEsc(old(input), 0, 0)
        decreases 3 - i
      {
        r := 10 * r + (Current() - 48);
        SaveAndNext();
        i := i + 1;
      }
      if r > 255 {
        return Bad(DecimalTooLarge);
      }
      BuffRemove(i);
      assert buff == was;
      n := Num(r, input);
    }

    /** The spaces behind `z`. */
    method SkipSpaces() returns (ok: bool)
      modifies `input, `linenumber
      ensures var r := Zap(old(input), old(linenumber));
              if ok then r == Ok([], input, linenumber) else r == Err(TooManyLines)
    {
      while IsSpace(Current())
        invariant Zap(input, linenumber) == Zap(old(input), old(linenumber))
        decreases |input|
      {
        if IsNewline(Current()) {
          ok := IncLineNumber();
          if !ok {
            return;
          }
        } else {
          Next();
        }
      }
      ok := true;
    }

    /** One escape sequence: the backslash in the buffer is replaced by what it stands for. */
    method ReadEscape() returns (why: seq<Fault>)
      requires Current() == BACKSLASH
      modifies this
      ensures |why| <= 1
      ensures var r := Escape(old(input)[1..], old(linenumber));
              if why != [] then r == Err(why[0])
              else r.Ok? && input == r.rest && linenumber == r.line && buff == old(buff) + if old(|input|) == 1 then [BACKSLASH] else r.text
    {
      ghost var was := buff;
      SaveAndNext();
      why := [];
      if input == [] {
        return;
      }
      var c := input[0];
      if Letter(c) != [] {
        Next();
        BuffRemove(1);
        buff := buff + Letter(c);
      } else if c == 120 {
        var n := ReadHexaEsc();
        if n.Bad? {
          return [n.why];
        }
        Next();
        BuffRemove(1);
        buff := buff + [n.v];
      } else if c == 117 {
        var n := ReadUtf8Esc();
        if n.Bad? {
          return [n.why];
        }
        var b := Utf8Esc(n.v);
        buff := buff + b;
      } else if IsNewline(c) {
        var ok := IncLineNumber();
        if !ok {
          return [TooManyLines];
        }
        BuffRemove(1);
        buff := buff + [10];
      } else if c == 122 {
        BuffRemove(1);
        Next();
        var ok := SkipSpaces();
        if !ok {
          return [TooManyLines];
        }
      } else if IsDigit(c) {
        var n := ReadDecEsc();
        if n.Bad? {
          return [n.why];
        }
        BuffRemove(1);
        buff := buff + [n.v];
      } else {
        return [InvalidEscape];
      }
    }

    lemma BodyStep(at: Bytes, del: Byte, line: nat)
      ensures at == [] ==> Body(at, del, line) == Err(UnfinishedAtEnd)
      ensures at != [] ==>
                Body(at, del, line) ==
                if at[0] == del then Ok([], at[1..], line)
                else if IsNewline(at[0]) then Err(Unfinished)
                else if at[0] == BACKSLASH then
                  (var r := Escape(at[1..], line); if r.Ok? then Prepend(r.text, Body(r.rest, del, r.line)) else r)
                else Prepend([at[0]], Body(at[1..], del, line))
    {
    }

    /** `read_string`: the text between the delimiters. */
    method ReadString(del: Byte) returns (r: Lexed)
      requires Current() == del && !IsNewline(del) && del != BACKSLASH && buff == []
      modifies this
      ensures r == Body(old(input)[1..], del, old(linenumber))
      ensures r.Ok? ==> input == r.rest && linenumber == r.line
    {
      hide Escape, Body;
      SaveAndNext();
      ghost var goal := Body(input, del, linenumber);
      while Current() != del
        invariant |buff| >= 1
        invariant goal == Prepend(buff[1..], Body(input, del, linenumber))
        decreases |input|
      {
        ghost var was, from := buff, input;
        BodyStep(input, del, linenumber);
        if input == [] {
          return Err(UnfinishedAtEnd);
        } else if IsNewline(Current()) {
          return Err(Unfinished);
        } else if Current() == BACKSLASH {
          var why := ReadEscape();
          if why != [] {
            return Err(why[0]);
          }
          BodyStep(input, del, linenumber);
        } else {
          SaveAndNext();
          assert buff[1..] == was[1..] + [from[0]];
        }
      }
      BodyStep(input, del, linenumber);
      SaveAndNext();
      r := Ok(buff[1..|buff| - 1], input, linenumber);
    }
  }
}
