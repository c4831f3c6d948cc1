/**
  The binary form of function prototypes (ldump.c, lundump.c) as bytes: what is written for a
  prototype, and what is read back from any bytes. Sizes and byte order are those of a
  little-endian machine with 4-byte `int`s and 8-byte `size_t`s.
 */
module Precompiled {

  type Byte = x: nat | x < 256
  type Bytes = seq<Byte>

  datatype Option<T> = None | Some(v: T)

  /** A source name; `obj` identifies the string object, which is what the dumper compares. */
  datatype Name = Name(obj: nat, text: Bytes)

  datatype Const = Nil | Bool(b: Byte) | Flt(bits: nat) | Int(i: int) | Text(t: Bytes)

  datatype Upval = Upval(name: Option<Bytes>, instack: Byte, idx: Byte)

  datatype LocVar = LocVar(name: Option<Bytes>, startpc: int, endpc: int)

  datatype Proto = Proto(
    source: Option<Name>, linedefined: int, lastlinedefined: int,
    numparams: Byte, isVararg: Byte, maxstacksize: Byte,
    code: seq<nat>, k: seq<Const>, upvalues: seq<Upval>, p: seq<Proto>,
    lineinfo: seq<int>, locvars: seq<LocVar>)

  const MAXINT := 0x8000_0000
  const LUAI_MAXSHORTLEN := 40

  // ---------- numbers ----------

  function Pow256(k: nat): nat {
    if k == 0 then 1 else 256 * Pow256(k - 1)
  }

  /** The lowest `k` bytes of `x`, lowest first. */
  function Le(x: nat, k: nat): (b: Bytes)
    ensures |b| == k
  {
    if k == 0 then [] else [x % 256] + Le(x / 256, k - 1)
  }

  function UnLe(b: Bytes): nat {
    if b == [] then 0 else b[0] + 256 * UnLe(b[1..])
  }

  lemma {:induction false} LeRoundTrip(x: nat, k: nat)
    requires x < Pow256(k)
    ensures UnLe(Le(x, k)) == x
  {
    if k > 0 {
      LeRoundTrip(x / 256, k - 1);
      assert Le(x, k)[1..] == Le(x / 256, k - 1);
    }
  }

  /** Two's complement with `k` bytes. */
  function Unsigned(x: int, k: nat): (n: nat)
    requires k == 4 || k == 8
    ensures n < Pow256(k)
  {
    assert Pow256(4) == 0x1_0000_0000;
    assert Pow256(8) == 0x1_0000_0000_0000_0000 by { assert Pow256(8) == 256 * (256 * (256 * (256 * Pow256(4)))); }
    x % (if k == 4 then 0x1_0000_0000 else 0x1_0000_0000_0000_0000)
  }

  function Signed(n: nat, k: nat): int {
    var m := if k == 4 then 0x1_0000_0000 else 0x1_0000_0000_0000_0000;
    if n < m / 2 then n else n - m
  }

  predicate FitsInt(x: int) { -0x8000_0000 <= x < 0x8000_0000 }
  predicate FitsInteger(x: int) { -0x8000_0000_0000_0000 <= x < 0x8000_0000_0000_0000 }

  // ---------- writing ----------

  function EncInt(x: int): Bytes { Le(Unsigned(x, 4), 4) }

  function EncInteger(x: int): Bytes { Le(Unsigned(x, 8), 8) }

  function EncWord(x: nat): Bytes { Le(x, 4) }

  function EncNumber(bits: nat): Bytes { Le(bits, 8) }

  function EncString(s: Option<Bytes>): Bytes {
    match s
    case None => [0]
    case Some(t) =>
      var size := |t| + 1;
      (if size < 0xFF then [size] else [0xFF] + Le(size, 8)) + t
  }

  /** The encodings of a list, one after the other. */
  function EncAll<T>(xs: seq<T>, enc: T -> Bytes): Bytes {
    if xs == [] then [] else EncAll(xs[..|xs| - 1], enc) + enc(xs[|xs| - 1])
  }

  /** The type tags of lobject.h; long strings have a variant bit. */
  function Tag(c: Const): Byte {
    match c
    case Nil => 0
    case Bool(_) => 1
    case Flt(_) => 3
    case Int(_) => 19
    case Text(t) => if |t| <= LUAI_MAXSHORTLEN then 4 else 20
  }

  function EncConst(c: Const): Bytes {
    [Tag(c)] +
    match c
    case Nil => []
    case Bool(b) => [b]
    case Flt(bits) => EncNumber(bits)
    case Int(i) => EncInteger(i)
    case Text(t) => EncString(Some(t))
  }

  function EncUpval(u: Upval): Bytes { [u.instack, u.idx] }

  function EncName(u: Upval): Bytes { EncString(u.name) }

  function EncLocVar(v: LocVar): Bytes {
    EncString(v.name) + EncInt(v.startpc) + EncInt(v.endpc)
  }

  function EncDebug(f: Proto, strip: bool): Bytes {
    if strip then EncInt(0) + EncInt(0) + EncInt(0)
    else
      EncInt(|f.lineinfo|) + EncAll(f.lineinfo, EncInt)
      + EncInt(|f.locvars|) + EncAll(f.locvars, EncLocVar)
      + EncInt(|f.upvalues|) + EncAll(f.upvalues, EncName)
  }

  /** The source is left out if it is the parent's. */
  function EncSource(source: Option<Name>, psource: Option<Name>, strip: bool): Bytes {
    EncString(if strip || source == psource || source.None? then None else Some(source.v.text))
  }

  function EncHead(f: Proto, psource: Option<Name>, strip: bool): Bytes {
    EncSource(f.source, psource, strip) + EncInt(f.linedefined) + EncInt(f.lastlinedefined)
    + [f.numparams, f.isVararg, f.maxstacksize]
    + EncInt(|f.code|) + EncAll(f.code, EncWord)
    + EncInt(|f.k|) + EncAll(f.k, EncConst)
    + EncInt(|f.upvalues|) + EncAll(f.upvalues, EncUpval)
  }

  function EncFunction(f: Proto, psource: Option<Name>, strip: bool): Bytes
    decreases f, 1, 0
  {
    EncHead(f, psource, strip) + EncInt(|f.p|) + EncProtos(f, |f.p|, strip) + EncDebug(f, strip)
  }

  /** The first `n` nested prototypes. */
  function EncProtos(f: Proto, n: nat, strip: bool): Bytes
    requires n <= |f.p|
    decreases f, 0, n
  {
    if n == 0 then [] else EncProtos(f, n - 1, strip) + EncFunction(f.p[n - 1], f.source, strip)
  }

  const SIGNATURE: Bytes := [27, 76, 117, 97]
  const LUAC_VERSION: Byte := 0x53
  const LUAC_FORMAT: Byte := 0
  const LUAC_DATA: Bytes := [0x19, 0x93, 13, 10, 0x1a, 10]
  const LUAC_INT := 0x5678
  /** The bits of 370.5. */
  const LUAC_NUM := 0x4077_2800_0000_0000
  const SIZES: Bytes := [4, 8, 4, 8, 8]

  function EncHeader(): Bytes {
    SIGNATURE + [LUAC_VERSION, LUAC_FORMAT] + LUAC_DATA + SIZES + EncInteger(LUAC_INT) + EncNumber(LUAC_NUM)
  }

  function EncChunk(f: Proto, strip: bool): Bytes {
    EncHeader() + [|f.upvalues| % 256] + EncFunction(f, None, strip)
  }

  // ---------- reading ----------

  /** The errors of the loader; `TooBig` is the allocator's, `Undefined` is left open by the code. */
  datatype Fault = Truncated | NotChunk | VersionMismatch | FormatMismatch | Corrupted | SizeMismatch | EndiannessMismatch | FloatMismatch | TooBig | Undefined

  /** A value and the bytes behind it, or an error. */
  datatype Loaded<+T> = Ok(v: T, rest: Bytes) | Err(why: Fault) {
    predicate IsFailure() { Err? }

    function PropagateFailure<U>(): Loaded<U>
      requires Err?
    {
      Err(why)
    }

    function Extract(): (T, Bytes)
      requires Ok?
    {
      (v, rest)
    }
  }

  /** A decoder: from any bytes. */
  type Decoder<T> = Bytes -> Loaded<T>

  function DecBlock(b: Bytes, n: nat): (r: Loaded<Bytes>)
    ensures r.Ok? ==> |r.rest| + n == |b| && |r.v| == n
  {
    if n <= |b| then Ok(b[..n], b[n..]) else Err(Truncated)
  }

  function DecByte(b: Bytes): (r: Loaded<Byte>)
    ensures r.Ok? ==> |r.rest| < |b|
  {
    if b == [] then Err(Truncated) else Ok(b[0], b[1..])
  }

  function DecInt(b: Bytes): (r: Loaded<int>)
    ensures r.Ok? ==> |r.rest| < |b|
  {
    var (x, b1) :- DecBlock(b, 4);
    Ok(Signed(UnLe(x), 4), b1)
  }

  function DecInteger(b: Bytes): (r: Loaded<int>)
    ensures r.Ok? ==> |r.rest| < |b|
  {
    var (x, b1) :- DecBlock(b, 8);
    Ok(Signed(UnLe(x), 8), b1)
  }

  function DecWord(b: Bytes): (r: Loaded<nat>)
    ensures r.Ok? ==> |r.rest| < |b|
  {
    var (x, b1) :- DecBlock(b, 4);
    Ok(UnLe(x), b1)
  }

  function DecNumber(b: Bytes): (r: Loaded<nat>)
    ensures r.Ok? ==> |r.rest| < |b|
  {
    var (x, b1) :- DecBlock(b, 8);
    Ok(UnLe(x), b1)
  }

  function DecText(b: Bytes, size: nat): (r: Loaded<Option<Bytes>>)
    ensures r.Ok? ==> |r.rest| <= |b|
  {
    if size == 0 then Ok(None, b)
    else
      var (t, b1) :- DecBlock(b, size - 1);
      Ok(Some(t), b1)
  }

  function DecString(b: Bytes): (r: Loaded<Option<Bytes>>)
    ensures r.Ok? ==> |r.rest| < |b|
  {
    var (short, b1) :- DecByte(b);
    if short == 0xFF then
      var (size, b2) :- DecNumber(b1);
      DecText(b2, size)
    else DecText(b1, short)
  }

  /** A decoder that never makes bytes. */
  ghost predicate Shrinks<T>(d: Decoder<T>) {
    forall b :: d(b).Ok? ==> |d(b).rest| <= |b|
  }

  function DecMany<T>(d: Decoder<T>, n: nat, b: Bytes): (r: Loaded<seq<T>>)
    ensures r.Ok? ==> |r.v| == n
    ensures Shrinks(d) && r.Ok? ==> |r.rest| <= |b|
  {
    if n == 0 then Ok([], b)
    else
      var (xs, b1) :- DecMany(d, n - 1, b);
      var (x, b2) :- d(b1);
      Ok(xs + [x], b2)
  }

  /** A counted list: a negative count is too big for the allocator. */
  function DecCounted<T>(d: Decoder<T>, b: Bytes): (r: Loaded<seq<T>>)
    ensures Shrinks(d) && r.Ok? ==> |r.rest| <= |b|
  {
    var (n, b1) :- DecInt(b);
    if n < 0 then Err(TooBig) else DecMany(d, n, b1)
  }

  function DecConst(b: Bytes): (r: Loaded<Const>)
    ensures r.Ok? ==> |r.rest| < |b|
  {
    var (t, b1) :- DecByte(b);
    if t == 1 then
      var (x, b2) :- DecByte(b1);
      Ok(Bool(x), b2)
    else if t == 3 then
      var (x, b2) :- DecNumber(b1);
      Ok(Flt(x), b2)
    else if t == 19 then
      var (x, b2) :- DecInteger(b1);
      Ok(Int(x), b2)
    else if t == 4 || t == 20 then
      var (x, b2) :- DecString(b1);
      if x.None? then Err(Undefined) else Ok(Text(x.v), b2)
    else Ok(Nil, b1)
  }

  function DecUpval(b: Bytes): (r: Loaded<Upval>)
    ensures r.Ok? ==> |r.rest| < |b|
  {
    var (x, b1) :- DecByte(b);
    var (y, b2) :- DecByte(b1);
    Ok(Upval(None, x, y), b2)
  }

  function DecLocVar(b: Bytes): (r: Loaded<LocVar>)
    ensures r.Ok? ==> |r.rest| < |b|
  {
    var (s, b1) :- DecString(b);
    var (x, b2) :- DecInt(b1);
    var (y, b3) :- DecInt(b2);
    Ok(LocVar(s, x, y), b3)
  }

  function Named(us: seq<Upval>, names: seq<Option<Bytes>>): seq<Upval>
    requires |names| <= |us|
  {
    seq(|us|, i requires 0 <= i < |us| => if i < |names| then us[i].(name := names[i]) else us[i])
  }

  /** The names of upvalues; there must not be more than upvalues. */
  function DecNames(us: seq<Upval>, b: Bytes): Loaded<seq<Upval>> {
    var (n, b1) :- DecInt(b);
    if n > |us| then Err(Undefined)
    else
      var (names, b2) :- DecMany(DecString, if n < 0 then 0 else n, b1);
      Ok(Named(us, names), b2)
  }

  /** Fields up to the upvalues; the parent's source stands for a missing one. */
  function DecHead(b: Bytes, psource: Option<Name>): (r: Loaded<Proto>)
    ensures r.Ok? ==> |r.rest| < |b|
  {
    assert Shrinks(DecWord) && Shrinks(DecConst) && Shrinks(DecUpval);
    var (s, b1) :- DecString(b);
    var (first, b2) :- DecInt(b1);
    var (last, b3) :- DecInt(b2);
    var (numparams, b4) :- DecByte(b3);
    var (isVararg, b5) :- DecByte(b4);
    var (maxstack, b6) :- DecByte(b5);
    var (code, b7) :- DecCounted(DecWord, b6);
    var (k, b8) :- DecCounted(DecConst, b7);
    var (us, b9) :- DecCounted(DecUpval, b8);
    Ok(Proto(if s.None? then psource else Some(Name(0, s.v)), first, last, numparams, isVararg, maxstack, code, k, us, [], [], []), b9)
  }

  function DecDebug(f: Proto, b: Bytes): (r: Loaded<Proto>)
    ensures r.Ok? ==> |r.rest| <= |b|
  {
    assert Shrinks(DecInt) && Shrinks(DecLocVar) && Shrinks(DecString);
    var (lines, b1) :- DecCounted(DecInt, b);
    var (vars, b2) :- DecCounted(DecLocVar, b1);
    var (us, b3) :- DecNames(f.upvalues, b2);
    Ok(f.(lineinfo := lines, locvars := vars, upvalues := us), b3)
  }

  function DecFunction(b: Bytes, psource: Option<Name>): (r: Loaded<Proto>)
    ensures r.Ok? ==> |r.rest| < |b|
    decreases |b|, 0
  {
    var (f, b1) :- DecHead(b, psource);
    var (n, b2) :- DecInt(b1);
    if n < 0 then Err(TooBig)
    else
      var (ps, b3) :- DecProtos(n, b2, f.source);
      DecDebug(f.(p := ps), b3)
  }

  function DecProtos(n: nat, b: Bytes, psource: Option<Name>): (r: Loaded<seq<Proto>>)
    ensures r.Ok? ==> |r.v| == n && |r.rest| <= |b|
    decreases |b|, n + 1
  {
    if n == 0 then Ok([], b)
    else
      var (ps, b1) :- DecProtos(n - 1, b, psource);
      var (f, b2) :- DecFunction(b1, psource);
      Ok(ps + [f], b2)
  }

  /** `checkliteral`. */
  function DecLiteral(b: Bytes, s: Bytes, why: Fault): Loaded<()> {
    var (x, b1) :- DecBlock(b, |s|);
    if x == s then Ok((), b1) else Err(why)
  }

  /** `checkHeader`, from the second byte on. */
  function DecHeader(b: Bytes): Loaded<()> {
    var (_, b1) :- DecLiteral(b, SIGNATURE[1..], NotChunk);
    var (version, b2) :- DecByte(b1);
    if version != LUAC_VERSION then Err(VersionMismatch)
    else
      var (format, b3) :- DecByte(b2);
      if format != LUAC_FORMAT then Err(FormatMismatch)
      else
        var (_, b4) :- DecLiteral(b3, LUAC_DATA, Corrupted);
        var (_, b5) :- DecSizes(SIZES, b4);
        var (i, b6) :- DecInteger(b5);
        if i != LUAC_INT then Err(EndiannessMismatch)
        else
          var (x, b7) :- DecNumber(b6);
          if x != LUAC_NUM then Err(FloatMismatch) else Ok((), b7)
  }

  /** `checksize`, once for each size. */
  function DecSizes(sizes: seq<Byte>, b: Bytes): Loaded<()> {
    if sizes == [] then Ok((), b)
    else
      var (x, b1) :- DecByte(b);
      if x != sizes[0] then Err(SizeMismatch) else DecSizes(sizes[1..], b1)
  }

  /** `luaU_undump`, from the second byte on: the number of upvalues of the closure, and its prototype. */
  function DecChunk(b: Bytes): Loaded<(nat, Proto)> {
    var (_, b1) :- DecHeader(b);
    var (n, b2) :- DecByte(b1);
    var (f, b3) :- DecFunction(b2, None);
    Ok((n, f), b3)
  }
}
