/**
  The layout of precompiled chunks, byte by byte, without reference to what writes or reads
  them: `ldump.c` writes this layout, and `lundump.c` takes it for what it shows.
 */
module ChunkLayout {
  import opened Precompiled
  import opened PrecompiledLaws

  // ---------- numbers and strings ----------

  function Four(b: Bytes): nat
    requires |b| == 4
  {
    b[0] as nat + 0x100 * b[1] as nat + 0x1_0000 * b[2] as nat + 0x100_0000 * b[3] as nat
  }

  function Eight(b: Bytes): nat
    requires |b| == 8
  {
    Four(b[..4]) + 0x1_0000_0000 * Four(b[4..])
  }

  /** A C `int`, a word, a Lua integer, the bits of a Lua float: low bytes first, negative numbers by their complement. */
  predicate ShowsInt(b: Bytes, x: int) {
    |b| == 4 && FitsInt(x) && Four(b) == if x < 0 then x + 0x1_0000_0000 else x
  }

  predicate ShowsWord(b: Bytes, x: nat) {
    |b| == 4 && Four(b) == x
  }

  predicate ShowsInteger(b: Bytes, x: int) {
    |b| == 8 && FitsInteger(x) && Eight(b) == if x < 0 then x + 0x1_0000_0000_0000_0000 else x
  }

  predicate ShowsNumber(b: Bytes, bits: nat) {
    |b| == 8 && Eight(b) == bits
  }

  /** No string is a 0; a string has its length and one in a byte, or 255 and its length and one in eight bytes. The writer takes the first form if it can. */
  predicate ShowsText(b: Bytes, s: Option<Bytes>, written: bool) {
    match s
    case None => b == [0] || (!written && |b| == 9 && b[0] == 0xFF && Eight(b[1..]) == 0)
    case Some(t) =>
      if |b| == 1 + |t| then |t| + 1 < 0xFF && b[0] == |t| + 1 && b[1..] == t
      else |b| == 9 + |t| && b[0] == 0xFF && Eight(b[1..9]) == |t| + 1 && b[9..] == t && (written ==> |t| + 1 >= 0xFF)
  }

  // ---------- constants and other items ----------

  /** A byte for the type, then the value: nil 0, boolean 1, float 3, integer 0x13, short string 4, long string 0x14. */
  predicate ShowsConst(b: Bytes, c: Const, written: bool) {
    |b| > 0 &&
    match c
    case Nil => b == [0]
    case Bool(v) => b == [1, v]
    case Flt(bits) => b[0] == 3 && ShowsNumber(b[1..], bits)
    case Int(i) => b[0] == 0x13 && ShowsInteger(b[1..], i)
    case Text(t) => b[0] in {4, 0x14} && (written ==> b[0] == if |t| <= 40 then 4 else 0x14) && ShowsText(b[1..], Some(t), written)
  }

  /** Names are shown elsewhere. */
  predicate ShowsUpval(b: Bytes, u: Upval) {
    b == [u.instack, u.idx] && u.name.None?
  }

  ghost predicate ShowsLocVar(b: Bytes, v: LocVar, written: bool) {
    exists s: Bytes, x: Bytes, y: Bytes :: b == s + (x + y) && ShowsText(s, v.name, written) && ShowsInt(x, v.startpc) && ShowsInt(y, v.endpc)
  }

  // ---------- lists ----------

  /** The items one after the other. */
  ghost predicate ShowsAll<T>(b: Bytes, xs: seq<T>, shows: (Bytes, T) -> bool)
    decreases |xs|
  {
    if xs == [] then b == []
    else exists i: nat :: i <= |b| && ShowsAll(b[..i], xs[..|xs| - 1], shows) && shows(b[i..], xs[|xs| - 1])
  }

  /** Their number, then the items. */
  ghost predicate ShowsList<T>(b: Bytes, xs: seq<T>, shows: (Bytes, T) -> bool) {
    |b| >= 4 && ShowsInt(b[..4], |xs|) && ShowsAll(b[4..], xs, shows)
  }

  // ---------- functions ----------

  /** What a chunk says of a function: its source or none, its upvalues without names, and names of upvalues. */
  datatype Image = Image(
    source: Option<Bytes>, linedefined: int, lastlinedefined: int,
    numparams: Byte, isVararg: Byte, maxstacksize: Byte,
    code: seq<nat>, k: seq<Const>, upvalues: seq<Upval>, p: seq<Image>,
    lineinfo: seq<int>, locvars: seq<LocVar>, names: seq<Option<Bytes>>)

  /** Two lines and three bytes. */
  predicate ShowsFixed(b: Bytes, f: Image) {
    && |b| == 11 && ShowsInt(b[..4], f.linedefined) && ShowsInt(b[4..8], f.lastlinedefined)
    && b[8] == f.numparams && b[9] == f.isVararg && b[10] == f.maxstacksize
  }

  /** The source, the fixed fields, the instructions, the constants and the upvalues. */
  ghost predicate ShowsHead(b: Bytes, f: Image, written: bool) {
    exists s: Bytes, x: Bytes, code: Bytes, k: Bytes, us: Bytes ::
      && b == s + (x + (code + (k + us)))
      && ShowsText(s, f.source, written) && ShowsFixed(x, f)
      && ShowsList(code, f.code, ShowsWord) && ShowsList(k, f.k, (b, c) => ShowsConst(b, c, written)) && ShowsList(us, f.upvalues, ShowsUpval)
  }

  /** The lines of the instructions, the local variables, the names of the upvalues. */
  ghost predicate ShowsDebug(b: Bytes, f: Image, written: bool) {
    exists x: Bytes, y: Bytes, z: Bytes ::
      && b == x + (y + z)
      && ShowsList(x, f.lineinfo, ShowsInt) && ShowsList(y, f.locvars, (b, v) => ShowsLocVar(b, v, written))
      && ShowsList(z, f.names, (b, s) => ShowsText(b, s, written))
  }

  ghost predicate ShowsFunction(b: Bytes, f: Image, written: bool)
    decreases f, 1, 0
  {
    exists x: Bytes, n: Bytes, ps: Bytes, y: Bytes ::
      && b == x + (n + (ps + y))
      && ShowsHead(x, f, written) && ShowsInt(n, |f.p|) && ShowsProtos(ps, f, |f.p|, written) && ShowsDebug(y, f, written)
  }

  /** The first `n` functions nested in `f`. */
  ghost predicate ShowsProtos(b: Bytes, f: Image, n: nat, written: bool)
    requires n <= |f.p|
    decreases f, 0, n
  {
    if n == 0 then b == []
    else exists i: nat :: i <= |b| && ShowsProtos(b[..i], f, n - 1, written) && ShowsFunction(b[i..], f.p[n - 1], written)
  }

  /**
    The header: the signature, version 5.3, format 0, six bytes to find conversions, the sizes of
    `int`, `size_t`, an instruction, an integer and a float, and the integer 0x5678 and the
    float 370.5.
   */
  const HEADER: Bytes := [
    0x1B, 0x4C, 0x75, 0x61, 0x53, 0x00, 0x19, 0x93, 0x0D, 0x0A, 0x1A, 0x0A, 4, 8, 4, 8, 8,
    0x78, 0x56, 0, 0, 0, 0, 0, 0, 0, 0, 0, 0, 0, 0x28, 0x77, 0x40]

  ghost predicate ShowsChunk(b: Bytes, n: Byte, f: Image, written: bool) {
    |b| > 33 && b[..33] == HEADER && b[33] == n && ShowsFunction(b[34..], f, written)
  }

  // ---------- what is written ----------

  lemma FourIs(b: Bytes)
    requires |b| == 4
    ensures UnLe(b) == Four(b)
  {
    assert b[1..][1..] == b[2..] && b[2..][1..] == b[3..];
    assert UnLe(b[3..]) == b[3] && UnLe(b[2..]) == b[2] + 256 * UnLe(b[3..]) && UnLe(b[1..]) == b[1] + 256 * UnLe(b[2..]);
  }

  lemma EightIs(b: Bytes)
    requires |b| == 8
    ensures UnLe(b) == Eight(b)
  {
    FourIs(b[4..]);
    assert b[1..][1..] == b[2..] && b[2..][1..] == b[3..] && b[3..][1..] == b[4..];
    assert UnLe(b[3..]) == b[3] + 256 * UnLe(b[4..]) && UnLe(b[2..]) == b[2] + 256 * UnLe(b[3..]) && UnLe(b[1..]) == b[1] + 256 * UnLe(b[2..]);
  }

  lemma IntShown(x: int)
    requires FitsInt(x)
    ensures ShowsInt(EncInt(x), x)
  {
    FourIs(EncInt(x));
    LeRoundTrip(Unsigned(x, 4), 4);
  }

  lemma WordShown(x: nat)
    requires x < 0x1_0000_0000
    ensures ShowsWord(EncWord(x), x)
  {
    assert Pow256(4) == 0x1_0000_0000;
    FourIs(EncWord(x));
    LeRoundTrip(x, 4);
  }

  lemma IntegerShown(x: int)
    requires FitsInteger(x)
    ensures ShowsInteger(EncInteger(x), x)
  {
    EightIs(EncInteger(x));
    LeRoundTrip(Unsigned(x, 8), 8);
    hide Pow256, Le, UnLe, Eight;
  }

  lemma Pow256Of8()
    ensures Pow256(8) == 0x1_0000_0000_0000_0000
  {
    assert Pow256(8) == 256 * (256 * (256 * (256 * Pow256(4))));
  }

  lemma NumberShown(x: nat)
    requires x < 0x1_0000_0000_0000_0000
    ensures ShowsNumber(EncNumber(x), x)
  {
    Pow256Of8();
    EightIs(EncNumber(x));
    LeRoundTrip(x, 8);
  }

  lemma TextShown(s: Option<Bytes>)
    requires FitsName(s)
    ensures ShowsText(EncString(s), s, true)
  {
    hide Le, Eight;
    if s.Some? {
      var size := |s.v| + 1;
      if size >= 0xFF {
        NumberShown(size);
        var e := EncString(s);
        assert e == [0xFF] + EncNumber(size) + s.v;
        assert e[1..9] == EncNumber(size) && e[9..] == s.v;
      }
    }
  }

  lemma ConstShown(c: Const)
    requires FitsConst(c)
    ensures ShowsConst(EncConst(c), c, true)
  {
    hide EncNumber, EncInteger, EncString, ShowsNumber, ShowsInteger, ShowsText;
    match c
    case Nil =>
    case Bool(_) =>
    case Flt(bits) =>
      NumberShown(bits);
      assert EncConst(c)[1..] == EncNumber(bits);
    case Int(i) =>
      IntegerShown(i);
      assert EncConst(c)[1..] == EncInteger(i);
    case Text(t) =>
      TextShown(Some(t));
      assert EncConst(c)[1..] == EncString(Some(t));
  }

  lemma LocVarShown(v: LocVar)
    requires FitsLocVar(v)
    ensures ShowsLocVar(EncLocVar(v), v, true)
  {
    hide EncInt, EncString, ShowsInt, ShowsText;
    TextShown(v.name);
    IntShown(v.startpc);
    IntShown(v.endpc);
    assert EncLocVar(v) == EncString(v.name) + (EncInt(v.startpc) + EncInt(v.endpc));
  }

  lemma {:induction false} AllShown<S, T>(xs: seq<S>, ys: seq<T>, enc: S -> Bytes, shows: (Bytes, T) -> bool)
    requires |xs| == |ys| && forall i :: 0 <= i < |xs| ==> shows(enc(xs[i]), ys[i])
    ensures ShowsAll(EncAll(xs, enc), ys, shows)
    decreases |xs|
  {
    if xs != [] {
      var n := |xs| - 1;
      AllShown(xs[..n], ys[..n], enc, shows);
      var a, b := EncAll(xs[..n], enc), enc(xs[n]);
      assert (a + b)[..|a|] == a && (a + b)[|a|..] == b;
    }
  }

  lemma ListShown<S, T>(xs: seq<S>, ys: seq<T>, enc: S -> Bytes, shows: (Bytes, T) -> bool)
    requires |xs| == |ys| < MAXINT && forall i :: 0 <= i < |xs| ==> shows(enc(xs[i]), ys[i])
    ensures ShowsList(EncInt(|xs|) + EncAll(xs, enc), ys, shows)
  {
    hide ShowsAll, EncAll;
    IntShown(|xs|);
    AllShown(xs, ys, enc, shows);
    var a, b := EncInt(|xs|), EncAll(xs, enc);
    assert (a + b)[..4] == a && (a + b)[4..] == b;
  }

  function NamesOf(us: seq<Upval>): (r: seq<Option<Bytes>>)
    ensures |r| == |us|
  {
    seq(|us|, i requires 0 <= i < |us| => us[i].name)
  }

  /** What a dump of `f` says, where `ps` is the source of its parent. */
  function ImageOf(f: Proto, ps: Option<Name>, strip: bool): Image {
    Image(if strip || f.source == ps || f.source.None? then None else Some(f.source.v.text), f.linedefined, f.lastlinedefined,
          f.numparams, f.isVararg, f.maxstacksize, f.code, f.k, Unnamed(f.upvalues),
          seq(|f.p|, i requires 0 <= i < |f.p| => ImageOf(f.p[i], f.source, strip)),
          if strip then [] else f.lineinfo, if strip then [] else f.locvars, if strip then [] else NamesOf(f.upvalues))
  }

  lemma FixedShown(f: Proto, im: Image)
    requires FitsFields(f) && im.linedefined == f.linedefined && im.lastlinedefined == f.lastlinedefined
    requires im.numparams == f.numparams && im.isVararg == f.isVararg && im.maxstacksize == f.maxstacksize
    ensures ShowsFixed(EncInt(f.linedefined) + EncInt(f.lastlinedefined) + [f.numparams, f.isVararg, f.maxstacksize], im)
  {
    hide ShowsInt;
    IntShown(f.linedefined);
    IntShown(f.lastlinedefined);
    var b := EncInt(f.linedefined) + EncInt(f.lastlinedefined) + [f.numparams, f.isVararg, f.maxstacksize];
    assert b[..4] == EncInt(f.linedefined) && b[4..8] == EncInt(f.lastlinedefined);
  }

  lemma HeadShown(f: Proto, ps: Option<Name>, strip: bool)
    requires FitsFields(f)
    ensures ShowsHead(EncHead(f, ps, strip), ImageOf(f, ps, strip), true)
  {
    hide EncInt, EncString, EncHead, ShowsFixed, ShowsText, ShowsList, EncAll, EncConst, ShowsConst, EncWord, EncUpval, ShowsWord, ShowsUpval, Unnamed, NamesOf, FitsConst;
    var im := ImageOf(f, ps, strip);
    TextShown(im.source);
    FixedShown(f, im);
    ListsShown(f);
    HeadParts(f, ps, strip);
    var x := EncInt(f.linedefined) + EncInt(f.lastlinedefined) + [f.numparams, f.isVararg, f.maxstacksize];
    var code, k, us := EncInt(|f.code|) + EncAll(f.code, EncWord), EncInt(|f.k|) + EncAll(f.k, EncConst), EncInt(|f.upvalues|) + EncAll(f.upvalues, EncUpval);
    assert EncHead(f, ps, strip) == EncString(im.source) + (x + (code + (k + us)));
  }

  lemma HeadParts(f: Proto, ps: Option<Name>, strip: bool)
    ensures var x := EncInt(f.linedefined) + EncInt(f.lastlinedefined) + [f.numparams, f.isVararg, f.maxstacksize];
            var code, k, us := EncInt(|f.code|) + EncAll(f.code, EncWord), EncInt(|f.k|) + EncAll(f.k, EncConst), EncInt(|f.upvalues|) + EncAll(f.upvalues, EncUpval);
            EncHead(f, ps, strip) == EncString(ImageOf(f, ps, strip).source) + (x + (code + (k + us)))
  {
    hide EncInt, EncString, EncAll, EncConst, EncWord, EncUpval, Unnamed, NamesOf;
    assert EncSource(f.source, ps, strip) == EncString(ImageOf(f, ps, strip).source);
  }

  lemma ListsShown(f: Proto)
    requires FitsFields(f)
    ensures ShowsList(EncInt(|f.code|) + EncAll(f.code, EncWord), f.code, ShowsWord)
    ensures ShowsList(EncInt(|f.k|) + EncAll(f.k, EncConst), f.k, (b, c) => ShowsConst(b, c, true))
    ensures ShowsList(EncInt(|f.upvalues|) + EncAll(f.upvalues, EncUpval), Unnamed(f.upvalues), ShowsUpval)
  {
    hide ShowsList, EncAll, EncInt;
    forall i | 0 <= i < |f.code| ensures ShowsWord(EncWord(f.code[i]), f.code[i]) {
      WordShown(f.code[i]);
    }
    forall i | 0 <= i < |f.k| ensures ShowsConst(EncConst(f.k[i]), f.k[i], true) {
      ConstShown(f.k[i]);
    }
    ListShown(f.code, f.code, EncWord, ShowsWord);
    ListShown(f.k, f.k, EncConst, (b, c) => ShowsConst(b, c, true));
    ListShown(f.upvalues, Unnamed(f.upvalues), EncUpval, ShowsUpval);
  }

  lemma DebugShown(f: Proto, ps: Option<Name>, strip: bool)
    requires FitsFields(f)
    ensures ShowsDebug(EncDebug(f, strip), ImageOf(f, ps, strip), true)
  {
    hide EncInt, ShowsList, EncAll, EncLocVar, ShowsLocVar, ShowsText, EncName, ShowsInt;
    var im := ImageOf(f, ps, strip);
    if strip {
      NothingShown();
      assert EncDebug(f, strip) == EncInt(0) + (EncInt(0) + EncInt(0));
    } else {
      DebugListsShown(f);
      var x, y, z := EncInt(|f.lineinfo|) + EncAll(f.lineinfo, EncInt), EncInt(|f.locvars|) + EncAll(f.locvars, EncLocVar), EncInt(|f.upvalues|) + EncAll(f.upvalues, EncName);
      assert EncDebug(f, strip) == x + (y + z);
    }
  }

  lemma NothingShown()
    ensures ShowsList(EncInt(0), [], ShowsInt) && ShowsList(EncInt(0), [], (b, v) => ShowsLocVar(b, v, true))
    ensures ShowsList(EncInt(0), [], (b, s) => ShowsText(b, s, true))
  {
    IntShown(0);
  }

  lemma DebugListsShown(f: Proto)
    requires FitsFields(f)
    ensures ShowsList(EncInt(|f.lineinfo|) + EncAll(f.lineinfo, EncInt), f.lineinfo, ShowsInt)
    ensures ShowsList(EncInt(|f.locvars|) + EncAll(f.locvars, EncLocVar), f.locvars, (b, v) => ShowsLocVar(b, v, true))
    ensures ShowsList(EncInt(|f.upvalues|) + EncAll(f.upvalues, EncName), NamesOf(f.upvalues), (b, s) => ShowsText(b, s, true))
  {
    hide ShowsList, EncAll, EncInt, ShowsInt, EncLocVar, ShowsLocVar, EncString, ShowsText;
    forall i | 0 <= i < |f.lineinfo| ensures ShowsInt(EncInt(f.lineinfo[i]), f.lineinfo[i]) {
      IntShown(f.lineinfo[i]);
    }
    forall i | 0 <= i < |f.locvars| ensures ShowsLocVar(EncLocVar(f.locvars[i]), f.locvars[i], true) {
      LocVarShown(f.locvars[i]);
    }
    forall i | 0 <= i < |f.upvalues| ensures ShowsText(EncName(f.upvalues[i]), NamesOf(f.upvalues)[i], true) {
      TextShown(f.upvalues[i].name);
    }
    ListShown(f.lineinfo, f.lineinfo, EncInt, ShowsInt);
    ListShown(f.locvars, f.locvars, EncLocVar, (b, v) => ShowsLocVar(b, v, true));
    ListShown(f.upvalues, NamesOf(f.upvalues), EncName, (b, s) => ShowsText(b, s, true));
  }

  lemma {:induction false} FunctionShown(f: Proto, ps: Option<Name>, strip: bool)
    requires Fits(f)
    ensures ShowsFunction(EncFunction(f, ps, strip), ImageOf(f, ps, strip), true)
    decreases f, 1, 0
  {
    hide EncHead, EncDebug, EncInt, ShowsHead, ShowsDebug, ShowsInt, FitsFields;
    HeadShown(f, ps, strip);
    DebugShown(f, ps, strip);
    CountShown(f);
    ProtosShown(f, ps, |f.p|, strip);
    assert EncFunction(f, ps, strip) == EncHead(f, ps, strip) + (EncInt(|f.p|) + (EncProtos(f, |f.p|, strip) + EncDebug(f, strip)));
  }

  lemma CountShown(f: Proto)
    requires FitsFields(f)
    ensures ShowsInt(EncInt(|f.p|), |f.p|)
  {
    IntShown(|f.p|);
  }

  lemma {:induction false} ProtosShown(f: Proto, ps: Option<Name>, n: nat, strip: bool)
    requires n <= |f.p| && Fits(f)
    ensures ShowsProtos(EncProtos(f, n, strip), ImageOf(f, ps, strip), n, true)
    decreases f, 0, n
  {
    hide EncFunction, ShowsFunction, FitsFields;
    if n > 0 {
      ProtosShown(f, ps, n - 1, strip);
      FunctionShown(f.p[n - 1], f.source, strip);
      var a, b := EncProtos(f, n - 1, strip), EncFunction(f.p[n - 1], f.source, strip);
      assert (a + b)[..|a|] == a && (a + b)[|a|..] == b;
    }
  }

  lemma HeaderIs()
    ensures EncHeader() == HEADER
  {
    BytesOf(LUAC_INT, 0x78, 0x56);
    FloatBytes();
    FirstBytes();
    hide Le, EncInteger, EncNumber, FirstPart;
    assert EncHeader() == FirstPart() + EncInteger(LUAC_INT) + EncNumber(LUAC_NUM);
  }

  function FirstPart(): Bytes {
    SIGNATURE + [LUAC_VERSION, LUAC_FORMAT] + LUAC_DATA + SIZES
  }

  lemma FirstBytes()
    ensures FirstPart() == [0x1B, 0x4C, 0x75, 0x61, 0x53, 0x00, 0x19, 0x93, 0x0D, 0x0A, 0x1A, 0x0A, 4, 8, 4, 8, 8]
  {
  }

  /** Two bytes, and then zeros. */
  lemma BytesOf(x: nat, a: Byte, b: Byte)
    requires x == a as nat + 256 * b as nat
    ensures EncInteger(x) == [a, b, 0, 0, 0, 0, 0, 0]
  {
    hide Le;
    LowestFirst(x, 8, a, b);
    LowestFirst(b, 7, b, 0);
    ZeroBytes(6);
    assert seq(6, i => 0) == [0, 0, 0, 0, 0, 0];
    assert Unsigned(x, 8) == x;
  }

  lemma LowestFirst(x: nat, size: nat, a: Byte, q: nat)
    requires size > 0 && x == a as nat + 256 * q
    ensures Le(x, size) == [a] + Le(q, size - 1)
  {
    assert x % 256 == a as nat && x / 256 == q;
  }

  lemma {:induction false} ZeroBytes(n: nat)
    ensures Le(0, n) == seq(n, i => 0)
    decreases n
  {
    if n > 0 {
      ZeroBytes(n - 1);
    }
  }

  lemma FloatBytes()
    ensures EncNumber(LUAC_NUM) == [0, 0, 0, 0, 0, 0x28, 0x77, 0x40]
  {
    assert Le(0x40, 1) == [0x40] + Le(0, 0) && Le(0x4077, 2) == [0x77] + Le(0x40, 1) && Le(0x40_7728, 3) == [0x28] + Le(0x4077, 2);
    assert Le(0x4077_2800, 4) == [0] + Le(0x40_7728, 3) && Le(0x40_7728_0000, 5) == [0] + Le(0x4077_2800, 4);
    assert Le(0x4077_2800_0000, 6) == [0] + Le(0x40_7728_0000, 5) && Le(0x40_7728_0000_0000, 7) == [0] + Le(0x4077_2800_0000, 6);
    assert Le(0x4077_2800_0000_0000, 8) == [0] + Le(0x40_7728_0000_0000, 7);
  }

  /** The bytes that dumping `f` writes show `f`. */
  lemma ChunkShown(f: Proto, strip: bool)
    requires Fits(f)
    ensures ShowsChunk(EncChunk(f, strip), |f.upvalues|, ImageOf(f, None, strip), true)
  {
    hide EncHeader, EncFunction, ShowsFunction, ImageOf;
    HeaderIs();
    FunctionShown(f, None, strip);
    NotEmpty(f, strip);
    var b, e := EncChunk(f, strip), EncFunction(f, None, strip);
    assert b == HEADER + [|f.upvalues|] + e;
    assert b[..33] == HEADER && b[34..] == e;
  }

  lemma NotEmpty(f: Proto, strip: bool)
    requires Fits(f)
    ensures |f.upvalues| % 256 == |f.upvalues|
  {
  }

  // ---------- what is read ----------

  lemma ReadsInt(b: Bytes, x: int)
    requires ShowsInt(b, x)
    ensures Decodes(DecInt, b, x)
  {
    FourIs(b);
    forall t: Bytes ensures DecInt(b + t) == Ok(x, t) {
      assert (b + t)[..4] == b && (b + t)[4..] == t;
    }
  }

  lemma ReadsWord(b: Bytes, x: nat)
    requires ShowsWord(b, x)
    ensures Decodes(DecWord, b, x)
  {
    FourIs(b);
    forall t: Bytes ensures DecWord(b + t) == Ok(x, t) {
      assert (b + t)[..4] == b && (b + t)[4..] == t;
    }
  }

  lemma ReadsInteger(b: Bytes, x: int)
    requires ShowsInteger(b, x)
    ensures Decodes(DecInteger, b, x)
  {
    EightIs(b);
    forall t: Bytes ensures DecInteger(b + t) == Ok(x, t) {
      assert (b + t)[..8] == b && (b + t)[8..] == t;
    }
  }

  lemma ReadsNumber(b: Bytes, x: nat)
    requires ShowsNumber(b, x)
    ensures Decodes(DecNumber, b, x)
  {
    EightIs(b);
    forall t: Bytes ensures DecNumber(b + t) == Ok(x, t) {
      assert (b + t)[..8] == b && (b + t)[8..] == t;
    }
  }

  lemma ReadsText(b: Bytes, s: Option<Bytes>, written: bool)
    requires ShowsText(b, s, written)
    ensures Decodes(DecString, b, s)
  {
    forall t: Bytes ensures DecString(b + t) == Ok(s, t) {
      ReadsTextAt(b, s, written, t);
    }
  }

  lemma ReadsTextAt(b: Bytes, s: Option<Bytes>, written: bool, t: Bytes)
    requires ShowsText(b, s, written)
    ensures DecString(b + t) == Ok(s, t)
  {
    hide DecByte, DecText, DecNumber, Eight;
    var text := if s.Some? then s.v else [];
    var size := if s.Some? then |s.v| + 1 else 0;
    TextNone(t);
    TextBack(text, t);
    ByteBack(b[0], b[1..] + t);
    assert b + t == [b[0]] + (b[1..] + t);
    if b[0] == 0xFF {
      assert b[1..9] + (b[9..] + t) == b[1..] + t && b[9..] == text;
      assert s.None? ==> b[1..9] == b[1..] && b[9..] + t == t;
      ReadsNumber(b[1..9], size);
    } else {
      assert b[1..] == text;
      assert s.None? ==> b[1..] + t == t;
    }
  }

  lemma ReadsConst(b: Bytes, c: Const, written: bool)
    requires ShowsConst(b, c, written)
    ensures Decodes(DecConst, b, c)
  {
    hide DecNumber, DecInteger, DecString, ShowsNumber, ShowsInteger, ShowsText;
    forall t: Bytes ensures DecConst(b + t) == Ok(c, t) {
      var body := b[1..];
      assert (b + t)[1..] == body + t;
      match c
      case Nil => assert body + t == t;
      case Bool(v) => assert (body + t)[1..] == t;
      case Flt(bits) => ReadsNumber(body, bits);
      case Int(i) => ReadsInteger(body, i);
      case Text(x) => ReadsText(body, Some(x), written);
    }
  }

  lemma ReadsUpval(b: Bytes, u: Upval)
    requires ShowsUpval(b, u)
    ensures Decodes(DecUpval, b, u)
  {
    UpvalBack(u);
  }

  lemma ReadsLocVar(b: Bytes, v: LocVar, written: bool)
    requires ShowsLocVar(b, v, written)
    ensures Decodes(DecLocVar, b, v)
  {
    hide DecString, DecInt, ShowsText, ShowsInt;
    var s: Bytes, x: Bytes, y: Bytes :| b == s + (x + y) && ShowsText(s, v.name, written) && ShowsInt(x, v.startpc) && ShowsInt(y, v.endpc);
    ReadsText(s, v.name, written);
    ReadsInt(x, v.startpc);
    ReadsInt(y, v.endpc);
    forall t: Bytes ensures DecLocVar(b + t) == Ok(v, t) {
      assert b + t == s + (x + (y + t));
    }
  }

  lemma {:induction false} ReadsAll<T>(b: Bytes, xs: seq<T>, shows: (Bytes, T) -> bool, d: Decoder<T>, t: Bytes)
    requires ShowsAll(b, xs, shows) && forall c, x :: shows(c, x) ==> Decodes(d, c, x)
    ensures DecMany(d, |xs|, b + t) == Ok(xs, t)
    decreases |xs|
  {
    if xs == [] {
      assert b + t == t;
    } else {
      var n := |xs| - 1;
      var i: nat :| i <= |b| && ShowsAll(b[..i], xs[..n], shows) && shows(b[i..], xs[n]);
      ReadsAll(b[..i], xs[..n], shows, d, b[i..] + t);
      assert b + t == b[..i] + (b[i..] + t);
      assert xs[..n] + [xs[n]] == xs;
    }
  }

  lemma ReadsList<T>(b: Bytes, xs: seq<T>, shows: (Bytes, T) -> bool, d: Decoder<T>, t: Bytes)
    requires ShowsList(b, xs, shows) && forall c, x :: shows(c, x) ==> Decodes(d, c, x)
    ensures DecCounted(d, b + t) == Ok(xs, t)
  {
    hide DecInt, DecMany, ShowsAll, ShowsInt;
    ReadsInt(b[..4], |xs|);
    ReadsAll(b[4..], xs, shows, d, t);
    assert b + t == b[..4] + (b[4..] + t);
  }

  /** The prototype that the loader makes of it: a missing source is the parent's. */
  function Made(f: Image, ps: Option<Name>): Proto
    requires NamesFit(f)
  {
    var source := if f.source.None? then ps else Some(Name(0, f.source.v));
    Proto(source, f.linedefined, f.lastlinedefined, f.numparams, f.isVararg, f.maxstacksize, f.code, f.k, Named(f.upvalues, f.names),
          seq(|f.p|, i requires 0 <= i < |f.p| => Made(f.p[i], source)), f.lineinfo, f.locvars)
  }

  /** There are not more names than upvalues; more would be written behind the array. */
  predicate NamesFit(f: Image) {
    |f.names| <= |f.upvalues| && forall i :: 0 <= i < |f.p| ==> NamesFit(f.p[i])
  }

  /** The fields that are read first, with the rest empty. */
  function MadeHead(f: Image, ps: Option<Name>): Proto {
    Proto(if f.source.None? then ps else Some(Name(0, f.source.v)), f.linedefined, f.lastlinedefined, f.numparams, f.isVararg, f.maxstacksize,
          f.code, f.k, f.upvalues, [], [], [])
  }

  lemma ReadsHead(b: Bytes, f: Image, written: bool, ps: Option<Name>, t: Bytes)
    requires ShowsHead(b, f, written)
    ensures DecHead(b + t, ps) == Ok(MadeHead(f, ps), t)
  {
    hide DecString, DecInt, DecByte, DecCounted, ShowsText, ShowsList, ShowsFixed, ShowsConst, ShowsWord, ShowsUpval, DecConst, DecWord, DecUpval;
    var s: Bytes, x: Bytes, code: Bytes, k: Bytes, us: Bytes :|
      && b == s + (x + (code + (k + us)))
      && ShowsText(s, f.source, written) && ShowsFixed(x, f)
      && ShowsList(code, f.code, ShowsWord) && ShowsList(k, f.k, (b, c) => ShowsConst(b, c, written)) && ShowsList(us, f.upvalues, ShowsUpval);
    var t3 := code + (k + (us + t));
    assert b + t == s + (x + t3);
    ReadsText(s, f.source, written);
    ReadsFixed(x, f, t3);
    ReadsLists(code, k, us, f, written, t);
  }

  lemma ReadsLists(code: Bytes, k: Bytes, us: Bytes, f: Image, written: bool, t: Bytes)
    requires ShowsList(code, f.code, ShowsWord) && ShowsList(k, f.k, (b, c) => ShowsConst(b, c, written)) && ShowsList(us, f.upvalues, ShowsUpval)
    ensures DecCounted(DecWord, code + (k + (us + t))) == Ok(f.code, k + (us + t))
    ensures DecCounted(DecConst, k + (us + t)) == Ok(f.k, us + t)
    ensures DecCounted(DecUpval, us + t) == Ok(f.upvalues, t)
  {
    hide DecCounted, ShowsList, ShowsConst, ShowsWord, ShowsUpval, DecConst, DecWord, DecUpval;
    forall c: Bytes, x: nat | ShowsWord(c, x) ensures Decodes(DecWord, c, x) {
      ReadsWord(c, x);
    }
    forall c: Bytes, x: Const | ShowsConst(c, x, written) ensures Decodes(DecConst, c, x) {
      ReadsConst(c, x, written);
    }
    forall c: Bytes, x: Upval | ShowsUpval(c, x) ensures Decodes(DecUpval, c, x) {
      ReadsUpval(c, x);
    }
    ReadsList(code, f.code, ShowsWord, DecWord, k + (us + t));
    ReadsList(k, f.k, (b, c) => ShowsConst(b, c, written), DecConst, us + t);
    ReadsList(us, f.upvalues, ShowsUpval, DecUpval, t);
  }

  lemma ReadsFixed(x: Bytes, f: Image, t: Bytes)
    requires ShowsFixed(x, f)
    ensures DecInt(x + t) == Ok(f.linedefined, x[4..] + t)
    ensures DecInt(x[4..] + t) == Ok(f.lastlinedefined, x[8..] + t)
    ensures DecByte(x[8..] + t) == Ok(f.numparams, x[9..] + t) && DecByte(x[9..] + t) == Ok(f.isVararg, x[10..] + t)
    ensures DecByte(x[10..] + t) == Ok(f.maxstacksize, t)
  {
    hide DecInt, DecByte, ShowsInt;
    ReadsInt(x[..4], f.linedefined);
    ReadsInt(x[4..8], f.lastlinedefined);
    assert x + t == x[..4] + (x[4..] + t) && x[4..] + t == x[4..8] + (x[8..] + t);
    ByteBack(f.numparams, x[9..] + t);
    ByteBack(f.isVararg, x[10..] + t);
    ByteBack(f.maxstacksize, t);
    assert x[8..] + t == [f.numparams] + (x[9..] + t) && x[9..] + t == [f.isVararg] + (x[10..] + t) && x[10..] + t == [f.maxstacksize] + t;
  }

  lemma ReadsDebug(b: Bytes, f: Image, written: bool, h: Proto, t: Bytes)
    requires ShowsDebug(b, f, written) && h.upvalues == f.upvalues && |f.names| <= |f.upvalues|
    ensures DecDebug(h, b + t) == Ok(h.(lineinfo := f.lineinfo, locvars := f.locvars, upvalues := Named(f.upvalues, f.names)), t)
  {
    hide DecCounted, DecNames, ShowsList, ShowsLocVar, ShowsText, ShowsInt, DecInt, DecLocVar;
    var x: Bytes, y: Bytes, z: Bytes :|
      && b == x + (y + z)
      && ShowsList(x, f.lineinfo, ShowsInt) && ShowsList(y, f.locvars, (b, v) => ShowsLocVar(b, v, written))
      && ShowsList(z, f.names, (b, s) => ShowsText(b, s, written));
    assert b + t == x + (y + (z + t));
    forall c: Bytes, v: int | ShowsInt(c, v) ensures Decodes(DecInt, c, v) {
      ReadsInt(c, v);
    }
    forall c: Bytes, v: LocVar | ShowsLocVar(c, v, written) ensures Decodes(DecLocVar, c, v) {
      ReadsLocVar(c, v, written);
    }
    ReadsList(x, f.lineinfo, ShowsInt, DecInt, y + (z + t));
    ReadsList(y, f.locvars, (b, v) => ShowsLocVar(b, v, written), DecLocVar, z + t);
    ReadsNames(z, f, written, t);
  }

  lemma ReadsNames(b: Bytes, f: Image, written: bool, t: Bytes)
    requires ShowsList(b, f.names, (b, s) => ShowsText(b, s, written)) && |f.names| <= |f.upvalues|
    ensures DecNames(f.upvalues, b + t) == Ok(Named(f.upvalues, f.names), t)
  {
    hide DecInt, DecMany, DecString, ShowsAll, ShowsInt, ShowsText, Named;
    forall c: Bytes, s: Option<Bytes> | ShowsText(c, s, written) ensures Decodes(DecString, c, s) {
      ReadsText(c, s, written);
    }
    ReadsInt(b[..4], |f.names|);
    ReadsAll(b[4..], f.names, (b, s) => ShowsText(b, s, written), DecString, t);
    assert b + t == b[..4] + (b[4..] + t);
  }

  function MadeChildren(f: Image, n: nat, source: Option<Name>): (r: seq<Proto>)
    requires n <= |f.p| && NamesFit(f)
    ensures |r| == n
  {
    seq(n, i requires 0 <= i < n => Made(f.p[i], source))
  }

  /** The loader takes the bytes of a function for what they show, and nothing behind them. */
  lemma {:induction false} ReadsFunction(b: Bytes, f: Image, written: bool, ps: Option<Name>, t: Bytes)
    requires ShowsFunction(b, f, written) && NamesFit(f)
    ensures DecFunction(b + t, ps) == Ok(Made(f, ps), t)
    decreases f, 1, 0
  {
    hide DecHead, DecDebug, DecInt, ShowsHead, ShowsDebug, ShowsInt;
    var x: Bytes, n: Bytes, cs: Bytes, y: Bytes :|
      && b == x + (n + (cs + y))
      && ShowsHead(x, f, written) && ShowsInt(n, |f.p|) && ShowsProtos(cs, f, |f.p|, written) && ShowsDebug(y, f, written);
    var h := MadeHead(f, ps);
    assert b + t == x + (n + (cs + (y + t)));
    ReadsHead(x, f, written, ps, n + (cs + (y + t)));
    ReadsInt(n, |f.p|);
    ReadsProtos(cs, f, |f.p|, written, h.source, y + t);
    assert MadeChildren(f, |f.p|, h.source) == Made(f, ps).p;
    ReadsDebug(y, f, written, h.(p := Made(f, ps).p), t);
  }

  lemma {:induction false} ReadsProtos(b: Bytes, f: Image, n: nat, written: bool, source: Option<Name>, t: Bytes)
    requires n <= |f.p| && ShowsProtos(b, f, n, written) && NamesFit(f)
    ensures DecProtos(n, b + t, source) == Ok(MadeChildren(f, n, source), t)
    decreases f, 0, n
  {
    hide DecFunction, ShowsFunction, Made;
    if n == 0 {
      assert b + t == t;
    } else {
      var i: nat :| i <= |b| && ShowsProtos(b[..i], f, n - 1, written) && ShowsFunction(b[i..], f.p[n - 1], written);
      assert b + t == b[..i] + (b[i..] + t);
      ReadsProtos(b[..i], f, n - 1, written, source, b[i..] + t);
      ReadsFunction(b[i..], f.p[n - 1], written, source, t);
      assert MadeChildren(f, n, source) == MadeChildren(f, n - 1, source) + [Made(f.p[n - 1], source)];
    }
  }

  /** So it does with a whole chunk; its first byte has been looked at before. */
  lemma ReadsChunk(b: Bytes, n: Byte, f: Image, written: bool, t: Bytes)
    requires ShowsChunk(b, n, f, written) && NamesFit(f)
    ensures b[0] == SIGNATURE[0] && DecChunk(b[1..] + t) == Ok((n as nat, Made(f, None)), t)
  {
    hide EncHeader, DecHeader, ShowsFunction, DecFunction, Made, DecByte;
    HeaderIs();
    HeaderBack([n] + (b[34..] + t));
    ByteBack(n, b[34..] + t);
    ReadsFunction(b[34..], f, written, None, t);
    HeaderFirst(b);
    assert b[1..] + t == HEADER[1..] + ([n] + (b[34..] + t)) by {
      assert b == b[..33] + [n] + b[34..];
    }
  }

  lemma HeaderFirst(b: Bytes)
    requires |b| > 33 && b[..33] == HEADER
    ensures b[0] == SIGNATURE[0] && |HEADER| == 33
  {
    assert b[..33][0] == b[0];
  }
}
