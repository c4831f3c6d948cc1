/**
  Reading what was written gives the prototype back, and nothing else is accepted as it:
  the round trip, what stripping loses, and that every cut-off chunk is reported.
 */
module PrecompiledLaws {

  import opened Precompiled

  // ---------- what fits into the format ----------

  predicate FitsText(t: Bytes) { |t| + 1 < 0x1_0000_0000_0000_0000 }

  predicate FitsName(s: Option<Bytes>) { s.Some? ==> FitsText(s.v) }

  predicate FitsConst(c: Const) {
    match c
    case Nil => true
    case Bool(_) => true
    case Flt(bits) => bits < 0x1_0000_0000_0000_0000
    case Int(i) => FitsInteger(i)
    case Text(t) => FitsText(t)
  }

  predicate FitsLocVar(v: LocVar) {
    FitsName(v.name) && FitsInt(v.startpc) && FitsInt(v.endpc)
  }

  /** The C types of the fields of a prototype; counts are `int`s, upvalues at most 255. */
  predicate FitsFields(f: Proto) {
    && (f.source.Some? ==> FitsText(f.source.v.text))
    && FitsInt(f.linedefined) && FitsInt(f.lastlinedefined)
    && |f.code| < MAXINT && |f.k| < MAXINT && |f.upvalues| <= 255 && |f.p| < MAXINT
    && |f.lineinfo| < MAXINT && |f.locvars| < MAXINT
    && (forall i :: 0 <= i < |f.code| ==> f.code[i] < 0x1_0000_0000)
    && (forall i :: 0 <= i < |f.k| ==> FitsConst(f.k[i]))
    && (forall i :: 0 <= i < |f.upvalues| ==> FitsName(f.upvalues[i].name))
    && (forall i :: 0 <= i < |f.lineinfo| ==> FitsInt(f.lineinfo[i]))
    && (forall i :: 0 <= i < |f.locvars| ==> FitsLocVar(f.locvars[i]))
  }

  predicate Fits(f: Proto) {
    FitsFields(f) && forall i :: 0 <= i < |f.p| ==> Fits(f.p[i])
  }

  // ---------- the round trip of the parts ----------

  /** `d` reads `y` from the bytes `e`, whatever follows. */
  ghost predicate Decodes<T>(d: Decoder<T>, e: Bytes, y: T) {
    forall t: Bytes :: d(e + t) == Ok(y, t)
  }

  lemma LeBack(x: nat, k: nat, t: Bytes)
    requires x < Pow256(k)
    ensures DecBlock(Le(x, k) + t, k) == Ok(Le(x, k), t) && UnLe(Le(x, k)) == x
  {
    LeRoundTrip(x, k);
    assert (Le(x, k) + t)[..k] == Le(x, k) && (Le(x, k) + t)[k..] == t;
  }

  lemma SignBack(x: int, k: nat)
    requires (k == 4 && FitsInt(x)) || (k == 8 && FitsInteger(x))
    ensures Signed(Unsigned(x, k), k) == x
  {
    hide Pow256;
  }

  lemma IntBack(x: int)
    requires FitsInt(x)
    ensures Decodes(DecInt, EncInt(x), x)
  {
    hide Unsigned, Signed, Pow256, Le, UnLe;
    SignBack(x, 4);
    forall t: Bytes ensures DecInt(EncInt(x) + t) == Ok(x, t) {
      LeBack(Unsigned(x, 4), 4, t);
    }
  }

  lemma IntegerBack(x: int)
    requires FitsInteger(x)
    ensures Decodes(DecInteger, EncInteger(x), x)
  {
    hide Unsigned, Signed, Pow256, Le, UnLe;
    SignBack(x, 8);
    forall t: Bytes ensures DecInteger(EncInteger(x) + t) == Ok(x, t) {
      LeBack(Unsigned(x, 8), 8, t);
    }
  }

  lemma WordBack(x: nat)
    requires x < 0x1_0000_0000
    ensures Decodes(DecWord, EncWord(x), x)
  {
    forall t: Bytes ensures DecWord(EncWord(x) + t) == Ok(x, t) {
      assert Pow256(4) == 0x1_0000_0000;
      LeBack(x, 4, t);
    }
  }

  lemma NumberBack(x: nat)
    requires x < 0x1_0000_0000_0000_0000
    ensures Decodes(DecNumber, EncNumber(x), x)
  {
    assert Pow256(8) == 0x1_0000_0000_0000_0000 by { assert Pow256(8) == 256 * (256 * (256 * (256 * Pow256(4)))); }
    forall t: Bytes ensures DecNumber(EncNumber(x) + t) == Ok(x, t) {
      LeBack(x, 8, t);
    }
  }

  lemma TextBack(x: Bytes, t: Bytes)
    ensures DecText(x + t, |x| + 1) == Ok(Some(x), t)
  {
    assert (x + t)[..|x|] == x && (x + t)[|x|..] == t;
  }

  lemma ByteBack(x: Byte, t: Bytes)
    ensures DecByte([x] + t) == Ok(x, t)
  {
    assert ([x] + t)[1..] == t;
  }

  lemma StringBack(s: Option<Bytes>)
    requires FitsName(s)
    ensures Decodes(DecString, EncString(s), s)
  {
    forall t: Bytes ensures DecString(EncString(s) + t) == Ok(s, t) {
      StringAt(s, t);
    }
  }

  lemma StringAt(s: Option<Bytes>, t: Bytes)
    requires FitsName(s)
    ensures DecString(EncString(s) + t) == Ok(s, t)
  {
    hide DecByte, DecText, DecNumber, Le;
    if s.None? {
      ByteBack(0, t);
      TextNone(t);
    } else {
      var size := |s.v| + 1;
      TextBack(s.v, t);
      if size < 0xFF {
        ByteBack(size, s.v + t);
        assert EncString(s) + t == [size] + (s.v + t);
      } else {
        ByteBack(0xFF, EncNumber(size) + (s.v + t));
        NumberBack(size);
        assert EncString(s) + t == [0xFF] + (EncNumber(size) + (s.v + t));
      }
    }
  }

  lemma TextNone(t: Bytes)
    ensures DecText(t, 0) == Ok(None, t)
  {
  }

  lemma ConstBack(c: Const)
    requires FitsConst(c)
    ensures Decodes(DecConst, EncConst(c), c)
  {
    forall t: Bytes ensures DecConst(EncConst(c) + t) == Ok(c, t) {
      var e := EncConst(c) + t;
      var body := EncConst(c)[1..];
      assert e[1..] == body + t;
      match c
      case Nil => assert body + t == t;
      case Bool(b) => assert (body + t)[1..] == t;
      case Flt(bits) => NumberBack(bits); assert body == EncNumber(bits);
      case Int(i) => IntegerBack(i); assert body == EncInteger(i);
      case Text(x) => StringBack(Some(x)); assert body == EncString(Some(x));
    }
  }

  lemma UpvalBack(u: Upval)
    ensures Decodes(DecUpval, EncUpval(u), u.(name := None))
  {
    forall t: Bytes ensures DecUpval(EncUpval(u) + t) == Ok(u.(name := None), t) {
      assert (EncUpval(u) + t)[1..] == [u.idx] + t;
      assert ([u.idx] + t)[1..] == t;
    }
  }

  lemma LocVarBack(v: LocVar)
    requires FitsLocVar(v)
    ensures Decodes(DecLocVar, EncLocVar(v), v)
  {
    hide DecString, EncString, DecInt, EncInt;
    forall t: Bytes ensures DecLocVar(EncLocVar(v) + t) == Ok(v, t) {
      StringBack(v.name);
      IntBack(v.startpc);
      IntBack(v.endpc);
      assert EncLocVar(v) + t == EncString(v.name) + (EncInt(v.startpc) + (EncInt(v.endpc) + t));
    }
  }

  lemma {:induction false} ManyBack<S, T>(xs: seq<S>, ys: seq<T>, enc: S -> Bytes, d: Decoder<T>, t: Bytes)
    requires |xs| == |ys| && forall i :: 0 <= i < |xs| ==> Decodes(d, enc(xs[i]), ys[i])
    ensures DecMany(d, |xs|, EncAll(xs, enc) + t) == Ok(ys, t)
  {
    if xs != [] {
      var n := |xs| - 1;
      ManyBack(xs[..n], ys[..n], enc, d, enc(xs[n]) + t);
      assert EncAll(xs, enc) + t == EncAll(xs[..n], enc) + (enc(xs[n]) + t);
      assert ys[..n] + [ys[n]] == ys;
    }
  }

  lemma CountedBack<S, T>(xs: seq<S>, ys: seq<T>, enc: S -> Bytes, d: Decoder<T>, t: Bytes)
    requires |xs| == |ys| < MAXINT && forall i :: 0 <= i < |xs| ==> Decodes(d, enc(xs[i]), ys[i])
    ensures DecCounted(d, EncInt(|xs|) + (EncAll(xs, enc) + t)) == Ok(ys, t)
  {
    IntBack(|xs|);
    ManyBack(xs, ys, enc, d, t);
  }

  // ---------- the round trip of prototypes ----------

  /** What loading makes of a source name: a new string. */
  function Fresh(s: Option<Name>): Option<Name> {
    if s.Some? then Some(Name(0, s.v.text)) else None
  }

  function Unnamed(us: seq<Upval>): (r: seq<Upval>)
    ensures |r| == |us|
  {
    seq(|us|, i requires 0 <= i < |us| => us[i].(name := None))
  }

  /** The prototype that loading a dump of `f` gives: `ps` was the parent's source when dumping, `pl` when loading. */
  function Back(f: Proto, ps: Option<Name>, pl: Option<Name>, strip: bool): Proto {
    var source := if strip || f.source == ps || f.source.None? then pl else Fresh(f.source);
    Proto(source, f.linedefined, f.lastlinedefined, f.numparams, f.isVararg, f.maxstacksize, f.code, f.k,
          if strip then Unnamed(f.upvalues) else f.upvalues,
          seq(|f.p|, i requires 0 <= i < |f.p| => Back(f.p[i], f.source, source, strip)),
          if strip then [] else f.lineinfo,
          if strip then [] else f.locvars)
  }

  /** The fields that are read first, with the rest empty. */
  function Head(f: Proto, source: Option<Name>): Proto {
    Proto(source, f.linedefined, f.lastlinedefined, f.numparams, f.isVararg, f.maxstacksize, f.code, f.k, Unnamed(f.upvalues), [], [], [])
  }

  lemma HeadBack(f: Proto, ps: Option<Name>, pl: Option<Name>, strip: bool, t: Bytes)
    requires FitsFields(f)
    ensures DecHead(EncHead(f, ps, strip) + t, pl) == Ok(Head(f, Back(f, ps, pl, strip).source), t)
  {
    hide DecString, DecInt, DecByte, DecCounted, EncInt, EncAll, EncString;
    var s := if strip || f.source == ps || f.source.None? then None else Some(f.source.v.text);
    var t9 := EncInt(|f.upvalues|) + (EncAll(f.upvalues, EncUpval) + t);
    var t8 := EncInt(|f.k|) + (EncAll(f.k, EncConst) + t9);
    var t7 := EncInt(|f.code|) + (EncAll(f.code, EncWord) + t8);
    var t5 := [f.isVararg] + ([f.maxstacksize] + t7);
    var t2 := EncInt(f.lastlinedefined) + ([f.numparams] + t5);
    var t1 := EncInt(f.linedefined) + t2;
    HeadBytes(f, ps, strip, t, s, t8, t7, t1);
    StringAt(s, t1);
    IntAt(f.linedefined, t2);
    IntAt(f.lastlinedefined, [f.numparams] + t5);
    ByteBack(f.numparams, t5);
    ByteBack(f.isVararg, [f.maxstacksize] + t7);
    ByteBack(f.maxstacksize, t7);
    CodeBack(f.code, t8);
    ConstsBack(f.k, t9);
    UpvalsBack(f.upvalues, t);
  }

  lemma HeadBytes(f: Proto, ps: Option<Name>, strip: bool, t: Bytes, s: Option<Bytes>, t8: Bytes, t7: Bytes, t1: Bytes)
    requires s == if strip || f.source == ps || f.source.None? then None else Some(f.source.v.text)
    requires t8 == EncInt(|f.k|) + (EncAll(f.k, EncConst) + (EncInt(|f.upvalues|) + (EncAll(f.upvalues, EncUpval) + t)))
    requires t7 == EncInt(|f.code|) + (EncAll(f.code, EncWord) + t8)
    requires t1 == EncInt(f.linedefined) + (EncInt(f.lastlinedefined) + ([f.numparams] + ([f.isVararg] + ([f.maxstacksize] + t7))))
    ensures EncHead(f, ps, strip) + t == EncString(s) + t1
  {
    hide EncInt, EncAll, EncString;
    assert [f.numparams] + ([f.isVararg] + ([f.maxstacksize] + t7)) == [f.numparams, f.isVararg, f.maxstacksize] + t7;
  }

  lemma IntAt(x: int, t: Bytes)
    requires FitsInt(x)
    ensures DecInt(EncInt(x) + t) == Ok(x, t)
  {
    IntBack(x);
  }

  lemma CodeBack(code: seq<nat>, t: Bytes)
    requires |code| < MAXINT && forall i :: 0 <= i < |code| ==> code[i] < 0x1_0000_0000
    ensures DecCounted(DecWord, EncInt(|code|) + (EncAll(code, EncWord) + t)) == Ok(code, t)
  {
    forall i | 0 <= i < |code| ensures Decodes(DecWord, EncWord(code[i]), code[i]) {
      WordBack(code[i]);
    }
    CountedBack(code, code, EncWord, DecWord, t);
  }

  lemma ConstsBack(k: seq<Const>, t: Bytes)
    requires |k| < MAXINT && forall i :: 0 <= i < |k| ==> FitsConst(k[i])
    ensures DecCounted(DecConst, EncInt(|k|) + (EncAll(k, EncConst) + t)) == Ok(k, t)
  {
    forall i | 0 <= i < |k| ensures Decodes(DecConst, EncConst(k[i]), k[i]) {
      ConstBack(k[i]);
    }
    CountedBack(k, k, EncConst, DecConst, t);
  }

  lemma UpvalsBack(us: seq<Upval>, t: Bytes)
    requires |us| < MAXINT
    ensures DecCounted(DecUpval, EncInt(|us|) + (EncAll(us, EncUpval) + t)) == Ok(Unnamed(us), t)
  {
    forall i | 0 <= i < |us| ensures Decodes(DecUpval, EncUpval(us[i]), Unnamed(us)[i]) {
      UpvalBack(us[i]);
    }
    CountedBack(us, Unnamed(us), EncUpval, DecUpval, t);
  }

  lemma LinesBack(lines: seq<int>, t: Bytes)
    requires |lines| < MAXINT && forall i :: 0 <= i < |lines| ==> FitsInt(lines[i])
    ensures DecCounted(DecInt, EncInt(|lines|) + (EncAll(lines, EncInt) + t)) == Ok(lines, t)
  {
    forall i | 0 <= i < |lines| ensures Decodes(DecInt, EncInt(lines[i]), lines[i]) {
      IntBack(lines[i]);
    }
    CountedBack(lines, lines, EncInt, DecInt, t);
  }

  lemma LocVarsBack(vars: seq<LocVar>, t: Bytes)
    requires |vars| < MAXINT && forall i :: 0 <= i < |vars| ==> FitsLocVar(vars[i])
    ensures DecCounted(DecLocVar, EncInt(|vars|) + (EncAll(vars, EncLocVar) + t)) == Ok(vars, t)
  {
    forall i | 0 <= i < |vars| ensures Decodes(DecLocVar, EncLocVar(vars[i]), vars[i]) {
      LocVarBack(vars[i]);
    }
    CountedBack(vars, vars, EncLocVar, DecLocVar, t);
  }

  lemma NamesBack(us: seq<Upval>, t: Bytes)
    requires |us| <= 255 && forall i :: 0 <= i < |us| ==> FitsName(us[i].name)
    ensures DecNames(Unnamed(us), EncInt(|us|) + (EncAll(us, EncName) + t)) == Ok(us, t)
  {
    hide DecString, EncString, EncInt, DecInt, Named, Unnamed;
    var names := seq(|us|, i requires 0 <= i < |us| => us[i].name);
    forall i | 0 <= i < |us| ensures Decodes(DecString, EncName(us[i]), names[i]) {
      StringBack(us[i].name);
    }
    IntBack(|us|);
    ManyBack(us, names, EncName, DecString, t);
    NamedBack(us, names);
  }

  lemma NamedBack(us: seq<Upval>, names: seq<Option<Bytes>>)
    requires |names| == |us| && forall i :: 0 <= i < |us| ==> names[i] == us[i].name
    ensures Named(Unnamed(us), names) == us
  {
  }

  lemma NoDebugBack(h: Proto, t: Bytes)
    ensures DecDebug(h, EncInt(0) + (EncInt(0) + (EncInt(0) + t))) == Ok(h.(lineinfo := [], locvars := []), t)
  {
    IntBack(0);
    assert Named(h.upvalues, []) == h.upvalues;
  }

  lemma DebugBack(f: Proto, h: Proto, strip: bool, t: Bytes)
    requires FitsFields(f) && h.upvalues == Unnamed(f.upvalues)
    ensures DecDebug(h, EncDebug(f, strip) + t) ==
            Ok(if strip then h.(lineinfo := [], locvars := []) else h.(lineinfo := f.lineinfo, locvars := f.locvars, upvalues := f.upvalues), t)
  {
    hide DecCounted, DecNames, EncInt, EncAll;
    if strip {
      NoDebugBack(h, t);
      assert EncDebug(f, strip) + t == EncInt(0) + (EncInt(0) + (EncInt(0) + t));
    } else {
      var t2 := EncInt(|f.upvalues|) + (EncAll(f.upvalues, EncName) + t);
      var t1 := EncInt(|f.locvars|) + (EncAll(f.locvars, EncLocVar) + t2);
      assert EncDebug(f, strip) + t == EncInt(|f.lineinfo|) + (EncAll(f.lineinfo, EncInt) + t1);
      LinesBack(f.lineinfo, t1);
      LocVarsBack(f.locvars, t2);
      NamesBack(f.upvalues, t);
    }
  }

  /** Reading a written prototype gives it back, with the parent's source where it has none. */
  lemma {:induction false} FunctionBack(f: Proto, ps: Option<Name>, pl: Option<Name>, strip: bool, t: Bytes)
    requires Fits(f)
    ensures DecFunction(EncFunction(f, ps, strip) + t, pl) == Ok(Back(f, ps, pl, strip), t)
    decreases f, 1, 0
  {
    hide DecHead, EncHead, DecDebug, EncDebug, DecInt, EncInt, FitsFields;
    var source := Back(f, ps, pl, strip).source;
    var t2 := EncDebug(f, strip) + t;
    var t1 := EncInt(|f.p|) + (EncProtos(f, |f.p|, strip) + t2);
    assert EncFunction(f, ps, strip) + t == EncHead(f, ps, strip) + t1;
    HeadBack(f, ps, pl, strip, t1);
    CountBack(f);
    ProtosBack(f, |f.p|, source, strip, t2);
    assert Children(f, |f.p|, source, strip) == Back(f, ps, pl, strip).p;
    DebugBack(f, Head(f, source).(p := Back(f, ps, pl, strip).p), strip, t);
  }

  lemma CountBack(f: Proto)
    requires FitsFields(f)
    ensures Decodes(DecInt, EncInt(|f.p|), |f.p|)
  {
    IntBack(|f.p|);
  }

  function Children(f: Proto, n: nat, source: Option<Name>, strip: bool): seq<Proto>
    requires n <= |f.p|
  {
    seq(n, i requires 0 <= i < n => Back(f.p[i], f.source, source, strip))
  }

  lemma {:induction false} ProtosBack(f: Proto, n: nat, source: Option<Name>, strip: bool, t: Bytes)
    requires n <= |f.p| && Fits(f)
    ensures DecProtos(n, EncProtos(f, n, strip) + t, source) == Ok(Children(f, n, source, strip), t)
    decreases f, 0, n
  {
    hide EncFunction, DecFunction, Back, FitsFields;
    if n == 0 {
      assert EncProtos(f, 0, strip) + t == t;
    } else {
      var e := EncFunction(f.p[n - 1], f.source, strip);
      assert EncProtos(f, n, strip) + t == EncProtos(f, n - 1, strip) + (e + t);
      ProtosBack(f, n - 1, source, strip, e + t);
      FunctionBack(f.p[n - 1], f.source, source, strip, t);
      assert Children(f, n, source, strip) == Children(f, n - 1, source, strip) + [Back(f.p[n - 1], f.source, source, strip)];
    }
  }

  // ---------- whole chunks ----------

  lemma SizesBack(t: Bytes)
    ensures DecSizes(SIZES, SIZES + t) == Ok((), t)
  {
    var s := SIZES + t;
    assert s[1..][1..][1..][1..][1..] == t;
    assert SIZES[1..] == [8, 4, 8, 8] && SIZES[1..][1..] == [4, 8, 8] && SIZES[1..][1..][1..] == [8, 8] && SIZES[1..][1..][1..][1..] == [8];
    assert DecSizes([], t) == Ok((), t);
    assert DecSizes([8], s[1..][1..][1..][1..]) == Ok((), t);
    assert DecSizes([8, 8], s[1..][1..][1..]) == Ok((), t);
    assert DecSizes([4, 8, 8], s[1..][1..]) == Ok((), t);
    assert DecSizes([8, 4, 8, 8], s[1..]) == Ok((), t);
  }

  lemma LiteralBack(x: Bytes, why: Fault, t: Bytes)
    ensures DecLiteral(x + t, x, why) == Ok((), t)
  {
    assert (x + t)[..|x|] == x && (x + t)[|x|..] == t;
  }

  lemma HeaderBack(t: Bytes)
    ensures |EncHeader()| > 0 && EncHeader()[0] == SIGNATURE[0] && DecHeader(EncHeader()[1..] + t) == Ok((), t)
  {
    hide DecLiteral, DecByte, DecInteger, DecNumber, DecSizes, EncInteger, EncNumber, Le;
    var t6 := EncInteger(LUAC_INT) + (EncNumber(LUAC_NUM) + t);
    var t4 := LUAC_DATA + (SIZES + t6);
    assert EncHeader()[1..] + t == SIGNATURE[1..] + ([LUAC_VERSION] + ([LUAC_FORMAT] + t4));
    LiteralBack(SIGNATURE[1..], NotChunk, [LUAC_VERSION] + ([LUAC_FORMAT] + t4));
    ByteBack(LUAC_VERSION, [LUAC_FORMAT] + t4);
    ByteBack(LUAC_FORMAT, t4);
    LiteralBack(LUAC_DATA, Corrupted, SIZES + t6);
    SizesBack(t6);
    IntegerBack(LUAC_INT);
    NumberBack(LUAC_NUM);
  }

  /** Loading a dump gives back the prototype that `Back` describes, and leaves what follows the chunk. */
  lemma ChunkBack(f: Proto, strip: bool, t: Bytes)
    requires Fits(f)
    ensures EncChunk(f, strip) != [] && EncChunk(f, strip)[0] == SIGNATURE[0]
    ensures DecChunk(EncChunk(f, strip)[1..] + t) == Ok((|f.upvalues|, Back(f, None, None, strip)), t)
  {
    hide EncHeader, DecHeader, EncFunction, DecFunction, Back;
    var e := EncFunction(f, None, strip) + t;
    HeaderBack([|f.upvalues| % 256] + e);
    ByteBack(|f.upvalues|, e);
    FunctionBack(f, None, None, strip, t);
    assert EncChunk(f, strip)[1..] + t == EncHeader()[1..] + ([|f.upvalues| % 256] + e);
  }

  // ---------- what comes back ----------

  /** The same tree, with new string objects. */
  function Copy(f: Proto): Proto {
    f.(source := Fresh(f.source), p := seq(|f.p|, i requires 0 <= i < |f.p| => Copy(f.p[i])))
  }

  /** Without sources and debug information. */
  function Stripped(f: Proto): Proto {
    f.(source := None, lineinfo := [], locvars := [], upvalues := Unnamed(f.upvalues), p := seq(|f.p|, i requires 0 <= i < |f.p| => Stripped(f.p[i])))
  }

  /** No nested prototype lacks a source under a parent that has one. */
  predicate SourcesOk(f: Proto) {
    forall i :: 0 <= i < |f.p| ==> (f.p[i].source.None? ==> f.source.None?) && SourcesOk(f.p[i])
  }

  /** An unstripped dump loads to an equal tree exactly if no nested prototype lacks a source its parent has. */
  lemma {:induction false} BackIsCopy(f: Proto, ps: Option<Name>)
    ensures Back(f, ps, Fresh(ps), false) == Copy(f) <==> SourcesOk(f) && (f.source.None? ==> ps.None?)
    decreases f
  {
    var b, c := Back(f, ps, Fresh(ps), false), Copy(f);
    forall i | 0 <= i < |f.p| ensures Back(f.p[i], f.source, Fresh(f.source), false) == Copy(f.p[i]) <==> SourcesOk(f.p[i]) && (f.p[i].source.None? ==> f.source.None?) {
      BackIsCopy(f.p[i], f.source);
    }
    if b.source == Fresh(f.source) {
      assert b == c <==> b.p == c.p;
      if b.p == c.p {
        forall i | 0 <= i < |f.p| ensures b.p[i] == Copy(f.p[i]) {
          assert c.p[i] == Copy(f.p[i]);
        }
      }
    }
  }

  /** Stripping loses sources and debug information only. */
  lemma {:induction false} BackIsStripped(f: Proto, ps: Option<Name>)
    ensures Back(f, ps, None, true) == Stripped(f)
    decreases f
  {
    forall i | 0 <= i < |f.p| ensures Back(f.p[i], f.source, None, true) == Stripped(f.p[i]) {
      BackIsStripped(f.p[i], f.source);
    }
    assert Back(f, ps, None, true).p == Stripped(f).p;
  }

  /** The round trip of whole chunks. */
  lemma RoundTrip(f: Proto, t: Bytes)
    requires Fits(f)
    ensures EncChunk(f, false) != [] && EncChunk(f, true) != []
    ensures DecChunk(EncChunk(f, false)[1..] + t) == Ok((|f.upvalues|, Copy(f)), t) <==> SourcesOk(f)
    ensures DecChunk(EncChunk(f, true)[1..] + t) == Ok((|f.upvalues|, Stripped(f)), t)
  {
    ChunkBack(f, false, t);
    ChunkBack(f, true, t);
    BackIsCopy(f, None);
    BackIsStripped(f, None);
  }

  // ---------- decoders look at no more than they take ----------

  /** `y` is the result for more bytes, unless `x` is an error for want of them. */
  ghost predicate Extends<T>(x: Loaded<T>, y: Loaded<T>, t: Bytes) {
    x == Err(Truncated) || y == (if x.Ok? then Ok(x.v, x.rest + t) else x)
  }

  ghost predicate Local<T>(d: Decoder<T>) {
    forall b: Bytes, t: Bytes :: Extends(d(b), d(b + t), t)
  }

  lemma BlockLocal(b: Bytes, n: nat, t: Bytes)
    ensures Extends(DecBlock(b, n), DecBlock(b + t, n), t)
  {
    if n <= |b| {
      assert (b + t)[..n] == b[..n] && (b + t)[n..] == b[n..] + t;
    }
  }

  lemma ByteLocal()
    ensures Local(DecByte)
  {
    forall b: Bytes, t: Bytes ensures Extends(DecByte(b), DecByte(b + t), t) {
      if b != [] {
        assert (b + t)[1..] == b[1..] + t;
      }
    }
  }

  lemma IntLocal()
    ensures Local(DecInt)
  {
    forall b: Bytes, t: Bytes ensures Extends(DecInt(b), DecInt(b + t), t) {
      BlockLocal(b, 4, t);
    }
  }

  lemma WordLocal()
    ensures Local(DecWord)
  {
    forall b: Bytes, t: Bytes ensures Extends(DecWord(b), DecWord(b + t), t) {
      BlockLocal(b, 4, t);
    }
  }

  lemma IntegerLocal()
    ensures Local(DecInteger)
  {
    forall b: Bytes, t: Bytes ensures Extends(DecInteger(b), DecInteger(b + t), t) {
      BlockLocal(b, 8, t);
    }
  }

  lemma NumberLocal()
    ensures Local(DecNumber)
  {
    forall b: Bytes, t: Bytes ensures Extends(DecNumber(b), DecNumber(b + t), t) {
      BlockLocal(b, 8, t);
    }
  }

  lemma TextLocal(b: Bytes, size: nat, t: Bytes)
    ensures Extends(DecText(b, size), DecText(b + t, size), t)
  {
    if size > 0 {
      BlockLocal(b, size - 1, t);
    }
  }

  lemma StringLocal()
    ensures Local(DecString)
  {
    hide DecByte, DecNumber, DecText;
    ByteLocal();
    NumberLocal();
    forall b: Bytes, t: Bytes ensures Extends(DecString(b), DecString(b + t), t) {
      var r := DecByte(b);
      assert Extends(r, DecByte(b + t), t);
      if r.Ok? {
        if r.v == 0xFF {
          var q := DecNumber(r.rest);
          assert Extends(q, DecNumber(r.rest + t), t);
          if q.Ok? {
            TextLocal(q.rest, q.v, t);
          }
        } else {
          TextLocal(r.rest, r.v, t);
        }
      }
    }
  }

  lemma ConstLocal()
    ensures Local(DecConst)
  {
    hide DecByte, DecNumber, DecInteger, DecString;
    ByteLocal();
    NumberLocal();
    IntegerLocal();
    StringLocal();
    forall b: Bytes, t: Bytes ensures Extends(DecConst(b), DecConst(b + t), t) {
      var r := DecByte(b);
      assert Extends(r, DecByte(b + t), t);
      if r.Ok? {
        if r.v == 1 {
          assert Extends(DecByte(r.rest), DecByte(r.rest + t), t);
        } else if r.v == 3 {
          assert Extends(DecNumber(r.rest), DecNumber(r.rest + t), t);
        } else if r.v == 19 {
          assert Extends(DecInteger(r.rest), DecInteger(r.rest + t), t);
        } else {
          assert Extends(DecString(r.rest), DecString(r.rest + t), t);
        }
      }
    }
  }

  lemma UpvalLocal()
    ensures Local(DecUpval)
  {
    hide DecByte;
    ByteLocal();
    forall b: Bytes, t: Bytes ensures Extends(DecUpval(b), DecUpval(b + t), t) {
      var r := DecByte(b);
      assert Extends(r, DecByte(b + t), t);
      if r.Ok? {
        assert Extends(DecByte(r.rest), DecByte(r.rest + t), t);
      }
    }
  }

  lemma LocVarLocal()
    ensures Local(DecLocVar)
  {
    hide DecString, DecInt;
    StringLocal();
    IntLocal();
    forall b: Bytes, t: Bytes ensures Extends(DecLocVar(b), DecLocVar(b + t), t) {
      var r := DecString(b);
      assert Extends(r, DecString(b + t), t);
      if r.Ok? {
        var q := DecInt(r.rest);
        assert Extends(q, DecInt(r.rest + t), t);
        if q.Ok? {
          assert Extends(DecInt(q.rest), DecInt(q.rest + t), t);
        }
      }
    }
  }

  lemma {:induction false} ManyLocal<T>(d: Decoder<T>, n: nat, b: Bytes, t: Bytes)
    requires Local(d)
    ensures Extends(DecMany(d, n, b), DecMany(d, n, b + t), t)
  {
    if n > 0 {
      ManyLocal(d, n - 1, b, t);
      var r := DecMany(d, n - 1, b);
      if r.Ok? {
        assert Extends(d(r.rest), d(r.rest + t), t);
      }
    }
  }

  lemma CountedLocal<T>(d: Decoder<T>, b: Bytes, t: Bytes)
    requires Local(d)
    ensures Extends(DecCounted(d, b), DecCounted(d, b + t), t)
  {
    hide DecInt;
    IntLocal();
    var r := DecInt(b);
    assert Extends(r, DecInt(b + t), t);
    if r.Ok? && r.v >= 0 {
      ManyLocal(d, r.v, r.rest, t);
    }
  }

  lemma NamesLocal(us: seq<Upval>, b: Bytes, t: Bytes)
    ensures Extends(DecNames(us, b), DecNames(us, b + t), t)
  {
    hide DecInt, DecString;
    IntLocal();
    StringLocal();
    var r := DecInt(b);
    assert Extends(r, DecInt(b + t), t);
    if r.Ok? && r.v <= |us| {
      ManyLocal(DecString, if r.v < 0 then 0 else r.v, r.rest, t);
    }
  }

  lemma DebugLocal(f: Proto, b: Bytes, t: Bytes)
    ensures Extends(DecDebug(f, b), DecDebug(f, b + t), t)
  {
    hide DecCounted, DecNames;
    IntLocal();
    LocVarLocal();
    CountedLocal(DecInt, b, t);
    var r := DecCounted(DecInt, b);
    if r.Ok? {
      CountedLocal(DecLocVar, r.rest, t);
      var q := DecCounted(DecLocVar, r.rest);
      if q.Ok? {
        NamesLocal(f.upvalues, q.rest, t);
      }
    }
  }

  lemma HeadLocal(b: Bytes, pl: Option<Name>, t: Bytes)
    ensures Extends(DecHead(b, pl), DecHead(b + t, pl), t)
  {
    hide DecString, DecInt, DecByte, DecCounted;
    StringLocal();
    IntLocal();
    ByteLocal();
    var r1 := DecString(b);
    assert Extends(r1, DecString(b + t), t);
    if r1.Ok? {
      var r2 := DecInt(r1.rest);
      assert Extends(r2, DecInt(r1.rest + t), t);
      if r2.Ok? {
        var r3 := DecInt(r2.rest);
        assert Extends(r3, DecInt(r2.rest + t), t);
        if r3.Ok? {
          var r4 := DecByte(r3.rest);
          assert Extends(r4, DecByte(r3.rest + t), t);
          if r4.Ok? {
            var r5 := DecByte(r4.rest);
            assert Extends(r5, DecByte(r4.rest + t), t);
            if r5.Ok? {
              var r6 := DecByte(r5.rest);
              assert Extends(r6, DecByte(r5.rest + t), t);
              if r6.Ok? {
                ListsLocal(r6.rest, t);
              }
            }
          }
        }
      }
    }
  }

  /** The three lists at the end of the head. */
  lemma ListsLocal(b: Bytes, t: Bytes)
    ensures Extends(DecCounted(DecWord, b), DecCounted(DecWord, b + t), t)
    ensures var r7 := DecCounted(DecWord, b);
            r7.Ok? ==>
              && Extends(DecCounted(DecConst, r7.rest), DecCounted(DecConst, r7.rest + t), t)
              && var r8 := DecCounted(DecConst, r7.rest);
              r8.Ok? ==> Extends(DecCounted(DecUpval, r8.rest), DecCounted(DecUpval, r8.rest + t), t)
  {
    hide DecCounted;
    WordLocal();
    ConstLocal();
    UpvalLocal();
    CountedLocal(DecWord, b, t);
    var r7 := DecCounted(DecWord, b);
    if r7.Ok? {
      CountedLocal(DecConst, r7.rest, t);
      var r8 := DecCounted(DecConst, r7.rest);
      if r8.Ok? {
        CountedLocal(DecUpval, r8.rest, t);
      }
    }
  }

  lemma {:induction false} FunctionLocal(b: Bytes, pl: Option<Name>, t: Bytes)
    ensures Extends(DecFunction(b, pl), DecFunction(b + t, pl), t)
    decreases |b|, 0
  {
    hide DecHead, DecInt, DecDebug;
    HeadLocal(b, pl, t);
    IntLocal();
    var r1 := DecHead(b, pl);
    if r1.Ok? {
      var r2 := DecInt(r1.rest);
      assert Extends(r2, DecInt(r1.rest + t), t);
      if r2.Ok? && r2.v >= 0 {
        ProtosLocal(r2.v, r2.rest, r1.v.source, t);
        var r3 := DecProtos(r2.v, r2.rest, r1.v.source);
        if r3.Ok? {
          DebugLocal(r1.v.(p := r3.v), r3.rest, t);
        }
      }
    }
  }

  lemma {:induction false} ProtosLocal(n: nat, b: Bytes, pl: Option<Name>, t: Bytes)
    ensures Extends(DecProtos(n, b, pl), DecProtos(n, b + t, pl), t)
    decreases |b|, n + 1
  {
    hide DecFunction;
    if n > 0 {
      ProtosLocal(n - 1, b, pl, t);
      var r := DecProtos(n - 1, b, pl);
      if r.Ok? {
        FunctionLocal(r.rest, pl, t);
      }
    }
  }

  lemma LiteralLocal(b: Bytes, x: Bytes, why: Fault, t: Bytes)
    ensures Extends(DecLiteral(b, x, why), DecLiteral(b + t, x, why), t)
  {
    BlockLocal(b, |x|, t);
  }

  lemma {:induction false} SizesLocal(sizes: seq<Byte>, b: Bytes, t: Bytes)
    ensures Extends(DecSizes(sizes, b), DecSizes(sizes, b + t), t)
  {
    hide DecByte;
    if sizes != [] {
      ByteLocal();
      var r := DecByte(b);
      assert Extends(r, DecByte(b + t), t);
      if r.Ok? {
        SizesLocal(sizes[1..], r.rest, t);
      }
    }
  }

  lemma HeaderLocal(b: Bytes, t: Bytes)
    ensures Extends(DecHeader(b), DecHeader(b + t), t)
  {
    hide DecLiteral, DecByte, DecInteger, DecNumber, DecSizes;
    ByteLocal();
    IntegerLocal();
    NumberLocal();
    LiteralLocal(b, SIGNATURE[1..], NotChunk, t);
    var r1 := DecLiteral(b, SIGNATURE[1..], NotChunk);
    if r1.Ok? {
      var r2 := DecByte(r1.rest);
      assert Extends(r2, DecByte(r1.rest + t), t);
      if r2.Ok? {
        var r3 := DecByte(r2.rest);
        assert Extends(r3, DecByte(r2.rest + t), t);
        if r3.Ok? {
          LiteralLocal(r3.rest, LUAC_DATA, Corrupted, t);
          var r4 := DecLiteral(r3.rest, LUAC_DATA, Corrupted);
          if r4.Ok? {
            SizesLocal(SIZES, r4.rest, t);
            var r5 := DecSizes(SIZES, r4.rest);
            if r5.Ok? {
              var r6 := DecInteger(r5.rest);
              assert Extends(r6, DecInteger(r5.rest + t), t);
              if r6.Ok? {
                assert Extends(DecNumber(r6.rest), DecNumber(r6.rest + t), t);
              }
            }
          }
        }
      }
    }
  }

  lemma ChunkLocal(b: Bytes, t: Bytes)
    ensures Extends(DecChunk(b), DecChunk(b + t), t)
  {
    hide DecHeader, DecByte, DecFunction;
    HeaderLocal(b, t);
    ByteLocal();
    var r1 := DecHeader(b);
    if r1.Ok? {
      var r2 := DecByte(r1.rest);
      assert Extends(r2, DecByte(r1.rest + t), t);
      if r2.Ok? {
        FunctionLocal(r2.rest, None, t);
      }
    }
  }

  /** A dump that is cut off anywhere behind its first byte is reported as truncated. */
  lemma CutOff(f: Proto, strip: bool, n: nat)
    requires Fits(f) && 1 <= n < |EncChunk(f, strip)|
    ensures DecChunk(EncChunk(f, strip)[1..n]) == Err(Truncated)
  {
    hide DecChunk, EncChunk;
    var e := EncChunk(f, strip);
    ChunkBack(f, strip, []);
    assert e[1..] + [] == e[1..];
    assert e[1..] == e[1..n] + e[n..];
    ChunkLocal(e[1..n], e[n..]);
  }
}
