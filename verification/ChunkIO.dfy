/**
  The dumper and the loader of precompiled chunks (ldump.c, lundump.c) over the buffered
  stream of lzio.c, which hands out the bytes in whatever blocks the reader returns.
 */
module ChunkIO {

  import opened Precompiled
  import opened PrecompiledLaws
  import opened ChunkLayout

  // ---------- blocks ----------

  function Flat(blocks: seq<Bytes>): Bytes {
    if blocks == [] then [] else blocks[0] + Flat(blocks[1..])
  }

  lemma {:induction false} FlatSnoc(blocks: seq<Bytes>, b: Bytes)
    ensures Flat(blocks + [b]) == Flat(blocks) + b
  {
    if blocks == [] {
      assert ([] + [b])[1..] == [];
    } else {
      assert (blocks + [b])[1..] == blocks[1..] + [b];
      FlatSnoc(blocks[1..], b);
    }
  }

  /** The bytes a reader offers: an empty block ends the stream. */
  function Ahead(blocks: seq<Bytes>): Bytes {
    if blocks == [] || blocks[0] == [] then [] else blocks[0] + Ahead(blocks[1..])
  }

  lemma {:induction false} AheadFlat(blocks: seq<Bytes>)
    requires forall i :: 0 <= i < |blocks| ==> blocks[i] != []
    ensures Ahead(blocks) == Flat(blocks)
  {
    if blocks != [] {
      AheadFlat(blocks[1..]);
    }
  }

  // ---------- the stream ----------

  class Zio {
    var n: nat
    var p: nat
    var buff: Bytes
    var blocks: seq<Bytes>

    constructor (blocks: seq<Bytes>)
      ensures Valid() && Rest() == Ahead(blocks)
    {
      n, p, buff, this.blocks := 0, 0, [], blocks;
    }

    ghost predicate Valid() reads this { p + n == |buff| }

    /** All bytes still to come. */
    ghost function Rest(): Bytes
      reads this
    {
      (if p <= |buff| then buff[p..] else []) + Ahead(blocks)
    }

    /** `luaZ_fill`: the first byte of the next block, or nothing at the end of the stream. */
    method Fill() returns (c: Option<Byte>)
      requires p == |buff|
      modifies this
      ensures old(Ahead(blocks)) == [] ==> c == None && n == old(n)
      ensures old(Ahead(blocks)) != [] ==> Valid() && p == 1 && c == Some(buff[0]) && buff + Ahead(blocks) == old(Ahead(blocks))
    {
      if blocks == [] {
        return None;
      }
      var b := blocks[0];
      blocks := blocks[1..];
      if b == [] {
        return None;
      }
      n, p, buff := |b| - 1, 1, b;
      return Some(b[0]);
    }

    /** `zgetc`; the counter wraps around at the end of the stream. */
    method GetC() returns (c: Option<Byte>)
      requires Valid()
      modifies this
      ensures old(Rest()) == [] ==> c == None
      ensures old(Rest()) != [] ==> Valid() && c == Some(old(Rest())[0]) && Rest() == old(Rest())[1..]
    {
      if n > 0 {
        n, p := n - 1, p + 1;
        return Some(buff[p - 1]);
      }
      n := 0xFFFF_FFFF_FFFF_FFFF;
      c := Fill();
    }

    /** `luaZ_read`: up to `m` bytes, and how many are missing. */
    method Read(m: nat) returns (b: Bytes, missing: nat)
      requires Valid()
      modifies this
      ensures |old(Rest())| < m ==> b == old(Rest()) && missing == m - |b|
      ensures m <= |old(Rest())| ==> missing == 0 && b == old(Rest())[..m] && Rest() == old(Rest())[m..] && Valid()
    {
      ghost var all := Rest();
      b, missing := [], m;
      while missing > 0
        invariant |b| + missing == m && Valid() && b + Rest() == all
      {
        if n == 0 {
          var more := Refill();
          if !more {
            assert b == all;
            return;
          }
        }
        ghost var rest := Rest();
        var k := if missing <= n then missing else n;
        var c := Take(k);
        assert b + c + Rest() == b + rest;
        b, missing := b + c, missing - k;
      }
    }

    /** Fills the buffer and puts the byte that comes back in front again. */
    method Refill() returns (more: bool)
      requires Valid() && n == 0
      modifies this
      ensures more == (old(Rest()) != [])
      ensures more ==> Valid() && n > 0 && Rest() == old(Rest())
    {
      var c := Fill();
      more := c != None;
      if more {
        n, p := n + 1, p - 1;
      }
    }

    /** The next `k` bytes of the buffer. */
    method Take(k: nat) returns (c: Bytes)
      requires Valid() && k <= n
      modifies `n, `p
      ensures Valid() && |c| == k && n == old(n) - k && c + Rest() == old(Rest())
    {
      c := buff[p..p + k];
      assert buff[p..] == c + buff[p + k..];
      n, p := n - k, p + k;
    }
  }

  // ---------- the loader ----------

  /** The loader returns a value or raises an error. */
  datatype Res<+T> = Good(v: T) | Bad(why: Fault)

  function Outcome<T>(d: Loaded<T>): Res<T> {
    if d.Ok? then Good(d.v) else Bad(d.why)
  }

  /** The stream went on as the decoder says. */
  ghost predicate Reads<T>(r: Res<T>, d: Loaded<T>, rest: Bytes) {
    match r
    case Good(v) => d == Ok(v, rest)
    case Bad(why) => d == Err(why)
  }

  lemma {:induction false} ManyFails<T>(d: Decoder<T>, i: nat, n: nat, b: Bytes)
    requires i <= n && DecMany(d, i, b).Err?
    ensures DecMany(d, n, b) == DecMany(d, i, b)
    decreases n - i
  {
    if i < n {
      ManyFails(d, i, n - 1, b);
    }
  }

  lemma {:induction false} ProtosFail(i: nat, n: nat, b: Bytes, psource: Option<Name>)
    requires i <= n && DecProtos(i, b, psource).Err?
    ensures DecProtos(n, b, psource) == DecProtos(i, b, psource)
    decreases n - i
  {
    hide DecFunction;
    if i < n {
      ProtosFail(i, n - 1, b, psource);
    }
  }

  /** The 4-byte values that a block in memory consists of. */
  function Cells<T>(f: Bytes -> T, b: Bytes): (r: seq<T>)
    ensures |r| == |b| / 4
  {
    if |b| < 4 then [] else Cells(f, b[..|b| - 4]) + [f(b[|b| - 4..])]
  }

  /** `d` takes four bytes and converts them. */
  ghost predicate FourBytes<T>(d: Decoder<T>, f: Bytes -> T) {
    forall b: Bytes :: d(b) == if |b| < 4 then Err(Truncated) else Ok(f(b[..4]), b[4..])
  }

  lemma FourMore<T>(d: Decoder<T>, f: Bytes -> T, b: Bytes, m: nat)
    requires FourBytes(d, f) && m <= |b|
    ensures m + 4 > |b| ==> d(b[m..]) == Err(Truncated)
    ensures m + 4 <= |b| ==> d(b[m..]) == Ok(f(b[m..m + 4]), b[m + 4..]) && Cells(f, b[..m + 4]) == Cells(f, b[..m]) + [f(b[m..m + 4])]
  {
    var c := b[m..];
    assert d(c) == if |c| < 4 then Err(Truncated) else Ok(f(c[..4]), c[4..]);
    if m + 4 <= |b| {
      assert c[..4] == b[m..m + 4] && c[4..] == b[m + 4..];
      assert b[..m + 4][..m] == b[..m] && b[..m + 4][m..] == b[m..m + 4];
    }
  }

  /** Reading a vector at once is reading its elements. */
  lemma {:induction false} BlockOfCells<T>(d: Decoder<T>, f: Bytes -> T, n: nat, b: Bytes)
    requires FourBytes(d, f)
    ensures DecMany(d, n, b) == if |b| < 4 * n then Err(Truncated) else Ok(Cells(f, b[..4 * n]), b[4 * n..])
  {
    hide FourBytes;
    if n == 0 {
      assert b[0..] == b;
    } else {
      BlockOfCells(d, f, n - 1, b);
      var m := 4 * (n - 1);
      if m <= |b| {
        FourMore(d, f, b, m);
      }
    }
  }

  lemma WordsAndInts()
    ensures FourBytes(DecWord, UnLe) && FourBytes(DecInt, IntOf)
  {
    hide UnLe, Signed;
  }

  function IntOf(b: Bytes): int { Signed(UnLe(b), 4) }

  class LoadState {
    const z: Zio

    constructor (z: Zio)
      ensures this.z == z
    {
      this.z := z;
    }

    method LoadBlock(size: nat) returns (r: Res<Bytes>)
      requires z.Valid()
      modifies z
      ensures Reads(r, DecBlock(old(z.Rest()), size), z.Rest()) && (r.Good? ==> z.Valid())
    {
      var b, missing := z.Read(size);
      return if missing != 0 then Bad(Truncated) else Good(b);
    }

    method LoadByte() returns (r: Res<Byte>)
      requires z.Valid()
      modifies z
      ensures Reads(r, DecByte(old(z.Rest())), z.Rest()) && (r.Good? ==> z.Valid())
    {
      var b := LoadBlock(1);
      return if b.Good? then Good(b.v[0]) else Bad(b.why);
    }

    method LoadInt() returns (r: Res<int>)
      requires z.Valid()
      modifies z
      ensures Reads(r, DecInt(old(z.Rest())), z.Rest()) && (r.Good? ==> z.Valid())
    {
      var b := LoadBlock(4);
      return if b.Good? then Good(Signed(UnLe(b.v), 4)) else Bad(b.why);
    }

    method LoadInteger() returns (r: Res<int>)
      requires z.Valid()
      modifies z
      ensures Reads(r, DecInteger(old(z.Rest())), z.Rest()) && (r.Good? ==> z.Valid())
    {
      var b := LoadBlock(8);
      return if b.Good? then Good(Signed(UnLe(b.v), 8)) else Bad(b.why);
    }

    /** A float, as its bits; also a `size_t`. */
    method LoadNumber() returns (r: Res<nat>)
      requires z.Valid()
      modifies z
      ensures Reads(r, DecNumber(old(z.Rest())), z.Rest()) && (r.Good? ==> z.Valid())
    {
      var b := LoadBlock(8);
      return if b.Good? then Good(UnLe(b.v)) else Bad(b.why);
    }

    /** Short and long strings are read in the same way into different objects. */
    method LoadString() returns (r: Res<Option<Bytes>>)
      requires z.Valid()
      modifies z
      ensures Reads(r, DecString(old(z.Rest())), z.Rest()) && (r.Good? ==> z.Valid())
    {
      var short := LoadByte();
      if short.Bad? {
        return Bad(short.why);
      }
      var size: nat := short.v;
      if size == 0xFF {
        var long := LoadNumber();
        if long.Bad? {
          return Bad(long.why);
        }
        size := long.v;
      }
      if size == 0 {
        return Good(None);
      }
      var t := LoadBlock(size - 1);
      return if t.Good? then Good(Some(t.v)) else Bad(t.why);
    }

    method LoadCode() returns (r: Res<seq<nat>>)
      requires z.Valid()
      modifies z
      ensures Reads(r, DecCounted(DecWord, old(z.Rest())), z.Rest()) && (r.Good? ==> z.Valid())
    {
      hide DecInt, DecWord, UnLe, Signed, FourBytes, DecMany, Cells;
      var n := LoadInt();
      if n.Bad? {
        return Bad(n.why);
      }
      if n.v < 0 {
        return Bad(TooBig);
      }
      WordsAndInts();
      BlockOfCells(DecWord, UnLe, n.v, z.Rest());
      var b := LoadBlock(n.v * 4);
      return if b.Good? then Good(Cells(UnLe, b.v)) else Bad(b.why);
    }

    method LoadLines() returns (r: Res<seq<int>>)
      requires z.Valid()
      modifies z
      ensures Reads(r, DecCounted(DecInt, old(z.Rest())), z.Rest()) && (r.Good? ==> z.Valid())
    {
      hide DecInt, DecWord, UnLe, Signed, FourBytes, DecMany, Cells;
      var n := LoadInt();
      if n.Bad? {
        return Bad(n.why);
      }
      if n.v < 0 {
        return Bad(TooBig);
      }
      WordsAndInts();
      BlockOfCells(DecInt, IntOf, n.v, z.Rest());
      var b := LoadBlock(n.v * 4);
      return if b.Good? then Good(Cells(IntOf, b.v)) else Bad(b.why);
    }

    method LoadConstant() returns (r: Res<Const>)
      requires z.Valid()
      modifies z
      ensures Reads(r, DecConst(old(z.Rest())), z.Rest()) && (r.Good? ==> z.Valid())
    {
      hide DecByte, DecNumber, DecInteger, DecString;
      var t := LoadByte();
      if t.Bad? {
        return Bad(t.why);
      }
      if t.v == 1 {
        var x := LoadByte();
        return if x.Good? then Good(Bool(x.v)) else Bad(x.why);
      } else if t.v == 3 {
        var x := LoadNumber();
        return if x.Good? then Good(Flt(x.v)) else Bad(x.why);
      } else if t.v == 19 {
        var x := LoadInteger();
        return if x.Good? then Good(Int(x.v)) else Bad(x.why);
      } else if t.v == 4 || t.v == 20 {
        var x := LoadString();
        return if x.Bad? then Bad(x.why) else if x.v.None? then Bad(Undefined) else Good(Text(x.v.v));
      }
      return Good(Nil);
    }

    method LoadConstants() returns (r: Res<seq<Const>>)
      requires z.Valid()
      modifies z
      ensures Reads(r, DecCounted(DecConst, old(z.Rest())), z.Rest()) && (r.Good? ==> z.Valid())
    {
      hide DecConst, DecInt;
      var n := LoadInt();
      if n.Bad? {
        return Bad(n.why);
      }
      if n.v < 0 {
        return Bad(TooBig);
      }
      ghost var b := z.Rest();
      var k := seq(n.v, _ => Nil);
      var i := 0;
      while i < n.v
        invariant 0 <= i <= n.v == |k| && z.Valid() && DecMany(DecConst, i, b) == Ok(k[..i], z.Rest())
      {
        var c := LoadConstant();
        if c.Bad? {
          ManyFails(DecConst, i + 1, n.v, b);
          return Bad(c.why);
        }
        k := k[i := c.v];
        i := i + 1;
        assert k[..i] == k[..i - 1] + [c.v];
      }
      assert k[..i] == k;
      return Good(k);
    }

    method LoadUpval() returns (r: Res<Upval>)
      requires z.Valid()
      modifies z
      ensures Reads(r, DecUpval(old(z.Rest())), z.Rest()) && (r.Good? ==> z.Valid())
    {
      var x := LoadByte();
      if x.Bad? { return Bad(x.why); }
      var y := LoadByte();
      return if y.Good? then Good(Upval(None, x.v, y.v)) else Bad(y.why);
    }

    method LoadUpvalues() returns (r: Res<seq<Upval>>)
      requires z.Valid()
      modifies z
      ensures Reads(r, DecCounted(DecUpval, old(z.Rest())), z.Rest()) && (r.Good? ==> z.Valid())
    {
      hide DecUpval, DecInt;
      var n := LoadInt();
      if n.Bad? {
        return Bad(n.why);
      }
      if n.v < 0 {
        return Bad(TooBig);
      }
      ghost var b := z.Rest();
      var us := seq(n.v, _ => Upval(None, 0, 0));
      var i := 0;
      while i < n.v
        invariant 0 <= i <= n.v == |us| && z.Valid() && DecMany(DecUpval, i, b) == Ok(us[..i], z.Rest())
      {
        var u := LoadUpval();
        if u.Bad? {
          ManyFails(DecUpval, i + 1, n.v, b);
          return Bad(u.why);
        }
        us := us[i := u.v];
        i := i + 1;
        assert us[..i] == us[..i - 1] + [u.v];
      }
      assert us[..i] == us;
      return Good(us);
    }

    method LoadLocVar() returns (r: Res<LocVar>)
      requires z.Valid()
      modifies z
      ensures Reads(r, DecLocVar(old(z.Rest())), z.Rest()) && (r.Good? ==> z.Valid())
    {
      hide DecString, DecInt;
      var s := LoadString();
      if s.Bad? { return Bad(s.why); }
      var x := LoadInt();
      if x.Bad? { return Bad(x.why); }
      var y := LoadInt();
      return if y.Good? then Good(LocVar(s.v, x.v, y.v)) else Bad(y.why);
    }

    method LoadLocVars() returns (r: Res<seq<LocVar>>)
      requires z.Valid()
      modifies z
      ensures Reads(r, DecCounted(DecLocVar, old(z.Rest())), z.Rest()) && (r.Good? ==> z.Valid())
    {
      hide DecLocVar, DecInt;
      var n := LoadInt();
      if n.Bad? {
        return Bad(n.why);
      }
      if n.v < 0 {
        return Bad(TooBig);
      }
      ghost var b := z.Rest();
      var vars := seq(n.v, _ => LocVar(None, 0, 0));
      var i := 0;
      while i < n.v
        invariant 0 <= i <= n.v == |vars| && z.Valid() && DecMany(DecLocVar, i, b) == Ok(vars[..i], z.Rest())
      {
        var v := LoadLocVar();
        if v.Bad? {
          ManyFails(DecLocVar, i + 1, n.v, b);
          return Bad(v.why);
        }
        vars := vars[i := v.v];
        i := i + 1;
        assert vars[..i] == vars[..i - 1] + [v.v];
      }
      assert vars[..i] == vars;
      return Good(vars);
    }

    /** The names of the upvalues, stored behind the end of the vector if there are too many. */
    method LoadNames(us: seq<Upval>) returns (r: Res<seq<Upval>>)
      requires z.Valid()
      modifies z
      ensures Reads(r, DecNames(us, old(z.Rest())), z.Rest()) && (r.Good? ==> z.Valid())
    {
      hide DecString, DecInt;
      var n := LoadInt();
      if n.Bad? {
        return Bad(n.why);
      }
      if n.v > |us| {
        return Bad(Undefined);
      }
      ghost var b := z.Rest();
      ghost var names: seq<Option<Bytes>> := [];
      var named := us;
      assert Named(us, []) == us;
      var i := 0;
      while i < n.v
        invariant 0 <= i && (n.v >= 0 ==> i <= n.v) && (n.v < 0 ==> i == 0) && |names| == i && z.Valid()
        invariant DecMany(DecString, i, b) == Ok(names, z.Rest()) && named == Named(us, names)
      {
        var s := LoadString();
        if s.Bad? {
          ManyFails(DecString, i + 1, n.v, b);
          return Bad(s.why);
        }
        named := named[i := named[i].(name := s.v)];
        names := names + [s.v];
        i := i + 1;
        assert named == Named(us, names);
      }
      return Good(named);
    }

    method LoadDebug(f: Proto) returns (r: Res<Proto>)
      requires z.Valid()
      modifies z
      ensures Reads(r, DecDebug(f, old(z.Rest())), z.Rest()) && (r.Good? ==> z.Valid())
    {
      hide DecCounted, DecNames;
      var lines := LoadLines();
      if lines.Bad? {
        return Bad(lines.why);
      }
      var vars := LoadLocVars();
      if vars.Bad? {
        return Bad(vars.why);
      }
      var us := LoadNames(f.upvalues);
      return if us.Good? then Good(f.(lineinfo := lines.v, locvars := vars.v, upvalues := us.v)) else Bad(us.why);
    }

    method LoadHead(psource: Option<Name>) returns (r: Res<Proto>)
      requires z.Valid()
      modifies z
      ensures Reads(r, DecHead(old(z.Rest()), psource), z.Rest()) && (r.Good? ==> z.Valid())
    {
      hide DecString, DecInt, DecByte, DecCounted, Zio.Valid, Zio.Rest, Shrinks;
      var s := LoadString();
      if s.Bad? { return Bad(s.why); }
      var source := if s.v.None? then psource else Some(Name(0, s.v.v));
      var first := LoadInt();
      if first.Bad? { return Bad(first.why); }
      var last := LoadInt();
      if last.Bad? { return Bad(last.why); }
      var numparams := LoadByte();
      if numparams.Bad? { return Bad(numparams.why); }
      var isVararg := LoadByte();
      if isVararg.Bad? { return Bad(isVararg.why); }
      var maxstack := LoadByte();
      if maxstack.Bad? { return Bad(maxstack.why); }
      var code := LoadCode();
      if code.Bad? { return Bad(code.why); }
      var k := LoadConstants();
      if k.Bad? { return Bad(k.why); }
      var us := LoadUpvalues();
      if us.Bad? { return Bad(us.why); }
      return Good(Proto(source, first.v, last.v, numparams.v, isVararg.v, maxstack.v, code.v, k.v, us.v, [], [], []));
    }

    method LoadFunction(psource: Option<Name>) returns (r: Res<Proto>)
      requires z.Valid()
      modifies z
      ensures Reads(r, DecFunction(old(z.Rest()), psource), z.Rest()) && (r.Good? ==> z.Valid())
      decreases |z.Rest()|, 0
    {
      hide DecHead, DecInt, DecDebug;
      var f := LoadHead(psource);
      if f.Bad? {
        return f;
      }
      var ps := LoadProtos(f.v.source);
      if ps.Bad? {
        return Bad(ps.why);
      }
      r := LoadDebug(f.v.(p := ps.v));
    }

    /** The nested functions, counted. */
    method LoadProtos(source: Option<Name>) returns (r: Res<seq<Proto>>)
      requires z.Valid()
      modifies z
      ensures var n := DecInt(old(z.Rest()));
              if n.Err? then r == Bad(n.why)
              else if n.v < 0 then r == Bad(TooBig)
              else Reads(r, DecProtos(n.v, n.rest, source), z.Rest()) && (r.Good? ==> z.Valid())
      decreases |z.Rest()|, 1
    {
      hide DecFunction;
      var n := LoadInt();
      if n.Bad? {
        return Bad(n.why);
      }
      if n.v < 0 {
        return Bad(TooBig);
      }
      ghost var b := z.Rest();
      var ps: seq<Proto> := [];
      var i := 0;
      while i < n.v
        invariant 0 <= i <= n.v && z.Valid() && DecProtos(i, b, source) == Ok(ps, z.Rest())
      {
        var f := LoadFunction(source);
        if f.Bad? {
          ProtosFail(i + 1, n.v, b, source);
          return Bad(f.why);
        }
        ps := ps + [f.v];
        i := i + 1;
      }
      return Good(ps);
    }

    method CheckLiteral(s: Bytes, why: Fault) returns (r: Res<()>)
      requires z.Valid()
      modifies z
      ensures Reads(r, DecLiteral(old(z.Rest()), s, why), z.Rest()) && (r.Good? ==> z.Valid())
    {
      var b := LoadBlock(|s|);
      return if b.Bad? then Bad(b.why) else if b.v != s then Bad(why) else Good(());
    }

    method CheckSize(size: Byte) returns (r: Res<()>)
      requires z.Valid()
      modifies z
      ensures var x := DecByte(old(z.Rest()));
              if x.Err? then r == Bad(x.why)
              else if x.v != size then r == Bad(SizeMismatch)
              else r == Good(()) && z.Rest() == x.rest && z.Valid()
    {
      var x := LoadByte();
      return if x.Bad? then Bad(x.why) else if x.v != size then Bad(SizeMismatch) else Good(());
    }

    method CheckSizes() returns (r: Res<()>)
      requires z.Valid()
      modifies z
      ensures Reads(r, DecSizes(SIZES, old(z.Rest())), z.Rest()) && (r.Good? ==> z.Valid())
    {
      hide DecByte;
      ghost var b := z.Rest();
      var i := 0;
      while i < |SIZES|
        invariant 0 <= i <= |SIZES| && z.Valid() && DecSizes(SIZES, b) == DecSizes(SIZES[i..], z.Rest())
      {
        assert SIZES[i..][1..] == SIZES[i + 1..];
        r := CheckSize(SIZES[i]);
        if r.Bad? {
          return;
        }
        i := i + 1;
      }
      return Good(());
    }

    method CheckHeader() returns (r: Res<()>)
      requires z.Valid()
      modifies z
      ensures Reads(r, DecHeader(old(z.Rest())), z.Rest()) && (r.Good? ==> z.Valid())
    {
      hide DecLiteral, DecByte, DecInteger, DecNumber, DecSizes;
      r := CheckLiteral(SIGNATURE[1..], NotChunk);
      if r.Bad? { return; }
      var version := LoadByte();
      if version.Bad? { return Bad(version.why); }
      if version.v != LUAC_VERSION { return Bad(VersionMismatch); }
      var format := LoadByte();
      if format.Bad? { return Bad(format.why); }
      if format.v != LUAC_FORMAT { return Bad(FormatMismatch); }
      r := CheckLiteral(LUAC_DATA, Corrupted);
      if r.Bad? { return; }
      r := CheckSizes();
      if r.Bad? { return; }
      var i := LoadInteger();
      if i.Bad? { return Bad(i.why); }
      if i.v != LUAC_INT { return Bad(EndiannessMismatch); }
      var x := LoadNumber();
      if x.Bad? { return Bad(x.why); }
      if x.v != LUAC_NUM { return Bad(FloatMismatch); }
      return Good(());
    }

    /** `luaU_undump`: the number of upvalues of the closure, and its prototype. */
    method Undump() returns (r: Res<(nat, Proto)>)
      requires z.Valid()
      modifies z
      ensures Reads(r, DecChunk(old(z.Rest())), z.Rest()) && (r.Good? ==> z.Valid())
      ensures forall n: Byte, f: Image :: Begins(old(z.Rest()), n, f) ==> r == Good((n as nat, Made(f, None)))
    {
      hide DecHeader, DecByte, DecFunction, Begins;
      BeginsRead(z.Rest());
      var h := CheckHeader();
      if h.Bad? { return Bad(h.why); }
      var n := LoadByte();
      if n.Bad? { return Bad(n.why); }
      var f := LoadFunction(None);
      return if f.Good? then Good((n.v, f.v)) else Bad(f.why);
    }
  }

  /** `f_parser` on a binary chunk: the first byte is taken off the stream before the loader runs. */
  method Load(blocks: seq<Bytes>) returns (r: Option<Res<(nat, Proto)>>)
    ensures var b := Ahead(blocks);
            if b == [] || b[0] != SIGNATURE[0] then r == None
            else r == Some(Outcome(DecChunk(b[1..])))
                 && forall n: Byte, f: Image :: Begins(b[1..], n, f) ==> r == Some(Good((n as nat, Made(f, None))))
  {
    hide DecChunk, Begins, Made;
    var z := new Zio(blocks);
    var c := z.GetC();
    if c != Some(SIGNATURE[0]) {
      return None;
    }
    var s := new LoadState(z);
    var x := s.Undump();
    return Some(x);
  }

  /** Behind the first byte of a chunk that shows `f` with `n` upvalues, whatever follows it. */
  ghost predicate Begins(rest: Bytes, n: Byte, f: Image) {
    NamesFit(f) && exists b: Bytes, t: Bytes, written: bool :: ShowsChunk(b, n, f, written) && rest == b[1..] + t
  }

  lemma BeginsRead(rest: Bytes)
    ensures forall n: Byte, f: Image :: Begins(rest, n, f) ==> DecChunk(rest).Ok? && DecChunk(rest).v == (n as nat, Made(f, None))
  {
    hide DecChunk, Made;
    forall n: Byte, f: Image | Begins(rest, n, f) ensures DecChunk(rest).Ok? && DecChunk(rest).v == (n as nat, Made(f, None)) {
      var b: Bytes, t: Bytes, written: bool :| ShowsChunk(b, n, f, written) && rest == b[1..] + t;
      ReadsChunk(b, n, f, written, t);
    }
  }

  // ---------- the dumper ----------

  /** The writer is called with one block after the other; `replies(i)` is its answer to call `i`. */
  class DumpState {
    const strip: bool
    const replies: nat -> int
    var status: int
    var data: seq<Bytes>
    /** All bytes to be written so far. */
    ghost var wanted: Bytes

    constructor (replies: nat -> int, strip: bool)
      ensures Valid() && wanted == [] && this.replies == replies && this.strip == strip
    {
      this.replies, this.strip := replies, strip;
      status, data, wanted := 0, [], [];
    }

    /** The writer gets everything until it fails; then it is not called again. */
    ghost predicate Valid() reads this {
      && (forall i :: 0 <= i < |data| ==> data[i] != [])
      && (forall i :: 0 <= i < |data| ==> replies(i) == 0 || i == |data| - 1)
      && (status == if data == [] then 0 else replies(|data| - 1))
      && Flat(data) <= wanted
      && (status == 0 ==> Flat(data) == wanted)
    }

    method DumpBlock(b: Bytes)
      requires Valid()
      modifies this
      ensures Valid() && wanted == old(wanted) + b
    {
      if status == 0 && |b| > 0 {
        FlatSnoc(data, b);
        status := replies(|data|);
        data := data + [b];
      }
      wanted := wanted + b;
    }

    method DumpByte(x: Byte)
      requires Valid()
      modifies this
      ensures Valid() && wanted == old(wanted) + [x]
    {
      DumpBlock([x]);
    }

    method DumpInt(x: int)
      requires Valid()
      modifies this
      ensures Valid() && wanted == old(wanted) + EncInt(x)
    {
      DumpBlock(EncInt(x));
    }

    method DumpString(s: Option<Bytes>)
      requires Valid()
      modifies this
      ensures Valid() && wanted == old(wanted) + EncString(s)
    {
      if s.None? {
        DumpByte(0);
      } else {
        var size := |s.v| + 1;
        if size < 0xFF {
          DumpByte(size);
        } else {
          DumpByte(0xFF);
          DumpBlock(Le(size, 8));
        }
        DumpBlock(s.v);
      }
    }

    method DumpCode(f: Proto)
      requires Valid()
      modifies this
      ensures Valid() && wanted == old(wanted) + (EncInt(|f.code|) + EncAll(f.code, EncWord))
    {
      DumpInt(|f.code|);
      DumpBlock(EncAll(f.code, EncWord));
    }

    method DumpConstant(o: Const)
      requires Valid()
      modifies this
      ensures Valid() && wanted == old(wanted) + EncConst(o)
    {
      hide EncNumber, EncInteger, EncString;
      DumpByte(Tag(o));
      match o {
        case Nil =>
        case Bool(b) => DumpByte(b);
        case Flt(bits) => DumpBlock(EncNumber(bits));
        case Int(n) => DumpBlock(EncInteger(n));
        case Text(t) => DumpString(Some(t));
      }
    }

    method DumpConstants(f: Proto)
      requires Valid()
      modifies this
      ensures Valid() && wanted == old(wanted) + (EncInt(|f.k|) + EncAll(f.k, EncConst))
    {
      hide EncInt, EncConst;
      DumpInt(|f.k|);
      ghost var w := wanted;
      var i := 0;
      while i < |f.k|
        invariant 0 <= i <= |f.k| && Valid() && wanted == w + EncAll(f.k[..i], EncConst)
      {
        DumpConstant(f.k[i]);
        OneMore(f.k, i, EncConst);
        i := i + 1;
      }
      assert f.k[..i] == f.k;
    }

    method DumpUpvalues(f: Proto)
      requires Valid()
      modifies this
      ensures Valid() && wanted == old(wanted) + (EncInt(|f.upvalues|) + EncAll(f.upvalues, EncUpval))
    {
      hide EncInt;
      DumpInt(|f.upvalues|);
      ghost var w := wanted;
      var i := 0;
      while i < |f.upvalues|
        invariant 0 <= i <= |f.upvalues| && Valid() && wanted == w + EncAll(f.upvalues[..i], EncUpval)
      {
        DumpByte(f.upvalues[i].instack);
        DumpByte(f.upvalues[i].idx);
        OneMore(f.upvalues, i, EncUpval);
        i := i + 1;
      }
      assert f.upvalues[..i] == f.upvalues;
    }

    method DumpDebug(f: Proto)
      requires Valid()
      modifies this
      ensures Valid() && wanted == old(wanted) + EncDebug(f, strip)
    {
      hide EncInt, EncString, EncLocVar, EncName, EncAll, EncDebug, Valid;
      ghost var w := wanted;
      var lines := if strip then [] else f.lineinfo;
      DumpInt(|lines|);
      DumpBlock(EncAll(lines, EncInt));
      ghost var e := EncInt(|lines|) + EncAll(lines, EncInt);
      assert wanted == w + e;
      var vars := if strip then [] else f.locvars;
      DumpInt(|vars|);
      DumpLocVars(vars);
      e := e + EncInt(|vars|) + EncAll(vars, EncLocVar);
      assert wanted == w + e;
      var us := if strip then [] else f.upvalues;
      DumpInt(|us|);
      DumpNames(us);
      e := e + EncInt(|us|) + EncAll(us, EncName);
      assert wanted == w + e;
      DebugBytes(f, lines, vars, us);
    }

    lemma DebugBytes(f: Proto, lines: seq<int>, vars: seq<LocVar>, us: seq<Upval>)
      requires lines == if strip then [] else f.lineinfo
      requires vars == if strip then [] else f.locvars
      requires us == if strip then [] else f.upvalues
      ensures EncDebug(f, strip) ==
              EncInt(|lines|) + EncAll(lines, EncInt) + EncInt(|vars|) + EncAll(vars, EncLocVar) + EncInt(|us|) + EncAll(us, EncName)
    {
      hide EncInt, EncLocVar, EncName;
      if strip {
        assert EncAll(lines, EncInt) == [] && EncAll(vars, EncLocVar) == [] && EncAll(us, EncName) == [];
      }
    }

    method DumpLocVar(v: LocVar)
      requires Valid()
      modifies this
      ensures Valid() && wanted == old(wanted) + EncLocVar(v)
    {
      hide EncInt, EncString, DumpState.Valid;
      DumpString(v.name);
      DumpInt(v.startpc);
      DumpInt(v.endpc);
    }

    method DumpLocVars(vars: seq<LocVar>)
      requires Valid()
      modifies this
      ensures Valid() && wanted == old(wanted) + EncAll(vars, EncLocVar)
    {
      hide EncInt, EncString, EncAll, EncLocVar, DumpState.Valid;
      NoneEncoded(vars, EncLocVar);
      assert wanted + [] == wanted;
      var i := 0;
      while i < |vars|
        invariant 0 <= i <= |vars| && Valid() && wanted == old(wanted) + EncAll(vars[..i], EncLocVar)
      {
        DumpLocVar(vars[i]);
        OneMore(vars, i, EncLocVar);
        i := i + 1;
      }
      assert vars[..i] == vars;
    }

    method DumpNames(us: seq<Upval>)
      requires Valid()
      modifies this
      ensures Valid() && wanted == old(wanted) + EncAll(us, EncName)
    {
      hide EncString;
      var i := 0;
      while i < |us|
        invariant 0 <= i <= |us| && Valid() && wanted == old(wanted) + EncAll(us[..i], EncName)
      {
        DumpString(us[i].name);
        OneMore(us, i, EncName);
        i := i + 1;
      }
      assert us[..i] == us;
    }

    /** The source is left out when stripping and if it is the same object as the parent's. */
    method DumpSource(source: Option<Name>, psource: Option<Name>)
      requires Valid()
      modifies this
      ensures Valid() && wanted == old(wanted) + EncSource(source, psource, strip)
    {
      if strip || source == psource {
        DumpString(None);
      } else {
        DumpString(if source.Some? then Some(source.v.text) else None);
      }
    }

    /** The fields before the instructions. */
    method DumpFixed(f: Proto, psource: Option<Name>)
      requires Valid()
      modifies this
      ensures Valid() && wanted == old(wanted) + EncSource(f.source, psource, strip) + EncInt(f.linedefined) + EncInt(f.lastlinedefined)
                                   + [f.numparams, f.isVararg, f.maxstacksize]
    {
      hide EncInt, EncSource, Valid, EncString;
      DumpSource(f.source, psource);
      DumpInt(f.linedefined);
      DumpInt(f.lastlinedefined);
      DumpByte(f.numparams);
      DumpByte(f.isVararg);
      DumpByte(f.maxstacksize);
    }

    method DumpHead(f: Proto, psource: Option<Name>)
      requires Valid()
      modifies this
      ensures Valid() && wanted == old(wanted) + EncHead(f, psource, strip)
    {
      hide EncInt, EncAll, EncSource, Valid, EncString;
      ghost var w := wanted;
      DumpFixed(f, psource);
      ghost var e := EncSource(f.source, psource, strip) + EncInt(f.linedefined) + EncInt(f.lastlinedefined) + [f.numparams, f.isVararg, f.maxstacksize];
      assert wanted == w + e;
      DumpCode(f);
      e := e + EncInt(|f.code|) + EncAll(f.code, EncWord);
      assert wanted == w + e;
      DumpConstants(f);
      e := e + EncInt(|f.k|) + EncAll(f.k, EncConst);
      assert wanted == w + e;
      DumpUpvalues(f);
      e := e + EncInt(|f.upvalues|) + EncAll(f.upvalues, EncUpval);
      assert wanted == w + e;
    }

    method DumpFunction(f: Proto, psource: Option<Name>)
      requires Valid()
      modifies this
      ensures Valid() && wanted == old(wanted) + EncFunction(f, psource, strip)
      decreases f, 1, 0
    {
      hide EncInt, EncHead, EncAll, EncDebug, Valid;
      DumpHead(f, psource);
      DumpProtos(f);
      DumpDebug(f);
    }

    method DumpProtos(f: Proto)
      requires Valid()
      modifies this
      ensures Valid() && wanted == old(wanted) + (EncInt(|f.p|) + EncProtos(f, |f.p|, strip))
      decreases f, 0, 0
    {
      hide EncInt, EncFunction;
      DumpInt(|f.p|);
      ghost var w := wanted;
      var i := 0;
      while i < |f.p|
        invariant 0 <= i <= |f.p| && Valid() && wanted == w + EncProtos(f, i, strip)
      {
        DumpFunction(f.p[i], f.source);
        i := i + 1;
      }
    }

    method DumpSizes()
      requires Valid()
      modifies this
      ensures Valid() && wanted == old(wanted) + SIZES
    {
      hide Valid;
      DumpByte(4);
      DumpByte(8);
      DumpByte(4);
      DumpByte(8);
      DumpByte(8);
    }

    method DumpHeader()
      requires Valid()
      modifies this
      ensures Valid() && wanted == old(wanted) + EncHeader()
    {
      hide EncInteger, EncNumber, Valid;
      ghost var w := wanted;
      DumpBlock(SIGNATURE);
      DumpByte(LUAC_VERSION);
      DumpByte(LUAC_FORMAT);
      ghost var e := SIGNATURE + [LUAC_VERSION, LUAC_FORMAT];
      assert wanted == w + e;
      DumpBlock(LUAC_DATA);
      DumpSizes();
      e := e + LUAC_DATA + SIZES;
      assert wanted == w + e;
      DumpBlock(EncInteger(LUAC_INT));
      DumpBlock(EncNumber(LUAC_NUM));
      e := e + EncInteger(LUAC_INT) + EncNumber(LUAC_NUM);
      assert wanted == w + e;
    }
  }

  lemma NoneEncoded<T>(xs: seq<T>, enc: T -> Bytes)
    ensures EncAll(xs[..0], enc) == []
  {
  }

  lemma OneMore<T>(xs: seq<T>, i: nat, enc: T -> Bytes)
    requires i < |xs|
    ensures EncAll(xs[..i + 1], enc) == EncAll(xs[..i], enc) + enc(xs[i])
  {
    assert xs[..i + 1][..i] == xs[..i];
  }

  /** `luaU_dump`: the answer of the writer, and the blocks it was given. */
  method Dump(f: Proto, replies: nat -> int, strip: bool) returns (status: int, data: seq<Bytes>)
    ensures forall i :: 0 <= i < |data| ==> data[i] != []
    ensures forall i :: 0 <= i < |data| - 1 ==> replies(i) == 0
    ensures status == if data == [] then 0 else replies(|data| - 1)
    ensures Flat(data) <= EncChunk(f, strip)
    ensures status == 0 ==> Flat(data) == EncChunk(f, strip)
    ensures status == 0 && Fits(f) ==> ShowsChunk(Flat(data), |f.upvalues|, ImageOf(f, None, strip), true)
  {
    hide EncHeader, EncFunction, Fits, ShowsChunk;
    if Fits(f) {
      ChunkShown(f, strip);
    }
    var d := new DumpState(replies, strip);
    d.DumpHeader();
    d.DumpByte(|f.upvalues| % 256);
    d.DumpFunction(f, None);
    return d.status, d.data;
  }

  /**
    However the bytes of a dump are cut into non-empty blocks, and whatever follows them: the loader
    gives back an equal tree exactly if every nested function has a source that its parent has, and
    a stripped dump without sources and debug information.
   */
  lemma AnyCut(f: Proto, t: Bytes, full: seq<Bytes>, stripped: seq<Bytes>)
    requires Fits(f)
    requires forall i :: 0 <= i < |full| ==> full[i] != []
    requires forall i :: 0 <= i < |stripped| ==> stripped[i] != []
    requires Flat(full) == EncChunk(f, false) + t && Flat(stripped) == EncChunk(f, true) + t
    ensures Ahead(full) != [] && Ahead(full)[0] == SIGNATURE[0] && Ahead(stripped) != [] && Ahead(stripped)[0] == SIGNATURE[0]
    ensures Outcome(DecChunk(Ahead(full)[1..])) == Good((|f.upvalues|, Copy(f))) <==> SourcesOk(f)
    ensures Outcome(DecChunk(Ahead(stripped)[1..])) == Good((|f.upvalues|, Stripped(f)))
  {
    hide DecChunk, EncChunk, Back, Copy, Stripped, Fits, SourcesOk, Flat, Ahead;
    AheadFlat(full);
    AheadFlat(stripped);
    ChunkBack(f, false, t);
    ChunkBack(f, true, t);
    RoundTrip(f, t);
    TailOf(EncChunk(f, false), t);
    TailOf(EncChunk(f, true), t);
  }

  lemma TailOf(a: Bytes, t: Bytes)
    requires a != []
    ensures (a + t)[0] == a[0] && (a + t)[1..] == a[1..] + t
  {
  }

  /** A reader that stops anywhere behind the first byte of a dump makes the loader report a truncated chunk. */
  lemma CutShort(f: Proto, strip: bool, blocks: seq<Bytes>)
    requires Fits(f) && Ahead(blocks) != [] && Ahead(blocks) < EncChunk(f, strip)
    ensures DecChunk(Ahead(blocks)[1..]) == Err(Truncated)
  {
    hide DecChunk, EncChunk, Fits;
    CutOff(f, strip, |Ahead(blocks)|);
    assert Ahead(blocks) == EncChunk(f, strip)[..|Ahead(blocks)|];
    assert Ahead(blocks)[1..] == EncChunk(f, strip)[1..|Ahead(blocks)|];
  }
}
