/**
  `string.find` and `string.match` (lstrlib.c): the leftmost start with a match, and the plain
  search that replaces matching for patterns without special characters.
 */
module LuaFind {

  import opened Patterns
  import opened LuaMatch

  /** A pushed capture: a piece of the subject or a position. */
  datatype Value = Text(t: Bytes) | Pos(n: nat)

  /** What the call returns: nil, the range and the captures of a match, or a raised error. */
  datatype Found = Nil | Found(b: nat, e: nat, vals: seq<Value>) | Raised(why: Fault)

  // ---------- the plain search ----------

  /** `what` occurs in `s` at `i`. */
  predicate OccursAt(s: Bytes, what: Bytes, i: nat) {
    i + |what| <= |s| && s[i..i + |what|] == what
  }

  /** `memchr`: the first `c` in `s` from `lo` up to `hi`. */
  function MemChr(s: Bytes, c: nat, lo: nat, hi: nat): (r: Option<nat>)
    requires lo <= hi <= |s|
    ensures r.Some? ==> lo <= r.v < hi && s[r.v] == c && c !in s[lo..r.v]
    ensures r.None? ==> c !in s[lo..hi]
    decreases hi - lo
  {
    if lo == hi then None else if s[lo] == c then Some(lo) else MemChr(s, c, lo + 1, hi)
  }

  /** `lmemfind`: the first occurrence of `what` from `from` on. */
  method MemFind(s: Bytes, from: nat, what: Bytes) returns (r: Option<nat>)
    requires from <= |s|
    ensures r.Some? ==> from <= r.v && OccursAt(s, what, r.v) && forall i :: from <= i < r.v ==> !OccursAt(s, what, i)
    ensures r.None? ==> forall i :: from <= i ==> !OccursAt(s, what, i)
  {
    if |what| == 0 {
      return Some(from);
    }
    if |what| > |s| - from {
      return None;
    }
    var l2 := |what| - 1;
    var end := |s| - l2;
    var s1 := from;
    while s1 < end
      invariant from <= s1 <= end
      invariant forall i :: from <= i < s1 ==> !OccursAt(s, what, i)
    {
      var i := MemChr(s, what[0], s1, end);
      forall k | s1 <= k < (if i.Some? then i.v else end) ensures !OccursAt(s, what, k) {
        NotHere(s, what, k, s1, if i.Some? then i.v else end);
      }
      if i.None? {
        return None;
      }
      if s[i.v + 1..i.v + 1 + l2] == what[1..] {
        assert s[i.v..i.v + |what|] == [s[i.v]] + s[i.v + 1..i.v + 1 + l2];
        assert what == [what[0]] + what[1..];
        return Some(i.v);
      }
      assert s[i.v..i.v + |what|][1..] == s[i.v + 1..i.v + 1 + l2];
      s1 := i.v + 1;
    }
    return None;
  }

  lemma NotHere(s: Bytes, what: Bytes, k: nat, lo: nat, hi: nat)
    requires lo <= k < hi <= |s| && |what| > 0 && what[0] !in s[lo..hi]
    ensures !OccursAt(s, what, k)
  {
    assert s[lo..hi][k - lo] == s[k];
    if k + |what| <= |s| {
      assert s[k..k + |what|][0] == s[k];
    }
  }

  // ---------- patterns without special characters ----------

  /** The characters of SPECIALS: `^$*+?.([%-`. */
  predicate Special(c: nat) {
    c == 94 || c == 36 || c == 42 || c == 43 || c == 63 || c == 46 || c == 40 || c == 91 || c == ESC || c == 45
  }

  /** `strlen(p + from)`: where the C string at `from` ends. */
  function StrEnd(p: Bytes, from: nat): (r: nat)
    requires from <= |p|
    ensures from <= r <= |p| && 0 !in p[from..r] && (r < |p| ==> p[r] == 0)
    decreases |p| - from
  {
    if from == |p| || p[from] == 0 then from else StrEnd(p, from + 1)
  }

  /** `nospecials`: looks through the C strings that the zeros of the pattern separate. */
  method NoSpecials(p: Bytes) returns (r: bool)
    ensures r <==> forall i :: 0 <= i < |p| ==> !Special(p[i])
  {
    var upto := 0;
    while upto <= |p|
      invariant 0 <= upto <= |p| + 1
      invariant forall i :: 0 <= i < upto && i < |p| ==> !Special(p[i])
    {
      var end := StrEnd(p, upto);
      if exists i :: upto <= i < end && Special(p[i]) {
        return false;
      }
      upto := end + 1;
    }
    return true;
  }

  /** A pattern without special characters and without `)` matches just itself. */
  lemma {:induction false} LiteralOuts(g: Problem, s: nat, p: nat, caps: seq<Capture>)
    requires s <= |g.src| && p <= |g.pat|
    requires forall i :: p <= i < |g.pat| ==> !Special(g.pat[i]) && g.pat[i] != 41
    ensures Outs(g, s, p, caps) == if OccursAt(g.src, g.pat[p..], s) then [At(s + |g.pat| - p, caps)] else []
    decreases |g.pat| - p
  {
    LiteralByte(g, s, p, caps);
    if p < |g.pat| {
      hide Outs;
      if s < |g.src| {
        LiteralOuts(g, s + 1, p + 1, caps);
        OccursNext(g.src, g.pat, s, p);
      }
    }
  }

  /** The outcomes for one byte of the pattern, or for its end. */
  lemma LiteralByte(g: Problem, s: nat, p: nat, caps: seq<Capture>)
    requires s <= |g.src| && p <= |g.pat| && (p < |g.pat| ==> !Special(g.pat[p]) && g.pat[p] != 41)
    requires p + 1 < |g.pat| ==> !Special(g.pat[p + 1])
    ensures p == |g.pat| ==> Outs(g, s, p, caps) == [At(s, caps)]
    ensures p < |g.pat| ==> Outs(g, s, p, caps) == if s < |g.src| && g.src[s] == g.pat[p] then Outs(g, s + 1, p + 1, caps) else []
  {
    if p < |g.pat| {
      assert ItemAt(g.pat, p) == Single(p + 1, Once, p + 1);
    }
  }

  lemma OccursNext(src: Bytes, pat: Bytes, s: nat, p: nat)
    requires s < |src| && p < |pat|
    ensures OccursAt(src, pat[p..], s) <==> src[s] == pat[p] && OccursAt(src, pat[p + 1..], s + 1)
  {
    var n := |pat| - p;
    if s + n <= |src| {
      var x, y := src[s..s + n], pat[p..];
      assert x == [src[s]] + src[s + 1..s + 1 + (n - 1)] && y == [pat[p]] + pat[p + 1..];
      assert x[1..] == src[s + 1..s + n] && y[1..] == pat[p + 1..];
      assert x == y <==> x[0] == y[0] && x[1..] == y[1..] by { HeadTail(x, y); }
    }
  }

  lemma HeadTail(x: Bytes, y: Bytes)
    requires x != [] && y != []
    ensures x == y <==> x[0] == y[0] && x[1..] == y[1..]
  {
    assert x == [x[0]] + x[1..] && y == [y[0]] + y[1..];
  }

  /** A pattern without special characters that contains `)` raises an error where its text before the `)` occurs. */
  lemma {:induction false} ClosingOuts(ct: CType, pat: Bytes, p: nat, k: nat)
    requires p <= k < |pat| && pat[k] == 41
    requires forall i :: p <= i < k ==> !Special(pat[i]) && pat[i] != 41
    ensures Outs(Problem(ct, pat[..k], pat), p, p, []) == [Wrong(BadCapture)]
    decreases k - p
  {
    if p < k {
      assert !Special(pat[p + 1]);
      assert ItemAt(pat, p) == Single(p + 1, Once, p + 1);
      ClosingOuts(ct, pat, p + 1, k);
    }
  }

  /** The plain search finds at `s` what matching would find there. */
  ghost predicate PlainAgrees(ct: CType, src: Bytes, s: nat, pat: Bytes) {
    Outs(Problem(ct, src, pat), s, 0, []) == if OccursAt(src, pat, s) then [At(s + |pat|, [])] else []
  }

  ghost predicate PlainAlwaysAgrees(ct: CType, pat: Bytes) {
    forall src: Bytes, s: nat :: s <= |src| ==> PlainAgrees(ct, src, s, pat)
  }

  /**
    For a pattern without special characters, plain search and matching agree on all subjects
    exactly if the pattern has no `)`, which is missing from the list of special characters.
   */
  lemma PlainSearchAgrees(ct: CType, pat: Bytes)
    requires forall i :: 0 <= i < |pat| ==> !Special(pat[i])
    ensures PlainAlwaysAgrees(ct, pat) <==> 41 !in pat
  {
    assert pat[0..] == pat;
    if 41 !in pat {
      forall src: Bytes, s: nat | s <= |src| ensures PlainAgrees(ct, src, s, pat) {
        LiteralOuts(Problem(ct, src, pat), s, 0, []);
      }
    } else {
      var k := FirstClosing(pat, 0);
      ClosingOuts(ct, pat, 0, k);
      assert !PlainAgrees(ct, pat[..k], 0, pat);
    }
  }

  function FirstClosing(pat: Bytes, i: nat): (k: nat)
    requires i <= |pat| && 41 in pat[i..]
    ensures i <= k < |pat| && pat[k] == 41 && forall j :: i <= j < k ==> pat[j] != 41
    decreases |pat| - i
  {
    if pat[i] == 41 then i else assert pat[i..] == [pat[i]] + pat[i + 1..]; FirstClosing(pat, i + 1)
  }

  // ---------- captures ----------

  function CaptureValue(src: Bytes, c: Capture): Value
    requires c.len.Len? ==> c.start + c.len.n <= |src|
  {
    match c.len
    case Len(n) => Text(src[c.start..c.start + n])
    case _ => Pos(c.start + 1)
  }

  /** The values of the captures; the whole match from `b` to `e` if there is none and it is wanted. */
  function CaptureValues(src: Bytes, caps: seq<Capture>, whole: bool, b: nat, e: nat): seq<Value>
    requires CapsWithin(caps, |src|) && b <= e <= |src|
  {
    if caps == [] && whole then [Text(src[b..e])] else seq(|caps|, i requires 0 <= i < |caps| => CaptureValue(src, caps[i]))
  }

  ghost predicate HasUnfinished(caps: seq<Capture>) {
    exists i :: 0 <= i < |caps| && caps[i].len == Unfinished
  }

  method PushCaptures(ms: MatchState, whole: bool, b: nat, e: nat) returns (r: Found)
    requires ms.Valid() && b <= e <= |ms.src| && CapsWithin(ms.Caps(), e)
    ensures r == if HasUnfinished(ms.Caps()) then Raised(UnfinishedCapture)
                 else Found.Found(b, e, CaptureValues(ms.src, ms.Caps(), whole, b, e))
  {
    if ms.level == 0 && whole {
      return Found.Found(b, e, [Text(ms.src[b..e])]);
    }
    var vals, i := [], 0;
    while i < ms.level
      invariant 0 <= i <= ms.level == |ms.Caps()| && |vals| == i
      invariant forall k :: 0 <= k < i ==> ms.Caps()[k].len != Unfinished
      invariant forall k :: 0 <= k < i ==> vals[k] == CaptureValue(ms.src, ms.Caps()[k])
    {
      var c := ms.capture[i];
      assert c == ms.Caps()[i];
      if c.len == Unfinished {
        return Raised(UnfinishedCapture);
      }
      vals := vals + [if c.len == Position then Pos(c.start + 1) else Text(ms.src[c.start..c.start + c.len.n])];
      i := i + 1;
    }
    assert vals == CaptureValues(ms.src, ms.Caps(), whole, b, e);
    return Found.Found(b, e, vals);
  }

  // ---------- find and match ----------

  /** `posrelat`: a negative position counts from the end. */
  function PosRelat(pos: int, len: nat): int {
    if pos >= 0 then pos else if -pos > len then 0 else len + pos + 1
  }

  /** No start from `lo` up to `hi` has an outcome. */
  ghost predicate NoneBetween(g: Problem, p: nat, lo: nat, hi: nat)
    requires p <= |g.pat|
  {
    forall t: nat :: lo <= t < hi ==> Fails(g, t, p, [])
  }

  /** The call returns what the first outcome at the leftmost start says. */
  ghost predicate FindsLeftmost(g: Problem, p: nat, from: nat, anchor: bool, whole: bool, r: Found)
    requires p <= |g.pat|
  {
    match r
    case Nil => NoneBetween(g, p, from, if anchor then from + 1 else |g.src| + 1)
    case Found(b, e, vals) =>
      && from <= b <= e <= |g.src| && (anchor ==> b == from) && NoneBetween(g, p, from, b)
      && exists caps: seq<Capture> :: First(g, b, p, [], At(e, caps)) && CapsWithin(caps, e)
                                      && !HasUnfinished(caps) && vals == CaptureValues(g.src, caps, whole, b, e)
    case Raised(why) =>
      exists b: nat :: from <= b <= |g.src| && (anchor ==> b == from) && NoneBetween(g, p, from, b) && RaisesAt(g, b, p, why)
  }

  /** The first outcome is the error, or a match with an open capture. */
  ghost predicate RaisesAt(g: Problem, s: nat, p: nat, why: Fault)
    requires p <= |g.pat|
  {
    First(g, s, p, [], Wrong(why)) || (why == UnfinishedCapture && exists e, caps :: First(g, s, p, [], At(e, caps)) && HasUnfinished(caps))
  }

  /** The call returns the first occurrence. */
  ghost predicate FindsPlain(s: Bytes, what: Bytes, from: nat, r: Found) {
    match r
    case Nil => forall i :: from <= i ==> !OccursAt(s, what, i)
    case Found(b, e, vals) =>
      && from <= b && e == b + |what| && vals == [] && OccursAt(s, what, b)
      && forall i :: from <= i < b ==> !OccursAt(s, what, i)
    case Raised(_) => false
  }

  /** The loop of `str_find_aux`: tries one start after the other. */
  method Search(ct: CType, s: Bytes, p: Bytes, p0: nat, from: nat, anchor: bool, whole: bool) returns (r: Found)
    requires from <= |s| && p0 <= |p|
    ensures r == Raised(TooComplex) || FindsLeftmost(Problem(ct, s, p), p0, from, anchor, whole, r)
    ensures r == Raised(TooComplex) ==> |p| >= MAXCCALLS
  {
    hide Outs, CaptureValues, First, Fails;
    ghost var g := Problem(ct, s, p);
    var ms := new MatchState(ct, s, p);
    var s1 := from;
    while true
      invariant from <= s1 <= |s| && (anchor ==> s1 == from)
      invariant fresh(ms) && fresh(ms.capture) && ms.Valid() && ms.matchdepth == MAXCCALLS
      invariant ms.G() == g
      invariant NoneBetween(g, p0, from, s1)
      decreases |s| - s1
    {
      ms.level := 0;
      assert ms.Caps() == [];
      var res := ms.Match(s1, p0);
      if res.Error? {
        assert res.why != TooComplex ==> RaisesAt(g, s1, p0, res.why);
        return Raised(res.why);
      }
      if res.End? {
        r := PushCaptures(ms, whole, s1, res.e);
        assert First(g, s1, p0, [], At(res.e, ms.Caps()));
        assert r.Raised? ==> RaisesAt(g, s1, p0, r.why);
        return;
      }
      if s1 == |s| || anchor {
        return Nil;
      }
      s1 := s1 + 1;
    }
  }

  /** `str_find_aux`. */
  method StrFindAux(ct: CType, s: Bytes, p: Bytes, init: int, plain: bool, find: bool) returns (r: Found)
    ensures var i := PosRelat(init, |s|);
            var from := if i < 1 then 0 else i - 1;
            var anchor := ByteAt(p, 0) == 94;
            if from > |s| then r == Nil
            else if find && (plain || forall k :: 0 <= k < |p| ==> !Special(p[k])) then FindsPlain(s, p, from, r)
            else r == Raised(TooComplex) || FindsLeftmost(Problem(ct, s, p), if anchor then 1 else 0, from, anchor, !find, r)
    ensures r == Raised(TooComplex) ==> |p| >= MAXCCALLS
  {
    var i := PosRelat(init, |s|);
    if i < 1 {
      i := 1;
    } else if i > |s| + 1 {
      return Nil;
    }
    var literal := false;
    if find {
      literal := NoSpecials(p);
      literal := literal || plain;
    }
    if literal {
      var at := MemFind(s, i - 1, p);
      return if at.Some? then Found.Found(at.v, at.v + |p|, []) else Nil;
    }
    var anchor := ByteAt(p, 0) == 94;
    r := Search(ct, s, p, if anchor then 1 else 0, i - 1, anchor, !find);
  }
}
