/**
  The backtracking matcher of the string library (lstrlib.c): it returns the best outcome
  that `Patterns` lists, undoes captures of failed attempts and keeps its depth counter.
 */
module LuaMatch {

  import opened Patterns

  const MAXCCALLS := 200

  /** What a match attempt returns: an end, NULL, or a raised error. */
  datatype Attempt = End(e: nat) | NoMatch | Error(why: Fault)

  /** The attempt returned the best of the outcomes, and left its captures. */
  ghost predicate Best(r: Attempt, outs: seq<Out>, caps: seq<Capture>) {
    match r
    case End(e) => outs != [] && outs[0] == At(e, caps)
    case NoMatch => outs == []
    case Error(why) => outs != [] && outs[0] == Wrong(why)
  }

  /** What an attempt says, in terms of what the pattern means. */
  ghost predicate Tells(r: Attempt, g: Problem, s: nat, p: nat, caps0: seq<Capture>, caps: seq<Capture>)
    requires p <= |g.pat|
  {
    match r
    case End(e) => First(g, s, p, caps0, At(e, caps))
    case NoMatch => Fails(g, s, p, caps0)
    case Error(why) => First(g, s, p, caps0, Wrong(why))
  }

  lemma BestTells(g: Problem, s: nat, p: nat, caps0: seq<Capture>)
    requires p <= |g.pat|
    ensures forall r: Attempt, caps: seq<Capture> :: Best(r, Outs(g, s, p, caps0), caps) ==> Tells(r, g, s, p, caps0, caps)
  {
    hide Outs, First, Fails;
    NoOutcome(g, s, p, caps0);
    forall o: Out ensures First(g, s, p, caps0, o) <==> Heads(o, Outs(g, s, p, caps0)) {
      FirstIsHead(g, s, p, caps0, o);
    }
  }

  /** The same after the repetitions of an item. */
  ghost predicate TellsOfAll(r: Attempt, g: Problem, s: nat, p: nat, ep: nat, suffix: Suffix, next: nat, caps0: seq<Capture>, caps: seq<Capture>)
    requires ep > 0 && next <= |g.pat|
  {
    match r
    case End(e) => FirstOfAll(g, s, p, ep, suffix, next, caps0, At(e, caps))
    case NoMatch => forall t: nat :: Repeats(g, s, p, ep, t) ==> Fails(g, t, next, caps0)
    case Error(why) => FirstOfAll(g, s, p, ep, suffix, next, caps0, Wrong(why))
  }

  lemma RepeatedTells(g: Problem, s: nat, p: nat, ep: nat, suffix: Suffix, next: nat, caps0: seq<Capture>)
    requires ep > 0 && next <= |g.pat| && (suffix == Star || suffix == Lazy)
    ensures var n := RunLength(g.ct, g.src, g.pat, s, p, ep);
            var outs := if suffix == Lazy then Upwards(g, s, n, next, caps0) else Downwards(g, s, n, next, caps0);
            forall r: Attempt, caps: seq<Capture> :: Best(r, outs, caps) ==> TellsOfAll(r, g, s, p, ep, suffix, next, caps0, caps)
  {
    hide Outs, Upwards, Downwards, RunLength, FirstOfAll, Fails, Repeats;
    var n := RunLength(g.ct, g.src, g.pat, s, p, ep);
    var outs := if suffix == Lazy then Upwards(g, s, n, next, caps0) else Downwards(g, s, n, next, caps0);
    forall o: Out ensures FirstOfAll(g, s, p, ep, suffix, next, caps0, o) <==> Heads(o, outs) {
      FirstOfAllIsHead(g, s, p, ep, suffix, next, caps0, o);
    }
    if outs == [] {
      forall t: nat | Repeats(g, s, p, ep, t) ensures Fails(g, t, next, caps0) {
        NoneOfAll(g, s, p, ep, suffix, next, caps0, t);
      }
    }
  }

  lemma NoneOfAll(g: Problem, s: nat, p: nat, ep: nat, suffix: Suffix, next: nat, caps: seq<Capture>, t: nat)
    requires ep > 0 && next <= |g.pat| && (suffix == Star || suffix == Lazy) && Repeats(g, s, p, ep, t)
    requires var n := RunLength(g.ct, g.src, g.pat, s, p, ep);
             [] == if suffix == Lazy then Upwards(g, s, n, next, caps) else Downwards(g, s, n, next, caps)
    ensures Fails(g, t, next, caps)
  {
    hide Outs, Upwards, Downwards, RunLength, Repeats;
    var n := RunLength(g.ct, g.src, g.pat, s, p, ep);
    RunIsLongest(g, s, p, ep, t);
    NoOutcome(g, t, next, caps);
    if Outs(g, t, next, caps) != [] {
      var o := Outs(g, t, next, caps)[0];
      InDownwards(g, s, n, next, caps, o);
      InUpwards(g, s, n, next, caps, o);
    }
  }

  /** Captures start before `s` and, if they are closed, end before it. */
  predicate CapsWithin(caps: seq<Capture>, s: nat) {
    forall i :: 0 <= i < |caps| ==> caps[i].start <= s && (caps[i].len.Len? ==> caps[i].start + caps[i].len.n <= s)
  }

  // ---------- one item at a time ----------

  /** The item at `p` is a single-character class with an optional suffix. */
  predicate IsSingle(pat: Bytes, p: nat) {
    && p < |pat| && pat[p] != 40 && pat[p] != 41 && !(pat[p] == 36 && p + 1 == |pat|)
    && !(pat[p] == ESC && (ByteAt(pat, p + 1) == 98 || ByteAt(pat, p + 1) == 102 || 48 <= ByteAt(pat, p + 1) <= 57))
  }

  lemma AtEnd(g: Problem, s: nat, caps: seq<Capture>)
    ensures Outs(g, s, |g.pat|, caps) == [At(s, caps)]
  {
  }

  lemma AtOpen(g: Problem, s: nat, p: nat, caps: seq<Capture>)
    requires p < |g.pat| && g.pat[p] == 40
    ensures var (what, next) := if ByteAt(g.pat, p + 1) == 41 then (Position, p + 2) else (Unfinished, p + 1);
            next <= |g.pat|
            && Outs(g, s, p, caps) == if |caps| >= LUA_MAXCAPTURES then [Wrong(TooManyCaptures)] else Outs(g, s, next, caps + [Capture(s, what)])
  {
  }

  lemma AtClose(g: Problem, s: nat, p: nat, caps: seq<Capture>)
    requires p < |g.pat| && g.pat[p] == 41
    ensures Outs(g, s, p, caps) == var l := ToClose(caps); if l.None? then [Wrong(BadCapture)] else Outs(g, s, p + 1, Closed(caps, l.v, s))
  {
  }

  lemma AtAnchor(g: Problem, s: nat, p: nat, caps: seq<Capture>)
    requires p < |g.pat| && g.pat[p] == 36 && p + 1 == |g.pat|
    ensures Outs(g, s, p, caps) == if s == |g.src| then [At(s, caps)] else []
  {
  }

  lemma AtBalance(g: Problem, s: nat, p: nat, caps: seq<Capture>)
    requires p < |g.pat| && g.pat[p] == ESC && ByteAt(g.pat, p + 1) == 98
    ensures p + 3 >= |g.pat| ==> Outs(g, s, p, caps) == [Wrong(MissingBalanceArgs)]
    ensures p + 3 < |g.pat| ==>
              var t := Balance(g.src, g.pat[p + 2], g.pat[p + 3], s);
              Outs(g, s, p, caps) == if t.Some? then Outs(g, t.v, p + 4, caps) else []
  {
  }

  lemma AtSet(g: Problem, s: nat, p: nat, caps: seq<Capture>)
    requires p < |g.pat| && g.pat[p] == ESC && ByteAt(g.pat, p + 1) == 102
    ensures ByteAt(g.pat, p + 2) != 91 ==> Outs(g, s, p, caps) == [Wrong(MissingFrontierSet)]
    ensures ByteAt(g.pat, p + 2) == 91 ==>
              p + 2 < |g.pat|
              && var ep := Patterns.ClassEnd(g.pat, p + 2);
              Outs(g, s, p, caps) == if ep.None? then [Wrong(MissingBracket)]
                                     else if AtFrontier(g.ct, g.src, g.pat, s, p + 2, ep.v) then Outs(g, s, ep.v, caps) else []
  {
  }

  lemma AtReference(g: Problem, s: nat, p: nat, caps: seq<Capture>)
    requires p < |g.pat| && g.pat[p] == ESC && 48 <= ByteAt(g.pat, p + 1) <= 57
    ensures p + 2 <= |g.pat|
    ensures var i := CaptureIndex(caps, ByteAt(g.pat, p + 1));
            Outs(g, s, p, caps) ==
            if i.None? then [Wrong(BadCaptureIndex)]
            else
              var t := BackReference(g.src, caps[i.v], s);
              if t.Some? then Outs(g, t.v, p + 2, caps) else []
  {
  }

  lemma AtMalformed(g: Problem, s: nat, p: nat, caps: seq<Capture>)
    requires IsSingle(g.pat, p) && Patterns.ClassEnd(g.pat, p).None?
    ensures Outs(g, s, p, caps) == [Wrong(ClassFault(g.pat, p))]
  {
  }

  lemma AtSingle(g: Problem, s: nat, p: nat, caps: seq<Capture>)
    requires IsSingle(g.pat, p) && Patterns.ClassEnd(g.pat, p).Some?
    ensures var ep := Patterns.ClassEnd(g.pat, p).v;
            var c, one := ByteAt(g.pat, ep), SingleMatches(g.ct, g.src, g.pat, s, p, ep);
            && (c == 63 || c == 42 || c == 43 || c == 45 ==> ep + 1 <= |g.pat|)
            && Outs(g, s, p, caps) ==
               if c == 63 then (if one then Outs(g, s + 1, ep + 1, caps) + Outs(g, s, ep + 1, caps) else Outs(g, s, ep + 1, caps))
               else if c == 42 then (if one then Downwards(g, s, RunLength(g.ct, g.src, g.pat, s, p, ep), ep + 1, caps) else Outs(g, s, ep + 1, caps))
               else if c == 43 then (if one then Downwards(g, s + 1, RunLength(g.ct, g.src, g.pat, s + 1, p, ep), ep + 1, caps) else [])
               else if c == 45 then (if one then Upwards(g, s, RunLength(g.ct, g.src, g.pat, s, p, ep), ep + 1, caps) else Outs(g, s, ep + 1, caps))
               else if one then Outs(g, s + 1, ep, caps) else []
  {
    SingleItem(g.pat, p);
    var ep := Patterns.ClassEnd(g.pat, p).v;
    if ep + 1 <= |g.pat| {
      NoRun(g, s, ep + 1, caps);
    }
    hide Downwards, Upwards, SingleMatches, Patterns.ClassEnd, ItemAt, SuffixAt;
  }

  lemma SingleItem(pat: Bytes, p: nat)
    requires IsSingle(pat, p) && Patterns.ClassEnd(pat, p).Some?
    ensures var ep := Patterns.ClassEnd(pat, p).v;
            var c := ByteAt(pat, ep);
            && (c == 63 || c == 42 || c == 43 || c == 45 ==> ep + 1 <= |pat|)
            && SuffixAt(pat, ep) == (if c == 63 then Maybe else if c == 42 then Star else if c == 43 then Plus else if c == 45 then Lazy else Once)
            && ItemAt(pat, p) == Single(ep, SuffixAt(pat, ep), if SuffixAt(pat, ep) == Once then ep else ep + 1)
  {
    hide Patterns.ClassEnd;
  }

  lemma NoRun(g: Problem, s: nat, next: nat, caps: seq<Capture>)
    requires next <= |g.pat|
    ensures Downwards(g, s, 0, next, caps) == Upwards(g, s, 0, next, caps) == Outs(g, s, next, caps)
  {
    hide Outs;
    assert Outs(g, s, next, caps) + [] == Outs(g, s, next, caps);
  }

  class MatchState {
    const ct: CType
    const src: Bytes
    const pat: Bytes
    var matchdepth: int
    var level: nat
    const capture: array<Capture>

    constructor (ct: CType, src: Bytes, pat: Bytes)
      ensures this.ct == ct && this.src == src && this.pat == pat && fresh(capture)
      ensures Valid() && matchdepth == MAXCCALLS && level == 0
    {
      this.ct, this.src, this.pat := ct, src, pat;
      matchdepth, level := MAXCCALLS, 0;
      capture := new Capture[LUA_MAXCAPTURES](_ => Capture(0, Unfinished));
    }

    ghost predicate Valid() reads this {
      capture.Length == LUA_MAXCAPTURES && level <= LUA_MAXCAPTURES && matchdepth >= 0
    }

    ghost function G(): Problem {
      Problem(ct, src, pat)
    }

    ghost function Caps(): seq<Capture>
      reads this, capture
    {
      if level <= capture.Length then capture[..level] else []
    }

    method ClassEnd(p: nat) returns (r: Option<nat>)
      requires p < |pat|
      ensures r == Patterns.ClassEnd(pat, p)
    {
      if pat[p] == ESC {
        if p + 1 == |pat| {
          return None;
        }
        return Some(p + 2);
      }
      if pat[p] != 91 {
        return Some(p + 1);
      }
      var q := p + 1;
      if ByteAt(pat, q) == 94 {
        q := q + 1;
      }
      while true
        invariant p < q <= |pat| && SetEnd(pat, q) == Patterns.ClassEnd(pat, p)
        decreases |pat| - q
      {
        if q == |pat| {
          return None;
        }
        q := q + 1;
        if pat[q - 1] == ESC && q < |pat| {
          q := q + 1;
        }
        if q < |pat| && pat[q] == 93 {
          return Some(q + 1);
        }
      }
    }

    method MatchBracketClass(c: nat, p: nat, ec: nat) returns (r: bool)
      ensures r == InSet(ct, pat, c, p, ec)
    {
      var sig, q := true, p + 1;
      if ByteAt(pat, q) == 94 {
        sig, q := false, q + 1;
      }
      while q < ec
        invariant InSet(ct, pat, c, p, ec) == (InSetFrom(ct, pat, c, q, ec) == sig)
        decreases ec - q
      {
        if ByteAt(pat, q) == ESC {
          q := q + 1;
          if MatchClass(ct, c, ByteAt(pat, q)) {
            return sig;
          }
        } else if ByteAt(pat, q + 1) == 45 && q + 2 < ec {
          q := q + 2;
          if ByteAt(pat, q - 2) <= c <= ByteAt(pat, q) {
            return sig;
          }
        } else if ByteAt(pat, q) == c {
          return sig;
        }
        q := q + 1;
      }
      return !sig;
    }

    method SingleMatch(s: nat, p: nat, ep: nat) returns (r: bool)
      requires ep > 0
      ensures r == SingleMatches(ct, src, pat, s, p, ep)
    {
      if s >= |src| {
        return false;
      }
      var c := src[s];
      if ByteAt(pat, p) == 46 {
        return true;
      } else if ByteAt(pat, p) == ESC {
        return MatchClass(ct, c, ByteAt(pat, p + 1));
      } else if ByteAt(pat, p) == 91 {
        r := MatchBracketClass(c, p, ep - 1);
      } else {
        return ByteAt(pat, p) == c;
      }
    }

    /** `p` is the position of the two delimiters. */
    method MatchBalance(s: nat, p: nat) returns (r: Attempt)
      requires s <= |src|
      ensures r.End? ==> s < r.e <= |src|
      ensures p + 1 >= |pat| ==> r == Error(MissingBalanceArgs)
      ensures p + 1 < |pat| ==>
                var t := Balance(src, pat[p], pat[p + 1], s);
                r == if t.Some? then End(t.v) else NoMatch
    {
      if p + 1 >= |pat| {
        return Error(MissingBalanceArgs);
      }
      if ByteAt(src, s) != pat[p] {
        return NoMatch;
      }
      var b, e := pat[p], pat[p + 1];
      var cont, t := 1, s + 1;
      while t < |src|
        invariant s < |src| ==> s < t <= |src| && cont > 0 && cont == Depth(src, b, e, s, t)
        invariant s < |src| ==> Balance(src, b, e, s) == BalanceEnd(src, b, e, s, t)
      {
        if src[t] == e {
          cont := cont - 1;
          if cont == 0 {
            return End(t + 1);
          }
        } else if src[t] == b {
          cont := cont + 1;
        }
        t := t + 1;
      }
      return NoMatch;
    }

    method CheckCapture(l: nat) returns (r: Option<nat>)
      requires Valid()
      ensures r == CaptureIndex(Caps(), l)
    {
      if l < 49 || l - 49 >= level || capture[l - 49].len == Unfinished {
        return None;
      }
      return Some(l - 49);
    }

    method CaptureToClose() returns (r: Option<nat>)
      requires Valid()
      ensures r == ToClose(Caps())
    {
      var l := level;
      while l > 0
        invariant 0 <= l <= level <= capture.Length && ToClose(Caps()) == ToClose(capture[..l])
      {
        l := l - 1;
        if capture[l].len == Unfinished {
          assert capture[..l + 1][l] == capture[l];
          return Some(l);
        }
        assert capture[..l + 1][..l] == capture[..l] && capture[..l + 1][l] == capture[l];
      }
      return None;
    }

    /** The text of a finished capture again. */
    method MatchCapture(s: nat, l: nat) returns (r: Attempt)
      requires Valid() && s <= |src| && CapsWithin(Caps(), s)
      ensures r.End? ==> s <= r.e <= |src|
      ensures var i := CaptureIndex(Caps(), l);
              r == if i.None? then Error(BadCaptureIndex)
                   else
                     var t := BackReference(src, Caps()[i.v], s);
                     if t.Some? then End(t.v) else NoMatch
    {
      var i := CheckCapture(l);
      if i.None? {
        return Error(BadCaptureIndex);
      }
      var c := capture[i.v];
      assert c == Caps()[i.v];
      if c.len == Position || |src| - s < c.len.n {
        return NoMatch;
      }
      if src[c.start..c.start + c.len.n] == src[s..s + c.len.n] {
        return End(s + c.len.n);
      }
      return NoMatch;
    }

    /** Tries the rest at `next` after as many repetitions as there are, then after fewer. */
    method MaxExpand(s: nat, p: nat, ep: nat, next: nat) returns (r: Attempt)
      requires Valid() && s <= |src| && p < ep <= |pat| && p < next <= |pat| && CapsWithin(Caps(), s)
      modifies this, capture
      ensures r != Error(TooComplex) ==> Best(r, Downwards(G(), s, RunLength(ct, src, pat, s, p, ep), next, old(Caps())), Caps())
      ensures r != Error(TooComplex) ==> TellsOfAll(r, G(), s, p, ep, Star, next, old(Caps()), Caps())
      ensures Kept(s, r, old(matchdepth), old(Caps()), |pat| - next)
      decreases |pat| - next, 2
    {
      hide Outs, InSet, InSetFrom, SingleMatches, MatchClass, Tells, TellsOfAll;
      ghost var caps := Caps();
      RepeatedTells(G(), s, p, ep, Star, next, caps);
      var i := 0;
      while true
        invariant 0 <= i && s + i <= |src|
        invariant RunLength(ct, src, pat, s, p, ep) == i + RunLength(ct, src, pat, s + i, p, ep)
        invariant Valid() && matchdepth == old(matchdepth) && Caps() == caps
        decreases |src| - i
      {
        var one := SingleMatch(s + i, p, ep);
        if !one {
          break;
        }
        i := i + 1;
      }
      ghost var n := i;
      while i >= 0
        invariant -1 <= i <= n && s + n <= |src|
        invariant Valid() && matchdepth == old(matchdepth) && Caps() == caps
        invariant Downwards(G(), s, n, next, caps) == if i < 0 then [] else Downwards(G(), s, i, next, caps)
      {
        r := Match(s + i, next);
        if r != NoMatch {
          return r;
        }
        i := i - 1;
      }
      return NoMatch;
    }

    /** Tries the rest at `next` after no repetition, then after more. */
    method MinExpand(s: nat, p: nat, ep: nat, next: nat) returns (r: Attempt)
      requires Valid() && s <= |src| && p < ep <= |pat| && p < next <= |pat| && CapsWithin(Caps(), s)
      modifies this, capture
      ensures r != Error(TooComplex) ==> Best(r, Upwards(G(), s, RunLength(ct, src, pat, s, p, ep), next, old(Caps())), Caps())
      ensures r != Error(TooComplex) ==> TellsOfAll(r, G(), s, p, ep, Lazy, next, old(Caps()), Caps())
      ensures Kept(s, r, old(matchdepth), old(Caps()), |pat| - next)
      decreases |pat| - next, 2
    {
      hide Outs, InSet, InSetFrom, SingleMatches, MatchClass, Tells, TellsOfAll;
      ghost var caps := Caps();
      RepeatedTells(G(), s, p, ep, Lazy, next, caps);
      var t := s;
      while true
        invariant s <= t <= |src|
        invariant Valid() && matchdepth == old(matchdepth) && Caps() == caps
        invariant Upwards(G(), s, RunLength(ct, src, pat, s, p, ep), next, caps) == Upwards(G(), t, RunLength(ct, src, pat, t, p, ep), next, caps)
        decreases |src| - t
      {
        r := Match(t, next);
        if r != NoMatch {
          return r;
        }
        var one := SingleMatch(t, p, ep);
        if !one {
          return NoMatch;
        }
        t := t + 1;
      }
    }

    method StartCapture(s: nat, next: nat, what: Length) returns (r: Attempt)
      requires Valid() && s <= |src| && next <= |pat| && !what.Len? && CapsWithin(Caps(), s)
      modifies this, capture
      ensures r != Error(TooComplex) ==>
                Best(r, if |old(Caps())| >= LUA_MAXCAPTURES then [Wrong(TooManyCaptures)] else Outs(G(), s, next, old(Caps()) + [Capture(s, what)]), Caps())
      ensures Kept(s, r, old(matchdepth), old(Caps()), |pat| - next)
      decreases |pat| - next, 2
    {
      if level >= LUA_MAXCAPTURES {
        return Error(TooManyCaptures);
      }
      capture[level] := Capture(s, what);
      level := level + 1;
      assert Caps() == old(Caps()) + [Capture(s, what)];
      r := Match(s, next);
      if r == NoMatch {
        level := level - 1;
        assert Caps() == (old(Caps()) + [Capture(s, what)])[..level];
      }
    }

    method EndCapture(s: nat, next: nat) returns (r: Attempt)
      requires Valid() && s <= |src| && next <= |pat| && CapsWithin(Caps(), s)
      modifies this, capture
      ensures r != Error(TooComplex) ==>
                var l := ToClose(old(Caps()));
                Best(r, if l.None? then [Wrong(BadCapture)] else Outs(G(), s, next, Closed(old(Caps()), l.v, s)), Caps())
      ensures Kept(s, r, old(matchdepth), old(Caps()), |pat| - next)
      decreases |pat| - next, 2
    {
      var l := CaptureToClose();
      if l.None? {
        return Error(BadCapture);
      }
      assert capture[l.v] == Caps()[l.v];
      capture[l.v] := capture[l.v].(len := Len(s - capture[l.v].start));
      assert Caps() == Closed(old(Caps()), l.v, s);
      r := Match(s, next);
      if r == NoMatch {
        assert capture[l.v] == Caps()[l.v];
        capture[l.v] := capture[l.v].(len := Unfinished);
        assert Caps() == old(Caps());
      }
    }

    /**
      What every attempt keeps. A failed one restores `level` and all captures below it, and an
      attempt is too complex only if the rest of the pattern is longer than the depth that is left.
     */
    ghost predicate Kept(s: nat, r: Attempt, depth: int, caps: seq<Capture>, rest: int)
      reads this, capture
    {
      && (!r.Error? ==> Valid() && matchdepth == depth)
      && (r.Error? ==> capture.Length == LUA_MAXCAPTURES && level <= LUA_MAXCAPTURES)
      && (r.End? ==> s <= r.e <= |src| && CapsWithin(Caps(), r.e))
      && (r.NoMatch? ==> Caps() == caps)
      && (r == Error(TooComplex) ==> depth <= rest)
    }

    /** A class with its optional suffix: the attempt is over with `r`, or goes on at `t` and `q`. */
    method MatchDefault(s: nat, p: nat) returns (r: Attempt, again: bool, t: nat, q: nat)
      requires Valid() && s <= |src| && IsSingle(pat, p) && CapsWithin(Caps(), s)
      modifies this, capture
      ensures again ==> r == NoMatch && s <= t <= |src| && p < q <= |pat|
      ensures again ==> Outs(G(), s, p, old(Caps())) == Outs(G(), t, q, old(Caps()))
      ensures !again && r != Error(TooComplex) ==> Best(r, Outs(G(), s, p, old(Caps())), Caps())
      ensures Kept(s, r, old(matchdepth), old(Caps()), |pat| - p - 1)
      decreases |pat| - p, 0
    {
      hide Outs, Downwards, Upwards, RunLength, InSet, InSetFrom, SingleMatches, Patterns.ClassEnd, ItemAt, MatchClass, Tells, TellsOfAll;
      again, t, q := false, s, p;
      var ep := ClassEnd(p);
      if ep.None? {
        AtMalformed(G(), s, p, Caps());
        r := Error(ClassFault(pat, p));
        return;
      }
      AtSingle(G(), s, p, Caps());
      var suffix := ByteAt(pat, ep.v);
      var one := SingleMatch(s, p, ep.v);
      if one {
        RunStarts(s, p, ep.v);
        if suffix == 63 {
          r := Match(s + 1, ep.v + 1);
          if r == NoMatch {
            again, q := true, ep.v + 1;
          }
        } else if suffix == 43 || suffix == 42 {
          r := MaxExpand(if suffix == 43 then s + 1 else s, p, ep.v, ep.v + 1);
        } else if suffix == 45 {
          r := MinExpand(s, p, ep.v, ep.v + 1);
        } else {
          r, again, t, q := NoMatch, true, s + 1, ep.v;
        }
      } else {
        r := NoMatch;
        if suffix == 42 || suffix == 63 || suffix == 45 {
          again, q := true, ep.v + 1;
        }
      }
    }

    lemma RunStarts(s: nat, p: nat, ep: nat)
      requires ep > 0 && SingleMatches(ct, src, pat, s, p, ep)
      ensures s < |src|
    {
    }

    /** The escapes `%b`, `%f` and `%0` to `%9`: the attempt is over with `r`, or goes on at `t` and `q`. */
    method MatchEscape(s: nat, p: nat) returns (r: Attempt, again: bool, t: nat, q: nat)
      requires Valid() && s <= |src| && CapsWithin(Caps(), s)
      requires p < |pat| && pat[p] == ESC && !IsSingle(pat, p)
      ensures again ==> r == NoMatch && s <= t <= |src| && p < q <= |pat|
      ensures again ==> Outs(G(), s, p, Caps()) == Outs(G(), t, q, Caps())
      ensures !again ==> !r.End? && r != Error(TooComplex) && Best(r, Outs(G(), s, p, Caps()), Caps())
    {
      hide Outs, InSet, SingleMatches, Balance, CaptureIndex, BackReference, Patterns.ClassEnd, ItemAt, MatchClass;
      again, t, q := false, s, p;
      var c := ByteAt(pat, p + 1);
      if c == 98 {
        AtBalance(G(), s, p, Caps());
        r := MatchBalance(s, p + 2);
        if r.End? {
          r, again, t, q := NoMatch, true, r.e, p + 4;
        }
      } else if c == 102 {
        AtSet(G(), s, p, Caps());
        if ByteAt(pat, p + 2) != 91 {
          r := Error(MissingFrontierSet);
          return;
        }
        var ep := ClassEnd(p + 2);
        if ep.None? {
          r := Error(MissingBracket);
          return;
        }
        r := NoMatch;
        var previous := if s == 0 then 0 else src[s - 1];
        var before := MatchBracketClass(previous, p + 2, ep.v - 1);
        var here := MatchBracketClass(ByteAt(src, s), p + 2, ep.v - 1);
        if !before && here {
          again, q := true, ep.v;
        }
      } else {
        AtReference(G(), s, p, Caps());
        r := MatchCapture(s, c);
        if r.End? {
          r, again, t, q := NoMatch, true, r.e, p + 2;
        }
      }
    }

    /** `match`: the best outcome of the pattern from `p` on at `s`. */
    method Match(s0: nat, p0: nat) returns (r: Attempt)
      requires Valid() && s0 <= |src| && p0 <= |pat| && CapsWithin(Caps(), s0)
      modifies this, capture
      ensures r != Error(TooComplex) ==> Best(r, Outs(G(), s0, p0, old(Caps())), Caps())
      ensures r != Error(TooComplex) ==> Tells(r, G(), s0, p0, old(Caps()), Caps())
      ensures Kept(s0, r, old(matchdepth), old(Caps()), |pat| - p0)
      decreases |pat| - p0, 1
    {
      hide Outs, Downwards, Upwards, RunLength, InSet, InSetFrom, SingleMatches, Balance, ToClose, CaptureIndex, BackReference, Patterns.ClassEnd, ItemAt, Closed, MatchClass, Tells, TellsOfAll;
      ghost var caps, outs := Caps(), Outs(G(), s0, p0, Caps());
      BestTells(G(), s0, p0, caps);
      if matchdepth == 0 {
        matchdepth := matchdepth - 1;
        return Error(TooComplex);
      }
      matchdepth := matchdepth - 1;
      var s, p := s0, p0;
      r := End(s);
      while p != |pat|
        invariant s0 <= s <= |src| && p0 <= p <= |pat|
        invariant Valid() && matchdepth == old(matchdepth) - 1 && Caps() == caps && CapsWithin(caps, s)
        invariant outs == Outs(G(), s, p, caps)
        decreases |pat| - p
      {
        var c := pat[p];
        if c == 40 {
          AtOpen(G(), s, p, caps);
          if ByteAt(pat, p + 1) == 41 {
            r := StartCapture(s, p + 2, Position);
          } else {
            r := StartCapture(s, p + 1, Unfinished);
          }
          if r.Error? { return; }
          matchdepth := matchdepth + 1;
          return;
        } else if c == 41 {
          AtClose(G(), s, p, caps);
          r := EndCapture(s, p + 1);
          if r.Error? { return; }
          matchdepth := matchdepth + 1;
          return;
        } else if c == 36 && p + 1 == |pat| {
          AtAnchor(G(), s, p, caps);
          r := if s == |src| then End(s) else NoMatch;
          matchdepth := matchdepth + 1;
          return;
        } else {
          var again, t, q;
          if IsSingle(pat, p) {
            r, again, t, q := MatchDefault(s, p);
          } else {
            r, again, t, q := MatchEscape(s, p);
          }
          if r.Error? { return; }
          if !again {
            matchdepth := matchdepth + 1;
            return;
          }
          s, p := t, q;
        }
      }
      AtEnd(G(), s, caps);
      matchdepth := matchdepth + 1;
      return End(s);
    }
  }
}
