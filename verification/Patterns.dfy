/**
  What Lua patterns mean (section 6.4.1 of the Lua 5.3 Reference Manual): which
  ends a pattern can have from a position of the subject, as a relation, and in
  which order they are tried.
 */
module Patterns {

  type Bytes = seq<nat>

  const ESC := 37
  const LUA_MAXCAPTURES := 32

  /** The classes of the C library that `match_class` asks for. */
  datatype CClass = Alpha | Cntrl | Digit | Graph | Lower | Punct | Space | Upper | Alnum | XDigit

  type CType = (CClass, nat) -> bool

  datatype Fault = EndsWithPercent | MissingBracket | MissingBalanceArgs | MissingFrontierSet | BadCaptureIndex | BadCapture | TooManyCaptures | UnfinishedCapture | TooComplex

  /** A capture: a finished one has a length; a position capture none. */
  datatype Length = Unfinished | Position | Len(n: nat)
  datatype Capture = Capture(start: nat, len: Length)

  /** One outcome of an alternative: an end with its captures, or an error. */
  datatype Out = At(e: nat, caps: seq<Capture>) | Wrong(why: Fault)

  datatype Option<T> = None | Some(v: T)

  /** The byte at `i`; past the end there is a zero byte. */
  function ByteAt(s: Bytes, i: nat): nat {
    if i < |s| then s[i] else 0
  }

  function ToLower(c: nat): nat {
    if 65 <= c <= 90 then c + 32 else c
  }

  /** `match_class`: an upper-case letter is the complement of its lower-case one. */
  predicate MatchClass(ct: CType, c: nat, cl: nat) {
    var l := ToLower(cl);
    if l == 97 then ct(Alpha, c) == (cl == l)
    else if l == 99 then ct(Cntrl, c) == (cl == l)
    else if l == 100 then ct(Digit, c) == (cl == l)
    else if l == 103 then ct(Graph, c) == (cl == l)
    else if l == 108 then ct(Lower, c) == (cl == l)
    else if l == 112 then ct(Punct, c) == (cl == l)
    else if l == 115 then ct(Space, c) == (cl == l)
    else if l == 117 then ct(Upper, c) == (cl == l)
    else if l == 119 then ct(Alnum, c) == (cl == l)
    else if l == 120 then ct(XDigit, c) == (cl == l)
    else if l == 122 then (c == 0) == (cl == l)
    else cl == c
  }

  // ---------- sets ----------

  /** The set elements from `i` on, up to the closing bracket at `ec`, contain `c`. */
  predicate InSetFrom(ct: CType, pat: Bytes, c: nat, i: nat, ec: nat)
    decreases ec - i
  {
    i < ec &&
    if ByteAt(pat, i) == ESC then MatchClass(ct, c, ByteAt(pat, i + 1)) || InSetFrom(ct, pat, c, i + 2, ec)
    else if ByteAt(pat, i + 1) == 45 && i + 2 < ec then ByteAt(pat, i) <= c <= ByteAt(pat, i + 2) || InSetFrom(ct, pat, c, i + 3, ec)
    else ByteAt(pat, i) == c || InSetFrom(ct, pat, c, i + 1, ec)
  }

  /** `c` is in the set whose bracket is at `p` and whose closing bracket is at `ec`. */
  predicate InSet(ct: CType, pat: Bytes, c: nat, p: nat, ec: nat) {
    if ByteAt(pat, p + 1) == 94 then !InSetFrom(ct, pat, c, p + 2, ec) else InSetFrom(ct, pat, c, p + 1, ec)
  }

  /** Where the set element loop of `classend` stops: behind the closing bracket. */
  function SetEnd(pat: Bytes, p: nat): (r: Option<nat>)
    ensures r.Some? ==> p + 2 <= r.v <= |pat|
    decreases |pat| - p
  {
    if p >= |pat| then None
    else
      var q := if pat[p] == ESC && p + 1 < |pat| then p + 2 else p + 1;
      if ByteAt(pat, q) == 93 && q < |pat| then Some(q + 1) else SetEnd(pat, q)
  }

  /** `classend`: the position behind a single-character class, or an error. */
  function ClassEnd(pat: Bytes, p: nat): (r: Option<nat>)
    requires p < |pat|
    ensures r.Some? ==> p < r.v <= |pat|
  {
    if pat[p] == ESC then (if p + 1 == |pat| then None else Some(p + 2))
    else if pat[p] == 91 then SetEnd(pat, if ByteAt(pat, p + 1) == 94 then p + 2 else p + 1)
    else Some(p + 1)
  }

  function ClassFault(pat: Bytes, p: nat): Fault {
    if ByteAt(pat, p) == ESC then EndsWithPercent else MissingBracket
  }

  /** `singlematch`: the class at `p`, which ends at `ep`, matches the byte at `s`. */
  predicate SingleMatches(ct: CType, src: Bytes, pat: Bytes, s: nat, p: nat, ep: nat)
    requires ep > 0
  {
    s < |src| &&
    var c := src[s];
    if ByteAt(pat, p) == 46 then true
    else if ByteAt(pat, p) == ESC then MatchClass(ct, c, ByteAt(pat, p + 1))
    else if ByteAt(pat, p) == 91 then InSet(ct, pat, c, p, ep - 1)
    else ByteAt(pat, p) == c
  }

  /** The number of bytes from `s` on that match the class. */
  function RunLength(ct: CType, src: Bytes, pat: Bytes, s: nat, p: nat, ep: nat): (n: nat)
    requires ep > 0
    ensures n > 0 ==> s + n <= |src|
    ensures forall t :: s <= t < s + n ==> SingleMatches(ct, src, pat, t, p, ep)
    ensures !SingleMatches(ct, src, pat, s + n, p, ep)
    decreases |src| - s
  {
    if SingleMatches(ct, src, pat, s, p, ep) then 1 + RunLength(ct, src, pat, s + 1, p, ep) else 0
  }

  // ---------- balanced strings and back references ----------

  /** How many more `b` than `e` there are from `s` up to `t`; a byte that is both counts as `e`, but for the first. */
  function Depth(src: Bytes, b: nat, e: nat, s: nat, t: nat): int
    requires s < t <= |src|
    decreases t
  {
    if t == s + 1 then 1
    else Depth(src, b, e, s, t - 1) + if src[t - 1] == e then -1 else if src[t - 1] == b then 1 else 0
  }

  /** `r` is where the string that begins with `b` at `s` is balanced for the first time. */
  ghost predicate BalancedAt(src: Bytes, b: nat, e: nat, s: nat, r: nat) {
    && s < r <= |src| && ByteAt(src, s) == b && Depth(src, b, e, s, r) == 0
    && forall t :: s < t < r ==> Depth(src, b, e, s, t) > 0
  }

  function BalanceEnd(src: Bytes, b: nat, e: nat, s: nat, t: nat): (r: Option<nat>)
    requires s < t <= |src| && Depth(src, b, e, s, t) > 0
    ensures r.Some? ==> t < r.v <= |src| && Depth(src, b, e, s, r.v) == 0 && forall q :: t < q < r.v ==> Depth(src, b, e, s, q) > 0
    ensures r.None? ==> forall q :: t < q <= |src| ==> Depth(src, b, e, s, q) > 0
    decreases |src| - t
  {
    if t == |src| then None
    else if Depth(src, b, e, s, t + 1) == 0 then Some(t + 1)
    else BalanceEnd(src, b, e, s, t + 1)
  }

  /** `matchbalance`. */
  function Balance(src: Bytes, b: nat, e: nat, s: nat): (r: Option<nat>)
    ensures r.Some? ==> s < |src| && BalancedAt(src, b, e, s, r.v)
    ensures r.None? ==> forall q :: !BalancedAt(src, b, e, s, q)
  {
    if s >= |src| || src[s] != b then None else BalanceEnd(src, b, e, s, s + 1)
  }

  /** `check_capture`: the capture that `%l` refers to. */
  function CaptureIndex(caps: seq<Capture>, l: nat): Option<nat> {
    if 49 <= l && l - 49 < |caps| && caps[l - 49].len != Unfinished then Some(l - 49) else None
  }

  /** `match_capture`: the text of the capture again. */
  function BackReference(src: Bytes, c: Capture, s: nat): Option<nat> {
    if c.len.Len? && s + c.len.n <= |src| && c.start + c.len.n <= |src| && src[c.start..c.start + c.len.n] == src[s..s + c.len.n] then Some(s + c.len.n) else None
  }

  /** `capture_to_close`: the last unfinished capture. */
  function ToClose(caps: seq<Capture>): (r: Option<nat>)
    ensures r.Some? ==> r.v < |caps| && caps[r.v].len == Unfinished && forall i :: r.v < i < |caps| ==> caps[i].len != Unfinished
    ensures r.None? ==> forall i :: 0 <= i < |caps| ==> caps[i].len != Unfinished
  {
    if caps == [] then None
    else if caps[|caps| - 1].len == Unfinished then Some(|caps| - 1)
    else ToClose(caps[..|caps| - 1])
  }

  function Closed(caps: seq<Capture>, l: nat, s: nat): seq<Capture>
    requires l < |caps|
  {
    caps[l := caps[l].(len := if caps[l].start <= s then Len(s - caps[l].start) else Len(0))]
  }

  // ---------- the items of a pattern ----------

  /** The next item of a pattern, with the position behind it. */
  datatype Item =
    | Finish
    | Open(what: Length, next: nat)
    | Close(next: nat)
    | Anchor
    | Balanced(b: nat, e: nat, next: nat)
    | Frontier(set0: nat, next: nat)
    | Reference(l: nat, next: nat)
    | Single(ep: nat, suffix: Suffix, next: nat)
    | Malformed(why: Fault)

  datatype Suffix = Once | Maybe | Star | Plus | Lazy

  function SuffixAt(pat: Bytes, ep: nat): Suffix {
    var c := ByteAt(pat, ep);
    if c == 63 then Maybe else if c == 42 then Star else if c == 43 then Plus else if c == 45 then Lazy else Once
  }

  function SingleAt(pat: Bytes, p: nat): Item
    requires p < |pat|
  {
    match ClassEnd(pat, p)
    case None => Malformed(ClassFault(pat, p))
    case Some(ep) => var sf := SuffixAt(pat, ep); Single(ep, sf, if sf == Once then ep else ep + 1)
  }

  function ItemAt(pat: Bytes, p: nat): (i: Item)
    requires p <= |pat|
    ensures i.Open? || i.Close? || i.Balanced? || i.Frontier? || i.Reference? || i.Single? ==> p < i.next <= |pat|
    ensures i.Single? ==> p < i.ep <= |pat|
  {
    if p == |pat| then Finish
    else if pat[p] == 40 then (if ByteAt(pat, p + 1) == 41 && p + 1 < |pat| then Open(Position, p + 2) else Open(Unfinished, p + 1))
    else if pat[p] == 41 then Close(p + 1)
    else if pat[p] == 36 && p + 1 == |pat| then Anchor
    else if pat[p] == ESC then
      var c := ByteAt(pat, p + 1);
      if c == 98 then (if p + 3 >= |pat| then Malformed(MissingBalanceArgs) else Balanced(pat[p + 2], pat[p + 3], p + 4))
      else if c == 102 then
        if ByteAt(pat, p + 2) != 91 || p + 2 >= |pat| then Malformed(MissingFrontierSet)
        else (match ClassEnd(pat, p + 2)
              case None => Malformed(MissingBracket)
              case Some(ep) => Frontier(p + 2, ep))
      else if 48 <= c <= 57 then Reference(c, p + 2)
      else SingleAt(pat, p)
    else SingleAt(pat, p)
  }

  /** `%f[set]` matches between `s - 1` and `s`. */
  predicate AtFrontier(ct: CType, src: Bytes, pat: Bytes, s: nat, p: nat, ep: nat)
    requires ep > 0
  {
    !InSet(ct, pat, if s == 0 then 0 else ByteAt(src, s - 1), p, ep - 1) && InSet(ct, pat, ByteAt(src, s), p, ep - 1)
  }

  // ---------- all outcomes in the order of the attempts ----------

  /** Everything fixed during a match. */
  datatype Problem = Problem(ct: CType, src: Bytes, pat: Bytes)

  /**
    The outcomes of the pattern from `p` on at subject position `s`, best first: repetitions
    with `*` and `+` try the most, `-` the fewest first, `?` tries one before none.
   */
  function Outs(g: Problem, s: nat, p: nat, caps: seq<Capture>): seq<Out>
    requires p <= |g.pat|
    decreases |g.pat| - p, 1, 0
  {
    match ItemAt(g.pat, p)
    case Finish => [At(s, caps)]
    case Malformed(why) => [Wrong(why)]
    case Open(what, next) => if |caps| >= LUA_MAXCAPTURES then [Wrong(TooManyCaptures)] else Outs(g, s, next, caps + [Capture(s, what)])
    case Close(next) =>
      (match ToClose(caps)
       case None => [Wrong(BadCapture)]
       case Some(l) => Outs(g, s, next, Closed(caps, l, s)))
    case Anchor => if s == |g.src| then [At(s, caps)] else []
    case Balanced(b, e, next) =>
      (match Balance(g.src, b, e, s)
       case None => []
       case Some(t) => Outs(g, t, next, caps))
    case Frontier(q, next) => if AtFrontier(g.ct, g.src, g.pat, s, q, next) then Outs(g, s, next, caps) else []
    case Reference(l, next) =>
      (match CaptureIndex(caps, l)
       case None => [Wrong(BadCaptureIndex)]
       case Some(i) =>
         match BackReference(g.src, caps[i], s)
         case None => []
         case Some(t) => Outs(g, t, next, caps))
    case Single(ep, suffix, next) =>
      var one := SingleMatches(g.ct, g.src, g.pat, s, p, ep);
      match suffix
      case Once => if one then Outs(g, s + 1, next, caps) else []
      case Maybe => if one then Outs(g, s + 1, next, caps) + Outs(g, s, next, caps) else Outs(g, s, next, caps)
      case Star => Downwards(g, s, RunLength(g.ct, g.src, g.pat, s, p, ep), next, caps)
      case Plus => if one then Downwards(g, s + 1, RunLength(g.ct, g.src, g.pat, s + 1, p, ep), next, caps) else []
      case Lazy => Upwards(g, s, RunLength(g.ct, g.src, g.pat, s, p, ep), next, caps)
  }

  /** With `n`, `n` - 1, ..., 0 repetitions before the rest. */
  function Downwards(g: Problem, s: nat, n: nat, next: nat, caps: seq<Capture>): seq<Out>
    requires next <= |g.pat|
    decreases |g.pat| - next, 2, n
  {
    Outs(g, s + n, next, caps) + if n == 0 then [] else Downwards(g, s, n - 1, next, caps)
  }

  /** With 0, 1, ..., `n` repetitions before the rest. */
  function Upwards(g: Problem, s: nat, n: nat, next: nat, caps: seq<Capture>): seq<Out>
    requires next <= |g.pat|
    decreases |g.pat| - next, 2, n
  {
    Outs(g, s, next, caps) + if n == 0 then [] else Upwards(g, s + 1, n - 1, next, caps)
  }

  // ---------- which ends there are, order aside ----------

  /** All bytes from `s` up to `t` match the class at `p`. */
  ghost predicate Repeats(g: Problem, s: nat, p: nat, ep: nat, t: nat)
    requires ep > 0
  {
    s <= t && forall q :: s <= q < t ==> SingleMatches(g.ct, g.src, g.pat, q, p, ep)
  }

  /** The pattern from `p` on can have the outcome `o` at `s`. */
  ghost predicate Can(g: Problem, s: nat, p: nat, caps: seq<Capture>, o: Out)
    requires p <= |g.pat|
    decreases |g.pat| - p
  {
    match ItemAt(g.pat, p)
    case Finish => o == At(s, caps)
    case Malformed(why) => o == Wrong(why)
    case Open(what, next) => if |caps| >= LUA_MAXCAPTURES then o == Wrong(TooManyCaptures) else Can(g, s, next, caps + [Capture(s, what)], o)
    case Close(next) => if ToClose(caps).None? then o == Wrong(BadCapture) else Can(g, s, next, Closed(caps, ToClose(caps).v, s), o)
    case Anchor => s == |g.src| && o == At(s, caps)
    case Balanced(b, e, next) => exists t: nat :: BalancedAt(g.src, b, e, s, t) && Can(g, t, next, caps, o)
    case Frontier(q, next) => AtFrontier(g.ct, g.src, g.pat, s, q, next) && Can(g, s, next, caps, o)
    case Reference(l, next) =>
      if CaptureIndex(caps, l).None? then o == Wrong(BadCaptureIndex)
      else
        var t := BackReference(g.src, caps[CaptureIndex(caps, l).v], s);
        t.Some? && Can(g, t.v, next, caps, o)
    case Single(ep, suffix, next) =>
      exists t: nat :: Repeats(g, s, p, ep, t) && Allowed(suffix, t - s) && Can(g, t, next, caps, o)
  }

  /** How often an item may be repeated. */
  predicate Allowed(suffix: Suffix, k: int) {
    match suffix
    case Once => k == 1
    case Maybe => k <= 1
    case Star => true
    case Plus => k >= 1
    case Lazy => true
  }

  lemma RunIsLongest(g: Problem, s: nat, p: nat, ep: nat, t: nat)
    requires ep > 0
    ensures Repeats(g, s, p, ep, t) <==> s <= t <= s + RunLength(g.ct, g.src, g.pat, s, p, ep)
  {
    var n := RunLength(g.ct, g.src, g.pat, s, p, ep);
    assert !SingleMatches(g.ct, g.src, g.pat, s + n, p, ep);
  }

  lemma BalanceUnique(src: Bytes, b: nat, e: nat, s: nat, t: nat)
    ensures BalancedAt(src, b, e, s, t) <==> Balance(src, b, e, s) == Some(t)
  {
    var r := Balance(src, b, e, s);
    if r.Some? && BalancedAt(src, b, e, s, t) {
      assert !(t < r.v);
      assert !(r.v < t);
    }
  }

  /** `o` is an outcome of the rest at some position from `lo` to `hi`. */
  ghost predicate Somewhere(g: Problem, lo: nat, hi: int, next: nat, caps: seq<Capture>, o: Out)
    requires next <= |g.pat|
  {
    exists t: nat :: lo <= t <= hi && o in Outs(g, t, next, caps)
  }

  lemma {:induction false} InDownwards(g: Problem, s: nat, n: nat, next: nat, caps: seq<Capture>, o: Out)
    requires next <= |g.pat|
    ensures o in Downwards(g, s, n, next, caps) <==> Somewhere(g, s, s + n, next, caps, o)
    decreases n
  {
    hide Outs, Somewhere;
    SomewhereLast(g, s, s + n, next, caps, o);
    if n > 0 {
      InDownwards(g, s, n - 1, next, caps, o);
    }
  }

  lemma {:induction false} InUpwards(g: Problem, s: nat, n: nat, next: nat, caps: seq<Capture>, o: Out)
    requires next <= |g.pat|
    ensures o in Upwards(g, s, n, next, caps) <==> Somewhere(g, s, s + n, next, caps, o)
    decreases n
  {
    hide Outs, Somewhere;
    SomewhereFirst(g, s, s + n, next, caps, o);
    if n > 0 {
      InUpwards(g, s + 1, n - 1, next, caps, o);
    }
  }

  lemma SomewhereLast(g: Problem, s: nat, t: nat, next: nat, caps: seq<Capture>, o: Out)
    requires next <= |g.pat| && s <= t
    ensures Somewhere(g, s, t, next, caps, o) <==> o in Outs(g, t, next, caps) || (s < t && Somewhere(g, s, t - 1, next, caps, o))
  {
    hide Outs;
  }

  lemma SomewhereFirst(g: Problem, s: nat, t: nat, next: nat, caps: seq<Capture>, o: Out)
    requires next <= |g.pat| && s <= t
    ensures Somewhere(g, s, t, next, caps, o) <==> o in Outs(g, s, next, caps) || (s < t && Somewhere(g, s + 1, t, next, caps, o))
  {
    hide Outs;
  }

  /** `o` is an outcome of the rest after an allowed number of repetitions. */
  ghost predicate After(g: Problem, s: nat, p: nat, ep: nat, suffix: Suffix, next: nat, caps: seq<Capture>, o: Out)
    requires ep > 0 && next <= |g.pat|
  {
    exists t: nat :: Repeats(g, s, p, ep, t) && Allowed(suffix, t - s) && o in Outs(g, t, next, caps)
  }

  /** The numbers of repetitions that a suffix allows. */
  lemma RunAllows(g: Problem, s: nat, p: nat, ep: nat, t: nat)
    requires ep > 0
    ensures var n := RunLength(g.ct, g.src, g.pat, s, p, ep);
            && (Repeats(g, s, p, ep, t) && Allowed(Star, t - s) <==> s <= t <= s + n)
            && (Repeats(g, s, p, ep, t) && Allowed(Lazy, t - s) <==> s <= t <= s + n)
            && (Repeats(g, s, p, ep, t) && Allowed(Plus, t - s) <==> s + 1 <= t <= s + n)
  {
    RunIsLongest(g, s, p, ep, t);
    hide Repeats, RunLength;
  }

  lemma AfterSomewhere(g: Problem, s: nat, p: nat, ep: nat, suffix: Suffix, next: nat, caps: seq<Capture>, o: Out, lo: nat, hi: nat)
    requires ep > 0 && next <= |g.pat| && forall t: nat :: Repeats(g, s, p, ep, t) && Allowed(suffix, t - s) <==> lo <= t <= hi
    ensures After(g, s, p, ep, suffix, next, caps, o) <==> Somewhere(g, lo, hi, next, caps, o)
  {
    hide Repeats, Allowed, Outs;
  }

  /** The repetitions of an item, whatever their order. */
  lemma InRepetitions(g: Problem, s: nat, p: nat, caps: seq<Capture>, o: Out)
    requires p <= |g.pat| && ItemAt(g.pat, p).Single?
    ensures var i := ItemAt(g.pat, p);
            o in Outs(g, s, p, caps) <==> After(g, s, p, i.ep, i.suffix, i.next, caps, o)
  {
    hide Repeats, Allowed, After, Somewhere, RunLength;
    var i := ItemAt(g.pat, p);
    var n := RunLength(g.ct, g.src, g.pat, s, p, i.ep);
    if i.suffix == Once || i.suffix == Maybe {
      FewRepetitions(g, s, p, caps, o);
    } else {
      var lo := if i.suffix == Plus then s + 1 else s;
      forall t: nat ensures Repeats(g, s, p, i.ep, t) && Allowed(i.suffix, t - s) <==> lo <= t <= s + n {
        RunAllows(g, s, p, i.ep, t);
      }
      AfterSomewhere(g, s, p, i.ep, i.suffix, i.next, caps, o, lo, s + n);
      ManyRepetitions(g, s, p, caps, o);
    }
  }

  lemma ManyRepetitions(g: Problem, s: nat, p: nat, caps: seq<Capture>, o: Out)
    requires p <= |g.pat| && ItemAt(g.pat, p).Single?
    requires ItemAt(g.pat, p).suffix != Once && ItemAt(g.pat, p).suffix != Maybe
    ensures var i := ItemAt(g.pat, p);
            var n := RunLength(g.ct, g.src, g.pat, s, p, i.ep);
            o in Outs(g, s, p, caps) <==> Somewhere(g, if i.suffix == Plus then s + 1 else s, s + n, i.next, caps, o)
  {
    hide Downwards, Upwards, RunLength, Repeats;
    var i := ItemAt(g.pat, p);
    var n := RunLength(g.ct, g.src, g.pat, s, p, i.ep);
    if i.suffix == Star {
      InDownwards(g, s, n, i.next, caps, o);
    } else if i.suffix == Plus {
      if n > 0 {
        InDownwards(g, s + 1, n - 1, i.next, caps, o);
      }
    } else {
      InUpwards(g, s, n, i.next, caps, o);
    }
  }

  lemma FewRepetitions(g: Problem, s: nat, p: nat, caps: seq<Capture>, o: Out)
    requires p <= |g.pat| && ItemAt(g.pat, p).Single?
    requires ItemAt(g.pat, p).suffix == Once || ItemAt(g.pat, p).suffix == Maybe
    ensures var i := ItemAt(g.pat, p);
            o in Outs(g, s, p, caps) <==> After(g, s, p, i.ep, i.suffix, i.next, caps, o)
  {
    var i := ItemAt(g.pat, p);
    var one := SingleMatches(g.ct, g.src, g.pat, s, p, i.ep);
    assert Repeats(g, s, p, i.ep, s);
    assert Repeats(g, s, p, i.ep, s + 1) <==> one;
    if o in Outs(g, s, p, caps) {
      if one && o in Outs(g, s + 1, i.next, caps) {
        assert Allowed(i.suffix, s + 1 - s);
      } else {
        assert i.suffix == Maybe && o in Outs(g, s, i.next, caps);
        assert Allowed(i.suffix, s - s);
      }
    }
  }

  /** The list of attempts leaves nothing out and invents nothing. */
  lemma {:induction false} OutsComplete(g: Problem, s: nat, p: nat, caps: seq<Capture>, o: Out)
    requires p <= |g.pat|
    ensures o in Outs(g, s, p, caps) <==> Can(g, s, p, caps, o)
    decreases |g.pat| - p
  {
    var i := ItemAt(g.pat, p);
    match i
    case Finish =>
    case Malformed(_) =>
    case Anchor =>
    case Open(what, next) =>
      OutsComplete(g, s, next, caps + [Capture(s, what)], o);
    case Close(next) =>
      if ToClose(caps).Some? {
        OutsComplete(g, s, next, Closed(caps, ToClose(caps).v, s), o);
      }
    case Balanced(b, e, next) =>
      var r := Balance(g.src, b, e, s);
      forall t: nat ensures BalancedAt(g.src, b, e, s, t) <==> r == Some(t) {
        BalanceUnique(g.src, b, e, s, t);
      }
      if r.Some? {
        OutsComplete(g, r.v, next, caps, o);
      }
    case Frontier(_, next) =>
      OutsComplete(g, s, next, caps, o);
    case Reference(l, next) =>
      if CaptureIndex(caps, l).Some? {
        var t := BackReference(g.src, caps[CaptureIndex(caps, l).v], s);
        if t.Some? {
          OutsComplete(g, t.v, next, caps, o);
        }
      }
    case Single(ep, suffix, next) =>
      InRepetitions(g, s, p, caps, o);
      forall t: nat ensures o in Outs(g, t, next, caps) <==> Can(g, t, next, caps, o) {
        OutsComplete(g, t, next, caps, o);
      }
      if o in Outs(g, s, p, caps) {
        var t: nat :| Repeats(g, s, p, ep, t) && Allowed(suffix, t - s) && o in Outs(g, t, next, caps);
        assert Can(g, t, next, caps, o);
      }
      if Can(g, s, p, caps, o) {
        var t: nat :| Repeats(g, s, p, ep, t) && Allowed(suffix, t - s) && Can(g, t, next, caps, o);
        assert o in Outs(g, t, next, caps);
      }
  }

  // ---------- which outcome comes first, without the list ----------

  /** The pattern from `p` on has no outcome at `s`. */
  ghost predicate Fails(g: Problem, s: nat, p: nat, caps: seq<Capture>)
    requires p <= |g.pat|
  {
    forall o: Out :: !Can(g, s, p, caps, o)
  }

  /** Position `u` is tried before `t`: the most repetitions first, but with `-` the fewest. */
  predicate Before(suffix: Suffix, u: int, t: int) {
    if suffix == Lazy then u < t else u > t
  }

  /** After an allowed repetition up to `t` it is the turn of the rest: at all positions tried before, the rest has no outcome. */
  ghost predicate Turn(g: Problem, s: nat, p: nat, ep: nat, suffix: Suffix, next: nat, caps: seq<Capture>, t: nat)
    requires ep > 0 && next <= |g.pat|
  {
    && Repeats(g, s, p, ep, t) && Allowed(suffix, t - s)
    && forall u: nat :: Repeats(g, s, p, ep, u) && Allowed(suffix, u - s) && Before(suffix, u, t) ==> Fails(g, u, next, caps)
  }

  /** Of the outcomes that the pattern from `p` on can have at `s`, `o` is the one that is found first. */
  ghost predicate First(g: Problem, s: nat, p: nat, caps: seq<Capture>, o: Out)
    requires p <= |g.pat|
    decreases |g.pat| - p
  {
    match ItemAt(g.pat, p)
    case Finish => o == At(s, caps)
    case Malformed(why) => o == Wrong(why)
    case Open(what, next) => if |caps| >= LUA_MAXCAPTURES then o == Wrong(TooManyCaptures) else First(g, s, next, caps + [Capture(s, what)], o)
    case Close(next) => if ToClose(caps).None? then o == Wrong(BadCapture) else First(g, s, next, Closed(caps, ToClose(caps).v, s), o)
    case Anchor => s == |g.src| && o == At(s, caps)
    case Balanced(b, e, next) => exists t: nat :: BalancedAt(g.src, b, e, s, t) && First(g, t, next, caps, o)
    case Frontier(q, next) => AtFrontier(g.ct, g.src, g.pat, s, q, next) && First(g, s, next, caps, o)
    case Reference(l, next) =>
      if CaptureIndex(caps, l).None? then o == Wrong(BadCaptureIndex)
      else
        var t := BackReference(g.src, caps[CaptureIndex(caps, l).v], s);
        t.Some? && First(g, t.v, next, caps, o)
    case Single(ep, suffix, next) => exists t: nat :: Turn(g, s, p, ep, suffix, next, caps, t) && First(g, t, next, caps, o)
  }

  /** `o` heads the list of outcomes. */
  predicate Heads(o: Out, outs: seq<Out>) {
    outs != [] && outs[0] == o
  }

  lemma NoOutcome(g: Problem, s: nat, p: nat, caps: seq<Capture>)
    requires p <= |g.pat|
    ensures Fails(g, s, p, caps) <==> Outs(g, s, p, caps) == []
  {
    hide Outs, Can;
    forall o: Out ensures o in Outs(g, s, p, caps) <==> Can(g, s, p, caps, o) {
      OutsComplete(g, s, p, caps, o);
    }
    if Outs(g, s, p, caps) != [] {
      assert Outs(g, s, p, caps)[0] in Outs(g, s, p, caps);
    }
  }

  /** The list is that of the rest at `t`, where the others from `lo` to `hi` that come before `t` have none. */
  ghost predicate HeadFrom(g: Problem, lo: nat, hi: int, down: bool, next: nat, caps: seq<Capture>, o: Out, t: nat)
    requires next <= |g.pat|
  {
    lo <= t <= hi && Heads(o, Outs(g, t, next, caps)) && forall u: nat :: lo <= u <= hi && (if down then u > t else u < t) ==> Outs(g, u, next, caps) == []
  }

  lemma {:induction false} HeadDownwards(g: Problem, s: nat, hi: nat, next: nat, caps: seq<Capture>, o: Out)
    requires next <= |g.pat| && s <= hi
    ensures Heads(o, Downwards(g, s, hi - s, next, caps)) <==> exists t: nat :: HeadFrom(g, s, hi, true, next, caps, o, t)
    decreases hi
  {
    hide Outs;
    if Outs(g, hi, next, caps) != [] {
      assert Heads(o, Outs(g, hi, next, caps)) ==> HeadFrom(g, s, hi, true, next, caps, o, hi);
    } else if s < hi {
      var before := hi - 1;
      HeadDownwards(g, s, before, next, caps, o);
      forall t: nat ensures HeadFrom(g, s, hi, true, next, caps, o, t) <==> HeadFrom(g, s, before, true, next, caps, o, t) {
      }
    }
  }

  lemma {:induction false} HeadUpwards(g: Problem, s: nat, hi: nat, next: nat, caps: seq<Capture>, o: Out)
    requires next <= |g.pat| && s <= hi
    ensures Heads(o, Upwards(g, s, hi - s, next, caps)) <==> exists t: nat :: HeadFrom(g, s, hi, false, next, caps, o, t)
    decreases hi - s
  {
    hide Outs;
    if Outs(g, s, next, caps) != [] {
      assert Heads(o, Outs(g, s, next, caps)) ==> HeadFrom(g, s, hi, false, next, caps, o, s);
    } else if s < hi {
      var after := s + 1;
      HeadUpwards(g, after, hi, next, caps, o);
      forall t: nat ensures HeadFrom(g, s, hi, false, next, caps, o, t) <==> HeadFrom(g, after, hi, false, next, caps, o, t) {
      }
    }
  }

  /** The positions up to which an item with this suffix may be repeated, if the class matches `n` times. */
  function Range(suffix: Suffix, s: nat, n: nat): (nat, nat) {
    match suffix
    case Once => (s + 1, if n > 0 then s + 1 else s)
    case Maybe => (s, if n > 0 then s + 1 else s)
    case Star => (s, s + n)
    case Plus => (s + 1, s + n)
    case Lazy => (s, s + n)
  }

  lemma InRange(g: Problem, s: nat, p: nat, ep: nat, suffix: Suffix, t: nat)
    requires ep > 0
    ensures var n := RunLength(g.ct, g.src, g.pat, s, p, ep);
            Repeats(g, s, p, ep, t) && Allowed(suffix, t - s) <==> Range(suffix, s, n).0 <= t <= Range(suffix, s, n).1
  {
    RunIsLongest(g, s, p, ep, t);
    hide Repeats, RunLength;
  }

  lemma TurnIsFrom(g: Problem, s: nat, p: nat, ep: nat, suffix: Suffix, next: nat, caps: seq<Capture>, o: Out, t: nat)
    requires ep > 0 && next <= |g.pat|
    ensures var (lo, hi) := Range(suffix, s, RunLength(g.ct, g.src, g.pat, s, p, ep));
            Turn(g, s, p, ep, suffix, next, caps, t) && Heads(o, Outs(g, t, next, caps)) <==> HeadFrom(g, lo, hi, suffix != Lazy, next, caps, o, t)
  {
    hide Outs, Can, Repeats, RunLength, Fails, Range, Heads;
    var (lo, hi) := Range(suffix, s, RunLength(g.ct, g.src, g.pat, s, p, ep));
    InRange(g, s, p, ep, suffix, t);
    if Turn(g, s, p, ep, suffix, next, caps, t) {
      forall u: nat | lo <= u <= hi && (if suffix != Lazy then u > t else u < t) ensures Outs(g, u, next, caps) == [] {
        InRange(g, s, p, ep, suffix, u);
        NoOutcome(g, u, next, caps);
        assert Fails(g, u, next, caps);
      }
    }
    if HeadFrom(g, lo, hi, suffix != Lazy, next, caps, o, t) {
      forall u: nat | Repeats(g, s, p, ep, u) && Allowed(suffix, u - s) && Before(suffix, u, t) ensures Fails(g, u, next, caps) {
        InRange(g, s, p, ep, suffix, u);
        NoOutcome(g, u, next, caps);
        assert Outs(g, u, next, caps) == [];
      }
    }
  }

  /** The outcomes of the rest from `lo` to `hi`, downwards or upwards. */
  function RangeOuts(g: Problem, lo: nat, hi: int, down: bool, next: nat, caps: seq<Capture>): seq<Out>
    requires next <= |g.pat|
  {
    if hi < lo then [] else if down then Downwards(g, lo, hi - lo, next, caps) else Upwards(g, lo, hi - lo, next, caps)
  }

  /** The list of an item is that of its range, downwards or upwards. */
  lemma SingleOuts(g: Problem, s: nat, p: nat, caps: seq<Capture>)
    requires p <= |g.pat| && ItemAt(g.pat, p).Single?
    ensures var i := ItemAt(g.pat, p);
            var (lo, hi) := Range(i.suffix, s, RunLength(g.ct, g.src, g.pat, s, p, i.ep));
            Outs(g, s, p, caps) == RangeOuts(g, lo, hi, i.suffix != Lazy, i.next, caps)
  {
    hide ItemAt, SingleMatches;
    var i := ItemAt(g.pat, p);
    if i.suffix == Maybe && SingleMatches(g.ct, g.src, g.pat, s, p, i.ep) {
      assert Downwards(g, s, 0, i.next, caps) == Outs(g, s, i.next, caps);
    }
  }

  /** The head of such a list is the outcome of the rest whose turn comes first. */
  lemma HeadOfRange(g: Problem, s: nat, p: nat, ep: nat, suffix: Suffix, next: nat, caps: seq<Capture>, o: Out)
    requires ep > 0 && next <= |g.pat|
    ensures var (lo, hi) := Range(suffix, s, RunLength(g.ct, g.src, g.pat, s, p, ep));
            Heads(o, RangeOuts(g, lo, hi, suffix != Lazy, next, caps)) <==>
            exists t: nat :: Turn(g, s, p, ep, suffix, next, caps, t) && Heads(o, Outs(g, t, next, caps))
  {
    hide Outs, Downwards, Upwards, RunLength, Turn, HeadFrom, Range;
    var (lo, hi) := Range(suffix, s, RunLength(g.ct, g.src, g.pat, s, p, ep));
    var down := suffix != Lazy;
    if lo <= hi {
      HeadDownwards(g, lo, hi, next, caps, o);
      HeadUpwards(g, lo, hi, next, caps, o);
    } else {
      NoHead(g, lo, hi, down, next, caps, o);
    }
    assert Heads(o, RangeOuts(g, lo, hi, down, next, caps)) <==> exists t: nat :: HeadFrom(g, lo, hi, down, next, caps, o, t);
    if Heads(o, RangeOuts(g, lo, hi, down, next, caps)) {
      var t: nat :| HeadFrom(g, lo, hi, down, next, caps, o, t);
      TurnIsFrom(g, s, p, ep, suffix, next, caps, o, t);
    }
    if exists t: nat :: Turn(g, s, p, ep, suffix, next, caps, t) && Heads(o, Outs(g, t, next, caps)) {
      var t: nat :| Turn(g, s, p, ep, suffix, next, caps, t) && Heads(o, Outs(g, t, next, caps));
      TurnIsFrom(g, s, p, ep, suffix, next, caps, o, t);
    }
  }

  lemma NoHead(g: Problem, lo: nat, hi: int, down: bool, next: nat, caps: seq<Capture>, o: Out)
    requires next <= |g.pat| && hi < lo
    ensures forall t: nat :: !HeadFrom(g, lo, hi, down, next, caps, o, t)
  {
    hide Outs;
  }

  /** The list begins with the outcome that is found first. */
  lemma {:induction false} FirstIsHead(g: Problem, s: nat, p: nat, caps: seq<Capture>, o: Out)
    requires p <= |g.pat|
    ensures First(g, s, p, caps, o) <==> Heads(o, Outs(g, s, p, caps))
    decreases |g.pat| - p
  {
    hide Downwards, Upwards, RunLength, Turn, SingleMatches;
    var i := ItemAt(g.pat, p);
    match i
    case Finish =>
    case Malformed(_) =>
    case Anchor =>
    case Open(what, next) =>
      FirstIsHead(g, s, next, caps + [Capture(s, what)], o);
    case Close(next) =>
      if ToClose(caps).Some? {
        FirstIsHead(g, s, next, Closed(caps, ToClose(caps).v, s), o);
      }
    case Balanced(b, e, next) =>
      var r := Balance(g.src, b, e, s);
      forall t: nat ensures BalancedAt(g.src, b, e, s, t) <==> r == Some(t) {
        BalanceUnique(g.src, b, e, s, t);
      }
      if r.Some? {
        FirstIsHead(g, r.v, next, caps, o);
      }
    case Frontier(_, next) =>
      FirstIsHead(g, s, next, caps, o);
    case Reference(l, next) =>
      if CaptureIndex(caps, l).Some? {
        var t := BackReference(g.src, caps[CaptureIndex(caps, l).v], s);
        if t.Some? {
          FirstIsHead(g, t.v, next, caps, o);
        }
      }
    case Single(ep, suffix, next) =>
      SingleOuts(g, s, p, caps);
      HeadOfRange(g, s, p, ep, suffix, next, caps, o);
      forall t: nat ensures First(g, t, next, caps, o) <==> Heads(o, Outs(g, t, next, caps)) {
        FirstIsHead(g, t, next, caps, o);
      }
  }

  /** After all repetitions of an item, most or fewest first: the rest has its turn at `t`, and `o` is found there. */
  ghost predicate FirstOfAll(g: Problem, s: nat, p: nat, ep: nat, suffix: Suffix, next: nat, caps: seq<Capture>, o: Out)
    requires ep > 0 && next <= |g.pat|
  {
    exists t: nat :: Turn(g, s, p, ep, suffix, next, caps, t) && First(g, t, next, caps, o)
  }

  lemma FirstOfAllIsHead(g: Problem, s: nat, p: nat, ep: nat, suffix: Suffix, next: nat, caps: seq<Capture>, o: Out)
    requires ep > 0 && next <= |g.pat| && (suffix == Star || suffix == Lazy)
    ensures var n := RunLength(g.ct, g.src, g.pat, s, p, ep);
            FirstOfAll(g, s, p, ep, suffix, next, caps, o) <==>
            Heads(o, if suffix == Lazy then Upwards(g, s, n, next, caps) else Downwards(g, s, n, next, caps))
  {
    hide Outs, Downwards, Upwards, RunLength, Turn, Heads;
    HeadOfRange(g, s, p, ep, suffix, next, caps, o);
    forall t: nat ensures First(g, t, next, caps, o) <==> Heads(o, Outs(g, t, next, caps)) {
      FirstIsHead(g, t, next, caps, o);
    }
  }

  /** One outcome is found first, if there is any, and it is one that the pattern can have. */
  lemma FirstIsOne(g: Problem, s: nat, p: nat, caps: seq<Capture>, o: Out, o': Out)
    requires p <= |g.pat| && First(g, s, p, caps, o)
    ensures Can(g, s, p, caps, o) && (First(g, s, p, caps, o') ==> o' == o)
  {
    hide Outs, First, Can;
    FirstIsHead(g, s, p, caps, o);
    FirstIsHead(g, s, p, caps, o');
    OutsComplete(g, s, p, caps, o);
  }

  lemma FirstUnlessFails(g: Problem, s: nat, p: nat, caps: seq<Capture>)
    requires p <= |g.pat|
    ensures Fails(g, s, p, caps) || exists o: Out :: First(g, s, p, caps, o)
  {
    hide Outs, First, Can;
    NoOutcome(g, s, p, caps);
    if Outs(g, s, p, caps) != [] {
      FirstIsHead(g, s, p, caps, Outs(g, s, p, caps)[0]);
    }
  }

  // ---------- the characters of patterns ----------

  /** The letters of the classes; a capital is the complement. */
  lemma ClassLetters(ct: CType, c: nat)
    ensures MatchClass(ct, c, 'a' as nat) == ct(Alpha, c) && MatchClass(ct, c, 'c' as nat) == ct(Cntrl, c) && MatchClass(ct, c, 'd' as nat) == ct(Digit, c)
    ensures MatchClass(ct, c, 'g' as nat) == ct(Graph, c) && MatchClass(ct, c, 'l' as nat) == ct(Lower, c) && MatchClass(ct, c, 'p' as nat) == ct(Punct, c)
    ensures MatchClass(ct, c, 's' as nat) == ct(Space, c) && MatchClass(ct, c, 'u' as nat) == ct(Upper, c) && MatchClass(ct, c, 'w' as nat) == ct(Alnum, c)
    ensures MatchClass(ct, c, 'x' as nat) == ct(XDigit, c) && MatchClass(ct, c, 'z' as nat) == (c == 0)
  {
  }

  lemma CapitalLetters(ct: CType, c: nat, l: nat)
    requires 'a' as nat <= l <= 'z' as nat
    ensures if l as char in "acdglpsuwxz" then MatchClass(ct, c, l - 'a' as nat + 'A' as nat) == !MatchClass(ct, c, l)
            else MatchClass(ct, c, l) == (c == l)
  {
    var letters := "acdglpsuwxz";
    assert letters[0] == 'a' && letters[1] == 'c' && letters[2] == 'd' && letters[3] == 'g' && letters[4] == 'l' && letters[5] == 'p'
           && letters[6] == 's' && letters[7] == 'u' && letters[8] == 'w' && letters[9] == 'x' && letters[10] == 'z';
  }

  /** The characters that begin an item, and the suffixes. */
  lemma ItemCharacters(pat: Bytes, p: nat)
    requires p < |pat|
    ensures var i, c, d := ItemAt(pat, p), pat[p], if p + 1 < |pat| then pat[p + 1] else -1;
            && (i.Open? <==> c == '(' as int) && (i.Open? ==> (i.what == Position <==> d == ')' as int))
            && (i.Close? <==> c == ')' as int)
            && (i.Anchor? <==> c == '$' as int && d == -1)
            && (i.Balanced? <==> c == '%' as int && d == 'b' as int && p + 3 < |pat|)
            && (i.Reference? <==> c == '%' as int && '0' as int <= d <= '9' as int)
            && (i.Frontier? ==> c == '%' as int && d == 'f' as int && p + 2 < |pat| && pat[p + 2] == '[' as int)
            && (i.Single? ==> (i.suffix == Star <==> ByteAt(pat, i.ep) == '*' as int) && (i.suffix == Plus <==> ByteAt(pat, i.ep) == '+' as int)
                              && (i.suffix == Lazy <==> ByteAt(pat, i.ep) == '-' as int) && (i.suffix == Maybe <==> ByteAt(pat, i.ep) == '?' as int))
  {
  }
}
