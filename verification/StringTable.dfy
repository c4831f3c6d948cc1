/**
  The table of short strings (lstring.c): one object for each content, chained in the bucket of
  its hash, rehashed in place. Objects are numbers; `objects` is the memory they live in.
 */
module StringTable {

  type Bytes = seq<nat>

  const MAX_INT := 0x7FFF_FFFF

  /** A string object; `hnext` is the next one of its bucket, -1 at the end. */
  datatype TString = TString(text: Bytes, hash: nat, hnext: int, dead: bool)

  /** `lmod` for a size that is a power of two. */
  function Lmod(hash: nat, size: nat): (b: nat)
    requires size > 0
    ensures b < size
  {
    hash % size
  }

  function At(c: seq<nat>, i: nat): int {
    if i < |c| then c[i] else -1
  }

  /** `c` is the list that begins with `head`. */
  ghost predicate Chain(objects: seq<TString>, head: int, c: seq<nat>) {
    && head == At(c, 0)
    && (forall i :: 0 <= i < |c| ==> c[i] < |objects| && objects[c[i]].hnext == At(c, i + 1))
    && forall i, j :: 0 <= i < j < |c| ==> c[i] != c[j]
  }

  /** A change of the link of an object outside the list does not matter. */
  lemma ChainKept(objects: seq<TString>, head: int, c: seq<nat>, p: nat, n: int)
    requires Chain(objects, head, c) && p < |objects| && p !in c
    ensures Chain(objects[p := objects[p].(hnext := n)], head, c)
  {
  }

  /** Linking an object in front. */
  lemma ChainPush(objects: seq<TString>, head: int, c: seq<nat>, p: nat)
    requires Chain(objects, head, c) && p < |objects| && p !in c
    ensures Chain(objects[p := objects[p].(hnext := head)], p, [p] + c)
  {
    hide Chain;
    var o, pc := objects[p := objects[p].(hnext := head)], [p] + c;
    forall i | 0 <= i < |pc| ensures pc[i] < |o| && o[pc[i]].hnext == At(pc, i + 1) {
      PushLink(objects, head, c, p, i);
    }
    forall i, j | 0 <= i < j < |pc| ensures pc[i] != pc[j] {
      PushApart(objects, head, c, p, i, j);
    }
    IsChain(o, p, pc);
  }

  lemma IsChain(objects: seq<TString>, head: int, c: seq<nat>)
    requires head == At(c, 0)
    requires forall i :: 0 <= i < |c| ==> c[i] < |objects| && objects[c[i]].hnext == At(c, i + 1)
    requires forall i, j :: 0 <= i < j < |c| ==> c[i] != c[j]
    ensures Chain(objects, head, c)
  {
  }

  lemma PushApart(objects: seq<TString>, head: int, c: seq<nat>, p: nat, i: nat, j: nat)
    requires Chain(objects, head, c) && p !in c && i < j <= |c|
    ensures ([p] + c)[i] != ([p] + c)[j]
  {
    hide Chain;
    if i > 0 {
      NoRepeat(objects, head, c, i - 1, j - 1);
    }
  }

  lemma NoRepeat(objects: seq<TString>, head: int, c: seq<nat>, i: nat, j: nat)
    requires Chain(objects, head, c) && i < j < |c|
    ensures c[i] != c[j]
  {
    hide At;
  }

  lemma PushLink(objects: seq<TString>, head: int, c: seq<nat>, p: nat, i: nat)
    requires Chain(objects, head, c) && p < |objects| && p !in c && i <= |c|
    ensures var o, pc := objects[p := objects[p].(hnext := head)], [p] + c;
            pc[i] < |o| && o[pc[i]].hnext == At(pc, i + 1)
  {
    var pc := [p] + c;
    assert i < |c| ==> pc[i + 1] == c[i];
    assert i > 0 ==> pc[i] == c[i - 1];
  }

  lemma ChainTail(objects: seq<TString>, head: int, c: seq<nat>)
    requires Chain(objects, head, c) && c != []
    ensures head == c[0] && Chain(objects, objects[c[0]].hnext, c[1..]) && c[0] !in c[1..]
  {
    var d := c[1..];
    forall i | 0 <= i < |d| ensures d[i] == c[i + 1] && d[i] < |objects| && objects[d[i]].hnext == At(d, i + 1) && d[i] != c[0] {
      assert objects[c[i + 1]].hnext == At(c, i + 2);
    }
  }

  /** A list without position `i`. */
  function Cut(c: seq<nat>, i: nat): (d: seq<nat>)
    requires i < |c|
    ensures |d| == |c| - 1 && forall k :: 0 <= k < |d| ==> d[k] == if k < i then c[k] else c[k + 1]
  {
    c[..i] + c[i + 1..]
  }

  /** The memory when the object at position `i` has been taken out of its list. */
  function Unlinked(objects: seq<TString>, c: seq<nat>, i: nat): seq<TString>
    requires i < |c| && c[i] < |objects| && (i > 0 ==> c[i - 1] < |objects|)
  {
    if i == 0 then objects else objects[c[i - 1] := objects[c[i - 1]].(hnext := objects[c[i]].hnext)]
  }

  lemma ChainRemove(objects: seq<TString>, head: int, c: seq<nat>, i: nat)
    requires Chain(objects, head, c) && i < |c|
    ensures Chain(Unlinked(objects, c, i), if i == 0 then objects[c[0]].hnext else head, Cut(c, i))
    ensures c[i] !in Cut(c, i)
  {
    var d, o := Cut(c, i), Unlinked(objects, c, i);
    forall k | 0 <= k < |d| ensures d[k] < |o| && o[d[k]].hnext == At(d, k + 1) {
      NextAfterCut(objects, head, c, i, k);
    }
    CutDistinct(c, i);
  }

  lemma NextAfterCut(objects: seq<TString>, head: int, c: seq<nat>, i: nat, k: nat)
    requires Chain(objects, head, c) && i < |c| && k < |c| - 1
    ensures Cut(c, i)[k] < |objects| && Unlinked(objects, c, i)[Cut(c, i)[k]].hnext == At(Cut(c, i), k + 1)
  {
    var m := if k < i then k else k + 1;
    assert objects[c[m]].hnext == At(c, m + 1) && objects[c[i]].hnext == At(c, i + 1);
    if i > 0 && m != i - 1 {
      assert c[m] != c[i - 1];
    }
  }

  lemma CutDistinct(c: seq<nat>, i: nat)
    requires i < |c| && forall j, k :: 0 <= j < k < |c| ==> c[j] != c[k]
    ensures forall j, k :: 0 <= j < k < |c| - 1 ==> Cut(c, i)[j] != Cut(c, i)[k]
    ensures c[i] !in Cut(c, i)
  {
    var d := Cut(c, i);
    forall j, k | 0 <= j < k < |d| ensures d[j] != d[k] {
      var p, q := if j < i then j else j + 1, if k < i then k else k + 1;
      assert c[p] != c[q];
    }
  }

  /** Other lists do not notice. */
  lemma ChainApart(objects: seq<TString>, head: int, c: seq<nat>, d: seq<nat>, i: nat)
    requires i < |d| && d[i] < |objects| && (i > 0 ==> d[i - 1] < |objects| && d[i - 1] !in c)
    requires Chain(objects, head, c)
    ensures Chain(Unlinked(objects, d, i), head, c)
  {
    if i > 0 {
      ChainKept(objects, head, c, d[i - 1], objects[d[i]].hnext);
    }
  }

  lemma ChainBounds(objects: seq<TString>, head: int, c: seq<nat>)
    requires Chain(objects, head, c)
    ensures forall i :: 0 <= i < |c| ==> c[i] < |objects|
  {
  }

  /** Taking an object out of its bucket `b`, where it is at position `i`. */
  lemma FiledRemove(objects: seq<TString>, heads: seq<int>, chains: seq<seq<nat>>, owner: map<nat, nat>, b: nat, i: nat)
    requires Filed(objects, heads, chains, owner) && b < |heads| == |chains| && i < |chains[b]|
    ensures var c, p := chains[b], chains[b][i];
            && p < |objects| && (i > 0 ==> c[i - 1] < |objects|)
            && Filed(Unlinked(objects, c, i), if i == 0 then heads[b := objects[p].hnext] else heads, chains[b := Cut(c, i)], owner - {p})
  {
    hide Chain, Unlinked;
    var c, p := chains[b], chains[b][i];
    ChainBounds(objects, heads[b], c);
    var o := Unlinked(objects, c, i);
    var hs := if i == 0 then heads[b := objects[p].hnext] else heads;
    var cs := chains[b := Cut(c, i)];
    forall a | 0 <= a < |hs| ensures Chain(o, hs[a], cs[a]) {
      if a == b {
        ChainRemove(objects, heads[b], c, i);
      } else {
        if i > 0 {
          assert owner[c[i - 1]] == b;
        }
        ChainApart(objects, heads[a], chains[a], c, i);
      }
    }
    ChainRemove(objects, heads[b], c, i);
    OwnersCut(chains, owner, b, i);
  }

  lemma OwnersCut(chains: seq<seq<nat>>, owner: map<nat, nat>, b: nat, i: nat)
    requires b < |chains| && i < |chains[b]| && chains[b][i] !in Cut(chains[b], i)
    requires forall a, k :: 0 <= a < |chains| && 0 <= k < |chains[a]| ==> chains[a][k] in owner && owner[chains[a][k]] == a
    requires forall p :: p in owner ==> owner[p] < |chains| && p in chains[owner[p]]
    ensures var cs, now := chains[b := Cut(chains[b], i)], owner - {chains[b][i]};
            && (forall a, k :: 0 <= a < |cs| && 0 <= k < |cs[a]| ==> cs[a][k] in now && now[cs[a][k]] == a)
            && (forall p :: p in now ==> now[p] < |cs| && p in cs[now[p]])
  {
    var c, p := chains[b], chains[b][i];
    var cs, now := chains[b := Cut(c, i)], owner - {p};
    forall q | q in now ensures now[q] < |cs| && q in cs[now[q]] {
      if owner[q] == b {
        var k :| 0 <= k < |c| && c[k] == q;
        assert Cut(c, i)[if k < i then k else k - 1] == q;
      }
    }
    forall a, k | 0 <= a < |cs| && 0 <= k < |cs[a]| ensures cs[a][k] in now && now[cs[a][k]] == a {
      if a == b {
        assert cs[a][k] == c[if k < i then k else k + 1] && cs[a][k] in Cut(c, i);
      } else {
        assert chains[a][k] in owner && owner[chains[a][k]] == a;
      }
    }
  }

  /** `owner[p]` is the bucket of `p`: the buckets hold exactly the objects of `owner`. */
  ghost predicate Filed(objects: seq<TString>, heads: seq<int>, chains: seq<seq<nat>>, owner: map<nat, nat>) {
    && |chains| == |heads|
    && (forall b :: 0 <= b < |heads| ==> Chain(objects, heads[b], chains[b]))
    && (forall b, i :: 0 <= b < |chains| && 0 <= i < |chains[b]| ==> chains[b][i] in owner && owner[chains[b][i]] == b)
    && (forall p :: p in owner ==> owner[p] < |chains| && p in chains[owner[p]])
  }

  lemma FiledPush(objects: seq<TString>, heads: seq<int>, chains: seq<seq<nat>>, owner: map<nat, nat>, p: nat, h: nat)
    requires Filed(objects, heads, chains, owner) && p < |objects| && p !in owner && h < |heads|
    ensures |chains| == |heads|
    ensures Filed(objects[p := objects[p].(hnext := heads[h])], heads[h := p], chains[h := [p] + chains[h]], owner[p := h])
  {
    var o := objects[p := objects[p].(hnext := heads[h])];
    var cs := chains[h := [p] + chains[h]];
    forall b | 0 <= b < |heads| ensures Chain(o, heads[h := p][b], cs[b]) {
      if b == h {
        ChainPush(objects, heads[h], chains[h], p);
      } else {
        ChainKept(objects, heads[b], chains[b], p, heads[h]);
      }
    }
    forall b, i | 0 <= b < |cs| && 0 <= i < |cs[b]| ensures cs[b][i] in owner[p := h] && owner[p := h][cs[b][i]] == b {
      if b == h && i > 0 {
        assert cs[b][i] == chains[h][i - 1];
      }
    }
  }

  /** A bucket is emptied: its objects are not filed any more. */
  lemma FiledDetach(objects: seq<TString>, heads: seq<int>, chains: seq<seq<nat>>, owner: map<nat, nat>, b: nat)
    requires Filed(objects, heads, chains, owner) && b < |heads|
    ensures Filed(objects, heads[b := -1], chains[b := []], map p | p in owner && owner[p] != b :: owner[p])
    ensures forall p :: p in owner <==> (p in owner && owner[p] != b) || p in chains[b]
  {
  }

  /** Further buckets, all empty. */
  lemma FiledGrow(objects: seq<TString>, heads: seq<int>, chains: seq<seq<nat>>, owner: map<nat, nat>, n: nat)
    requires Filed(objects, heads, chains, owner)
    ensures Filed(objects, heads + seq(n, _ => -1), chains + seq(n, _ => []), owner)
  {
  }

  /** Empty buckets at the end are given back. */
  lemma FiledShrink(objects: seq<TString>, heads: seq<int>, chains: seq<seq<nat>>, owner: map<nat, nat>, n: nat)
    requires Filed(objects, heads, chains, owner) && n <= |heads| && forall p :: p in owner ==> owner[p] < n
    ensures |chains| == |heads|
    ensures Filed(objects, heads[..n], chains[..n], owner)
  {
  }

  class Strings {
    /** `luaS_hash` with the seed of the state. */
    const hasher: Bytes -> nat
    var objects: seq<TString>
    var hash: seq<int>
    var nuse: nat
    ghost var chains: seq<seq<nat>>
    ghost var owner: map<nat, nat>

    constructor (hasher: Bytes -> nat, size: nat)
      requires size > 0
      ensures Valid() && this.hasher == hasher && owner == map[] && |hash| == size
    {
      this.hasher, objects, hash, nuse := hasher, [], seq(size, _ => -1), 0;
      chains, owner := seq(size, _ => []), map[];
    }

    /** Each string in the bucket of its hash, one for each content, and all counted. */
    ghost predicate Valid()
      reads this
    {
      |hash| > 0 && Filed(objects, hash, chains, owner) && nuse == |owner.Keys| && Placed(objects, owner, |hash|) && Unique(objects, owner)
    }

    /** Strings are in the bucket of their hash. */
    ghost predicate Placed(o: seq<TString>, own: map<nat, nat>, size: nat)
      requires size > 0
    {
      forall p :: p in own ==> p < |o| && Sound(o[p]) && own[p] == Lmod(o[p].hash, size)
    }

    /** No two have the same text. */
    ghost predicate Unique(o: seq<TString>, own: map<nat, nat>)
    {
      forall p, q :: p in own && q in own && p < |o| && q < |o| && o[p].text == o[q].text ==> p == q
    }

    lemma SameTexts(o: seq<TString>, own: map<nat, nat>, n: seq<TString>, now: map<nat, nat>)
      requires own.Keys == now.Keys && Unique(o, own) && |o| == |n| && forall p :: 0 <= p < |o| ==> n[p].text == o[p].text
      ensures Unique(n, now)
    {
      forall p, q | p in now && q in now && p < |n| && q < |n| && n[p].text == n[q].text ensures p == q {
        assert p in own.Keys && q in own.Keys && o[p].text == o[q].text;
      }
    }

    ghost predicate Sound(s: TString) {
      s.hash == hasher(s.text)
    }

    /** The memory is as before but for links. */
    ghost predicate SameButLinks(o: seq<TString>)
      reads `objects
    {
      |objects| == |o| && forall p :: 0 <= p < |o| ==> objects[p] == o[p].(hnext := objects[p].hnext)
    }

    /** Bucket `i` is being rehashed: `rest` is what is left of its list, from `p` on. */
    ghost predicate Moving(o: seq<TString>, was: map<nat, nat>, i: nat, newsize: nat, p: int, rest: seq<nat>)
      requires newsize > 0
      reads this
    {
      && Filed(objects, hash, chains, owner) && SameButLinks(o) && Chain(objects, p, rest)
      && (forall q :: q in rest ==> q !in owner && q in was && was[q] == i)
      && (forall q :: q in was ==> q < |objects| && (q in owner || q in rest))
      && (forall q :: q in owner ==> q in was && owner[q] == if was[q] == i then Lmod(objects[q].hash, newsize) else was[q])
    }

    /** The list of bucket `i` is taken out of it. */
    method TakeList(i: nat, newsize: nat) returns (p: int, ghost rest: seq<nat>)
      requires i < |hash| && 0 < newsize && Filed(objects, hash, chains, owner)
      modifies this`hash, this`chains, this`owner
      ensures |hash| == |old(hash)| && Moving(objects, old(owner), i, newsize, p, rest)
    {
      p, rest := hash[i], chains[i];
      FiledDetach(objects, hash, chains, owner, i);
      InBucket(i);
      hash := hash[i := -1];
      chains := chains[i := []];
      owner := map q | q in owner && owner[q] != i :: owner[q];
    }

    /** The first string of the list is chained into its new bucket. */
    method MoveString(ghost o: seq<TString>, ghost was: map<nat, nat>, ghost i: nat, newsize: nat, p: nat, ghost rest: seq<nat>) returns (next: int)
      requires 0 < newsize <= |hash| && Moving(o, was, i, newsize, p, rest) && rest != []
      modifies this`objects, this`hash, this`chains, this`owner
      ensures |hash| == |old(hash)| && Moving(o, was, i, newsize, next, rest[1..])
    {
      hide Filed, Chain;
      ChainTail(objects, p, rest);
      ChainEnd(objects, p, rest);
      assert rest[0] in rest && forall q :: q in rest[1..] ==> q in rest;
      assert forall q :: q in rest ==> q == p || q in rest[1..];
      next := objects[p].hnext;
      var h := Lmod(objects[p].hash, newsize);
      FiledPush(objects, hash, chains, owner, p, h);
      ChainKept(objects, next, rest[1..], p, hash[h]);
      objects := objects[p := objects[p].(hnext := hash[h])];
      chains := chains[h := [p] + chains[h]];
      hash := hash[h := p];
      owner := owner[p := h];
    }

    /** One bucket of the rehash: its strings move to the buckets of the new size. */
    method MoveBucket(i: nat, newsize: nat)
      requires i < |hash| && 0 < newsize <= |hash| && Filed(objects, hash, chains, owner)
      modifies this`objects, this`hash, this`chains, this`owner
      ensures |hash| == |old(hash)| && Filed(objects, hash, chains, owner) && SameButLinks(old(objects))
      ensures owner.Keys == old(owner).Keys
      ensures forall p :: p in owner ==> p < |objects| && owner[p] == if old(owner)[p] == i then Lmod(objects[p].hash, newsize) else old(owner)[p]
    {
      var p;
      ghost var o, was, rest := objects, owner, [];
      p, rest := TakeList(i, newsize);
      ListEnd(o, was, i, newsize, p, rest);
      hide Moving;
      while p >= 0
        invariant |hash| == |old(hash)| && Moving(o, was, i, newsize, p, rest)
        invariant p < 0 <==> rest == []
        decreases |rest|
      {
        p := MoveString(o, was, i, newsize, p, rest);
        rest := rest[1..];
        ListEnd(o, was, i, newsize, p, rest);
      }
      EndMoving(o, was, i, newsize, p);
    }

    lemma ListEnd(o: seq<TString>, was: map<nat, nat>, i: nat, newsize: nat, p: int, rest: seq<nat>)
      requires newsize > 0 && Moving(o, was, i, newsize, p, rest)
      ensures p < 0 <==> rest == []
    {
      ChainEnd(objects, p, rest);
    }

    lemma EndMoving(o: seq<TString>, was: map<nat, nat>, i: nat, newsize: nat, p: int)
      requires newsize > 0 && Moving(o, was, i, newsize, p, [])
      ensures Filed(objects, hash, chains, owner) && SameButLinks(o) && owner.Keys == was.Keys
      ensures forall q :: q in owner ==> q < |objects| && owner[q] == if was[q] == i then Lmod(objects[q].hash, newsize) else was[q]
    {
    }

    lemma ChainEnd(objects: seq<TString>, head: int, c: seq<nat>)
      requires Chain(objects, head, c)
      ensures head < 0 <==> c == []
      ensures c != [] ==> head < |objects|
    {
    }

    lemma InBucket(i: nat)
      requires Filed(objects, hash, chains, owner) && i < |hash|
      ensures |chains| == |hash| && Chain(objects, hash[i], chains[i]) && (hash[i] < 0 <==> chains[i] == [])
      ensures forall p :: p in chains[i] ==> p in owner && owner[p] == i
      ensures forall p :: p in owner ==> p < |objects|
    {
    }

    /** All buckets below `size` are rehashed. */
    method Rehash(size: nat, newsize: nat)
      requires Filed(objects, hash, chains, owner) && 0 < newsize <= |hash| && size <= |hash|
      requires forall p :: p in owner ==> p < |objects| && owner[p] < size
      modifies this`objects, this`hash, this`chains, this`owner
      ensures |hash| == |old(hash)| && Filed(objects, hash, chains, owner) && SameButLinks(old(objects)) && owner.Keys == old(owner).Keys
      ensures forall p :: p in owner ==> p < |objects| && owner[p] < newsize && owner[p] == Lmod(objects[p].hash, newsize)
    {
      ghost var o, was := objects, owner;
      var i := 0;
      hide Filed;
      while i < size
        invariant 0 <= i <= size && |hash| == |old(hash)|
        invariant Filed(objects, hash, chains, owner) && SameButLinks(o) && owner.Keys == was.Keys
        invariant forall p :: p in owner ==> p < |objects| && Rehashed(owner[p], was[p], Lmod(objects[p].hash, newsize), i)
      {
        MoveBucket(i, newsize);
        i := i + 1;
      }
    }

    /**
      `luaS_resize`, growing or shrinking: exactly the same strings, each in the bucket of its hash
      for the new size.
     */
    method Resize(newsize: nat)
      requires Valid() && newsize > 0
      modifies this`objects, this`hash, this`chains, this`owner
      ensures Valid() && |hash| == newsize && SameButLinks(old(objects)) && owner.Keys == old(owner).Keys
    {
      hide Unique, Lmod, Filed, Placed, Chain, Sound, SameButLinks;
      var size := |hash|;
      ghost var o, was := objects, owner;
      PlacedBelow(o, was, size);
      if newsize > size {
        Enlarge(newsize - size);
      }
      Rehash(size, newsize);
      if newsize < size {
        FiledShrink(objects, hash, chains, owner, newsize);
        hash := hash[..newsize];
        chains := chains[..newsize];
      }
      LinksOnly(o);
      PlacedAgain(o, was, size, objects, owner, newsize);
      SameTexts(o, was, objects, owner);
    }

    lemma LinksOnly(o: seq<TString>)
      requires SameButLinks(o)
      ensures |objects| == |o| && forall p :: 0 <= p < |o| ==> objects[p].text == o[p].text && objects[p].hash == o[p].hash
    {
    }

    lemma PlacedAgain(o: seq<TString>, own: map<nat, nat>, size: nat, n: seq<TString>, now: map<nat, nat>, newsize: nat)
      requires size > 0 && newsize > 0 && Placed(o, own, size) && now.Keys == own.Keys
      requires |n| == |o| && forall p :: 0 <= p < |o| ==> n[p].text == o[p].text && n[p].hash == o[p].hash
      requires forall p :: p in now ==> p < |n| && now[p] == Lmod(n[p].hash, newsize)
      ensures Placed(n, now, newsize)
    {
      forall p | p in now ensures p < |n| && Sound(n[p]) {
        assert p in own.Keys && Sound(o[p]);
      }
    }

    method Enlarge(n: nat)
      requires Filed(objects, hash, chains, owner)
      modifies this`hash, this`chains
      ensures Filed(objects, hash, chains, owner) && |hash| == |old(hash)| + n
    {
      FiledGrow(objects, hash, chains, owner, n);
      hash := hash + seq(n, _ => -1);
      chains := chains + seq(n, _ => []);
    }

    lemma PlacedBelow(o: seq<TString>, own: map<nat, nat>, size: nat)
      requires size > 0 && Placed(o, own, size)
      ensures forall p :: p in own ==> p < |o| && own[p] < size
    {
    }

    // ---------- interning ----------

    /** The strings of the table. */
    ghost function Contents(): set<Bytes>
      reads this
    {
      Texts(objects, owner)
    }

    ghost function Texts(o: seq<TString>, own: map<nat, nat>): set<Bytes> {
      set p | p in own && p < |o| :: o[p].text
    }

    /** A dead string that is wanted again is not collected. */
    method Resurrect(r: nat)
      requires Valid() && r in owner
      modifies this`objects
      ensures Valid() && |objects| == |old(objects)| && objects == old(objects)[r := old(objects)[r].(dead := false)]
    {
      hide Unique, Filed;
      ghost var o := objects;
      objects := objects[r := objects[r].(dead := false)];
      SameLinks(o, objects, hash, chains, owner);
      SameTexts(o, owner, objects, owner);
    }

    /** A new string is put in front of its bucket. */
    method Create(str: Bytes, h: nat) returns (r: nat)
      requires Valid() && h == hasher(str) && forall p :: p in owner ==> objects[p].text != str
      modifies this
      ensures Valid() && r == |old(objects)| && |objects| == r + 1 && objects[r].text == str && !objects[r].dead
      ensures owner.Keys == old(owner).Keys + {r} && forall p :: 0 <= p < r ==> objects[p] == old(objects)[p]
    {
      hide Filed, Unique, Lmod, Placed, Chain, Sound;
      r := |objects|;
      PlacedBelow(objects, owner, |hash|);
      var b := Lmod(h, |hash|);
      ghost var o, was := objects, owner;
      objects := objects + [TString(str, h, -1, false)];
      SameLinks(o, objects, hash, chains, owner);
      FiledPush(objects, hash, chains, owner, r, b);
      objects := objects[r := objects[r].(hnext := hash[b])];
      chains := chains[b := [r] + chains[b]];
      hash := hash[b := r];
      owner := owner[r := b];
      nuse := nuse + 1;
      assert owner.Keys == was.Keys + {r};
      PlacedOne(o, was, objects, owner, r, |hash|);
      OneMoreText(o, was, objects, owner, r);
    }

    lemma PlacedOne(o: seq<TString>, own: map<nat, nat>, n: seq<TString>, now: map<nat, nat>, r: nat, size: nat)
      requires size > 0 && Placed(o, own, size) && r == |o| && |n| == r + 1 && forall p :: 0 <= p < r ==> n[p] == o[p]
      requires Sound(n[r]) && now == own[r := Lmod(n[r].hash, size)]
      ensures Placed(n, now, size)
    {
    }

    lemma OneMoreText(o: seq<TString>, own: map<nat, nat>, n: seq<TString>, now: map<nat, nat>, r: nat)
      requires now.Keys == own.Keys + {r} && Unique(o, own) && r == |o| && |n| == r + 1
      requires forall p :: 0 <= p < r ==> n[p].text == o[p].text
      requires forall p :: p in own ==> p < r && o[p].text != n[r].text
      ensures Unique(n, now)
    {
      forall p, q | p in now && q in now && p < |n| && q < |n| && n[p].text == n[q].text ensures p == q {
        assert p in now.Keys && q in now.Keys;
      }
    }

    lemma SameLinks(o: seq<TString>, n: seq<TString>, heads: seq<int>, cs: seq<seq<nat>>, own: map<nat, nat>)
      requires Filed(o, heads, cs, own) && |o| <= |n| && forall p :: 0 <= p < |o| ==> n[p].hnext == o[p].hnext
      ensures Filed(n, heads, cs, own)
    {
      forall b | 0 <= b < |heads| ensures Chain(n, heads[b], cs[b]) {
        assert Chain(o, heads[b], cs[b]);
      }
    }

    /** The string with the text `str` in the list `c`, if there is one. */
    method Search(str: Bytes, head: int, ghost c: seq<nat>) returns (r: int)
      requires Chain(objects, head, c)
      ensures r < 0 ==> forall p :: p in c ==> objects[p].text != str
      ensures r >= 0 ==> r in c && objects[r].text == str
    {
      hide Chain, At;
      r := head;
      ghost var i := 0;
      LinkAt(objects, head, c, 0);
      while r >= 0
        invariant 0 <= i <= |c| && r == At(c, i) && (r >= 0 ==> i < |c| && r == c[i] < |objects|) && (r < 0 ==> i == |c|)
        invariant forall k :: 0 <= k < i ==> c[k] < |objects| && objects[c[k]].text != str
        decreases |c| - i
      {
        LinkAt(objects, head, c, i);
        LinkAt(objects, head, c, i + 1);
        if |objects[r].text| == |str| && objects[r].text == str {
          return;
        }
        r := objects[r].hnext;
        i := i + 1;
      }
    }

    lemma LinkAt(o: seq<TString>, head: int, c: seq<nat>, i: nat)
      requires Chain(o, head, c) && i <= |c|
      ensures if i == |c| then At(c, i) < 0 else At(c, i) == c[i] < |o| && o[c[i]].hnext == At(c, i + 1)
      ensures i == 0 ==> head == At(c, 0)
    {
    }

    lemma NotThere(str: Bytes, b: nat)
      requires Valid() && b == Lmod(hasher(str), |hash|) && forall p :: p in chains[b] ==> objects[p].text != str
      ensures forall p :: p in owner ==> p < |objects| && objects[p].text != str
    {
    }

    lemma NewTexts(o: seq<TString>, was: map<nat, nat>, n: seq<TString>, now: map<nat, nat>, r: nat)
      requires now.Keys == was.Keys + {r} && r < |n|
      requires |o| <= |n| && forall p :: p in was ==> p < |o| && n[p].text == o[p].text
      ensures Texts(n, now) == Texts(o, was) + {n[r].text}
    {
      forall t ensures t in Texts(n, now) <==> t in Texts(o, was) + {n[r].text} {
        if t in Texts(n, now) {
          var p :| p in now && p < |n| && n[p].text == t;
          assert p in was.Keys + {r};
        }
        if t in Texts(o, was) {
          var p :| p in was && p < |o| && o[p].text == t;
          assert p in now.Keys && n[p].text == t;
        }
        assert r in now.Keys;
      }
    }

    /** The object with the text in its bucket; a dead one comes back. */
    method Reuse(str: Bytes) returns (r: int)
      requires Valid()
      modifies this`objects
      ensures Valid() && r < |objects| == |old(objects)| && Contents() == old(Contents())
      ensures forall p :: 0 <= p < |objects| ==> objects[p] == if p == r then old(objects)[p].(dead := false) else old(objects)[p]
      ensures r < 0 ==> forall p :: p in owner ==> p < |objects| && objects[p].text != str
      ensures r >= 0 ==> r in owner && objects[r].text == str
    {
      hide Filed, Unique, Placed, Texts, Chain;
      var b := Lmod(hasher(str), |hash|);
      InBucket(b);
      PlacedBelow(objects, owner, |hash|);
      r := Search(str, hash[b], chains[b]);
      if r < 0 {
        NotThere(str, b);
        return;
      }
      if objects[r].dead {
        Resurrect(r);
      }
      SameTextSet(old(objects), objects, owner);
    }

    lemma SameTextSet(o: seq<TString>, n: seq<TString>, own: map<nat, nat>)
      requires |o| == |n| && forall p :: 0 <= p < |o| ==> n[p].text == o[p].text
      ensures Texts(n, own) == Texts(o, own)
    {
    }

    /** A new object, in a table of twice the size if it was full. */
    method Add(str: Bytes) returns (r: nat)
      requires Valid() && forall p :: p in owner ==> p < |objects| && objects[p].text != str
      modifies this
      ensures Valid() && r == |old(objects)| < |objects| && objects[r].text == str && !objects[r].dead
      ensures owner.Keys == old(owner).Keys + {r} && Contents() == old(Contents()) + {str}
      ensures forall p :: 0 <= p < |old(objects)| ==> objects[p] == old(objects)[p].(hnext := objects[p].hnext)
    {
      ghost var o, was := objects, owner;
      hide Unique, Filed, Placed, Texts;
      if nuse >= |hash| && |hash| <= MAX_INT / 2 {
        Resize(|hash| * 2);
      }
      r := Create(str, hasher(str));
      NewTexts(o, was, objects, owner, r);
    }

    /**
      `internshrstr`: the object for a text. A present one is used again, even if it is dead; else
      there is a new one, in a table of twice the size if it was full.
     */
    method Intern(str: Bytes) returns (r: nat)
      requires Valid()
      modifies this
      ensures Valid() && r in owner && r < |objects| && objects[r].text == str && !objects[r].dead
      ensures Contents() == old(Contents()) + {str}
      ensures str in old(Contents()) ==> r in old(owner) && owner == old(owner)
      ensures str !in old(Contents()) ==> owner.Keys == old(owner).Keys + {r} && r == |old(objects)|
      ensures |objects| >= |old(objects)| && forall p :: 0 <= p < |old(objects)| && p != r ==> objects[p] == old(objects)[p].(hnext := objects[p].hnext)
    {
      hide Valid, Texts;
      ghost var o, was := objects, owner;
      var found := Reuse(str);
      if found >= 0 {
        r := found;
        OneOld(o, was, r);
      } else {
        AllOld(o, was, str);
        r := Add(str);
        assert r in owner.Keys;
      }
    }

    lemma OneOld(o: seq<TString>, was: map<nat, nat>, r: nat)
      requires r in was && r < |o|
      ensures o[r].text in Texts(o, was) && Texts(o, was) == Texts(o, was) + {o[r].text}
    {
    }

    /** `luaS_remove`: the collector takes a string out of the table. */
    method Remove(ts: nat)
      requires Valid() && ts in owner
      modifies this
      ensures Valid() && owner == old(owner) - {ts} && |hash| == |old(hash)| && SameButLinks(old(objects))
    {
      hide Filed, Unique, Chain, Lmod, Placed;
      OwnBucket(ts);
      var b := Lmod(objects[ts].hash, |hash|);
      InBucket(b);
      ghost var o, was := objects, owner;
      var prev;
      ghost var i;
      prev, i := FindPrevious(ts, b, chains[b]);
      FiledRemove(objects, hash, chains, owner, b, i);
      ghost var c := chains[b];
      chains := chains[b := Cut(c, i)];
      if prev < 0 {
        hash := hash[b := objects[ts].hnext];
      } else {
        objects := objects[prev := objects[prev].(hnext := objects[ts].hnext)];
      }
      assert objects == Unlinked(o, c, i);
      owner := owner - {ts};
      nuse := nuse - 1;
      Without(o, was, objects, ts);
    }

    /** The loop of `luaS_remove`: the object before `ts` in its bucket, -1 for none. */
    method FindPrevious(ts: nat, b: nat, ghost c: seq<nat>) returns (prev: int, ghost i: nat)
      requires b < |hash| && Chain(objects, hash[b], c) && ts in c
      ensures i < |c| && c[i] == ts && prev == if i == 0 then -1 else c[i - 1]
      ensures i > 0 ==> c[i - 1] < |objects|
    {
      hide Chain;
      LinkHead(objects, hash[b], c);
      i := 0;
      ghost var k :| 0 <= k < |c| && c[k] == ts;
      var p := hash[b];
      prev := -1;
      while p != ts
        invariant 0 <= i <= k && p == c[i] && (i > 0 ==> c[i - 1] < |objects|)
        invariant prev == if i == 0 then -1 else c[i - 1]
        decreases k - i
      {
        LinkNext(objects, hash[b], c, i);
        prev, p := p, objects[p].hnext;
        i := i + 1;
      }
    }

    lemma LinkHead(o: seq<TString>, head: int, c: seq<nat>)
      requires Chain(o, head, c) && c != []
      ensures head == c[0]
    {
    }

    lemma LinkNext(o: seq<TString>, head: int, c: seq<nat>, i: nat)
      requires Chain(o, head, c) && i + 1 < |c|
      ensures c[i] < |o| && o[c[i]].hnext == c[i + 1]
    {
    }

    lemma OwnBucket(ts: nat)
      requires Valid() && ts in owner
      ensures ts < |objects| && |chains| == |hash| && ts in chains[Lmod(objects[ts].hash, |hash|)]
    {
    }

    lemma Without(o: seq<TString>, was: map<nat, nat>, n: seq<TString>, ts: nat)
      requires |hash| > 0 && Placed(o, was, |hash|) && Unique(o, was) && ts in was && |n| == |o|
      requires forall p :: 0 <= p < |o| ==> n[p] == o[p].(hnext := n[p].hnext)
      ensures Placed(n, was - {ts}, |hash|) && Unique(n, was - {ts}) && |was.Keys| == |(was - {ts}).Keys| + 1
    {
      assert (was - {ts}).Keys == was.Keys - {ts};
    }

    lemma AllOld(o: seq<TString>, was: map<nat, nat>, str: Bytes)
      requires forall p :: p in was ==> p < |o| && o[p].text != str
      ensures str !in Texts(o, was)
    {
    }
  }

  /** After `i` buckets: a string is where it belongs, or still in a bucket that comes later. */
  predicate Rehashed(now: nat, before: nat, goal: nat, i: nat) {
    now == goal || (now == before && now >= i)
  }
}
