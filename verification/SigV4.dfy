/** The canonical path and query string that an AWS Signature Version 4 signature covers. */
module SigV4 {
  import opened Common
  import opened PercentCodec
  import opened SidebarOrder
  import PathParams

  // ---- awsCanonicalURI ------------------------------------------------------

  /** A segment decoded, or taken as it is when it does not decode, and encoded again. */
  function CanonicalSegment(seg: Bytes): Bytes
  {
    Escape(if Unescape(seg).Some? then Unescape(seg).value else seg)
  }

  function CanonicalSegments(segs: seq<Bytes>): (r: seq<Bytes>)
    ensures |r| == |segs|
  {
    seq(|segs|, i requires 0 <= i < |segs| => CanonicalSegment(segs[i]))
  }

  function CanonicalUri(path: Bytes): Bytes
  {
    if path == [] then "/" else Join<Byte>(CanonicalSegments(Split(path, '/')), ['/'])
  }

  lemma {:induction false} UnescapeKeepsSome(s: Bytes)
    requires s != [] && Unescape(s).Some?
    ensures Unescape(s).value != []
  {
  }

  /** Canonical segments decode, hold no separator, and are their own canonical form. */
  lemma SegmentFacts(seg: Bytes)
    ensures var c := CanonicalSegment(seg);
      '/' !in c && CanonicalSegment(c) == c && (c == [] <==> seg == []) &&
      Unescape(c) == if Unescape(seg).Some? then Unescape(seg) else Some(seg)
  {
    var raw := if Unescape(seg).Some? then Unescape(seg).value else seg;
    EscapeRoundTrip(raw);
    EscapedBytes(raw);
    if seg != [] && Unescape(seg).Some? {
      UnescapeKeepsSome(seg);
    }
  }

  /** What escapePathSegment wrote is signed as it stands. */
  lemma EncodedSegmentIsFixed(v: Bytes)
    ensures CanonicalSegment(Escape(v)) == Escape(v)
  {
    EscapeRoundTrip(v);
  }

  /** The canonical path has the canonical segments: an encoded "/" never becomes a separator. */
  lemma CanonicalSplit(path: Bytes)
    requires path != []
    ensures Split(CanonicalUri(path), '/') == CanonicalSegments(Split(path, '/')) && CanonicalUri(path) != []
  {
    var segs := Split(path, '/');
    SplitParts(path, '/');
    forall i | 0 <= i < |segs| ensures '/' !in CanonicalSegment(segs[i]) {
      SegmentFacts(segs[i]);
    }
    SplitJoin(CanonicalSegments(segs), '/');
    SegmentFacts(segs[0]);
    PathParams.JoinStart(segs);
    PathParams.JoinStart(CanonicalSegments(segs));
  }

  /** Canonicalising twice is canonicalising once, for every path. */
  lemma CanonicalUriIsIdempotent(path: Bytes)
    ensures CanonicalUri(CanonicalUri(path)) == CanonicalUri(path)
    ensures CanonicalUri([]) == "/" == CanonicalUri("/")
  {
    var start: Bytes := if path == [] then "/" else path;
    CanonicalSplit(start);
    var segs := Split(start, '/');
    forall i | 0 <= i < |segs| ensures CanonicalSegment(CanonicalSegment(segs[i])) == CanonicalSegment(segs[i]) {
      SegmentFacts(segs[i]);
    }
    assert CanonicalSegments(CanonicalSegments(segs)) == CanonicalSegments(segs);
    SlashIsCanonical();
  }

  lemma SlashIsCanonical()
    ensures CanonicalUri("/") == "/"
  {
    var s: Bytes := "/";
    assert s[1..] == [] && s[..0] == [];
    assert Split(s, '/') == [[], []];
    assert CanonicalSegments([[], []]) == [[], []];
  }

  /**
   * The signed path and the path on the wire have the same segments, up to the spelling of each, and
   * a segment filled with a parameter's value is signed letter for letter.
   */
  lemma FilledPathIsSigned(path: Bytes, params: seq<PathParams.Param>, i: nat)
    requires '?' !in path && i < |Split(path, '/')| && PathParams.FilledText(path, params) != []
    ensures var wire := PathParams.FilledText(path, params); var sent := CanonicalUri(wire);
      |Split(sent, '/')| == |Split(wire, '/')| == |Split(path, '/')| &&
      var value := PathParams.Filling(Split(path, '/')[i], params);
      if value != [] then Split(sent, '/')[i] == Split(wire, '/')[i] && Unescape(Split(sent, '/')[i]) == Some(value)
      else Split(sent, '/')[i] == CanonicalSegment(Split(path, '/')[i])
  {
    PathParams.FilledSplit(path, params);
    CanonicalSplit(PathParams.FilledText(path, params));
    var value := PathParams.Filling(Split(path, '/')[i], params);
    EncodedSegmentIsFixed(value);
    EscapeRoundTrip(value);
  }

  // ---- awsCanonicalQueryString ----------------------------------------------

  datatype Pair = Pair(k: Bytes, v: Bytes)

  /** Pairs sort by key, then by value. */
  function PairKey(p: Pair): SortKey
  {
    SortKey(p.k, p.v, "")
  }

  function Encoded(p: Pair): Pair
  {
    Pair(Escape(p.k), Escape(p.v))
  }

  function Decoded(p: Pair): Pair
  {
    var k, v := Unescape(p.k), Unescape(p.v);
    Pair(if k.Some? then k.value else [], if v.Some? then v.value else [])
  }

  function Each<T, U>(f: T -> U, xs: seq<T>): (r: seq<U>)
    ensures |r| == |xs|
  {
    seq(|xs|, i requires 0 <= i < |xs| => f(xs[i]))
  }

  function Written(p: Pair): Bytes
  {
    p.k + ['='] + p.v
  }

  function SortedPairs(pairs: seq<Pair>): seq<Pair>
  {
    SortBy(Each(Encoded, pairs), PairKey)
  }

  /** The canonical form of the pairs met in the order the query map gave them. */
  function CanonicalQuery(pairs: seq<Pair>): Bytes
  {
    Join<Byte>(Each(Written, SortedPairs(pairs)), ['&'])
  }

  lemma OneOut<T>(xs: seq<T>, j: nat)
    requires j < |xs|
    ensures multiset(xs) == multiset(xs[..j] + xs[j + 1..]) + multiset{xs[j]}
  {
    assert xs == xs[..j] + ([xs[j]] + xs[j + 1..]);
  }

  /** Two arrangements stay arrangements of each other when one element is taken from both. */
  lemma RestPermutes<T>(xs: seq<T>, i: nat, ys: seq<T>, j: nat)
    requires i < |xs| && j < |ys| && xs[i] == ys[j] && multiset(xs) == multiset(ys)
    ensures multiset(xs[..i] + xs[i + 1..]) == multiset(ys[..j] + ys[j + 1..])
  {
    OneOut(xs, i);
    OneOut(ys, j);
    var a, b := multiset(xs[..i] + xs[i + 1..]), multiset(ys[..j] + ys[j + 1..]);
    assert a == multiset(xs) - multiset{xs[i]} && b == multiset(ys) - multiset{ys[j]};
  }

  lemma RestsPermute<T>(xs: seq<T>, ys: seq<T>)
    requires xs != [] && ys != [] && xs[0] == ys[0] && multiset(xs) == multiset(ys)
    ensures multiset(xs[1..]) == multiset(ys[1..])
  {
    RestPermutes(xs, 0, ys, 0);
    assert xs[..0] + xs[0 + 1..] == xs[1..] && ys[..0] + ys[0 + 1..] == ys[1..];
  }

  lemma SameLength<T>(xs: seq<T>, ys: seq<T>)
    requires multiset(xs) == multiset(ys)
    ensures |xs| == |ys|
  {
    assert |multiset(xs)| == |xs| && |multiset(ys)| == |ys|;
  }

  /** Where the first element of one arrangement is in the other. */
  lemma FirstIn<T>(xs: seq<T>, ys: seq<T>) returns (j: nat)
    requires multiset(xs) == multiset(ys) && xs != []
    ensures j < |ys| && ys[j] == xs[0] && multiset(xs[1..]) == multiset(ys[..j] + ys[j + 1..])
  {
    assert xs[0] in multiset(ys);
    j :| 0 <= j < |ys| && ys[j] == xs[0];
    RestPermutes(xs, 0, ys, j);
    assert xs[..0] + xs[0 + 1..] == xs[1..];
  }

  lemma {:induction false} EachPermutes<T, U>(f: T -> U, xs: seq<T>, ys: seq<T>)
    requires multiset(xs) == multiset(ys)
    ensures multiset(Each(f, xs)) == multiset(Each(f, ys))
    decreases |xs|
  {
    SameLength(xs, ys);
    if xs != [] {
      var j := FirstIn(xs, ys);
      var rest := ys[..j] + ys[j + 1..];
      EachPermutes(f, xs[1..], rest);
      OneOut(Each(f, xs), 0);
      OneOut(Each(f, ys), j);
      assert Each(f, xs)[..0] + Each(f, xs)[0 + 1..] == Each(f, xs[1..]);
      assert Each(f, ys)[..j] + Each(f, ys)[j + 1..] == Each(f, rest);
    }
  }

  lemma FirstIsLeast(xs: seq<Pair>, p: Pair)
    requires SortedBy(xs, PairKey) && p in multiset(xs)
    ensures xs != [] && !KeyLess(PairKey(p), PairKey(xs[0]))
  {
    var i :| 0 <= i < |xs| && xs[i] == p;
    LessIrreflexive(p.k);
    LessIrreflexive(p.v);
    LessIrreflexive("");
  }

  lemma SameFirst(xs: seq<Pair>, ys: seq<Pair>)
    requires SortedBy(xs, PairKey) && SortedBy(ys, PairKey) && multiset(xs) == multiset(ys)
    requires xs != [] && ys != []
    ensures xs[0] == ys[0]
  {
    assert xs[0] in multiset(xs) && ys[0] in multiset(ys);
    FirstIsLeast(xs, ys[0]);
    FirstIsLeast(ys, xs[0]);
    KeyLessTotal(PairKey(xs[0]), PairKey(ys[0]));
  }

  lemma RestSorted(xs: seq<Pair>)
    requires SortedBy(xs, PairKey) && xs != []
    ensures SortedBy(xs[1..], PairKey)
  {
  }

  /** Two sorted arrangements of the same pairs are one. */
  lemma {:induction false} SortedOnce(xs: seq<Pair>, ys: seq<Pair>)
    requires SortedBy(xs, PairKey) && SortedBy(ys, PairKey) && multiset(xs) == multiset(ys)
    ensures xs == ys
    decreases |xs|
  {
    SameLength(xs, ys);
    if xs != [] {
      SameFirst(xs, ys);
      RestsPermute(xs, ys);
      RestSorted(xs);
      RestSorted(ys);
      SortedOnce(xs[1..], ys[1..]);
      assert xs == [xs[0]] + xs[1..] && ys == [ys[0]] + ys[1..];
    }
  }

  lemma SortedPairsFacts(pairs: seq<Pair>)
    ensures SortedBy(SortedPairs(pairs), PairKey)
    ensures multiset(SortedPairs(pairs)) == multiset(Each(Encoded, pairs))
    ensures |SortedPairs(pairs)| == |pairs|
    ensures forall i :: 0 <= i < |pairs| ==> SortedPairs(pairs)[i] in Each(Encoded, pairs)
  {
    SortBySorts(Each(Encoded, pairs), PairKey);
    var s := SortedPairs(pairs);
    assert |multiset(s)| == |multiset(Each(Encoded, pairs))|;
    forall i | 0 <= i < |s| ensures s[i] in Each(Encoded, pairs) {
      assert s[i] in multiset(s);
    }
  }

  lemma EncodedLacks(s: Bytes, c: Byte)
    requires !Unreserved(c) && c != '%'
    ensures c !in Escape(s)
  {
    EscapedBytes(s);
  }

  lemma PairSurvives(p: Pair)
    ensures Decoded(Encoded(p)) == p
    ensures '=' !in Encoded(p).k && '&' !in Written(Encoded(p))
  {
    EscapeRoundTrip(p.k);
    EscapeRoundTrip(p.v);
    EncodedLacks(p.k, '=');
    EncodedLacks(p.k, '&');
    EncodedLacks(p.v, '&');
  }

  lemma WrittenOnce(p: Pair, q: Pair)
    requires '=' !in p.k && '=' !in q.k && Written(p) == Written(q)
    ensures p == q
  {
    assert forall i :: 0 <= i < |p.k| ==> Written(p)[i] == p.k[i] && p.k[i] in p.k;
    assert forall i :: 0 <= i < |q.k| ==> Written(q)[i] == q.k[i] && q.k[i] in q.k;
    IndexOfIs(Written(p), '=', |p.k|);
    IndexOfIs(Written(q), '=', |q.k|);
    assert p.k == Written(p)[..|p.k|] && q.k == Written(q)[..|q.k|];
    assert p.v == Written(p)[|p.k| + 1..] && q.v == Written(q)[|q.k| + 1..];
  }

  /** The written pairs can be cut apart again. */
  lemma QueryParts(pairs: seq<Pair>)
    ensures pairs == [] <==> CanonicalQuery(pairs) == []
    ensures pairs != [] ==> Split(CanonicalQuery(pairs), '&') == Each(Written, SortedPairs(pairs))
    ensures forall i :: 0 <= i < |pairs| ==> i < |SortedPairs(pairs)| && '=' !in SortedPairs(pairs)[i].k
  {
    SortedPairsFacts(pairs);
    var s := SortedPairs(pairs);
    forall i | 0 <= i < |s| ensures '=' !in s[i].k && '&' !in Written(s[i]) {
      var j :| 0 <= j < |pairs| && Each(Encoded, pairs)[j] == s[i];
      PairSurvives(pairs[j]);
    }
    if pairs != [] {
      SplitJoin(Each(Written, s), '&');
      assert Join<Byte>(Each(Written, s), ['&']) != [] by {
        assert Written(s[0]) != [] && Each(Written, s)[0] == Written(s[0]);
      }
    }
  }

  lemma DecodedPairs(pairs: seq<Pair>)
    ensures multiset(Each(Decoded, SortedPairs(pairs))) == multiset(pairs)
  {
    SortedPairsFacts(pairs);
    EachPermutes(Decoded, SortedPairs(pairs), Each(Encoded, pairs));
    forall i | 0 <= i < |pairs| ensures Decoded(Encoded(pairs[i])) == pairs[i] {
      PairSurvives(pairs[i]);
    }
    assert Each(Decoded, Each(Encoded, pairs)) == pairs;
  }

  /**
   * The canonical query string depends on the multiset of pairs alone, so not on the order a map is
   * walked in, and it determines that multiset.
   */
  lemma CanonicalQueryIffSamePairs(a: seq<Pair>, b: seq<Pair>)
    ensures CanonicalQuery(a) == CanonicalQuery(b) <==> multiset(a) == multiset(b)
  {
    if multiset(a) == multiset(b) {
      EachPermutes(Encoded, a, b);
      SortedPairsFacts(a);
      SortedPairsFacts(b);
      SortedOnce(SortedPairs(a), SortedPairs(b));
    } else if CanonicalQuery(a) == CanonicalQuery(b) {
      SameTextSamePairs(a, b);
    }
  }

  lemma SameTextSamePairs(a: seq<Pair>, b: seq<Pair>)
    requires CanonicalQuery(a) == CanonicalQuery(b)
    ensures multiset(a) == multiset(b)
  {
    QueryParts(a);
    QueryParts(b);
    SortedPairsFacts(a);
    SortedPairsFacts(b);
    var s, t := SortedPairs(a), SortedPairs(b);
    if a != [] {
      assert |s| == |Each(Written, s)| == |Each(Written, t)| == |t|;
      forall i | 0 <= i < |s| ensures s[i] == t[i] {
        assert Each(Written, s)[i] == Written(s[i]) && Each(Written, t)[i] == Written(t[i]);
        WrittenOnce(s[i], t[i]);
      }
      assert s == t;
    }
    DecodedPairs(a);
    DecodedPairs(b);
  }

  /** By encoded key, and for equal keys by encoded value. */
  predicate PairPrecedes(p: Pair, q: Pair)
  {
    Less(Escape(p.k), Escape(q.k)) || (Escape(p.k) == Escape(q.k) && Less(Escape(p.v), Escape(q.v)))
  }

  /** The pairs in this order, each written as its encoded key, "=" and its encoded value, with "&" between them. */
  function QueryText(pairs: seq<Pair>): Bytes
  {
    if pairs == [] then []
    else Escape(pairs[0].k) + "=" + Escape(pairs[0].v) + if |pairs| == 1 then [] else "&" + QueryText(pairs[1..])
  }

  lemma {:induction false} QueryTextIs(pairs: seq<Pair>)
    ensures QueryText(pairs) == Join<Byte>(Each(Written, Each(Encoded, pairs)), ['&'])
    decreases |pairs|
  {
    var texts := Each(Written, Each(Encoded, pairs));
    if pairs != [] {
      QueryTextIs(pairs[1..]);
      assert texts[1..] == Each(Written, Each(Encoded, pairs[1..]));
      assert texts[0] == Escape(pairs[0].k) + ['='] + Escape(pairs[0].v);
    }
  }

  lemma SortedPairIsEncoded(pairs: seq<Pair>, i: nat)
    requires i < |SortedPairs(pairs)|
    ensures Encoded(Decoded(SortedPairs(pairs)[i])) == SortedPairs(pairs)[i]
  {
    SortedPairsFacts(pairs);
    var j :| 0 <= j < |pairs| && Each(Encoded, pairs)[j] == SortedPairs(pairs)[i];
    PairSurvives(pairs[j]);
  }

  lemma PrecedesIs(p: Pair, q: Pair)
    ensures PairPrecedes(p, q) <==> KeyLess(PairKey(Encoded(p)), PairKey(Encoded(q)))
  {
    LessIrreflexive(Escape(p.k));
    LessIrreflexive(Escape(p.v));
    LessIrreflexive("");
  }

  /** No pair precedes one written before it. */
  predicate InTurn(pairs: seq<Pair>)
  {
    forall i, j :: 0 <= i < j < |pairs| ==> !PairPrecedes(pairs[j], pairs[i])
  }

  lemma SortedAreInTurn(pairs: seq<Pair>)
    ensures InTurn(Each(Decoded, SortedPairs(pairs)))
  {
    var s := SortedPairs(pairs);
    SortedPairsFacts(pairs);
    forall i, j | 0 <= i < j < |s| ensures !PairPrecedes(Decoded(s[j]), Decoded(s[i])) {
      SortedPairIsEncoded(pairs, i);
      SortedPairIsEncoded(pairs, j);
      PrecedesIs(Decoded(s[j]), Decoded(s[i]));
    }
  }

  /** The canonical query string is the text of its pairs, each as often as it came, sorted as encoded. */
  lemma CanonicalQueryIs(pairs: seq<Pair>) returns (sorted: seq<Pair>)
    ensures multiset(sorted) == multiset(pairs) && InTurn(sorted) && CanonicalQuery(pairs) == QueryText(sorted)
  {
    var s := SortedPairs(pairs);
    sorted := Each(Decoded, s);
    DecodedPairs(pairs);
    SortedAreInTurn(pairs);
    assert Each(Encoded, sorted) == s by {
      forall i | 0 <= i < |s| ensures Encoded(sorted[i]) == s[i] {
        SortedPairIsEncoded(pairs, i);
      }
    }
    QueryTextIs(sorted);
  }

  // ---- The loop over the query map ------------------------------------------

  function PairsUnder(k: Bytes, vs: seq<Bytes>): (r: seq<Pair>)
    ensures |r| == |vs|
  {
    seq(|vs|, i requires 0 <= i < |vs| => Pair(k, vs[i]))
  }

  /** The pairs met when the map's keys come in this order. */
  function Walked(q: map<Bytes, seq<Bytes>>, order: seq<Bytes>): seq<Pair>
  {
    if order == [] then []
    else
      var n := |order| - 1;
      Walked(q, order[..n]) + PairsUnder(order[n], if order[n] in q then q[order[n]] else [])
  }

  lemma WalkedNext(q: map<Bytes, seq<Bytes>>, order: seq<Bytes>, k: Bytes)
    requires k in q
    ensures Each(Encoded, Walked(q, order + [k])) == Each(Encoded, Walked(q, order)) + Each(Encoded, PairsUnder(k, q[k]))
  {
    assert (order + [k])[..|order|] == order;
  }

  /** The keys come in whatever order the map gives. */
  method CollectPairs(q: map<Bytes, seq<Bytes>>) returns (pairs: seq<Pair>, ghost order: seq<Bytes>)
    ensures multiset(order) == multiset(q.Keys) && pairs == Each(Encoded, Walked(q, order))
  {
    pairs, order := [], [];
    var left := q.Keys;
    while left != {}
      invariant left <= q.Keys && multiset(order) == multiset(q.Keys - left)
      invariant pairs == Each(Encoded, Walked(q, order))
      decreases left
    {
      var k :| k in left;
      WalkedNext(q, order, k);
      pairs := EncodeValues(pairs, k, q[k]);
      assert q.Keys - (left - {k}) == q.Keys - left + {k};
      order := order + [k];
      left := left - {k};
    }
    assert q.Keys - left == q.Keys;
  }

  method EncodeValues(done: seq<Pair>, k: Bytes, vs: seq<Bytes>) returns (pairs: seq<Pair>)
    ensures pairs == done + Each(Encoded, PairsUnder(k, vs))
  {
    pairs := done;
    ghost var all := Each(Encoded, PairsUnder(k, vs));
    for i := 0 to |vs|
      invariant pairs == done + all[..i]
    {
      var key := EscapeBytes(k);
      var value := EscapeBytes(vs[i]);
      assert PairsUnder(k, vs)[i] == Pair(k, vs[i]) && all[i] == Encoded(PairsUnder(k, vs)[i]);
      assert all[..i + 1] == all[..i] + [all[i]];
      pairs := pairs + [Pair(key, value)];
    }
  }

  /** Whatever order the map is walked in, the text is that of every other order. */
  method CanonicalQueryString(q: map<Bytes, seq<Bytes>>) returns (text: Bytes)
    ensures forall order :: multiset(order) == multiset(q.Keys) ==> text == CanonicalQuery(Walked(q, order))
  {
    ghost var order: seq<Bytes>;
    var pairs: seq<Pair>;
    pairs, order := CollectPairs(q);
    var sorted := new Pair[|pairs|](i requires 0 <= i < |pairs| => pairs[i]);
    assert sorted[..] == pairs;
    SortInPlace(sorted, PairKey);
    text := Join<Byte>(Each(Written, sorted[..]), ['&']);
    forall other | multiset(other) == multiset(q.Keys)
      ensures CanonicalQuery(Walked(q, other)) == CanonicalQuery(Walked(q, order))
    {
      WalkedPermutes(q, order, other);
      CanonicalQueryIffSamePairs(Walked(q, order), Walked(q, other));
    }
  }

  lemma {:induction false} WalkedSplits(q: map<Bytes, seq<Bytes>>, a: seq<Bytes>, b: seq<Bytes>)
    ensures Walked(q, a + b) == Walked(q, a) + Walked(q, b)
    decreases |b|
  {
    if b == [] {
      assert a + b == a;
    } else {
      var n := |b| - 1;
      assert (a + b)[..|a| + n] == a + b[..n];
      WalkedSplits(q, a, b[..n]);
    }
  }

  lemma WalkedOut(q: map<Bytes, seq<Bytes>>, a: seq<Bytes>, j: nat)
    requires j < |a|
    ensures multiset(Walked(q, a)) == multiset(Walked(q, a[..j] + a[j + 1..])) + multiset(Walked(q, [a[j]]))
  {
    assert a == a[..j] + ([a[j]] + a[j + 1..]);
    WalkedSplits(q, a[..j], [a[j]] + a[j + 1..]);
    WalkedSplits(q, [a[j]], a[j + 1..]);
    WalkedSplits(q, a[..j], a[j + 1..]);
  }

  lemma {:induction false} WalkedPermutes(q: map<Bytes, seq<Bytes>>, a: seq<Bytes>, b: seq<Bytes>)
    requires multiset(a) == multiset(b)
    ensures multiset(Walked(q, a)) == multiset(Walked(q, b))
    decreases |a|
  {
    SameLength(a, b);
    if a != [] {
      var j := FirstIn(a, b);
      WalkedPermutes(q, a[1..], b[..j] + b[j + 1..]);
      assert a[..0] + a[0 + 1..] == a[1..];
      WalkedOut(q, a, 0);
      WalkedOut(q, b, j);
    }
  }

  method CanonicalOne(seg: Bytes) returns (c: Bytes)
    ensures c == CanonicalSegment(seg)
  {
    var raw := Unescape(seg);
    c := EscapeBytes(if raw.Some? then raw.value else seg);
  }

  /** The segments are re-encoded in place. */
  method CanonicaliseInPlace(segments: array<Bytes>)
    modifies segments
    ensures segments[..] == CanonicalSegments(old(segments[..]))
  {
    for i := 0 to segments.Length
      invariant forall j :: 0 <= j < i ==> segments[j] == CanonicalSegment(old(segments[j]))
      invariant forall j :: i <= j < segments.Length ==> segments[j] == old(segments[j])
    {
      segments[i] := CanonicalOne(segments[i]);
    }
  }

  method CanonicalUriText(path: Bytes) returns (uri: Bytes)
    ensures uri == CanonicalUri(path)
  {
    if path == [] {
      return "/";
    }
    var before := Split(path, '/');
    var segments := new Bytes[|before|](i requires 0 <= i < |before| => before[i]);
    assert segments[..] == before;
    CanonicaliseInPlace(segments);
    uri := Join<Byte>(segments[..], ['/']);
  }
}
