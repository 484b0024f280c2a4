/** applyPathParams: filling the `:name` segments of a URL's path. */
module PathParams {
  import opened Common
  import opened PercentCodec

  datatype Protocol = Http | GraphQl | WebSocket | Sse | Grpc

  datatype Param = Param(key: Bytes, value: Bytes)

  predicate NameStart(c: char)
  {
    'a' <= c <= 'z' || 'A' <= c <= 'Z' || c == '_'
  }

  predicate NameChar(c: char)
  {
    NameStart(c) || '0' <= c <= '9'
  }

  /** A whole segment ":name". */
  predicate IsPlaceholder(seg: Bytes)
  {
    |seg| >= 2 && seg[0] == ':' && NameStart(seg[1]) && forall i :: 1 <= i < |seg| ==> NameChar(seg[i])
  }

  /** The row for a name: the last one given. */
  function ValueOf(params: seq<Param>, name: Bytes): Bytes
    decreases |params|
  {
    if params == [] then []
    else
      var last := params[|params| - 1];
      if last.key == name && name != [] then last.value else ValueOf(params[..|params| - 1], name)
  }

  /** The value put in a segment's place; empty means the segment stays. */
  function Filling(seg: Bytes, params: seq<Param>): Bytes
  {
    if IsPlaceholder(seg) then ValueOf(params, seg[1..]) else []
  }

  function Fill(seg: Bytes, params: seq<Param>): Bytes
  {
    if Filling(seg, params) == [] then seg else Escape(Filling(seg, params))
  }

  function FillAll(segs: seq<Bytes>, params: seq<Param>): (r: seq<Bytes>)
    ensures |r| == |segs|
  {
    seq(|segs|, i requires 0 <= i < |segs| => Fill(segs[i], params))
  }

  predicate SchemeAt(s: Bytes, i: nat)
  {
    i + 3 <= |s| && s[i] == ':' && s[i + 1] == '/' && s[i + 2] == '/'
  }

  /** The first "://", or |s|. */
  function SchemeSep(s: Bytes): (i: nat)
    ensures i <= |s| && (i < |s| ==> SchemeAt(s, i))
    ensures forall j :: 0 <= j < i ==> !SchemeAt(s, j)
  {
    if s == [] then 0
    else if SchemeAt(s, 0) then 0
    else
      var i := SchemeSep(s[1..]);
      assert forall j :: 1 <= j < |s| ==> SchemeAt(s, j) == SchemeAt(s[1..], j - 1);
      1 + i
  }

  /** Where the path begins, if the URL has one. */
  function PathStart(base: Bytes): (r: Option<nat>)
    ensures r.Some? ==> r.value < |base| && base[r.value] == '/'
  {
    var i := SchemeSep(base);
    if i < |base| then
      var j := IndexOf(base[i + 3..], '/');
      if j == |base| - i - 3 then None else Some(i + 3 + j)
    else if |base| >= 2 && base[0] == '/' && base[1] == '/' then
      var j := IndexOf(base[2..], '/');
      if j == |base| - 2 then None else Some(2 + j)
    else
      var j := IndexOf(base, '/');
      if j == |base| then None else Some(j)
  }

  function ApplyPathParams(protocol: Protocol, url: Bytes, params: seq<Param>): Bytes
  {
    var q := IndexOf(url, '?');
    var start := PathStart(url[..q]);
    if !(protocol.Http? || protocol.GraphQl?) || params == [] || url == [] || start.None? then url
    else url[..start.value] + FilledText(url[start.value..q], params) + url[q..]
  }

  /** A path with its placeholders filled. */
  function FilledText(path: Bytes, params: seq<Param>): Bytes
  {
    Join<Byte>(FillAll(Split(path, '/'), params), ['/'])
  }

  // ---- Segments -------------------------------------------------------------

  lemma EscapeFacts(v: Bytes)
    requires v != []
    ensures Escape(v) != [] && Unescape(Escape(v)) == Some(v)
    ensures '/' !in Escape(v) && '?' !in Escape(v) && ':' !in Escape(v)
  {
    EscapedBytes(v);
    EscapeRoundTrip(v);
  }

  /** Filling adds no separator, never empties a segment, and a second filling changes nothing. */
  lemma FillFacts(seg: Bytes, params: seq<Param>)
    requires '/' !in seg && '?' !in seg
    ensures var f := Fill(seg, params);
      '/' !in f && '?' !in f && (f == [] <==> seg == []) && Fill(f, params) == f
  {
    var v := Filling(seg, params);
    if v != [] {
      EscapeFacts(v);
      assert Escape(v)[0] != ':';
    }
  }

  lemma {:induction false} JoinHas(parts: seq<Bytes>, sep: Byte, c: Byte)
    requires c != sep && NoneHas(parts, c)
    ensures c !in Join<Byte>(parts, [sep])
    decreases |parts|
  {
    if |parts| > 1 {
      JoinHas(parts[1..], sep, c);
    }
  }

  lemma {:induction false} SplitHas(s: Bytes, sep: Byte, c: Byte)
    requires c !in s
    ensures NoneHas(Split(s, sep), c)
    decreases |s|
  {
    var i := IndexOf(s, sep);
    if i < |s| {
      SplitHas(s[i + 1..], sep, c);
    }
  }

  lemma {:induction false} SplitConcat(a: Bytes, sep: Byte, b: Bytes)
    ensures Split(a + [sep] + b, sep) == Split(a, sep) + Split(b, sep)
    decreases |a|
  {
    if sep !in a {
      SplitAt(a + [sep] + b, sep, a, b);
      NoSplit(a, sep);
    } else {
      var p, rest := CutAtFirst(a, sep);
      CutLater(p, sep, rest, b);
      SplitAt(a, sep, p, rest);
      SplitAt(a + [sep] + b, sep, p, rest + [sep] + b);
      SplitConcat(rest, sep, b);
      SumsAssociate([p], Split(rest, sep), Split(b, sep));
    }
  }

  lemma NoSplit(a: Bytes, sep: Byte)
    requires sep !in a
    ensures Split(a, sep) == [a]
  {
    assert IndexOf(a, sep) == |a|;
  }

  lemma CutAtFirst(a: Bytes, sep: Byte) returns (p: Bytes, rest: Bytes)
    requires sep in a
    ensures a == p + [sep] + rest && sep !in p
  {
    var i := IndexOf(a, sep);
    p, rest := a[..i], a[i + 1..];
  }

  lemma CutLater(p: Bytes, sep: Byte, rest: Bytes, b: Bytes)
    ensures (p + [sep] + rest) + [sep] + b == p + [sep] + (rest + [sep] + b)
  {
  }

  /** parts[k] ends in ":" and an empty part follows that is not the last one. */
  predicate SchemeBetween(parts: seq<Bytes>, k: nat)
  {
    k + 2 < |parts| && parts[k] != [] && parts[k][|parts[k]| - 1] == ':' && parts[k + 1] == []
  }

  /** A "://" in a joined string lies between two of its parts. */
  lemma {:induction false} SchemeToParts(parts: seq<Bytes>, j: nat) returns (k: nat)
    requires parts != [] && NoneHas(parts, '/') && SchemeAt(Join<Byte>(parts, ['/']), j)
    ensures SchemeBetween(parts, k)
    decreases |parts|
  {
    var p, rest := parts[0], parts[1..];
    SchemeNotInPart(parts, j);
    if j >= |p| {
      SchemeInRest(p, Join<Byte>(rest, ['/']), j);
      var k' := SchemeToParts(rest, j - |p| - 1);
      k := k' + 1;
    } else {
      SchemeAfterFirst(parts, j);
      k := 0;
    }
  }

  /** A part has no slash of its own, so the "://" is not inside the first one, or there is only one. */
  lemma SchemeNotInPart(parts: seq<Bytes>, j: nat)
    requires parts != [] && NoneHas(parts, '/') && SchemeAt(Join<Byte>(parts, ['/']), j)
    ensures |parts| > 1 && Join<Byte>(parts, ['/']) == parts[0] + ['/'] + Join<Byte>(parts[1..], ['/'])
    ensures j + 1 >= |parts[0]| && j != |parts[0]|
  {
    var s, p := Join<Byte>(parts, ['/']), parts[0];
    if |parts| > 1 {
      assert s == p + ['/'] + Join<Byte>(parts[1..], ['/']);
    }
    assert forall i :: 0 <= i < |p| ==> p[i] in p && s[i] == p[i];
  }

  lemma SchemeInRest(p: Bytes, t: Bytes, j: nat)
    requires j > |p| && SchemeAt(p + ['/'] + t, j)
    ensures SchemeAt(t, j - |p| - 1)
  {
    var s := p + ['/'] + t;
    assert forall i :: 0 <= i < |t| ==> t[i] == s[|p| + 1 + i];
  }

  lemma SchemeAfterFirst(parts: seq<Bytes>, j: nat)
    requires |parts| > 1 && NoneHas(parts, '/') && SchemeAt(Join<Byte>(parts, ['/']), j) && j + 1 == |parts[0]|
    ensures SchemeBetween(parts, 0)
  {
    var p, rest := parts[0], parts[1..];
    var t := Join<Byte>(rest, ['/']);
    var s := p + ['/'] + t;
    assert Join<Byte>(parts, ['/']) == s;
    assert s[j] == p[j] && s[j + 2] == t[0];
    JoinStart(rest);
    assert rest[0] == parts[1];
  }

  /** And the other way round. */
  lemma {:induction false} PartsToScheme(parts: seq<Bytes>, k: nat) returns (j: nat)
    requires NoneHas(parts, '/') && SchemeBetween(parts, k)
    ensures SchemeAt(Join<Byte>(parts, ['/']), j)
    decreases |parts|
  {
    var p, rest := parts[0], parts[1..];
    var t := Join<Byte>(rest, ['/']);
    assert Join<Byte>(parts, ['/']) == p + ['/'] + t;
    if k == 0 {
      JoinStart(rest);
      assert rest[0] == parts[1];
      j := |p| - 1;
    } else {
      assert SchemeBetween(rest, k - 1);
      var j' := PartsToScheme(rest, k - 1);
      j := j' + |p| + 1;
    }
  }

  lemma JoinStart(parts: seq<Bytes>)
    requires parts != [] && NoneHas(parts, '/')
    ensures var s := Join<Byte>(parts, ['/']);
      (parts[0] == [] <==> s == [] || s[0] == '/') && (s == [] <==> parts[0] == [] && |parts| == 1)
  {
  }

  // ---- What filling keeps ---------------------------------------------------

  lemma FilledParts(path: Bytes, params: seq<Param>)
    requires '?' !in path
    ensures NoneHas(FillAll(Split(path, '/'), params), '/') && NoneHas(FillAll(Split(path, '/'), params), '?')
  {
    var segs := Split(path, '/');
    SplitParts(path, '/');
    SplitHas(path, '/', '?');
    forall i | 0 <= i < |segs| ensures '/' !in FillAll(segs, params)[i] && '?' !in FillAll(segs, params)[i] {
      FillFacts(segs[i], params);
    }
  }

  /** A filled path has the filled segments for its segments. */
  lemma FilledSplit(path: Bytes, params: seq<Param>)
    requires '?' !in path
    ensures Split(FilledText(path, params), '/') == FillAll(Split(path, '/'), params)
    ensures '?' !in FilledText(path, params)
  {
    FilledParts(path, params);
    SplitJoin(FillAll(Split(path, '/'), params), '/');
    JoinHas(FillAll(Split(path, '/'), params), '/', '?');
  }

  lemma {:induction false} JoinConcat(a: seq<Bytes>, b: seq<Bytes>)
    requires a != [] && b != []
    ensures Join<Byte>(a + b, ['/']) == Join<Byte>(a, ['/']) + ['/'] + Join<Byte>(b, ['/'])
    decreases |a|
  {
    assert (a + b)[1..] == a[1..] + b;
    if |a| > 1 {
      JoinConcat(a[1..], b);
    } else {
      assert a[1..] + b == b;
    }
  }

  lemma FilledSlash(t: Bytes, params: seq<Param>)
    ensures FilledText(['/'] + t, params) == ['/'] + FilledText(t, params)
  {
    SplitConcat([], '/', t);
    assert [] + ['/'] + t == ['/'] + t && Split([], '/') == [[]];
    var segs := Split(t, '/');
    assert FillAll([[]] + segs, params) == [[]] + FillAll(segs, params);
    JoinConcat([[]], FillAll(segs, params));
  }

  /** Filling segments never makes a "://" that was not there. */
  lemma FillingAddsNoScheme(head: Bytes, t: Bytes, params: seq<Param>, j: nat) returns (j': nat)
    requires '?' !in t && SchemeAt(head + ['/'] + FilledText(t, params), j)
    ensures SchemeAt(head + ['/'] + t, j')
  {
    var h, segs := Split(head, '/'), Split(t, '/');
    SplitParts(head, '/');
    SplitParts(t, '/');
    FilledParts(t, params);
    JoinConcat(h, FillAll(segs, params));
    JoinConcat(h, segs);
    var k := SchemeToParts(h + FillAll(segs, params), j);
    SplitHas(t, '/', '?');
    SchemeBeforeFilling(h, segs, params, k);
    j' := PartsToScheme(h + segs, k);
  }

  lemma SchemeBeforeFilling(h: seq<Bytes>, segs: seq<Bytes>, params: seq<Param>, k: nat)
    requires NoneHas(segs, '/') && NoneHas(segs, '?')
    requires SchemeBetween(h + FillAll(segs, params), k)
    ensures SchemeBetween(h + segs, k)
  {
    var filled := FillAll(segs, params);
    forall i | 0 <= i < |segs|
      ensures filled[i] == [] <==> segs[i] == []
      ensures filled[i] != [] && filled[i][|filled[i]| - 1] == ':' ==> filled[i] == segs[i]
    {
      FillFacts(segs[i], params);
      if Filling(segs[i], params) != [] {
        EscapeFacts(Filling(segs[i], params));
      }
    }
  }

  // ---- The path keeps its place ---------------------------------------------

  lemma SchemeSepIs(s: Bytes, i: nat)
    requires i <= |s| && (i < |s| ==> SchemeAt(s, i)) && forall j: nat :: j < i ==> !SchemeAt(s, j)
    ensures SchemeSep(s) == i
  {
    var k: nat := SchemeSep(s);
    assert k == |s| || SchemeAt(s, k);
  }

  lemma SlashAfter(a: Bytes, x: Bytes)
    requires '/' !in a
    ensures IndexOf(a + ['/'] + x, '/') == |a|
  {
    assert forall j :: 0 <= j < |a| ==> (a + ['/'] + x)[j] == a[j] && a[j] in a;
    IndexOfIs(a + ['/'] + x, '/', |a|);
  }

  /** Absolute URL: the path begins at the first slash after "://", whatever the path is. */
  lemma StartAfterScheme(head: Bytes, x: Bytes, i: nat)
    requires SchemeAt(head, i) && (forall j: nat :: j < i ==> !SchemeAt(head, j)) && '/' !in head[i + 3..]
    ensures PathStart(head + ['/'] + x) == Some(|head|)
  {
    var s := head + ['/'] + x;
    assert forall j: nat :: j <= i ==> SchemeAt(s, j) == SchemeAt(head, j);
    SchemeSepIs(s, i);
    assert s[i + 3..] == head[i + 3..] + ['/'] + x;
    SlashAfter(head[i + 3..], x);
  }

  /** Scheme-relative URL. */
  lemma StartAfterSlashes(head: Bytes, x: Bytes)
    requires |head| >= 2 && head[0] == '/' && head[1] == '/' && '/' !in head[2..]
    requires forall j: nat :: !SchemeAt(head + ['/'] + x, j)
    ensures PathStart(head + ['/'] + x) == Some(|head|)
  {
    var s := head + ['/'] + x;
    SchemeSepIs(s, |s|);
    assert s[2..] == head[2..] + ['/'] + x;
    SlashAfter(head[2..], x);
  }

  /** Relative URL. */
  lemma StartAtSlash(head: Bytes, x: Bytes)
    requires '/' !in head && (head == [] ==> x == [] || x[0] != '/')
    requires forall j: nat :: !SchemeAt(head + ['/'] + x, j)
    ensures PathStart(head + ['/'] + x) == Some(|head|)
  {
    var s := head + ['/'] + x;
    SchemeSepIs(s, |s|);
    SlashAfter(head, x);
    assert head != [] ==> s[0] == head[0] && head[0] in head;
    assert head == [] ==> s[1..] == x;
  }

  lemma HeadHasNoSlash(head: Bytes, x: Bytes, n: nat)
    requires n <= |head| && IndexOf((head + ['/'] + x)[n..], '/') == |head| - n
    ensures '/' !in head[n..]
  {
    var cut, rest := (head + ['/'] + x)[n..], head[n..];
    assert forall j :: 0 <= j < |rest| ==> cut[j] == rest[j];
  }

  lemma FilledStart(t: Bytes, params: seq<Param>)
    requires '?' !in t && (t == [] || t[0] != '/')
    ensures FilledText(t, params) == [] || FilledText(t, params)[0] != '/'
  {
    FilledParts(t, params);
    SplitParts(t, '/');
    SplitHas(t, '/', '?');
    FillFacts(Split(t, '/')[0], params);
    JoinStart(Split(t, '/'));
    JoinStart(FillAll(Split(t, '/'), params));
  }

  lemma SchemeInHead(head: Bytes, x: Bytes, j: nat)
    requires j + 3 <= |head|
    ensures SchemeAt(head + x, j) == SchemeAt(head, j)
  {
  }

  /** The first "://" is at i. */
  ghost predicate FirstScheme(s: Bytes, i: nat)
  {
    SchemeAt(s, i) && forall j: nat :: j < i ==> !SchemeAt(s, j)
  }

  lemma AbsolutePath(s: Bytes, n: nat)
    requires PathStart(s) == Some(n) && SchemeSep(s) < |s|
    ensures var i := SchemeSep(s); FirstScheme(s, i) && i + 3 <= n && IndexOf(s[i + 3..], '/') == n - (i + 3)
  {
  }

  lemma AbsoluteStart(head: Bytes, x: Bytes, y: Bytes, i: nat)
    requires FirstScheme(head + ['/'] + x, i) && i + 3 <= |head|
    requires IndexOf((head + ['/'] + x)[i + 3..], '/') == |head| - (i + 3)
    ensures PathStart(head + ['/'] + y) == Some(|head|)
  {
    forall j: nat | j <= i ensures SchemeAt(head + ['/'] + x, j) == SchemeAt(head, j) {
      assert head + (['/'] + x) == head + ['/'] + x;
      SchemeInHead(head, ['/'] + x, j);
    }
    HeadHasNoSlash(head, x, i + 3);
    StartAfterScheme(head, y, i);
  }

  /** The path of the filled URL begins where the path of the original does. */
  lemma SamePathStart(head: Bytes, t: Bytes, params: seq<Param>)
    requires '?' !in t && PathStart(head + ['/'] + t) == Some(|head|)
    ensures PathStart(head + ['/'] + FilledText(t, params)) == Some(|head|)
  {
    var s, filled := head + ['/'] + t, FilledText(t, params);
    var i: nat := SchemeSep(s);
    if i < |s| {
      AbsolutePath(s, |head|);
      AbsoluteStart(head, t, filled, i);
    } else {
      NoSchemeAfterFilling(head, t, params);
      if |s| >= 2 && s[0] == '/' && s[1] == '/' {
        assert |head| >= 2 ==> head[0] == s[0] && head[1] == s[1];
        HeadHasNoSlash(head, t, 2);
        StartAfterSlashes(head, filled);
      } else {
        assert forall j :: 0 <= j < |head| ==> head[j] == s[j];
        assert head == [] && t != [] ==> s[1] == t[0];
        if head == [] {
          FilledStart(t, params);
        }
        StartAtSlash(head, filled);
      }
    }
  }

  lemma NoSchemeAfterFilling(head: Bytes, t: Bytes, params: seq<Param>)
    requires '?' !in t && SchemeSep(head + ['/'] + t) == |head + ['/'] + t|
    ensures forall j: nat :: !SchemeAt(head + ['/'] + FilledText(t, params), j)
  {
    forall j: nat ensures !SchemeAt(head + ['/'] + FilledText(t, params), j) {
      if SchemeAt(head + ['/'] + FilledText(t, params), j) {
        var j' := FillingAddsNoScheme(head, t, params, j);
      }
    }
  }

  // ---- The promises ---------------------------------------------------------

  /** The three parts of a URL with a path: before the path, after its first slash, from "?" on. */
  predicate Parts(url: Bytes, head: Bytes, t: Bytes, query: Bytes)
  {
    url == head + (['/'] + t) + query && '?' !in head && '?' !in t && (query == [] || query[0] == '?') &&
    PathStart(head + ['/'] + t) == Some(|head|)
  }

  predicate HasPath(url: Bytes)
  {
    PathStart(url[..IndexOf(url, '?')]).Some?
  }

  /** A text cut at two places. */
  lemma CutTwice(url: Bytes, n: nat, q: nat)
    requires n < q <= |url| && url[n] == '/'
    ensures url[..n] + ['/'] + url[n + 1..q] == url[..q]
    ensures url == url[..n] + (['/'] + url[n + 1..q]) + url[q..]
  {
    var head, t := url[..n], url[n + 1..q];
    assert url[..q] == head + ['/'] + t;
    assert head + ['/'] + t == head + (['/'] + t);
    assert url == url[..q] + url[q..];
  }

  lemma UrlParts(url: Bytes) returns (head: Bytes, t: Bytes, query: Bytes)
    requires HasPath(url)
    ensures Parts(url, head, t, query)
  {
    var q := IndexOf(url, '?');
    var n := PathStart(url[..q]).value;
    head, t, query := url[..n], url[n + 1..q], url[q..];
    assert url[n] == url[..q][n];
    CutTwice(url, n, q);
    assert forall i :: 0 <= i < |head| ==> head[i] == url[i];
    assert forall i :: 0 <= i < |t| ==> t[i] == url[n + 1 + i];
  }

  /** Those parts are what the source's indices cut out. */
  lemma PartsAreCuts(url: Bytes, head: Bytes, t: Bytes, query: Bytes)
    requires Parts(url, head, t, query)
    ensures var q := IndexOf(url, '?'); var n := |head|;
      PathStart(url[..q]) == Some(n) && url[..n] == head && url[n..q] == ['/'] + t && url[q..] == query
  {
    var path := ['/'] + t;
    var q := |head| + |path|;
    assert url[..q] == head + path == head + ['/'] + t && url[q..] == query;
    assert forall j :: 0 <= j < |head| ==> url[j] == head[j];
    assert forall j :: 0 <= j < |path| ==> url[|head| + j] == path[j];
    IndexOfIs(url, '?', q);
    assert url[|head|..q] == path;
  }

  predicate Applies(protocol: Protocol, url: Bytes, params: seq<Param>)
  {
    (protocol.Http? || protocol.GraphQl?) && params != [] && HasPath(url)
  }

  /** Filling works on the path alone. */
  lemma AppliedParts(protocol: Protocol, url: Bytes, params: seq<Param>, head: Bytes, t: Bytes, query: Bytes)
    requires Applies(protocol, url, params) && Parts(url, head, t, query)
    ensures var r := ApplyPathParams(protocol, url, params);
      r == head + (['/'] + FilledText(t, params)) + query && Parts(r, head, FilledText(t, params), query)
  {
    PartsAreCuts(url, head, t, query);
    FilledSlash(t, params);
    FilledSplit(t, params);
    SamePathStart(head, t, params);
  }

  /**
   * Filling keeps everything before the path and from "?" on, and the number of segments; a filled
   * segment percent-decodes to its value and every other segment is untouched.
   */
  lemma FillingIsLocal(protocol: Protocol, url: Bytes, params: seq<Param>)
    returns (head: Bytes, t: Bytes, t': Bytes, query: Bytes)
    requires Applies(protocol, url, params)
    ensures Parts(url, head, t, query) && Parts(ApplyPathParams(protocol, url, params), head, t', query)
    ensures var before, after := Split(t, '/'), Split(t', '/');
      |after| == |before| && forall i :: 0 <= i < |before| ==>
        if Filling(before[i], params) == [] then after[i] == before[i]
        else Unescape(after[i]) == Some(Filling(before[i], params))
  {
    head, t, query := UrlParts(url);
    t' := FilledText(t, params);
    AppliedParts(protocol, url, params, head, t, query);
    FilledSplit(t, params);
    var before := Split(t, '/');
    forall i | 0 <= i < |before| && Filling(before[i], params) != []
      ensures Unescape(Fill(before[i], params)) == Some(Filling(before[i], params))
    {
      EscapeRoundTrip(Filling(before[i], params));
    }
  }

  lemma FillTwice(t: Bytes, params: seq<Param>)
    requires '?' !in t
    ensures FilledText(FilledText(t, params), params) == FilledText(t, params)
  {
    FilledSplit(t, params);
    var segs := Split(t, '/');
    SplitParts(t, '/');
    SplitHas(t, '/', '?');
    forall i | 0 <= i < |segs| ensures Fill(Fill(segs[i], params), params) == Fill(segs[i], params) {
      FillFacts(segs[i], params);
    }
    assert FillAll(FillAll(segs, params), params) == FillAll(segs, params);
  }

  /** Filling twice is filling once: for every URL, protocol and parameter list. */
  lemma FillingIsIdempotent(protocol: Protocol, url: Bytes, params: seq<Param>)
    ensures var r := ApplyPathParams(protocol, url, params);
      ApplyPathParams(protocol, r, params) == r
  {
    if Applies(protocol, url, params) {
      var head, t, query := UrlParts(url);
      AppliedParts(protocol, url, params, head, t, query);
      var r := ApplyPathParams(protocol, url, params);
      PartsAreCuts(r, head, FilledText(t, params), query);
      AppliedParts(protocol, r, params, head, FilledText(t, params), query);
      FillTwice(t, params);
    }
  }

  // ---- The loops ------------------------------------------------------------

  method PathParamName(seg: Bytes) returns (name: Option<Bytes>)
    ensures name == if IsPlaceholder(seg) then Some(seg[1..]) else None
  {
    if |seg| < 2 || seg[0] != ':' {
      return None;
    }
    for i := 1 to |seg|
      invariant forall j :: 1 <= j < i ==> NameChar(seg[j])
      invariant i > 1 ==> NameStart(seg[1])
    {
      if !NameStart(seg[i]) && (i == 1 || !NameChar(seg[i])) {
        return None;
      }
    }
    name := Some(seg[1..]);
  }

  /** The table built from the parameter rows reads like the last row of each name. */
  ghost predicate Tabulates(values: map<Bytes, Bytes>, params: seq<Param>)
  {
    forall name :: ValueOf(params, name) == if name in values then values[name] else []
  }

  method CollectValues(params: seq<Param>) returns (values: map<Bytes, Bytes>)
    ensures Tabulates(values, params) && [] !in values
  {
    values := map[];
    for i := 0 to |params|
      invariant Tabulates(values, params[..i]) && [] !in values
    {
      assert params[..i + 1][..i] == params[..i];
      if params[i].key != [] {
        values := values[params[i].key := params[i].value];
      }
    }
    assert params[..|params|] == params;
  }

  /** The segments are replaced in place. */
  method FillSegments(segments: array<Bytes>, values: map<Bytes, Bytes>, ghost params: seq<Param>)
    requires Tabulates(values, params)
    modifies segments
    ensures segments[..] == FillAll(old(segments[..]), params)
  {
    for i := 0 to segments.Length
      invariant forall j :: 0 <= j < i ==> segments[j] == Fill(old(segments[j]), params)
      invariant forall j :: i <= j < segments.Length ==> segments[j] == old(segments[j])
    {
      var name := PathParamName(segments[i]);
      if name.Some? && name.value in values && values[name.value] != [] {
        segments[i] := EscapeBytes(values[name.value]);
      }
    }
  }

  method FillUrl(protocol: Protocol, url: Bytes, params: seq<Param>) returns (r: Bytes)
    ensures r == ApplyPathParams(protocol, url, params)
  {
    if !(protocol.Http? || protocol.GraphQl?) || params == [] || url == [] {
      return url;
    }
    var q := IndexOf(url, '?');
    var start := PathStart(url[..q]);
    if start.None? {
      return url;
    }
    var values := CollectValues(params);
    var before := Split(url[start.value..q], '/');
    var segments := new Bytes[|before|](i requires 0 <= i < |before| => before[i]);
    assert segments[..] == before;
    FillSegments(segments, values, params);
    r := url[..start.value] + Join<Byte>(segments[..], ['/']) + url[q..];
  }
}
