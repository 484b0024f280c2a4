/** Which recorded route the mock server answers a request with. */
module MockRoutes {
  import opened Common
  import opened SortedNames

  datatype Segment = Wildcard | Literal(text: string)

  /** `wildcards` is counted when the route is compiled. */
  datatype Route = Route(httpMethod: string, request: string, segments: seq<Segment>, wildcards: nat)

  function CountWildcards(segs: seq<Segment>): nat
  {
    if segs == [] then 0 else (if segs[0].Wildcard? then 1 else 0) + CountWildcards(segs[1..])
  }

  predicate Compiled(r: Route)
  {
    r.wildcards == CountWildcards(r.segments)
  }

  /** A wildcard takes exactly one segment. */
  predicate Matches(r: Route, path: seq<string>)
  {
    |r.segments| == |path| && forall i :: 0 <= i < |path| ==> r.segments[i].Wildcard? || r.segments[i].text == path[i]
  }

  predicate Candidate(r: Route, verb: string, path: seq<string>)
  {
    Matches(r, path) && r.httpMethod == verb
  }

  /** Segment by segment: a literal stands for itself, a wildcard for any one segment. */
  predicate Fits(segments: seq<Segment>, path: seq<string>)
  {
    |path| == |segments| && forall i :: 0 <= i < |segments| ==> segments[i] == Wildcard || segments[i] == Literal(path[i])
  }

  /** a pins the first segment that only one of them pins. */
  predicate PinsEarlier(a: seq<Segment>, b: seq<Segment>)
  {
    a != [] && b != [] &&
    if a[0].Wildcard? != b[0].Wildcard? then a[0].Literal? else PinsEarlier(a[1..], b[1..])
  }

  predicate MoreSpecific(a: Route, b: Route)
  {
    if a.wildcards != b.wildcards then a.wildcards < b.wildcards else PinsEarlier(a.segments, b.segments)
  }

  /** The loop over the segments. */
  method Beats(a: Route, b: Route) returns (r: bool)
    ensures r == MoreSpecific(a, b)
  {
    if a.wildcards != b.wildcards {
      return a.wildcards < b.wildcards;
    }
    var i := 0;
    while i < |a.segments|
      invariant i <= |a.segments| && i <= |b.segments|
      invariant PinsEarlier(a.segments[i..], b.segments[i..]) == PinsEarlier(a.segments, b.segments)
    {
      if i >= |b.segments| {
        break;
      }
      if a.segments[i].Wildcard? != b.segments[i].Wildcard? {
        return !a.segments[i].Wildcard?;
      }
      i := i + 1;
    }
    r := false;
  }

  lemma {:induction false} PinsOrder(a: seq<Segment>, b: seq<Segment>, c: seq<Segment>)
    requires |a| == |b| == |c| && PinsEarlier(a, b) && !PinsEarlier(c, b)
    ensures PinsEarlier(a, c)
    decreases |a|
  {
    if a[0].Wildcard? == b[0].Wildcard? == c[0].Wildcard? {
      PinsOrder(a[1..], b[1..], c[1..]);
    }
  }

  lemma {:induction false} PinsOneWay(a: seq<Segment>, b: seq<Segment>)
    requires PinsEarlier(a, b)
    ensures !PinsEarlier(b, a)
    decreases |a|
  {
    if a[0].Wildcard? == b[0].Wildcard? {
      PinsOneWay(a[1..], b[1..]);
    }
  }

  /** On routes of one depth: what beats b also beats whatever does not beat b, and is not beaten by it. */
  lemma SpecificityIsAnOrder(a: Route, b: Route, c: Route)
    requires |a.segments| == |b.segments| == |c.segments| && MoreSpecific(a, b) && !MoreSpecific(c, b)
    ensures MoreSpecific(a, c) && !MoreSpecific(c, a)
  {
    if a.wildcards == b.wildcards == c.wildcards {
      PinsOrder(a.segments, b.segments, c.segments);
      PinsOneWay(a.segments, c.segments);
    }
  }

  /** The route at k is the first of the most specific candidates. */
  ghost predicate Best(routes: seq<Route>, verb: string, path: seq<string>, k: nat)
  {
    k < |routes| && Candidate(routes[k], verb, path) &&
    forall j :: 0 <= j < |routes| && Candidate(routes[j], verb, path) ==>
      !MoreSpecific(routes[j], routes[k]) && (j < k ==> MoreSpecific(routes[k], routes[j]))
  }

  ghost function Recorded(routes: seq<Route>, path: seq<string>): set<string>
  {
    set i | 0 <= i < |routes| && Matches(routes[i], path) :: routes[i].httpMethod
  }

  /** There is only one such route. */
  lemma BestIsUnique(routes: seq<Route>, verb: string, path: seq<string>, j: nat, k: nat)
    requires Best(routes, verb, path, j) && Best(routes, verb, path, k)
    ensures j == k
  {
  }

  /** A candidate that pins every segment leaves no wildcard in the answer. */
  lemma {:induction false} ExactRouteWins(routes: seq<Route>, verb: string, path: seq<string>, j: nat, k: nat)
    requires Best(routes, verb, path, k) && j < |routes| && Candidate(routes[j], verb, path) && Compiled(routes[k])
    requires routes[j].wildcards == 0
    ensures forall i :: 0 <= i < |path| ==> routes[k].segments[i] == Literal(path[i])
  {
    NoWildcards(routes[k].segments);
  }

  lemma {:induction false} NoWildcards(segs: seq<Segment>)
    requires CountWildcards(segs) == 0
    ensures forall i :: 0 <= i < |segs| ==> segs[i].Literal?
    decreases |segs|
  {
    if segs != [] {
      NoWildcards(segs[1..]);
      assert segs == [segs[0]] + segs[1..];
    }
  }

  ghost function WildAt(segs: seq<Segment>): set<int>
  {
    set i | 0 <= i < |segs| && segs[i].Wildcard?
  }

  lemma {:induction false} OneMoreSegment(segs: seq<Segment>, x: Segment)
    ensures CountWildcards(segs + [x]) == CountWildcards(segs) + if x.Wildcard? then 1 else 0
    decreases |segs|
  {
    if segs != [] {
      assert (segs + [x])[1..] == segs[1..] + [x];
      OneMoreSegment(segs[1..], x);
    }
  }

  lemma {:induction false} WildcardsAre(segs: seq<Segment>)
    ensures CountWildcards(segs) == |WildAt(segs)|
    decreases |segs|
  {
    if segs != [] {
      var n := |segs| - 1;
      assert segs == segs[..n] + [segs[n]];
      OneMoreSegment(segs[..n], segs[n]);
      WildcardsAre(segs[..n]);
      assert WildAt(segs) == WildAt(segs[..n]) + if segs[n].Wildcard? then {n} else {};
    }
  }

  /** At the first segment in which the kinds of a and b differ, a has the literal. */
  ghost predicate PinsFirst(a: seq<Segment>, b: seq<Segment>)
  {
    exists i :: 0 <= i < |a| && i < |b| && a[i].Literal? && b[i].Wildcard? && SameKinds(a[..i], b[..i])
  }

  predicate SameKinds(a: seq<Segment>, b: seq<Segment>)
  {
    |a| == |b| && forall i :: 0 <= i < |a| ==> (a[i].Wildcard? <==> b[i].Wildcard?)
  }

  lemma PinsFirstShifts(a: seq<Segment>, b: seq<Segment>)
    requires |a| == |b| > 0 && a[0].Wildcard? == b[0].Wildcard?
    ensures PinsFirst(a, b) <==> PinsFirst(a[1..], b[1..])
  {
    if i :| 0 <= i < |a[1..]| && a[1..][i].Literal? && b[1..][i].Wildcard? && SameKinds(a[1..][..i], b[1..][..i]) {
      assert a[..i + 1] == [a[0]] + a[1..][..i] && b[..i + 1] == [b[0]] + b[1..][..i];
      assert a[i + 1].Literal? && b[i + 1].Wildcard?;
    }
    if i :| 0 <= i < |a| && a[i].Literal? && b[i].Wildcard? && SameKinds(a[..i], b[..i]) {
      assert a[1..][i - 1].Literal? && b[1..][i - 1].Wildcard?;
      assert a[1..][..i - 1] == a[..i][1..] && b[1..][..i - 1] == b[..i][1..];
    }
  }

  lemma {:induction false} PinsEarlierIff(a: seq<Segment>, b: seq<Segment>)
    requires |a| == |b|
    ensures PinsEarlier(a, b) <==> PinsFirst(a, b)
    decreases |a|
  {
    if a != [] && a[0].Wildcard? == b[0].Wildcard? {
      PinsFirstShifts(a, b);
      PinsEarlierIff(a[1..], b[1..]);
    } else if a != [] && a[0].Literal? {
      assert SameKinds(a[..0], b[..0]);
    } else if a != [] {
      assert forall i :: 0 < i < |a| && SameKinds(a[..i], b[..i]) ==> a[..i][0].Wildcard? == b[..i][0].Wildcard?;
    }
  }

  lemma {:induction false} AlikeWhenNeitherPins(a: seq<Segment>, b: seq<Segment>)
    requires |a| == |b| && !PinsEarlier(a, b) && !PinsEarlier(b, a)
    ensures SameKinds(a, b)
    decreases |a|
  {
    if a != [] {
      AlikeWhenNeitherPins(a[1..], b[1..]);
      assert a == [a[0]] + a[1..] && b == [b[0]] + b[1..];
    }
  }

  /**
   * Among the recorded routes of a method that fit a path, the answer has the fewest wildcards; of those, a
   * literal where the other first has a wildcard in its place; and of those alike in that, it comes first.
   */
  lemma AnswerIsMostSpecific(routes: seq<Route>, verb: string, path: seq<string>, k: nat, j: nat)
    requires Best(routes, verb, path, k) && j < |routes| && j != k
    requires routes[j].httpMethod == verb && Fits(routes[j].segments, path)
    requires Compiled(routes[k]) && Compiled(routes[j])
    ensures var a, b := routes[k].segments, routes[j].segments;
      |WildAt(a)| < |WildAt(b)| ||
      (|WildAt(a)| == |WildAt(b)| && (PinsFirst(a, b) || (SameKinds(a, b) && k < j)))
  {
    WildcardsAre(routes[k].segments);
    WildcardsAre(routes[j].segments);
    PinsEarlierIff(routes[k].segments, routes[j].segments);
    if !PinsEarlier(routes[k].segments, routes[j].segments) && !PinsEarlier(routes[j].segments, routes[k].segments) {
      AlikeWhenNeitherPins(routes[k].segments, routes[j].segments);
    }
    assert Candidate(routes[j], verb, path);
  }

  /**
   * The best candidate when there is one; otherwise the methods recorded for the path, each once and in
   * order, which is what a 405 reports (none at all means 404).
   */
  method Match(routes: seq<Route>, verb: string, path: seq<string>) returns (best: Option<nat>, allow: seq<string>)
    ensures best.Some? ==> Best(routes, verb, path, best.value) && allow == []
    ensures best.Some? ==> routes[best.value].httpMethod == verb && Fits(routes[best.value].segments, path)
    ensures best.None? ==>
      forall j :: 0 <= j < |routes| && routes[j].httpMethod == verb ==> !Fits(routes[j].segments, path)
    ensures best.None? ==> allow == SortedKeys(Recorded(routes, path)) && verb !in Recorded(routes, path)
  {
    best := None;
    var allowSet: set<string> := {};
    for i := 0 to |routes|
      invariant best.Some? ==> Best(routes[..i], verb, path, best.value)
      invariant best.None? ==> forall j :: 0 <= j < i ==> !Candidate(routes[j], verb, path)
      invariant allowSet == Recorded(routes[..i], path) - {verb}
    {
      var rt := routes[i];
      assert routes[..i + 1] == routes[..i] + [rt];
      RecordedMore(routes[..i], rt, path);
      if !Matches(rt, path) {
        continue;
      }
      if rt.httpMethod != verb {
        allowSet := allowSet + {rt.httpMethod};
        continue;
      }
      if best.None? {
        Irreflexive(rt.segments);
        best := Some(i);
      } else {
        var better := Beats(rt, routes[best.value]);
        BestSoFar(routes[..i], rt, verb, path, best.value);
        if better {
          best := Some(i);
        }
      }
    }
    assert routes[..|routes|] == routes;
    if best.Some? {
      return best, [];
    }
    assert allowSet == Recorded(routes, path);
    allow := SortKeys(allowSet);
  }

  lemma RecordedMore(routes: seq<Route>, rt: Route, path: seq<string>)
    ensures Recorded(routes + [rt], path) == Recorded(routes, path) + if Matches(rt, path) then {rt.httpMethod} else {}
  {
    var all := routes + [rt];
    forall m | m in Recorded(routes, path) ensures m in Recorded(all, path) {
      var i :| 0 <= i < |routes| && Matches(routes[i], path) && routes[i].httpMethod == m;
      assert all[i] == routes[i];
    }
    assert all[|routes|] == rt;
  }

  lemma BestSoFar(routes: seq<Route>, rt: Route, verb: string, path: seq<string>, k: nat)
    requires Best(routes, verb, path, k) && Candidate(rt, verb, path)
    ensures Best(routes + [rt], verb, path, if MoreSpecific(rt, routes[k]) then |routes| else k)
  {
    var all := routes + [rt];
    if MoreSpecific(rt, routes[k]) {
      forall j | 0 <= j < |routes| && Candidate(all[j], verb, path)
        ensures MoreSpecific(rt, all[j]) && !MoreSpecific(all[j], rt)
      {
        assert all[j] == routes[j];
        SpecificityIsAnOrder(rt, routes[k], routes[j]);
      }
      Irreflexive(rt.segments);
    } else {
      assert forall j :: 0 <= j < |routes| ==> all[j] == routes[j];
    }
  }

  lemma {:induction false} Irreflexive(a: seq<Segment>)
    ensures !PinsEarlier(a, a)
  {
    if a != [] {
      Irreflexive(a[1..]);
    }
  }
}
