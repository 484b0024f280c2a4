/** Load-test points gathered into one-second samples. */
module Perf {
  import opened Common

  const SECOND: int := 1_000_000_000

  datatype Metric = ReqDuration(ms: real) | Reqs(count: int) | ReqFailed(failed: bool) | Vus(users: int) | Other

  /** One k6 point: nanoseconds since the run began, and what it measured. */
  datatype Point = Point(elapsed: int, metric: Metric)

  /** What one bucket has gathered. */
  datatype Bucket = Bucket(durations: seq<real>, requests: int, failures: int, maxVus: int)

  /** An emitted sample; the source renders rates and percentiles of these numbers. */
  datatype Sample = Sample(offsetMs: int, bucket: Bucket)

  const EMPTY := Bucket([], 0, 0, 0)

  /** Whole seconds since the start; a point from before it counts as second 0. */
  function Index(p: Point): (i: nat)
  {
    if p.elapsed < 0 then 0 else p.elapsed / SECOND
  }

  function Add(b: Bucket, m: Metric): Bucket
  {
    match m
    case ReqDuration(ms) => b.(durations := b.durations + [ms])
    case Reqs(count) => b.(requests := b.requests + count)
    case ReqFailed(failed) => if failed then b.(failures := b.failures + 1) else b
    case Vus(users) => if users > b.maxVus then b.(maxVus := users) else b
    case Other => b
  }

  // ---- Reference: which points belong to which second -----------------------

  /** The latest second seen. */
  function Latest(points: seq<Point>): int
    ensures points != [] ==> Latest(points) >= 0
    ensures points == [] ==> Latest(points) == -1
  {
    if points == [] then -1
    else
      var before, i := Latest(points[..|points| - 1]), Index(points[|points| - 1]);
      if before < i then i else before
  }

  /** Everything that belongs to second b: a point belongs to the latest second seen when it came. */
  function Gathered(points: seq<Point>, b: int): Bucket
  {
    if points == [] then EMPTY
    else
      var rest := Gathered(points[..|points| - 1], b);
      if Latest(points) == b then Add(rest, points[|points| - 1].metric) else rest
  }

  /** The samples of seconds lo up to hi, idle ones left out. */
  function Samples(points: seq<Point>, lo: nat, hi: nat): seq<Sample>
    decreases hi
  {
    if hi <= lo then []
    else
      Samples(points, lo, hi - 1) +
      if Gathered(points, hi - 1).requests > 0 then [Sample((hi - 1) * 1000, Gathered(points, hi - 1))] else []
  }

  /** Points that come in time order belong to their own second. */
  function BySecond(points: seq<Point>, b: int): Bucket
  {
    if points == [] then EMPTY
    else
      var rest, p := BySecond(points[..|points| - 1], b), points[|points| - 1];
      if Index(p) == b then Add(rest, p.metric) else rest
  }

  ghost predicate InTimeOrder(points: seq<Point>)
  {
    forall i, j :: 0 <= i < j < |points| ==> Index(points[i]) <= Index(points[j])
  }

  lemma {:induction false} LatestIs(points: seq<Point>)
    requires points != []
    ensures forall i :: 0 <= i < |points| ==> Index(points[i]) <= Latest(points)
    ensures exists i :: 0 <= i < |points| && Index(points[i]) == Latest(points)
    decreases |points|
  {
    var n := |points| - 1;
    if n > 0 {
      LatestIs(points[..n]);
      var i :| 0 <= i < n && Index(points[..n][i]) == Latest(points[..n]);
      assert Index(points[i]) == Latest(points[..n]);
    }
    assert Index(points[n]) <= Latest(points);
    forall i | 0 <= i < n ensures Index(points[i]) <= Latest(points) {
      assert Index(points[..n][i]) <= Latest(points[..n]);
    }
  }

  /** In time order, every sample holds exactly the points of its own second. */
  lemma {:induction false} OrderedPointsKeepTheirSecond(points: seq<Point>, b: int)
    requires InTimeOrder(points)
    ensures Gathered(points, b) == BySecond(points, b)
    decreases |points|
  {
    if points != [] {
      OrderedPointsKeepTheirSecond(points[..|points| - 1], b);
      LatestIs(points);
    }
  }

  // ---- What the samples add up to -------------------------------------------

  lemma {:induction false} NothingLater(points: seq<Point>, b: int)
    requires b > Latest(points)
    ensures Gathered(points, b) == EMPTY
    decreases |points|
  {
    if points != [] {
      NothingLater(points[..|points| - 1], b);
    }
  }

  lemma OtherSecondsStay(points: seq<Point>, p: Point, b: int)
    ensures b != Latest(points + [p]) ==> Gathered(points + [p], b) == Gathered(points, b)
    ensures b == Latest(points + [p]) ==> Gathered(points + [p], b) == Add(Gathered(points, b), p.metric)
    ensures Latest(points + [p]) == if Latest(points) < Index(p) then Index(p) else Latest(points)
  {
    assert (points + [p])[..|points|] == points;
  }

  lemma {:induction false} EarlierSamplesStay(points: seq<Point>, p: Point, lo: nat, hi: nat)
    requires hi <= Latest(points + [p])
    ensures Samples(points + [p], lo, hi) == Samples(points, lo, hi)
    decreases hi
  {
    if hi > lo {
      EarlierSamplesStay(points, p, lo, hi - 1);
      OtherSecondsStay(points, p, hi - 1);
    }
  }

  lemma {:induction false} NoPointsNoSamples(hi: nat)
    ensures Samples([], 0, hi) == []
  {
    if hi > 0 {
      NoPointsNoSamples(hi - 1);
    }
  }

  function RequestsOf(m: Metric): int
  {
    if m.Reqs? then m.count else 0
  }

  function FailuresOf(m: Metric): int
  {
    if m.ReqFailed? && m.failed then 1 else 0
  }

  function TotalRequests(points: seq<Point>): int
  {
    if points == [] then 0 else TotalRequests(points[..|points| - 1]) + RequestsOf(points[|points| - 1].metric)
  }

  function TotalFailures(points: seq<Point>): int
  {
    if points == [] then 0 else TotalFailures(points[..|points| - 1]) + FailuresOf(points[|points| - 1].metric)
  }

  function SampledRequests(xs: seq<Sample>): int
  {
    if xs == [] then 0 else SampledRequests(xs[..|xs| - 1]) + xs[|xs| - 1].bucket.requests
  }

  function SampledFailures(xs: seq<Sample>): int
  {
    if xs == [] then 0 else SampledFailures(xs[..|xs| - 1]) + xs[|xs| - 1].bucket.failures
  }

  predicate CountsArePositive(points: seq<Point>)
  {
    forall i :: 0 <= i < |points| ==> RequestsOf(points[i].metric) >= 0
  }

  /** The requests and failures of the seconds below hi, sampled or idle. */
  function RequestsBelow(points: seq<Point>, hi: nat): int
  {
    if hi == 0 then 0 else RequestsBelow(points, hi - 1) + Gathered(points, hi - 1).requests
  }

  function FailuresBelow(points: seq<Point>, hi: nat): int
  {
    if hi == 0 then 0 else FailuresBelow(points, hi - 1) + Gathered(points, hi - 1).failures
  }

  /** The failures of the idle ones among them. */
  function IdleFailuresBelow(points: seq<Point>, hi: nat): int
  {
    if hi == 0 then 0
    else
      var g := Gathered(points, hi - 1);
      IdleFailuresBelow(points, hi - 1) + if g.requests > 0 then 0 else g.failures
  }

  lemma {:induction false} CountsStayPositive(points: seq<Point>, b: int)
    requires CountsArePositive(points)
    ensures Gathered(points, b).requests >= 0 && Gathered(points, b).failures >= 0
    decreases |points|
  {
    if points != [] {
      CountsStayPositive(points[..|points| - 1], b);
      assert RequestsOf(points[|points| - 1].metric) >= 0;
    }
  }

  lemma {:induction false} OneMoreBelow(points: seq<Point>, p: Point, hi: nat)
    ensures var landed := hi > Latest(points + [p]);
      RequestsBelow(points + [p], hi) == RequestsBelow(points, hi) + (if landed then RequestsOf(p.metric) else 0) &&
      FailuresBelow(points + [p], hi) == FailuresBelow(points, hi) + if landed then FailuresOf(p.metric) else 0
    decreases hi
  {
    OtherSecondsStay(points, p, hi - 1);
    if hi > 0 {
      OneMoreBelow(points, p, hi - 1);
    }
  }

  lemma {:induction false} AllSecondsHoldAllPoints(points: seq<Point>, hi: nat)
    requires hi > Latest(points)
    ensures RequestsBelow(points, hi) == TotalRequests(points) && FailuresBelow(points, hi) == TotalFailures(points)
    decreases |points|, hi
  {
    if points == [] {
      if hi > 0 {
        AllSecondsHoldAllPoints(points, hi - 1);
      }
    } else {
      var rest, p := points[..|points| - 1], points[|points| - 1];
      assert points == rest + [p];
      OtherSecondsStay(rest, p, 0);
      AllSecondsHoldAllPoints(rest, hi);
      OneMoreBelow(rest, p, hi);
    }
  }

  lemma SampledMore(xs: seq<Sample>, x: Sample)
    ensures SampledRequests(xs + [x]) == SampledRequests(xs) + x.bucket.requests
    ensures SampledFailures(xs + [x]) == SampledFailures(xs) + x.bucket.failures
  {
    assert (xs + [x])[..|xs|] == xs;
  }

  lemma SamplesNext(points: seq<Point>, hi: nat)
    requires hi > 0
    ensures var xs, ys, g := Samples(points, 0, hi - 1), Samples(points, 0, hi), Gathered(points, hi - 1);
      SampledRequests(ys) == SampledRequests(xs) + (if g.requests > 0 then g.requests else 0) &&
      SampledFailures(ys) == SampledFailures(xs) + if g.requests > 0 then g.failures else 0
  {
    var xs, g := Samples(points, 0, hi - 1), Gathered(points, hi - 1);
    if g.requests > 0 {
      SampledMore(xs, Sample((hi - 1) * 1000, g));
    } else {
      assert Samples(points, 0, hi) == xs;
    }
  }

  lemma {:induction false} SamplesHold(points: seq<Point>, hi: nat)
    requires CountsArePositive(points)
    ensures SampledRequests(Samples(points, 0, hi)) == RequestsBelow(points, hi)
    ensures SampledFailures(Samples(points, 0, hi)) + IdleFailuresBelow(points, hi) == FailuresBelow(points, hi)
  {
    if hi > 0 {
      SamplesHold(points, hi - 1);
      CountsStayPositive(points, hi - 1);
      SamplesNext(points, hi);
    }
  }

  /** A second below hi with failures but no request. */
  ghost predicate IdleFailure(points: seq<Point>, hi: int)
  {
    exists b: nat :: b < hi && Gathered(points, b).requests == 0 && Gathered(points, b).failures > 0
  }

  lemma {:induction false} IdleFailuresIff(points: seq<Point>, hi: nat)
    requires CountsArePositive(points)
    ensures IdleFailuresBelow(points, hi) >= 0 && (IdleFailuresBelow(points, hi) > 0 <==> IdleFailure(points, hi))
  {
    if hi > 0 {
      IdleFailuresIff(points, hi - 1);
      CountsStayPositive(points, hi - 1);
    }
  }

  /** The whole output of a run over these points. */
  function Output(points: seq<Point>): seq<Sample>
  {
    Samples(points, 0, Latest(points) + 1)
  }

  /** No request is lost and none counted twice, in whatever time order the points come. */
  lemma RequestsAddUp(points: seq<Point>)
    requires CountsArePositive(points)
    ensures SampledRequests(Output(points)) == TotalRequests(points)
  {
    var hi := Latest(points) + 1;
    SamplesHold(points, hi);
    AllSecondsHoldAllPoints(points, hi);
  }

  /** Failures add up too exactly when no second has a failure and no request. */
  lemma FailuresAddUpIff(points: seq<Point>)
    requires CountsArePositive(points)
    ensures SampledFailures(Output(points)) <= TotalFailures(points)
    ensures SampledFailures(Output(points)) == TotalFailures(points) <==> !IdleFailure(points, Latest(points) + 1)
  {
    var hi := Latest(points) + 1;
    SamplesHold(points, hi);
    AllSecondsHoldAllPoints(points, hi);
    IdleFailuresIff(points, hi);
  }

  /** Such a second: its failed request is in no sample. */
  lemma LoneFailureIsDropped(p: Point)
    requires p.metric == ReqFailed(true)
    ensures TotalFailures([p]) == 1 && SampledFailures(Output([p])) == 0
  {
    assert [p][..0] == [];
    assert Gathered([p], Latest([p])) == Bucket([], 0, 1, 0);
    assert IdleFailure([p], Latest([p]) + 1);
    CountsStayPositive([p], Latest([p]));
    FailuresAddUpIff([p]);
    SampledFailuresArePositive([p], Latest([p]) + 1);
  }

  lemma {:induction false} SampledFailuresArePositive(points: seq<Point>, hi: nat)
    requires CountsArePositive(points)
    ensures SampledFailures(Samples(points, 0, hi)) >= 0
  {
    if hi > 0 {
      SampledFailuresArePositive(points, hi - 1);
      CountsStayPositive(points, hi - 1);
      SamplesNext(points, hi);
    }
  }

  /** x is the sample of a second from lo to hi, and that second had requests. */
  predicate SampleWithin(points: seq<Point>, x: Sample, lo: int, hi: int)
  {
    x.offsetMs % 1000 == 0 && lo <= x.offsetMs / 1000 < hi && x.bucket == Gathered(points, x.offsetMs / 1000) &&
    x.bucket.requests > 0
  }

  lemma WithinIs(points: seq<Point>, b: nat)
    requires Gathered(points, b).requests > 0
    ensures SampleWithin(points, Sample(b * 1000, Gathered(points, b)), b, b + 1)
  {
    assert b * 1000 / 1000 == b;
  }

  lemma WithinBelow(points: seq<Point>, x: Sample, lo: int, hi: int)
    requires SampleWithin(points, x, lo, hi)
    ensures x.offsetMs < hi * 1000
  {
  }

  predicate Increasing(xs: seq<Sample>)
  {
    forall i, j :: 0 <= i < j < |xs| ==> xs[i].offsetMs < xs[j].offsetMs
  }

  predicate AllWithin(points: seq<Point>, xs: seq<Sample>, lo: int, hi: int)
  {
    forall i :: 0 <= i < |xs| ==> SampleWithin(points, xs[i], lo, hi)
  }

  /** Offsets are strictly increasing multiples of 1000, and each sample is that of its second. */
  lemma {:induction false} OffsetsIncrease(points: seq<Point>, lo: nat, hi: nat)
    ensures Increasing(Samples(points, lo, hi)) && AllWithin(points, Samples(points, lo, hi), lo, hi)
    decreases hi
  {
    if hi > lo {
      OffsetsIncrease(points, lo, hi - 1);
      var xs := Samples(points, lo, hi - 1);
      forall i | 0 <= i < |xs| ensures xs[i].offsetMs < (hi - 1) * 1000 {
        assert SampleWithin(points, xs[i], lo, hi - 1);
        WithinBelow(points, xs[i], lo, hi - 1);
      }
      if Gathered(points, hi - 1).requests > 0 {
        WithinIs(points, hi - 1);
        assert SampleWithin(points, Sample((hi - 1) * 1000, Gathered(points, hi - 1)), lo, hi);
      }
    }
  }

  lemma {:induction false} BusySecondsAreSampled(points: seq<Point>, lo: nat, hi: nat, b: nat)
    requires lo <= b < hi && Gathered(points, b).requests > 0
    ensures Sample(b * 1000, Gathered(points, b)) in Samples(points, lo, hi)
    decreases hi
  {
    if b < hi - 1 {
      BusySecondsAreSampled(points, lo, hi - 1, b);
    }
  }

  // ---- The aggregator -------------------------------------------------------

  class BucketAggregator {
    var current: int
    var open: Bucket

    constructor ()
      ensures current == -1 && open == EMPTY
    {
      current, open := -1, EMPTY;
    }

    /** add: the first point opens its second; every point falls into the open bucket. */
    method AddPoint(index: int, p: Point)
      modifies this
      ensures current == if old(current) < 0 then index else old(current)
      ensures open == Add(old(open), p.metric)
    {
      if current < 0 {
        current := index;
      }
      match p.metric {
        case ReqDuration(ms) => open := open.(durations := open.durations + [ms]);
        case Reqs(count) => open := open.(requests := open.requests + count);
        case ReqFailed(failed) =>
          if failed {
            open := open.(failures := open.failures + 1);
          }
        case Vus(users) =>
          if users > open.maxVus {
            open := open.(maxVus := users);
          }
        case Other =>
      }
    }

    /** closeAndAdvance: nothing happens before the first point; an idle second gives no sample. */
    method CloseAndAdvance() returns (p: Option<Sample>)
      modifies this
      ensures old(current) < 0 ==> p == None && current == old(current) && open == old(open)
      ensures old(current) >= 0 ==> current == old(current) + 1 && open == EMPTY
      ensures old(current) >= 0 ==>
        p == if old(open).requests > 0 then Some(Sample(old(current) * 1000, old(open))) else None
    {
      if current < 0 {
        return None;
      }
      p := if open.requests > 0 then Some(Sample(current * 1000, open)) else None;
      current := current + 1;
      open := EMPTY;
    }
  }

  /** Closes every second before `index`; terminates because each turn moves on by one. */
  method CloseThrough(agg: BucketAggregator, index: nat, ghost seen: seq<Point>, sink: seq<Sample>)
    returns (out: seq<Sample>)
    requires agg.current == Latest(seen) && agg.open == Gathered(seen, agg.current)
    requires sink == if seen == [] then [] else Samples(seen, 0, agg.current)
    modifies agg
    ensures agg.current == if seen != [] && Latest(seen) < index then index else Latest(seen)
    ensures agg.open == Gathered(seen, agg.current)
    ensures out == if seen == [] then [] else Samples(seen, 0, agg.current)
  {
    out := sink;
    while agg.current >= 0 && index > agg.current
      invariant agg.current >= Latest(seen) && (seen == [] ==> agg.current == -1)
      invariant agg.current > Latest(seen) ==> agg.current <= index
      invariant agg.open == Gathered(seen, agg.current)
      invariant out == if seen == [] then [] else Samples(seen, 0, agg.current)
      decreases index - agg.current
    {
      var p := agg.CloseAndAdvance();
      if p.Some? {
        out := out + [p.value];
      }
      NothingLater(seen, agg.current);
    }
  }

  /** A point added to the second it belongs to. */
  lemma PointLands(seen: seq<Point>, p: Point, current: int, open: Bucket)
    requires current == if seen != [] && Latest(seen) < Index(p) then Index(p) else Latest(seen)
    requires open == Gathered(seen, current)
    ensures var more := seen + [p]; var now := if current < 0 then Index(p) else current;
      now == Latest(more) && Add(open, p.metric) == Gathered(more, now) &&
      Samples(more, 0, now) == if seen == [] then [] else Samples(seen, 0, now)
  {
    OtherSecondsStay(seen, p, Latest(seen + [p]));
    EarlierSamplesStay(seen, p, 0, Latest(seen + [p]));
    NoPointsNoSamples(Index(p));
  }

  /** One turn of the loop: earlier seconds are closed, then the point is added. */
  method TakePoint(agg: BucketAggregator, p: Point, ghost seen: seq<Point>, sink: seq<Sample>)
    returns (out: seq<Sample>)
    requires agg.current == Latest(seen) && agg.open == Gathered(seen, agg.current)
    requires sink == if seen == [] then [] else Samples(seen, 0, agg.current)
    modifies agg
    ensures agg.current == Latest(seen + [p]) && agg.open == Gathered(seen + [p], agg.current)
    ensures out == Samples(seen + [p], 0, agg.current)
  {
    var index := Index(p);
    out := CloseThrough(agg, index, seen, sink);
    PointLands(seen, p, agg.current, agg.open);
    agg.AddPoint(index, p);
  }

  /** The loop over the points: it emits the reference's samples. */
  method StreamAndBucket(points: seq<Point>) returns (sink: seq<Sample>)
    ensures sink == Output(points)
  {
    var agg := new BucketAggregator();
    sink := [];
    for i := 0 to |points|
      invariant agg.current == Latest(points[..i]) && agg.open == Gathered(points[..i], agg.current)
      invariant sink == if i == 0 then [] else Samples(points[..i], 0, agg.current)
    {
      sink := TakePoint(agg, points[i], points[..i], sink);
      assert points[..i + 1] == points[..i] + [points[i]];
    }
    assert points[..|points|] == points;
    var p := agg.CloseAndAdvance();
    if p.Some? {
      sink := sink + [p.value];
    }
  }
}
