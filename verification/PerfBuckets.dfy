/** What the bucket of a second holds, stated on the points themselves. */
module PerfBuckets {
  import opened Perf

  /** The point came in second b or later, seconds being 10^9 nanoseconds from the start and nothing before it. */
  predicate Reaches(p: Point, b: int)
  {
    b <= 0 || b * 1_000_000_000 <= p.elapsed
  }

  /** Point i belongs to second b: the latest second that it or a point before it reaches. */
  predicate LandsIn(points: seq<Point>, i: nat, b: int)
    requires i < |points|
  {
    b >= 0 && (exists j :: 0 <= j <= i && Reaches(points[j], b)) &&
    forall j :: 0 <= j <= i ==> !Reaches(points[j], b + 1)
  }

  lemma IndexIs(p: Point, b: int)
    requires b >= 0
    ensures Reaches(p, b) <==> b <= Index(p)
  {
    assert SECOND == 1_000_000_000;
  }

  lemma LandsInLatest(points: seq<Point>, i: nat, b: int)
    requires i < |points|
    ensures LandsIn(points, i, b) <==> b == Latest(points[..i + 1])
  {
    var seen := points[..i + 1];
    LatestIs(seen);
    var k :| 0 <= k < |seen| && Index(seen[k]) == Latest(seen);
    assert Index(points[k]) == Latest(seen);
    if b >= 0 {
      forall j | 0 <= j <= i
        ensures (Reaches(points[j], b) <==> b <= Index(points[j])) &&
          (Reaches(points[j], b + 1) <==> b + 1 <= Index(points[j])) && Index(points[j]) <= Latest(seen)
      {
        IndexIs(points[j], b);
        IndexIs(points[j], b + 1);
        assert seen[j] == points[j];
      }
    }
  }

  /** The durations measured by the points of second b, in order. */
  function DurationsIn(points: seq<Point>, n: nat, b: int): seq<real>
    requires n <= |points|
  {
    if n == 0 then []
    else
      DurationsIn(points, n - 1, b) +
      if LandsIn(points, n - 1, b) && points[n - 1].metric.ReqDuration? then [points[n - 1].metric.ms] else []
  }

  /** The requests they count, and how many of them report a failure. */
  function RequestsIn(points: seq<Point>, n: nat, b: int): int
    requires n <= |points|
  {
    if n == 0 then 0
    else
      RequestsIn(points, n - 1, b) +
      if LandsIn(points, n - 1, b) && points[n - 1].metric.Reqs? then points[n - 1].metric.count else 0
  }

  function FailuresIn(points: seq<Point>, n: nat, b: int): int
    requires n <= |points|
  {
    if n == 0 then 0
    else
      FailuresIn(points, n - 1, b) +
      if LandsIn(points, n - 1, b) && points[n - 1].metric == ReqFailed(true) then 1 else 0
  }

  /** No point of second b has more users, and some point has as many unless there are none. */
  predicate MostUsers(points: seq<Point>, b: int, users: int)
  {
    users >= 0 &&
    (forall i :: 0 <= i < |points| && points[i].metric.Vus? && LandsIn(points, i, b) ==>
      points[i].metric.users <= users) &&
    (users > 0 ==> exists i :: 0 <= i < |points| && points[i].metric == Vus(users) && LandsIn(points, i, b))
  }

  lemma LandsInPrefix(points: seq<Point>, n: nat, i: nat, b: int)
    requires i < n <= |points|
    ensures LandsIn(points[..n], i, b) <==> LandsIn(points, i, b)
  {
    LandsInLatest(points, i, b);
    LandsInLatest(points[..n], i, b);
    assert points[..n][..i + 1] == points[..i + 1];
  }

  lemma GatheredNext(points: seq<Point>, n: nat, b: int)
    requires n < |points|
    ensures Gathered(points[..n + 1], b) ==
      if LandsIn(points, n, b) then Add(Gathered(points[..n], b), points[n].metric) else Gathered(points[..n], b)
  {
    assert points[..n + 1][..n] == points[..n] && points[..n + 1][n] == points[n];
    LandsInLatest(points, n, b);
  }

  /** A second's bucket is made of the points that belong to it. */
  lemma {:induction false} BucketHolds(points: seq<Point>, n: nat, b: int)
    requires n <= |points|
    ensures var g := Gathered(points[..n], b);
      g.durations == DurationsIn(points, n, b) && g.requests == RequestsIn(points, n, b) &&
      g.failures == FailuresIn(points, n, b)
    decreases n
  {
    if n > 0 {
      BucketHolds(points, n - 1, b);
      GatheredNext(points, n - 1, b);
    }
  }

  lemma {:induction false} BucketHasMostUsers(points: seq<Point>, b: int)
    ensures MostUsers(points, b, Gathered(points, b).maxVus)
    decreases |points|
  {
    if points != [] {
      var n := |points| - 1;
      var before, now := Gathered(points[..n], b).maxVus, Gathered(points, b).maxVus;
      BucketHasMostUsers(points[..n], b);
      LandsInLatest(points, n, b);
      assert points[..n + 1] == points;
      forall i | 0 <= i < n ensures LandsIn(points[..n], i, b) <==> LandsIn(points, i, b) {
        LandsInPrefix(points, n, i, b);
      }
      forall i | 0 <= i < |points| && points[i].metric.Vus? && LandsIn(points, i, b)
        ensures points[i].metric.users <= now
      {
        assert i < n ==> points[..n][i] == points[i];
      }
      if now > 0 {
        if now == before {
          var i :| 0 <= i < n && points[..n][i].metric == Vus(now) && LandsIn(points[..n], i, b);
          assert points[i].metric == Vus(now) && LandsIn(points, i, b);
        } else {
          assert points[n].metric == Vus(now) && LandsIn(points, n, b);
        }
      }
    }
  }
}
