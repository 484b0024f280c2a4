/** The iteration loop of a run, and what --bail does to it. */
module PlanRuns {
  import opened Common
  import opened Verdicts

  datatype Row = Row(values: map<string, string>) | Malformed(error: string)

  /** rowSource: a data file with an optional limit, or a repeat count. */
  datatype Source = DataFile(rows: seq<Row>, limit: nat) | Repeats(count: nat)

  datatype Pulled = Iterate | Exhausted | Broken(error: string)

  /** openRows: at least one iteration without a data file. */
  function OpenRows(file: Option<seq<Row>>, iterations: int): Source
  {
    match file
    case None => Repeats(if iterations < 1 then 1 else iterations)
    case Some(rows) => DataFile(rows, if iterations < 0 then 0 else iterations)
  }

  /** What rowSource.next gives once n rows were given. */
  function Pull(s: Source, n: nat): Pulled
  {
    match s
    case Repeats(count) => if n >= count then Exhausted else Iterate
    case DataFile(rows, limit) =>
      if limit > 0 && n >= limit then Exhausted
      else if n >= |rows| then Exhausted
      else if rows[n].Malformed? then Broken(rows[n].error)
      else Iterate
  }

  function Size(s: Source): nat
  {
    if s.Repeats? then s.count else |s.rows|
  }

  /**
   * What the world does to a run: the outcome of request k in iteration n, and whether the run is
   * cancelled just before it. Execution is taken to depend on nothing else.
   */
  datatype Env = Env(exec: (nat, nat) -> Outcome, stop: (nat, nat) -> Option<string>)

  /** How a run, or the rest of one, ends. */
  datatype End = Finished | Bailed | Aborted(error: string)

  datatype Summary = Summary(results: seq<RequestResult>, end: End)

  function Before(rs: seq<RequestResult>, s: Summary): Summary
  {
    Summary(rs + s.results, s.end)
  }

  /** One result, and the rest of the run unless it is cut there. */
  function Next(r: RequestResult, rest: Summary, bail: bool): Summary
  {
    if !r.passed && bail then Summary([r], Bailed) else Before([r], rest)
  }

  /** A run's course: what every request of every iteration gives, and where the run is cancelled. */
  datatype Course = Course(size: nat, result: (nat, nat) -> RequestResult, stop: (nat, nat) -> Option<string>)

  const NOWHERE := RequestResult(0, "", false, Nothing, "", [])

  function CourseOf(plan: seq<Planned>, env: Env): Course
  {
    Course(|plan|,
      (n: nat, k: nat) => if k < |plan| then ResultOf(n + 1, plan[k], env.exec(n, k)) else NOWHERE,
      env.stop)
  }

  /** Iteration n from request k on. */
  function RunRequests(c: Course, bail: bool, n: nat, k: nat): Summary
    requires k <= c.size
    decreases c.size - k
  {
    if k == c.size then Summary([], Finished)
    else if c.stop(n, k).Some? then Summary([], Aborted(c.stop(n, k).value))
    else
      var r := c.result(n, k);
      Next(r, RunRequests(c, bail, n, k + 1), bail)
  }

  /** The iterations from the n-th on. */
  function RunRows(c: Course, source: Source, bail: bool, n: nat): Summary
    decreases Size(source) - n
  {
    match Pull(source, n)
    case Exhausted => Summary([], Finished)
    case Broken(e) => Summary([], Aborted(e))
    case Iterate =>
      var s := RunRequests(c, bail, n, 0);
      if s.end.Finished? then Before(s.results, RunRows(c, source, bail, n + 1)) else s
  }

  const NO_ROWS := "data file contains no data rows"

  /** runPlan: a run that pulled no row at all is an error of its own. */
  function RunPlan(plan: seq<Planned>, source: Source, env: Env, bail: bool): Summary
  {
    if Pull(source, 0).Exhausted? then Summary([], Aborted(NO_ROWS)) else RunRows(CourseOf(plan, env), source, bail, 0)
  }

  lemma BeforeTwice(a: seq<RequestResult>, b: seq<RequestResult>, s: Summary)
    ensures Before(a, Before(b, s)) == Before(a + b, s)
  {
    assert a + (b + s.results) == a + b + s.results;
  }

  /** The results of one row's pass over the plan, and of all rows from the n-th on. */
  function WholePass(c: Course, n: nat, k: nat): seq<RequestResult>
    requires k <= c.size
    decreases c.size - k
  {
    if k == c.size then [] else [c.result(n, k)] + WholePass(c, n, k + 1)
  }

  function WholeRun(c: Course, source: Source, n: nat): seq<RequestResult>
    decreases Size(source) - n
  {
    if Pull(source, n).Iterate? then WholePass(c, n, 0) + WholeRun(c, source, n + 1) else []
  }

  lemma {:induction false} FinishedPassIsWhole(c: Course, bail: bool, n: nat, k: nat)
    requires k <= c.size && RunRequests(c, bail, n, k).end.Finished?
    ensures RunRequests(c, bail, n, k).results == WholePass(c, n, k)
    decreases c.size - k
  {
    if k < c.size {
      FinishedPassIsWhole(c, bail, n, k + 1);
    }
  }

  /** A run that finishes ran every planned request for every row, in order, bailing or not. */
  lemma {:induction false} FinishedRunIsWhole(c: Course, source: Source, bail: bool, n: nat)
    requires RunRows(c, source, bail, n).end.Finished?
    ensures RunRows(c, source, bail, n).results == WholeRun(c, source, n)
    decreases Size(source) - n
  {
    if Pull(source, n).Iterate? {
      FinishedPassIsWhole(c, bail, n, 0);
      FinishedRunIsWhole(c, source, bail, n + 1);
    }
  }

  predicate AllPassed(rs: seq<RequestResult>)
  {
    forall i :: 0 <= i < |rs| ==> rs[i].passed
  }

  /** The shortest prefix that ends at a failure, or all of a list without one. */
  function ToFirstFailure(rs: seq<RequestResult>): seq<RequestResult>
  {
    if rs == [] then [] else if !rs[0].passed then [rs[0]] else [rs[0]] + ToFirstFailure(rs[1..])
  }

  lemma {:induction false} FirstFailureIn(a: seq<RequestResult>, b: seq<RequestResult>)
    ensures ToFirstFailure(a + b) == if AllPassed(a) then a + ToFirstFailure(b) else ToFirstFailure(a)
    decreases |a|
  {
    if a == [] {
      assert a + b == b && a + ToFirstFailure(b) == ToFirstFailure(b);
    } else {
      var r, rest := a[0], a[1..];
      assert a == [r] + rest && a + b == [r] + (rest + b);
      FirstFailureFrom(r, rest + b);
      FirstFailureFrom(r, rest);
      FirstFailureIn(rest, b);
      SumsAssociate([r], rest, ToFirstFailure(b));
    }
  }

  lemma FirstFailureFrom(r: RequestResult, rest: seq<RequestResult>)
    ensures ToFirstFailure([r] + rest) == if r.passed then [r] + ToFirstFailure(rest) else [r]
    ensures AllPassed([r] + rest) <==> r.passed && AllPassed(rest)
  {
    assert ([r] + rest)[1..] == rest;
  }

  predicate EndsAtFirstFailure(cut: seq<RequestResult>, full: seq<RequestResult>)
  {
    cut <= full && cut != [] && AllPassed(cut[..|cut| - 1]) && !cut[|cut| - 1].passed
  }

  lemma EndsLater(r: RequestResult, cut: seq<RequestResult>, full: seq<RequestResult>)
    requires r.passed && EndsAtFirstFailure(cut, full)
    ensures EndsAtFirstFailure([r] + cut, [r] + full)
  {
    var more := [r] + cut;
    assert more[..|more| - 1] == [r] + cut[..|cut| - 1];
  }

  lemma {:induction false} FirstFailureIs(rs: seq<RequestResult>)
    ensures if AllPassed(rs) then ToFirstFailure(rs) == rs else EndsAtFirstFailure(ToFirstFailure(rs), rs)
    decreases |rs|
  {
    if rs != [] {
      assert rs == [rs[0]] + rs[1..];
      assert AllPassed(rs) <==> rs[0].passed && AllPassed(rs[1..]);
      if rs[0].passed {
        FirstFailureIs(rs[1..]);
        if !AllPassed(rs[1..]) {
          EndsLater(rs[0], ToFirstFailure(rs[1..]), rs[1..]);
        }
      }
    }
  }

  /** What --bail makes of a run. */
  function Cut(s: Summary): Summary
  {
    if AllPassed(s.results) then s else Summary(ToFirstFailure(s.results), Bailed)
  }

  lemma CutBefore(rs: seq<RequestResult>, s: Summary)
    ensures Cut(Before(rs, s)) == if AllPassed(rs) then Before(rs, Cut(s)) else Summary(ToFirstFailure(rs), Bailed)
  {
    FirstFailureIn(rs, s.results);
    assert AllPassed(rs + s.results) <==> AllPassed(rs) && AllPassed(s.results) by {
      assert forall i :: 0 <= i < |rs| ==> (rs + s.results)[i] == rs[i];
      assert forall i :: 0 <= i < |s.results| ==> (rs + s.results)[|rs| + i] == s.results[i];
    }
  }

  lemma CutNext(r: RequestResult, rest: Summary)
    ensures Next(r, Cut(rest), true) == Cut(Next(r, rest, false))
  {
    CutBefore([r], rest);
    assert AllPassed([r]) <==> [r][0].passed;
    assert ToFirstFailure([r]) == [r];
  }

  lemma {:induction false} BailCutsRequests(c: Course, n: nat, k: nat)
    requires k <= c.size
    ensures RunRequests(c, true, n, k) == Cut(RunRequests(c, false, n, k))
    decreases c.size - k
  {
    if k < c.size && c.stop(n, k).None? {
      BailCutsRequests(c, n, k + 1);
      CutNext(c.result(n, k), RunRequests(c, false, n, k + 1));
    }
  }

  lemma {:induction false} NoBailNeverBails(c: Course, n: nat, k: nat)
    requires k <= c.size
    ensures !RunRequests(c, false, n, k).end.Bailed?
    decreases c.size - k
  {
    if k < c.size {
      NoBailNeverBails(c, n, k + 1);
    }
  }

  /** An iteration, and the run after it if it ran to its end. */
  function Then(s: Summary, rest: Summary): Summary
  {
    if s.end.Finished? then Before(s.results, rest) else s
  }

  lemma CutThen(s: Summary, rest: Summary)
    requires !s.end.Bailed?
    ensures Then(Cut(s), Cut(rest)) == Cut(Then(s, rest))
  {
    CutBefore(s.results, rest);
  }

  lemma {:induction false} BailCutsRows(c: Course, source: Source, n: nat)
    ensures RunRows(c, source, true, n) == Cut(RunRows(c, source, false, n))
    decreases Size(source) - n
  {
    if Pull(source, n).Iterate? {
      BailCutsRequests(c, n, 0);
      NoBailNeverBails(c, n, 0);
      BailCutsRows(c, source, n + 1);
      CutThen(RunRequests(c, false, n, 0), RunRows(c, source, false, n + 1));
    }
  }

  /**
   * For every plan, source and world: with --bail the results are the shortest prefix of the results
   * without it that ends at the first failure, and the run ends as it would have when nothing fails.
   */
  lemma BailKeepsThePrefix(plan: seq<Planned>, source: Source, env: Env)
    ensures var full, cut := RunPlan(plan, source, env, false), RunPlan(plan, source, env, true);
      if AllPassed(full.results) then cut == full
      else cut.end == Bailed && EndsAtFirstFailure(cut.results, full.results)
  {
    BailCutsRows(CourseOf(plan, env), source, 0);
    FirstFailureIs(RunPlan(plan, source, env, false).results);
  }

  /** Exit status 0: the run was not broken off and every request, of at least one, passed. */
  predicate ExitsZero(s: Summary)
  {
    !s.end.Aborted? && s.results != [] && AllPassed(s.results)
  }

  /** --bail never changes the exit status. */
  lemma BailKeepsTheExitStatus(plan: seq<Planned>, source: Source, env: Env)
    ensures ExitsZero(RunPlan(plan, source, env, true)) <==> ExitsZero(RunPlan(plan, source, env, false))
  {
    var full, cut := RunPlan(plan, source, env, false), RunPlan(plan, source, env, true);
    BailKeepsThePrefix(plan, source, env);
    if !AllPassed(full.results) {
      assert !cut.results[|cut.results| - 1].passed;
    }
  }

  // ---- The loop -------------------------------------------------------------

  class RowSource {
    const source: Source
    var emitted: nat

    constructor (file: Option<seq<Row>>, iterations: int)
      ensures source == OpenRows(file, iterations) && emitted == 0
    {
      source := OpenRows(file, iterations);
      emitted := 0;
    }

    method Next() returns (p: Pulled)
      modifies this
      ensures p == Pull(source, old(emitted))
      ensures emitted == if p.Iterate? then old(emitted) + 1 else old(emitted)
    {
      if source.Repeats? {
        if emitted >= source.count {
          return Exhausted;
        }
        emitted := emitted + 1;
        return Iterate;
      }
      if source.limit > 0 && emitted >= source.limit {
        return Exhausted;
      }
      if emitted >= |source.rows| {
        return Exhausted;
      }
      if source.rows[emitted].Malformed? {
        return Broken(source.rows[emitted].error);
      }
      emitted := emitted + 1;
      p := Iterate;
    }
  }

  lemma CourseGives(plan: seq<Planned>, env: Env, n: nat, k: nat)
    requires k < |plan|
    ensures CourseOf(plan, env).result(n, k) == ResultOf(n + 1, plan[k], env.exec(n, k))
    ensures CourseOf(plan, env).stop(n, k) == env.stop(n, k) && CourseOf(plan, env).size == |plan|
  {
  }

  lemma NextIsRun(c: Course, bail: bool, n: nat, k: nat, done: seq<RequestResult>)
    requires k < c.size
    ensures Before(done, RunRequests(c, bail, n, k)) ==
      if c.stop(n, k).Some? then Summary(done, Aborted(c.stop(n, k).value))
      else if !c.result(n, k).passed && bail then Summary(done + [c.result(n, k)], Bailed)
      else Before(done + [c.result(n, k)], RunRequests(c, bail, n, k + 1))
  {
    BeforeTwice(done, [c.result(n, k)], RunRequests(c, bail, n, k + 1));
  }

  method RunIteration(plan: seq<Planned>, env: Env, bail: bool, n: nat, done: seq<RequestResult>)
    returns (s: Summary)
    ensures s == Before(done, RunRequests(CourseOf(plan, env), bail, n, 0))
  {
    var results := done;
    ghost var c := CourseOf(plan, env);
    ghost var goal := Before(done, RunRequests(c, bail, n, 0));
    for k := 0 to |plan|
      invariant Before(results, RunRequests(c, bail, n, k)) == goal
    {
      CourseGives(plan, env, n, k);
      NextIsRun(c, bail, n, k, results);
      var stop := env.stop(n, k);
      if stop.Some? {
        return Summary(results, Aborted(stop.value));
      }
      var result := ResultOf(n + 1, plan[k], env.exec(n, k));
      results := results + [result];
      if !result.passed && bail {
        return Summary(results, Bailed);
      }
    }
    s := Summary(results, Finished);
  }

  /** The rows from the n-th on, after what earlier rows gave. */
  method RunRemaining(plan: seq<Planned>, rows: RowSource, env: Env, bail: bool) returns (s: Summary, iterations: nat)
    requires rows.emitted == 0
    modifies rows
    ensures s == RunRows(CourseOf(plan, env), rows.source, bail, 0)
    ensures iterations == 0 <==> !Pull(rows.source, 0).Iterate?
  {
    ghost var goal := RunRows(CourseOf(plan, env), rows.source, bail, 0);
    s, iterations := Summary([], Finished), 0;
    while true
      invariant rows.emitted == iterations && s.end.Finished? && (iterations > 0 ==> Pull(rows.source, 0).Iterate?)
      invariant Before(s.results, RunRows(CourseOf(plan, env), rows.source, bail, iterations)) == goal
      decreases Size(rows.source) - iterations
    {
      var pulled := rows.Next();
      if pulled.Exhausted? {
        return;
      }
      if pulled.Broken? {
        return Summary(s.results, Aborted(pulled.error)), iterations;
      }
      ghost var one := RunRequests(CourseOf(plan, env), bail, iterations, 0);
      BeforeTwice(s.results, one.results, RunRows(CourseOf(plan, env), rows.source, bail, iterations + 1));
      s := RunIteration(plan, env, bail, iterations, s.results);
      iterations := iterations + 1;
      if !s.end.Finished? {
        return;
      }
    }
  }

  method RunAll(plan: seq<Planned>, rows: RowSource, env: Env, bail: bool) returns (s: Summary)
    requires rows.emitted == 0
    modifies rows
    ensures s == RunPlan(plan, rows.source, env, bail)
  {
    var iterations: nat;
    s, iterations := RunRemaining(plan, rows, env, bail);
    if s.end.Aborted? {
      return;
    }
    if iterations == 0 {
      s := Summary(s.results, Aborted(NO_ROWS));
    }
  }
}
