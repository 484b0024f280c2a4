/** What stands in a run's results and in its report, entry by entry. */
module RunReports {
  import opened Common
  import opened Verdicts
  import opened PlanRuns
  import opened JUnit

  // ---- Checks ---------------------------------------------------------------

  /** An assertion's check: its label, and if it fails what was wrong, or else what was expected and what came. */
  predicate ShowsAssertion(c: Check, a: Assertion)
  {
    c.name == a.text && c.kind == AssertionCheck && c.passed == a.passed &&
    if a.passed then c.message == NoMessage
    else if |a.error| > 0 then c.message == Text(a.error)
    else c.message == Text("expected " + a.text + ", actual: " + a.actual)
  }

  predicate ShowsTest(c: Check, t: ScriptTest)
  {
    c.name == t.name && c.kind == TestCheck && c.passed == t.passed &&
    if t.passed then c.message == NoMessage
    else if |t.error| > 0 then c.message == Text(t.error)
    else c.message == Text("test failed")
  }

  /** One check for each assertion, test and script error, in this order; without any, one for the request. */
  predicate ShowsResponse(checks: seq<Check>, r: Response, j: Judged)
  {
    var a, t := |r.assertions|, |r.tests|;
    if a == 0 && t == 0 && r.scriptError == "" then
      checks == [Check("request completed", RequestCheck, j.passed, if j.passed then NoMessage else Because(j.reason))]
    else
      |checks| == a + t + (if r.scriptError == "" then 0 else 1) &&
      (forall i :: 0 <= i < a ==> ShowsAssertion(checks[i], r.assertions[i])) &&
      (forall i :: 0 <= i < t ==> ShowsTest(checks[a + i], r.tests[i])) &&
      (r.scriptError != "" ==> checks[a + t] == Check("post-response script", ScriptCheck, false, Text(r.scriptError)))
  }

  lemma AssertionShows(a: Assertion)
    ensures ShowsAssertion(AssertionCheckOf(a), a)
  {
  }

  lemma AssertionChecksGrow(xs: seq<Assertion>)
    requires xs != []
    ensures var last := |xs| - 1;
      |AssertionChecks(xs)| == |xs| && AssertionChecks(xs)[..last] == AssertionChecks(xs[..last]) &&
      AssertionChecks(xs)[last] == AssertionCheckOf(xs[last])
  {
    FailingAssertions(xs[..|xs| - 1]);
  }

  lemma {:induction false} AssertionCheckAt(xs: seq<Assertion>, i: nat)
    requires i < |xs|
    ensures |AssertionChecks(xs)| == |xs| && AssertionChecks(xs)[i] == AssertionCheckOf(xs[i])
    decreases |xs|
  {
    var last := |xs| - 1;
    AssertionChecksGrow(xs);
    if i < last {
      AssertionCheckAt(xs[..last], i);
      assert AssertionChecks(xs)[i] == AssertionChecks(xs)[..last][i];
    }
  }

  lemma AssertionsShow(xs: seq<Assertion>, i: nat)
    requires i < |xs|
    ensures |AssertionChecks(xs)| == |xs| && ShowsAssertion(AssertionChecks(xs)[i], xs[i])
  {
    AssertionCheckAt(xs, i);
    AssertionShows(xs[i]);
  }

  lemma TestChecksGrow(xs: seq<ScriptTest>)
    requires xs != []
    ensures var last := |xs| - 1;
      |TestChecks(xs)| == |xs| && TestChecks(xs)[..last] == TestChecks(xs[..last]) &&
      TestChecks(xs)[last] == TestCheckOf(xs[last])
  {
    FailingTests(xs[..|xs| - 1]);
  }

  lemma {:induction false} TestCheckAt(xs: seq<ScriptTest>, i: nat)
    requires i < |xs|
    ensures |TestChecks(xs)| == |xs| && TestChecks(xs)[i] == TestCheckOf(xs[i])
    decreases |xs|
  {
    var last := |xs| - 1;
    TestChecksGrow(xs);
    if i < last {
      TestCheckAt(xs[..last], i);
      assert TestChecks(xs)[i] == TestChecks(xs)[..last][i];
    }
  }

  lemma TestShows(t: ScriptTest)
    ensures ShowsTest(TestCheckOf(t), t)
  {
  }

  lemma TestsShow(xs: seq<ScriptTest>, i: nat)
    requires i < |xs|
    ensures |TestChecks(xs)| == |xs| && ShowsTest(TestChecks(xs)[i], xs[i])
  {
    TestCheckAt(xs, i);
    TestShows(xs[i]);
  }

  /** The checks of assertions and tests, one after the other. */
  lemma DeclaredShow(r: Response)
    ensures var a, t := AssertionChecks(r.assertions), TestChecks(r.tests);
      |a| == |r.assertions| && |t| == |r.tests| &&
      (forall i :: 0 <= i < |a| ==> ShowsAssertion((a + t)[i], r.assertions[i])) &&
      (forall i :: 0 <= i < |t| ==> ShowsTest((a + t)[|a| + i], r.tests[i]))
  {
    var a, t := AssertionChecks(r.assertions), TestChecks(r.tests);
    FailingAssertions(r.assertions);
    FailingTests(r.tests);
    forall i | 0 <= i < |a| ensures ShowsAssertion((a + t)[i], r.assertions[i]) {
      AssertionsShow(r.assertions, i);
    }
    forall i | 0 <= i < |t| ensures ShowsTest((a + t)[|a| + i], r.tests[i]) {
      TestsShow(r.tests, i);
    }
  }

  lemma ChecksShow(r: Response, j: Judged)
    ensures ShowsResponse(ChecksOf(r, j), r, j)
  {
    var both := AssertionChecks(r.assertions) + TestChecks(r.tests);
    DeclaredShow(r);
    if r.scriptError != "" {
      assert forall i :: 0 <= i < |both| ==> (both + [ScriptCheckOf(r.scriptError)])[i] == both[i];
    } else {
      assert DeclaredChecks(r) == both;
    }
  }

  // ---- The suite of a request -----------------------------------------------

  /** A test case per check: it succeeds, or fails with the check's kind and message. */
  predicate ShowsCheck(x: Case, c: Check)
  {
    x.name == c.name && x.outcome == if c.passed then Succeeded else Failure(c.kind, c.message)
  }

  /**
   * The cases of a result: one for every check in order, save that a request which did not complete has its
   * error as the first case, and not once more as its own check.
   */
  predicate ShowsResult(cases: seq<Case>, r: RequestResult)
  {
    if r.error == "" then |cases| == |r.checks| && forall i :: 0 <= i < |cases| ==> ShowsCheck(cases[i], r.checks[i])
    else
      |cases| > 0 && cases[0] == Case("request completed", Errored(r.error)) &&
      ShowsOthers(cases[1..], r.checks)
  }

  predicate ShowsOthers(cases: seq<Case>, checks: seq<Check>)
    decreases |checks|
  {
    if checks == [] then cases == []
    else if checks[0].kind == RequestCheck then ShowsOthers(cases, checks[1..])
    else cases != [] && ShowsCheck(cases[0], checks[0]) && ShowsOthers(cases[1..], checks[1..])
  }

  lemma {:induction false} ShowsOthersMore(cases: seq<Case>, checks: seq<Check>, c: Check)
    requires ShowsOthers(cases, checks)
    ensures ShowsOthers(cases + if c.kind == RequestCheck then [] else [CaseOf(c)], checks + [c])
    decreases |checks|
  {
    var more := if c.kind == RequestCheck then [] else [CaseOf(c)];
    assert (checks + [c])[1..] == if checks == [] then [] else checks[1..] + [c];
    if checks == [] {
      assert cases + more == more;
    } else if checks[0].kind == RequestCheck {
      ShowsOthersMore(cases, checks[1..], c);
    } else {
      ShowsOthersMore(cases[1..], checks[1..], c);
      assert (cases + more)[1..] == cases[1..] + more;
    }
  }

  lemma {:induction false} CasesShowOthers(error: string, checks: seq<Check>)
    requires error != ""
    ensures ShowsOthers(CheckCases(error, checks), checks)
    decreases |checks|
  {
    if checks != [] {
      var last := |checks| - 1;
      CasesShowOthers(error, checks[..last]);
      ShowsOthersMore(CheckCases(error, checks[..last]), checks[..last], checks[last]);
      assert checks[..last] + [checks[last]] == checks;
    }
  }

  lemma {:induction false} CasesShowAll(checks: seq<Check>)
    ensures |CheckCases("", checks)| == |checks|
    ensures forall i :: 0 <= i < |checks| ==> ShowsCheck(CheckCases("", checks)[i], checks[i])
    decreases |checks|
  {
    if checks != [] {
      CasesShowAll(checks[..|checks| - 1]);
    }
  }

  lemma CasesShow(r: RequestResult)
    ensures ShowsResult(CasesOf(r), r)
  {
    if r.error == "" {
      CasesShowAll(r.checks);
    } else {
      CasesShowOthers(r.error, r.checks);
      assert CasesOf(r)[1..] == CheckCases(r.error, r.checks);
    }
  }

  // ---- The document ---------------------------------------------------------

  /** A suite per result, in order; a run broken off with a text has one more, with the text in its error. */
  predicate ShowsRun(suites: seq<Suite>, s: Summary)
  {
    var broken := s.end.Aborted? && s.end.error != "";
    |suites| == |s.results| + (if broken then 1 else 0) &&
    (forall i :: 0 <= i < |s.results| ==> ShowsResult(suites[i].cases, s.results[i])) &&
    (broken ==>
      suites[|s.results|].cases == [Case("run completed", Errored("the run did not complete: " + s.end.error))])
  }

  lemma {:induction false} SuitesShow(results: seq<RequestResult>)
    ensures |SuitesOf(results)| == |results|
    ensures forall i :: 0 <= i < |results| ==> ShowsResult(SuitesOf(results)[i].cases, results[i])
    decreases |results|
  {
    if results != [] {
      SuitesShow(results[..|results| - 1]);
      CasesShow(results[|results| - 1]);
    }
  }

  lemma {:induction false} TotalsKeep(suites: seq<Suite>)
    ensures Totals(suites).suites == suites
    decreases |suites|
  {
    if suites != [] {
      TotalsKeep(suites[..|suites| - 1]);
    }
  }

  /** For every run: what the document shows is what the results hold. */
  lemma DocumentShows(s: Summary)
    ensures ShowsRun(Totals(DocSuites(s)).suites, s)
  {
    SuitesShow(s.results);
    TotalsKeep(DocSuites(s));
  }

  // ---- The results of a run -------------------------------------------------

  /** Row n is run: there is no data file and it is among the iterations, or it is a good row within the limit. */
  predicate RowRuns(file: Option<seq<Row>>, iterations: int, n: nat)
  {
    if file.None? then n == 0 || n < iterations
    else n < |file.value| && (iterations <= 0 || n < iterations) && file.value[n].Row?
  }

  lemma RowsRun(file: Option<seq<Row>>, iterations: int, n: nat)
    ensures Pull(OpenRows(file, iterations), n).Iterate? <==> RowRuns(file, iterations, n)
    ensures forall e :: Pull(OpenRows(file, iterations), n) == Broken(e) <==>
      file.Some? && n < |file.value| && (iterations <= 0 || n < iterations) && file.value[n] == Malformed(e)
  {
  }

  lemma {:induction false} PassAt(c: Course, n: nat, k: nat, i: nat)
    requires k + i < c.size
    ensures |WholePass(c, n, k)| == c.size - k && WholePass(c, n, k)[i] == c.result(n, k + i)
    decreases i
  {
    PassSize(c, n, k);
    if i > 0 {
      PassAt(c, n, k + 1, i - 1);
    }
  }

  lemma {:induction false} PassSize(c: Course, n: nat, k: nat)
    requires k <= c.size
    ensures |WholePass(c, n, k)| == c.size - k
    decreases c.size - k
  {
    if k < c.size {
      PassSize(c, n, k + 1);
    }
  }

  /** The number of results in m whole passes. */
  function Passed(m: nat, size: nat): nat
  {
    if m == 0 then 0 else size + Passed(m - 1, size)
  }

  lemma {:induction false} PassedIs(m: nat, size: nat)
    ensures Passed(m, size) == m * size
  {
    if m > 0 {
      PassedIs(m - 1, size);
    }
  }

  /** The result of request k in iteration n + m stands after m whole passes. */
  lemma {:induction false} RunAt(c: Course, source: Source, n: nat, m: nat, k: nat)
    requires k < c.size && Passed(m, c.size) + k < |WholeRun(c, source, n)|
    ensures Pull(source, n + m).Iterate? && WholeRun(c, source, n)[Passed(m, c.size) + k] == c.result(n + m, k)
    decreases m
  {
    PassSize(c, n, 0);
    if m == 0 {
      PassAt(c, n, 0, k);
    } else {
      RunAt(c, source, n + 1, m - 1, k);
    }
  }

  lemma {:induction false} PassIsPrefix(c: Course, bail: bool, n: nat, k: nat)
    requires k <= c.size
    ensures RunRequests(c, bail, n, k).results <= WholePass(c, n, k)
    decreases c.size - k
  {
    if k < c.size {
      PassIsPrefix(c, bail, n, k + 1);
    }
  }

  lemma {:induction false} RunIsPrefix(c: Course, source: Source, bail: bool, n: nat)
    ensures RunRows(c, source, bail, n).results <= WholeRun(c, source, n)
    decreases Size(source) - n
  {
    if Pull(source, n).Iterate? {
      PassIsPrefix(c, bail, n, 0);
      if RunRequests(c, bail, n, 0).end.Finished? {
        FinishedPassIsWhole(c, bail, n, 0);
        RunIsPrefix(c, source, bail, n + 1);
      }
    }
  }

  lemma CourseGives(plan: seq<Planned>, env: Env, n: nat, k: nat)
    requires k < |plan|
    ensures CourseOf(plan, env).result(n, k) == ResultOf(n + 1, plan[k], env.exec(n, k))
  {
  }

  /**
   * In every run, finished, bailed or broken off, the result after m whole passes and k more requests is the one
   * of request k in iteration m + 1, made of what its execution gave.
   */
  lemma ResultsAreInPlace(plan: seq<Planned>, source: Source, env: Env, bail: bool, m: nat, k: nat)
    requires k < |plan| && m * |plan| + k < |RunPlan(plan, source, env, bail).results|
    ensures var r := RunPlan(plan, source, env, bail).results[m * |plan| + k];
      Pull(source, m).Iterate? && r.iteration == m + 1 && r.request == plan[k].id &&
      r == ResultOf(m + 1, plan[k], env.exec(m, k))
  {
    var c := CourseOf(plan, env);
    RunIsPrefix(c, source, bail, 0);
    PassedIs(m, |plan|);
    RunAt(c, source, 0, m, k);
    CourseGives(plan, env, m, k);
  }
}
