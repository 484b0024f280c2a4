/** The JUnit document, and how it agrees with the exit status. */
module JUnit {
  import opened Common
  import opened Verdicts
  import opened PlanRuns

  datatype Case = Case(name: string, outcome: CaseOutcome)

  datatype CaseOutcome = Succeeded | Failure(kind: Kind, message: Message) | Errored(text: string)

  datatype Suite = Suite(tests: nat, failures: nat, errors: nat, cases: seq<Case>)

  datatype Doc = Doc(tests: nat, failures: nat, errors: nat, suites: seq<Suite>)

  function CaseOf(c: Check): Case
  {
    Case(c.name, if c.passed then Succeeded else Failure(c.kind, c.message))
  }

  /** The checks that get a test case; a request's own check is left out when its error is a case already. */
  function CheckCases(error: string, checks: seq<Check>): seq<Case>
  {
    if checks == [] then []
    else
      var last := |checks| - 1;
      CheckCases(error, checks[..last]) +
      if error != "" && checks[last].kind.RequestCheck? then [] else [CaseOf(checks[last])]
  }

  /** The case of a request that did not complete. */
  function CompletionCase(error: string): Case
  {
    Case("request completed", Errored(error))
  }

  function CasesOf(r: RequestResult): seq<Case>
  {
    (if r.error != "" then [CompletionCase(r.error)] else []) + CheckCases(r.error, r.checks)
  }

  function Failures(cases: seq<Case>): nat
  {
    if cases == [] then 0
    else Failures(cases[..|cases| - 1]) + if cases[|cases| - 1].outcome.Failure? then 1 else 0
  }

  function Errors(cases: seq<Case>): nat
  {
    if cases == [] then 0
    else Errors(cases[..|cases| - 1]) + if cases[|cases| - 1].outcome.Errored? then 1 else 0
  }

  /** A suite whose counts are those of its cases. */
  function Counted(cases: seq<Case>): Suite
  {
    Suite(|cases|, Failures(cases), Errors(cases), cases)
  }

  function SuitesOf(results: seq<RequestResult>): seq<Suite>
  {
    if results == [] then [] else SuitesOf(results[..|results| - 1]) + [Counted(CasesOf(results[|results| - 1]))]
  }

  function AbortSuite(text: string): Suite
  {
    Counted([Case("run completed", Errored("the run did not complete: " + text))])
  }

  /** RunSummary.Aborted: the text of the error the run ended with, if any. */
  function AbortText(s: Summary): string
  {
    if s.end.Aborted? then s.end.error else ""
  }

  function DocSuites(s: Summary): seq<Suite>
  {
    SuitesOf(s.results) + if AbortText(s) != "" then [AbortSuite(AbortText(s))] else []
  }

  function Totals(suites: seq<Suite>): Doc
  {
    if suites == [] then Doc(0, 0, 0, [])
    else
      var last := |suites| - 1;
      var before, x := Totals(suites[..last]), suites[last];
      Doc(before.tests + x.tests, before.failures + x.failures, before.errors + x.errors, before.suites + [x])
  }

  predicate Green(tests: nat, failures: nat, errors: nat)
  {
    tests >= 1 && failures == 0 && errors == 0
  }

  predicate GreenSuite(x: Suite)
  {
    Green(x.tests, x.failures, x.errors)
  }

  // ---- One result and its suite ---------------------------------------------

  lemma {:induction false} CaseCounts(a: seq<Case>, b: seq<Case>)
    ensures Failures(a + b) == Failures(a) + Failures(b) && Errors(a + b) == Errors(a) + Errors(b)
    decreases |b|
  {
    if b == [] {
      assert a + b == a;
    } else {
      assert (a + b)[..|a + b| - 1] == a + b[..|b| - 1];
      CaseCounts(a, b[..|b| - 1]);
    }
  }

  /** Without an error text every check becomes a case. */
  lemma {:induction false} CheckCasesAre(error: string, checks: seq<Check>)
    ensures Errors(CheckCases(error, checks)) == 0 && Failures(CheckCases(error, checks)) <= Failing(checks)
    ensures error == "" ==>
      |CheckCases(error, checks)| == |checks| && Failures(CheckCases(error, checks)) == Failing(checks)
    decreases |checks|
  {
    if checks != [] {
      var last := |checks| - 1;
      CheckCasesAre(error, checks[..last]);
      CaseCounts(CheckCases(error, checks[..last]), [CaseOf(checks[last])]);
      assert CheckCases(error, checks[..last]) + [] == CheckCases(error, checks[..last]);
    }
  }

  /** The one way a failed request's suite is green: an error with no text, on a response whose checks all hold. */
  predicate SilentError(o: Outcome)
  {
    o.error == Some("") && !DeclaresNothing(o.response) && ResponsePassed(o.response)
  }

  /** A result with an error text has an error case. */
  lemma ErrorSuite(r: RequestResult)
    requires r.error != ""
    ensures Counted(CasesOf(r)).errors == 1
  {
    var e := [CompletionCase(r.error)];
    CheckCasesAre(r.error, r.checks);
    CaseCounts(e, CheckCases(r.error, r.checks));
    assert e[..0] == [] && Errors(e) == 1;
  }

  /** A result without one has its checks for cases. */
  lemma CheckSuite(r: RequestResult)
    requires r.error == "" && r.checks != []
    ensures GreenSuite(Counted(CasesOf(r))) <==> Failing(r.checks) == 0
  {
    CheckCasesAre(r.error, r.checks);
    assert CasesOf(r) == CheckCases(r.error, r.checks);
  }

  /** For every outcome: the suite is green exactly when the request passed, or failed silently. */
  lemma SuiteAgreesIff(iteration: nat, p: Planned, o: Outcome)
    ensures var r := ResultOf(iteration, p, o);
      GreenSuite(Counted(CasesOf(r))) <==> r.passed || SilentError(o)
  {
    var r := ResultOf(iteration, p, o);
    PassesIff(iteration, p, o);
    if r.error != "" {
      ErrorSuite(r);
    } else {
      ChecksAre(o.response, Refined(p, o));
      CheckSuite(r);
    }
  }

  /** A suite is never empty. */
  lemma SuiteIsNotEmpty(iteration: nat, p: Planned, o: Outcome)
    ensures Counted(CasesOf(ResultOf(iteration, p, o))).tests >= 1
  {
    var r := ResultOf(iteration, p, o);
    ChecksAre(o.response, Refined(p, o));
    CheckCasesAre(r.error, r.checks);
  }

  // ---- The run and its document ---------------------------------------------

  /** A result the run could have recorded. */
  ghost predicate Recorded(r: RequestResult, p: Planned, o: Outcome)
  {
    r == ResultOf(r.iteration, p, o)
  }

  ghost predicate AllRecorded(rs: seq<RequestResult>, ps: seq<Planned>, os: seq<Outcome>)
  {
    |ps| == |rs| && |os| == |rs| && forall i :: 0 <= i < |rs| ==> Recorded(rs[i], ps[i], os[i])
  }

  predicate AllPassedOrSilent(rs: seq<RequestResult>, os: seq<Outcome>)
    requires |os| == |rs|
  {
    forall i :: 0 <= i < |rs| ==> rs[i].passed || SilentError(os[i])
  }

  lemma {:induction false} TotalsOf(suites: seq<Suite>, x: Suite)
    ensures Totals(suites + [x]).tests == Totals(suites).tests + x.tests
    ensures Totals(suites + [x]).failures == Totals(suites).failures + x.failures
    ensures Totals(suites + [x]).errors == Totals(suites).errors + x.errors
  {
    assert (suites + [x])[..|suites|] == suites;
  }

  /** What a document's totals say of the results so far. */
  ghost predicate Agrees(rs: seq<RequestResult>, os: seq<Outcome>, t: Doc)
    requires |os| == |rs|
  {
    t.tests >= |rs| && (t.failures == 0 && t.errors == 0 <==> AllPassedOrSilent(rs, os))
  }

  lemma OneMoreAgrees(rs: seq<RequestResult>, os: seq<Outcome>, t: Doc, r: RequestResult, p: Planned, o: Outcome)
    requires |os| == |rs| && Agrees(rs, os, t) && Recorded(r, p, o)
    ensures var x := Counted(CasesOf(r));
      Agrees(rs + [r], os + [o],
        t.(tests := t.tests + x.tests, failures := t.failures + x.failures, errors := t.errors + x.errors))
  {
    SuiteAgreesIff(r.iteration, p, o);
    SuiteIsNotEmpty(r.iteration, p, o);
    var rs', os' := rs + [r], os + [o];
    assert forall i :: 0 <= i < |rs| ==> rs'[i] == rs[i] && os'[i] == os[i];
    assert rs'[|rs|] == r && os'[|os|] == o;
    assert AllPassedOrSilent(rs', os') <==> AllPassedOrSilent(rs, os) && (r.passed || SilentError(o));
  }

  lemma LastApart<T>(xs: seq<T>)
    requires xs != []
    ensures xs == xs[..|xs| - 1] + [xs[|xs| - 1]]
  {
  }

  /** The totals of the results, from the totals without the last. */
  lemma TotalsNext(rs: seq<RequestResult>)
    requires rs != []
    ensures var last := |rs| - 1;
      var t, t', x := Totals(SuitesOf(rs[..last])), Totals(SuitesOf(rs)), Counted(CasesOf(rs[last]));
      t'.tests == t.tests + x.tests && t'.failures == t.failures + x.failures && t'.errors == t.errors + x.errors
  {
    TotalsOf(SuitesOf(rs[..|rs| - 1]), Counted(CasesOf(rs[|rs| - 1])));
  }

  lemma {:induction false} AllResultsAgree(rs: seq<RequestResult>, ps: seq<Planned>, os: seq<Outcome>)
    requires AllRecorded(rs, ps, os)
    ensures Agrees(rs, os, Totals(SuitesOf(rs)))
    decreases |rs|
  {
    if rs != [] {
      var n := |rs| - 1;
      AllResultsAgree(rs[..n], ps[..n], os[..n]);
      assert Recorded(rs[n], ps[n], os[n]);
      OneMoreAgrees(rs[..n], os[..n], Totals(SuitesOf(rs[..n])), rs[n], ps[n], os[n]);
      LastApart(rs);
      LastApart(os);
      TotalsNext(rs);
    }
  }

  /**
   * For every finished or aborted run: the document shows at least one test and no failure or error
   * exactly when some request ran, none failed other than silently, and no text says the run was broken off.
   */
  lemma GreenDocumentIff(s: Summary, ps: seq<Planned>, os: seq<Outcome>)
    requires AllRecorded(s.results, ps, os)
    ensures var t := Totals(DocSuites(s));
      Green(t.tests, t.failures, t.errors) <==>
      s.results != [] && AllPassedOrSilent(s.results, os) && AbortText(s) == ""
  {
    AllResultsAgree(s.results, ps, os);
    if AbortText(s) != "" {
      TotalsOf(SuitesOf(s.results), AbortSuite(AbortText(s)));
      assert Errors(AbortSuite(AbortText(s)).cases) == 1;
    } else {
      assert DocSuites(s) == SuitesOf(s.results);
    }
  }

  /** Exit status 0 exactly with a green document. */
  ghost predicate Agree(s: Summary)
  {
    var t := Totals(DocSuites(s));
    ExitsZero(s) <==> Green(t.tests, t.failures, t.errors)
  }

  /** The run failed without a text that says so: an error of a request, or the one the run was broken off by. */
  predicate FailsSilently(s: Summary, os: seq<Outcome>)
    requires |os| == |s.results|
  {
    s.results != [] && AllPassedOrSilent(s.results, os) && AbortText(s) == "" &&
    (s.end.Aborted? || exists i :: 0 <= i < |os| && SilentError(os[i]))
  }

  /** Document and exit status disagree exactly for runs that fail silently. */
  lemma ExitStatusAgreesIff(s: Summary, ps: seq<Planned>, os: seq<Outcome>)
    requires AllRecorded(s.results, ps, os)
    ensures Agree(s) <==> !FailsSilently(s, os)
  {
    GreenDocumentIff(s, ps, os);
    forall i | 0 <= i < |os| && SilentError(os[i]) ensures !s.results[i].passed {
      assert Recorded(s.results[i], ps[i], os[i]);
    }
  }

  /** An error without a text fails the run and leaves a green document: any such outcome, in a run of its own. */
  lemma SilentErrorDisagrees(p: Planned, env: Env)
    requires SilentError(env.exec(0, 0)) && env.stop(0, 0).None?
    ensures var s := RunPlan([p], Repeats(1), env, false); var t := Totals(DocSuites(s));
      !ExitsZero(s) && Green(t.tests, t.failures, t.errors)
  {
    var o, c := env.exec(0, 0), CourseOf([p], env);
    var s := Summary([ResultOf(1, p, o)], Finished);
    assert RunRequests(c, false, 0, 1) == Summary([], Finished);
    assert RunRequests(c, false, 0, 0) == s;
    assert RunRows(c, Repeats(1), false, 1) == Summary([], Finished);
    assert RunPlan([p], Repeats(1), env, false) == s;
    assert AllRecorded(s.results, [p], [o]);
    GreenDocumentIff(s, [p], [o]);
    assert !s.results[0].passed;
  }

  /** These are the plan entries and outcomes of the results, each an outcome the world gave. */
  ghost predicate From(env: Env, rs: seq<RequestResult>, ps: seq<Planned>, os: seq<Outcome>)
  {
    AllRecorded(rs, ps, os) && forall i :: 0 <= i < |os| ==> Gave(env, os[i])
  }

  ghost predicate Gave(env: Env, o: Outcome)
  {
    exists i: nat, j: nat :: o == env.exec(i, j)
  }

  lemma FromBoth(env: Env, a: seq<RequestResult>, pa: seq<Planned>, oa: seq<Outcome>,
                 b: seq<RequestResult>, pb: seq<Planned>, ob: seq<Outcome>)
    requires From(env, a, pa, oa) && From(env, b, pb, ob)
    ensures From(env, a + b, pa + pb, oa + ob)
  {
    var rs, ps, os := a + b, pa + pb, oa + ob;
    forall i | 0 <= i < |rs| ensures Recorded(rs[i], ps[i], os[i]) && Gave(env, os[i]) {
      if i < |a| {
        assert Recorded(a[i], pa[i], oa[i]) && Gave(env, oa[i]);
      } else {
        assert Recorded(b[i - |a|], pb[i - |a|], ob[i - |a|]) && Gave(env, ob[i - |a|]);
      }
    }
  }

  lemma FromOne(env: Env, n: nat, k: nat, p: Planned)
    ensures From(env, [ResultOf(n + 1, p, env.exec(n, k))], [p], [env.exec(n, k)])
  {
    assert Gave(env, env.exec(n, k));
  }

  lemma {:induction false} RequestsAreRecorded(plan: seq<Planned>, env: Env, bail: bool, n: nat, k: nat)
    returns (ps: seq<Planned>, os: seq<Outcome>)
    requires k <= |plan|
    ensures From(env, RunRequests(CourseOf(plan, env), bail, n, k).results, ps, os)
    decreases |plan| - k
  {
    ps, os := [], [];
    if k < |plan| {
      CourseGives(plan, env, n, k);
      var c := CourseOf(plan, env);
      if c.stop(n, k).None? {
        FromOne(env, n, k, plan[k]);
        ps, os := [plan[k]], [env.exec(n, k)];
        if c.result(n, k).passed || !bail {
          var ps', os' := RequestsAreRecorded(plan, env, bail, n, k + 1);
          FromBoth(env, [c.result(n, k)], ps, os, RunRequests(c, bail, n, k + 1).results, ps', os');
          ps, os := ps + ps', os + os';
        }
      }
    }
  }

  lemma {:induction false} RowsAreRecorded(plan: seq<Planned>, source: Source, env: Env, bail: bool, n: nat)
    returns (ps: seq<Planned>, os: seq<Outcome>)
    ensures From(env, RunRows(CourseOf(plan, env), source, bail, n).results, ps, os)
    decreases Size(source) - n
  {
    ps, os := [], [];
    if Pull(source, n).Iterate? {
      ps, os := RequestsAreRecorded(plan, env, bail, n, 0);
      var s := RunRequests(CourseOf(plan, env), bail, n, 0);
      if s.end.Finished? {
        var ps', os' := RowsAreRecorded(plan, source, env, bail, n + 1);
        FromBoth(env, s.results, ps, os, RunRows(CourseOf(plan, env), source, bail, n + 1).results, ps', os');
        ps, os := ps + ps', os + os';
      }
    }
  }

  /** Whatever breaks a run off says so. */
  ghost predicate StopsSpeak(source: Source, env: Env)
  {
    (forall i: nat, j: nat :: env.stop(i, j) != Some("")) && forall n: nat :: Pull(source, n) != Broken("")
  }

  lemma {:induction false} AbortsSpeak(plan: seq<Planned>, source: Source, env: Env, bail: bool, n: nat, k: nat)
    requires StopsSpeak(source, env) && k <= |plan|
    ensures RunRequests(CourseOf(plan, env), bail, n, k).end != Aborted("")
    decreases |plan| - k
  {
    if k < |plan| {
      AbortsSpeak(plan, source, env, bail, n, k + 1);
    }
  }

  lemma {:induction false} RowsSpeak(plan: seq<Planned>, source: Source, env: Env, bail: bool, n: nat)
    requires StopsSpeak(source, env)
    ensures RunRows(CourseOf(plan, env), source, bail, n).end != Aborted("")
    decreases Size(source) - n
  {
    if Pull(source, n).Iterate? {
      AbortsSpeak(plan, source, env, bail, n, 0);
      RowsSpeak(plan, source, env, bail, n + 1);
    }
  }

  /**
   * The whole pipeline, for every plan, data source and world without silent errors, bailing or not: exit
   * status 0 exactly with a green document.
   */
  lemma RunAndReportAgree(plan: seq<Planned>, source: Source, env: Env, bail: bool)
    requires StopsSpeak(source, env) && forall i: nat, j: nat :: !SilentError(env.exec(i, j))
    ensures Agree(RunPlan(plan, source, env, bail))
  {
    var s := RunPlan(plan, source, env, bail);
    var ps, os := RowsAreRecorded(plan, source, env, bail, 0);
    RowsSpeak(plan, source, env, bail, 0);
    if s.results == [] {
      ps, os := [], [];
    }
    assert From(env, s.results, ps, os);
    forall i | 0 <= i < |os| ensures !SilentError(os[i]) {
      assert Gave(env, os[i]);
    }
    ExitStatusAgreesIff(s, ps, os);
  }

  /** With an executor that gives outcomes of this kind, every run agrees with its report. */
  ghost predicate AlwaysAgree(may: Outcome -> bool)
  {
    forall plan, source, env: Env, bail ::
      StopsSpeak(source, env) && (forall i: nat, j: nat :: may(env.exec(i, j))) ==>
        Agree(RunPlan(plan, source, env, bail))
  }

  /** Exactly the executors that never give a silent error do. */
  lemma AlwaysAgreeIff(may: Outcome -> bool)
    ensures AlwaysAgree(may) <==> forall o :: may(o) ==> !SilentError(o)
  {
    if o :| may(o) && SilentError(o) {
      var p, env := Planned("r", ""), Env((i, j) => o, (i, j) => None);
      SilentErrorDisagrees(p, env);
      assert StopsSpeak(Repeats(1), env) && !Agree(RunPlan([p], Repeats(1), env, false));
    } else {
      forall plan, source, env: Env, bail | StopsSpeak(source, env) && forall i: nat, j: nat :: may(env.exec(i, j))
        ensures Agree(RunPlan(plan, source, env, bail))
      {
        RunAndReportAgree(plan, source, env, bail);
      }
    }
  }

  // ---- What the engine gives ------------------------------------------------

  /** A send that ends before its response is scored, or after it; saving the response may still fail then. */
  datatype Sent = Unscored(response: Response, text: string) | Scored(response: Response, unsaved: Option<string>)

  const PERSIST := "persist response: "

  /** What Engine.RunRequest returns. */
  function OutcomeOf(s: Sent): Outcome
  {
    match s
    case Unscored(r, text) => Outcome(r.(assertions := [], tests := []), Some(text))
    case Scored(r, None) => Outcome(r, None)
    case Scored(r, Some(text)) => Outcome(r, Some(PERSIST + text))
  }

  lemma EngineIsNeverSilent(s: Sent)
    ensures !SilentError(OutcomeOf(s))
  {
    assert |PERSIST| > 0;
  }

  /** Through the engine, whatever the texts of its errors, the two always agree. */
  lemma EngineRunsAgree(plan: seq<Planned>, source: Source, env: Env, bail: bool, sent: (nat, nat) -> Sent)
    requires StopsSpeak(source, env) && forall i: nat, j: nat :: env.exec(i, j) == OutcomeOf(sent(i, j))
    ensures Agree(RunPlan(plan, source, env, bail))
  {
    forall i: nat, j: nat ensures !SilentError(env.exec(i, j)) {
      EngineIsNeverSilent(sent(i, j));
    }
    RunAndReportAgree(plan, source, env, bail);
  }

  // ---- The loops ------------------------------------------------------------

  method ReportSuite(r: RequestResult) returns (suite: Suite)
    ensures suite == Counted(CasesOf(r))
  {
    var tests: nat, failures: nat, errors: nat, cases: seq<Case> := 0, 0, 0, [];
    if r.error != "" {
      cases := cases + [CompletionCase(r.error)];
      errors := errors + 1;
      tests := tests + 1;
    }
    ghost var start := cases;
    for i := 0 to |r.checks|
      invariant cases == start + CheckCases(r.error, r.checks[..i])
      invariant tests == |cases| && failures == Failures(cases) && errors == Errors(cases)
    {
      var c := r.checks[i];
      assert r.checks[..i + 1][..i] == r.checks[..i];
      if r.error != "" && c.kind.RequestCheck? {
        continue;
      }
      if !c.passed {
        failures := failures + 1;
      }
      assert (cases + [CaseOf(c)])[..|cases|] == cases;
      cases := cases + [CaseOf(c)];
      tests := tests + 1;
    }
    assert r.checks[..|r.checks|] == r.checks;
    suite := Suite(tests, failures, errors, cases);
  }

  method AddSuite(doc: Doc, suite: Suite, ghost before: seq<Suite>) returns (r: Doc)
    requires doc == Totals(before)
    ensures r == Totals(before + [suite])
  {
    assert (before + [suite])[..|before|] == before;
    r := Doc(doc.tests + suite.tests, doc.failures + suite.failures, doc.errors + suite.errors, doc.suites + [suite]);
  }

  method Report(s: Summary) returns (doc: Doc)
    ensures doc == Totals(DocSuites(s))
  {
    doc := Doc(0, 0, 0, []);
    for i := 0 to |s.results|
      invariant doc == Totals(SuitesOf(s.results[..i]))
    {
      assert s.results[..i + 1][..i] == s.results[..i];
      var suite := ReportSuite(s.results[i]);
      doc := AddSuite(doc, suite, SuitesOf(s.results[..i]));
    }
    assert s.results[..|s.results|] == s.results;
    if AbortText(s) != "" {
      doc := AddSuite(doc, AbortSuite(AbortText(s)), SuitesOf(s.results));
    } else {
      assert DocSuites(s) == SuitesOf(s.results);
    }
  }

  /** Which of the first k results passed. */
  function PassedAmong(results: seq<RequestResult>, k: nat): set<nat>
    requires k <= |results|
  {
    set i: nat | i < k && results[i].passed
  }

  lemma {:induction false} AllAmong(results: seq<RequestResult>, k: nat)
    requires k <= |results|
    ensures |PassedAmong(results, k)| <= k && (|PassedAmong(results, k)| == k <==> AllPassed(results[..k]))
    decreases k
  {
    if k > 0 {
      AllAmong(results, k - 1);
      OneMoreAmong(results, k - 1);
    }
  }

  lemma OneMoreAmong(results: seq<RequestResult>, k: nat)
    requires k < |results|
    ensures |PassedAmong(results, k + 1)| == |PassedAmong(results, k)| + if results[k].passed then 1 else 0
    ensures AllPassed(results[..k + 1]) <==> AllPassed(results[..k]) && results[k].passed
  {
    assert PassedAmong(results, k + 1) == PassedAmong(results, k) + if results[k].passed then {k} else {};
    assert results[..k + 1] == results[..k] + [results[k]];
  }

  /** PassedCount: the requests, not the checks. */
  method CountPassed(results: seq<RequestResult>) returns (n: nat)
    ensures n == |PassedAmong(results, |results|)|
    ensures n <= |results| && (|results| - n == 0 <==> AllPassed(results))
  {
    n := 0;
    for i := 0 to |results|
      invariant n == |PassedAmong(results, i)|
    {
      OneMoreAmong(results, i);
      if results[i].passed {
        n := n + 1;
      }
    }
    AllAmong(results, |results|);
    assert results[..|results|] == results;
  }
}
