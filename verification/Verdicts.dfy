/** One request's verdict, and the checks a report shows for it. */
module Verdicts {
  import opened Common

  datatype Assertion = Assertion(text: string, passed: bool, actual: string, error: string)

  datatype ScriptTest = ScriptTest(name: string, passed: bool, error: string)

  datatype Response = Response(
    status: int, error: string, scriptError: string, assertions: seq<Assertion>, tests: seq<ScriptTest>)

  /** What running one request gives: a response, and an error with its text if there is one. */
  datatype Outcome = Outcome(response: Response, error: Option<string>)

  datatype Reason =
    | Nothing
    | Said(text: string)
    | ScriptFailed(text: string)
    | ChecksFailed(failed: nat, total: nat)
    | BadStatus(status: int)
    | NoTestsRegistered

  datatype Judged = Judged(passed: bool, reason: Reason)

  datatype Kind = AssertionCheck | TestCheck | ScriptCheck | RequestCheck

  datatype Message = NoMessage | Text(text: string) | Because(reason: Reason)

  datatype Check = Check(name: string, kind: Kind, passed: bool, message: Message)

  datatype Planned = Planned(id: string, postResponseScript: string)

  /** One executed request in a run's summary. */
  datatype RequestResult = RequestResult(
    iteration: nat, request: string, passed: bool, reason: Reason, error: string, checks: seq<Check>)

  predicate AllAssertionsHold(xs: seq<Assertion>)
  {
    forall i :: 0 <= i < |xs| ==> xs[i].passed
  }

  predicate AllTestsHold(xs: seq<ScriptTest>)
  {
    forall i :: 0 <= i < |xs| ==> xs[i].passed
  }

  /** ResponseData.Passed. */
  predicate ResponsePassed(r: Response)
  {
    r.scriptError == "" && AllAssertionsHold(r.assertions) && AllTestsHold(r.tests)
  }

  function FailedAssertions(xs: seq<Assertion>): (n: nat)
    ensures n <= |xs| && (n == 0 <==> AllAssertionsHold(xs))
  {
    if xs == [] then 0
    else
      var last := |xs| - 1;
      FailedAssertions(xs[..last]) + if xs[last].passed then 0 else 1
  }

  function FailedTests(xs: seq<ScriptTest>): (n: nat)
    ensures n <= |xs| && (n == 0 <==> AllTestsHold(xs))
  {
    if xs == [] then 0
    else
      var last := |xs| - 1;
      FailedTests(xs[..last]) + if xs[last].passed then 0 else 1
  }

  function Verdict(resp: Response, err: Option<string>): Judged
  {
    if err.Some? then Judged(false, Said(err.value))
    else if resp.error != "" then Judged(false, Said(resp.error))
    else if resp.scriptError != "" then Judged(false, ScriptFailed(resp.scriptError))
    else if !ResponsePassed(resp) then
      Judged(false, ChecksFailed(FailedAssertions(resp.assertions) + FailedTests(resp.tests),
        |resp.assertions| + |resp.tests|))
    else if resp.assertions == [] && resp.tests == [] && resp.status >= 400 then Judged(false, BadStatus(resp.status))
    else Judged(true, Nothing)
  }

  lemma OneMoreAssertion(xs: seq<Assertion>, i: nat)
    requires i < |xs|
    ensures FailedAssertions(xs[..i + 1]) == FailedAssertions(xs[..i]) + if xs[i].passed then 0 else 1
  {
    assert xs[..i + 1][..i] == xs[..i];
  }

  lemma OneMoreTest(xs: seq<ScriptTest>, i: nat)
    requires i < |xs|
    ensures FailedTests(xs[..i + 1]) == FailedTests(xs[..i]) + if xs[i].passed then 0 else 1
  {
    assert xs[..i + 1][..i] == xs[..i];
  }

  method CountFailed(assertions: seq<Assertion>, tests: seq<ScriptTest>) returns (failed: nat)
    ensures failed == FailedAssertions(assertions) + FailedTests(tests)
  {
    failed := 0;
    for i := 0 to |assertions|
      invariant failed == FailedAssertions(assertions[..i])
    {
      OneMoreAssertion(assertions, i);
      if !assertions[i].passed {
        failed := failed + 1;
      }
    }
    assert assertions[..|assertions|] == assertions;
    ghost var before := failed;
    for i := 0 to |tests|
      invariant failed == before + FailedTests(tests[..i])
    {
      OneMoreTest(tests, i);
      if !tests[i].passed {
        failed := failed + 1;
      }
    }
    assert tests[..|tests|] == tests;
  }

  method GiveVerdict(resp: Response, err: Option<string>) returns (j: Judged)
    ensures j == Verdict(resp, err)
  {
    if err.Some? {
      return Judged(false, Said(err.value));
    }
    if resp.error != "" {
      return Judged(false, Said(resp.error));
    }
    if resp.scriptError != "" {
      return Judged(false, ScriptFailed(resp.scriptError));
    }
    if !ResponsePassed(resp) {
      var failed := CountFailed(resp.assertions, resp.tests);
      return Judged(false, ChecksFailed(failed, |resp.assertions| + |resp.tests|));
    }
    if resp.assertions == [] && resp.tests == [] && resp.status >= 400 {
      return Judged(false, BadStatus(resp.status));
    }
    j := Judged(true, Nothing);
  }

  function AssertionCheckOf(a: Assertion): Check
  {
    Check(a.text, AssertionCheck, a.passed,
      if a.passed then NoMessage
      else if a.error != "" then Text(a.error)
      else Text("expected " + a.text + ", actual: " + a.actual))
  }

  function TestCheckOf(t: ScriptTest): Check
  {
    Check(t.name, TestCheck, t.passed,
      if t.passed then NoMessage else if t.error != "" then Text(t.error) else Text("test failed"))
  }

  function ScriptCheckOf(text: string): Check
  {
    Check("post-response script", ScriptCheck, false, Text(text))
  }

  function RequestCheckOf(j: Judged): Check
  {
    Check("request completed", RequestCheck, j.passed, if j.passed then NoMessage else Because(j.reason))
  }

  function AssertionChecks(xs: seq<Assertion>): seq<Check>
  {
    if xs == [] then [] else AssertionChecks(xs[..|xs| - 1]) + [AssertionCheckOf(xs[|xs| - 1])]
  }

  function TestChecks(xs: seq<ScriptTest>): seq<Check>
  {
    if xs == [] then [] else TestChecks(xs[..|xs| - 1]) + [TestCheckOf(xs[|xs| - 1])]
  }

  function DeclaredChecks(r: Response): seq<Check>
  {
    AssertionChecks(r.assertions) + TestChecks(r.tests) +
    if r.scriptError != "" then [ScriptCheckOf(r.scriptError)] else []
  }

  function ChecksOf(r: Response, j: Judged): seq<Check>
  {
    if DeclaredChecks(r) == [] then [RequestCheckOf(j)] else DeclaredChecks(r)
  }

  method CollectChecks(r: Response, j: Judged) returns (checks: seq<Check>)
    ensures checks == ChecksOf(r, j)
  {
    checks := [];
    for i := 0 to |r.assertions|
      invariant checks == AssertionChecks(r.assertions[..i])
    {
      assert r.assertions[..i + 1][..i] == r.assertions[..i];
      checks := checks + [AssertionCheckOf(r.assertions[i])];
    }
    assert r.assertions[..|r.assertions|] == r.assertions;
    for i := 0 to |r.tests|
      invariant checks == AssertionChecks(r.assertions) + TestChecks(r.tests[..i])
    {
      assert r.tests[..i + 1][..i] == r.tests[..i];
      checks := checks + [TestCheckOf(r.tests[i])];
    }
    assert r.tests[..|r.tests|] == r.tests;
    if r.scriptError != "" {
      checks := checks + [ScriptCheckOf(r.scriptError)];
    }
    if |checks| == 0 {
      checks := checks + [RequestCheckOf(j)];
    }
  }

  /** A passing verdict is withdrawn when a post-response script left nothing behind to check. */
  function Refined(p: Planned, o: Outcome): Judged
  {
    var resp, j := o.response, Verdict(o.response, o.error);
    if j.passed && o.error.None? && resp.error == "" && resp.scriptError == "" && p.postResponseScript != "" &&
       resp.assertions == [] && resp.tests == []
    then Judged(false, NoTestsRegistered)
    else j
  }

  function ResultOf(iteration: nat, p: Planned, o: Outcome): RequestResult
  {
    var j := Refined(p, o);
    RequestResult(iteration, p.id, j.passed, j.reason, if o.error.Some? then o.error.value else o.response.error,
      ChecksOf(o.response, j))
  }

  predicate DeclaresNothing(r: Response)
  {
    r.assertions == [] && r.tests == []
  }

  /**
   * A request passes exactly when it completed, its script ran, every declared check holds, and, with no
   * check declared, its status is below 400 and it has no script that should have declared one.
   */
  lemma PassesIff(iteration: nat, p: Planned, o: Outcome)
    ensures ResultOf(iteration, p, o).passed <==>
      o.error.None? && o.response.error == "" && ResponsePassed(o.response) &&
      (DeclaresNothing(o.response) ==> o.response.status < 400 && p.postResponseScript == "")
    ensures ResultOf(iteration, p, o).passed <==> ResultOf(iteration, p, o).reason == Nothing
  {
  }

  function Failing(checks: seq<Check>): (n: nat)
    ensures n <= |checks|
  {
    if checks == [] then 0
    else
      var last := |checks| - 1;
      Failing(checks[..last]) + if checks[last].passed then 0 else 1
  }

  /** The count in a failure's reason is the number of its failing checks, and never 0. */
  lemma CountedChecksFail(resp: Response)
    requires Verdict(resp, None).reason.ChecksFailed?
    ensures var reason := Verdict(resp, None).reason;
      0 < reason.failed == Failing(DeclaredChecks(resp)) && reason.total == |DeclaredChecks(resp)|
  {
    FailingAssertions(resp.assertions);
    FailingTests(resp.tests);
    FailingBoth(AssertionChecks(resp.assertions), TestChecks(resp.tests));
    assert DeclaredChecks(resp) == AssertionChecks(resp.assertions) + TestChecks(resp.tests);
  }

  lemma {:induction false} FailingBoth(a: seq<Check>, b: seq<Check>)
    ensures Failing(a + b) == Failing(a) + Failing(b)
    decreases |b|
  {
    if b == [] {
      assert a + b == a;
    } else {
      assert (a + b)[..|a + b| - 1] == a + b[..|b| - 1];
      FailingBoth(a, b[..|b| - 1]);
    }
  }

  lemma {:induction false} FailingAssertions(xs: seq<Assertion>)
    ensures Failing(AssertionChecks(xs)) == FailedAssertions(xs) && |AssertionChecks(xs)| == |xs|
    decreases |xs|
  {
    if xs != [] {
      var last := |xs| - 1;
      FailingAssertions(xs[..last]);
      assert AssertionChecks(xs)[..last] == AssertionChecks(xs[..last]);
    }
  }

  lemma {:induction false} FailingTests(xs: seq<ScriptTest>)
    ensures Failing(TestChecks(xs)) == FailedTests(xs) && |TestChecks(xs)| == |xs|
    decreases |xs|
  {
    if xs != [] {
      var last := |xs| - 1;
      FailingTests(xs[..last]);
      assert TestChecks(xs)[..last] == TestChecks(xs[..last]);
    }
  }

  /** Checks pass or fail as what they were made from, and a request that declares nothing has one check. */
  lemma ChecksAre(r: Response, j: Judged)
    ensures |ChecksOf(r, j)| >= 1
    ensures Failing(ChecksOf(r, j)) == 0 <==>
      if DeclaresNothing(r) && r.scriptError == "" then j.passed else ResponsePassed(r)
  {
    FailingAssertions(r.assertions);
    FailingTests(r.tests);
    var a, t := AssertionChecks(r.assertions), TestChecks(r.tests);
    FailingBoth(a, t);
    if r.scriptError != "" {
      FailingBoth(a + t, [ScriptCheckOf(r.scriptError)]);
      assert Failing([ScriptCheckOf(r.scriptError)]) == 1;
    } else {
      assert DeclaredChecks(r) == a + t;
    }
    assert Failing([RequestCheckOf(j)]) == 0 <==> j.passed;
  }

  /** The reason a console shows is found again in what a report shows of the result. */
  predicate Reported(r: RequestResult)
  {
    (r.error != "" ==> r.reason == Said(r.error)) &&
    match r.reason
    case Nothing => r.passed
    case Said(text) => r.error == text
    case ScriptFailed(text) => Check("post-response script", ScriptCheck, false, Text(text)) in r.checks
    case ChecksFailed(failed, total) => 0 < failed == Failing(r.checks) && total == |r.checks|
    case BadStatus(_) => r.checks == [Check("request completed", RequestCheck, false, Because(r.reason))]
    case NoTestsRegistered => r.checks == [Check("request completed", RequestCheck, false, Because(r.reason))]
  }

  /** For every outcome, console and report tell the same story. */
  lemma ReasonIsReported(iteration: nat, p: Planned, o: Outcome)
    ensures Reported(ResultOf(iteration, p, o))
  {
    var resp := o.response;
    if Refined(p, o).reason.ChecksFailed? {
      CountedChecksFail(resp);
    }
    if resp.scriptError != "" {
      var declared := DeclaredChecks(resp);
      assert declared[|declared| - 1] == ScriptCheckOf(resp.scriptError);
    }
  }

  /** Every reason is true of what was executed. */
  predicate ReasonHolds(p: Planned, o: Outcome, reason: Reason)
  {
    var resp := o.response;
    match reason
    case Nothing => o.error.None? && resp.error == "" && resp.scriptError == ""
    case Said(text) => o.error == Some(text) || (o.error.None? && resp.error == text && text != "")
    case ScriptFailed(text) => resp.scriptError == text && text != ""
    case ChecksFailed(failed, total) => !AllAssertionsHold(resp.assertions) || !AllTestsHold(resp.tests)
    case BadStatus(status) => status == resp.status && 400 <= status && resp.assertions == [] && resp.tests == []
    case NoTestsRegistered =>
      p.postResponseScript != "" && resp.status < 400 && resp.assertions == [] && resp.tests == []
  }

  lemma ReasonIsTrue(iteration: nat, p: Planned, o: Outcome)
    ensures ReasonHolds(p, o, ResultOf(iteration, p, o).reason)
  {
    if o.response.assertions == [] {
      assert AllAssertionsHold(o.response.assertions);
    }
    if o.response.tests == [] {
      assert AllTestsHold(o.response.tests);
    }
  }
}
