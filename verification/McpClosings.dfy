/** Which sessions were closed, and that none is closed twice. */
module McpClosings {
  import opened McpSessions

  lemma {:induction false} Snoc(s: State, run: seq<Action>)
    requires run != [] && Legal(s, run)
    ensures var before := run[..|run| - 1]; var last := run[|run| - 1];
      Legal(s, before) && Enabled(After(s, before), last) && After(s, run) == Apply(After(s, before), last)
    decreases |run|
  {
    if |run| > 1 {
      Snoc(Apply(s, run[0]), run[1..]);
      assert run[1..][..|run| - 2] == run[..|run| - 1][1..];
    }
  }

  /** The step closes the session: an operation's own, or one a shutdown swept. */
  predicate Closes(t: State, a: Action, c: Client)
  {
    a == CloseSwept(c) || (a.Close? && a.i < |t.threads| && t.threads[a.i].phase == Closing(c))
  }

  ghost predicate ClosedAt(s: State, run: seq<Action>, n: nat, c: Client)
  {
    n < |run| && Legal(s, run[..n]) && Closes(After(s, run[..n]), run[n], c)
  }

  ghost predicate ClosedIn(s: State, run: seq<Action>, c: Client)
  {
    exists n: nat :: ClosedAt(s, run, n, c)
  }

  lemma ClosedInNext(s: State, run: seq<Action>, c: Client)
    requires run != [] && Legal(s, run) && Legal(s, run[..|run| - 1])
    ensures var before, last := run[..|run| - 1], run[|run| - 1];
      ClosedIn(s, run, c) <==> ClosedIn(s, before, c) || Closes(After(s, before), last, c)
  {
    var before := run[..|run| - 1];
    assert ClosedAt(s, run, |before|, c) <==> Closes(After(s, before), run[|run| - 1], c);
    forall n: nat | n < |before| ensures ClosedAt(s, run, n, c) <==> ClosedAt(s, before, n, c) {
      assert before[..n] == run[..n];
    }
  }

  /** The closed sessions are those that a step of the run closed. */
  lemma {:induction false} ClosedAreTheRun(s: State, run: seq<Action>, c: Client)
    requires Initial(s) && Legal(s, run)
    ensures c in After(s, run).closed <==> ClosedIn(s, run, c)
    decreases |run|
  {
    if run != [] {
      Snoc(s, run);
      ClosedAreTheRun(s, run[..|run| - 1], c);
      ClosedInNext(s, run, c);
    }
  }

  lemma {:induction false} PrefixIsLegal(s: State, run: seq<Action>, n: nat)
    requires Legal(s, run) && n <= |run|
    ensures Legal(s, run[..n])
    decreases |run| - n
  {
    if n < |run| {
      Snoc(s, run);
      assert run[..|run| - 1][..n] == run[..n];
      PrefixIsLegal(s, run[..|run| - 1], n);
    } else {
      assert run[..n] == run;
    }
  }

  /** Without a shutdown no session is closed twice. */
  lemma ClosedOnce(s: State, run: seq<Action>, m: nat, n: nat, c: Client)
    requires Initial(s) && Legal(s, run) && NoShutdown(run) && ClosedAt(s, run, m, c) && ClosedAt(s, run, n, c)
    ensures m == n
  {
    if m < n {
      NotClosedYet(s, run, m, n, c);
    } else if n < m {
      NotClosedYet(s, run, n, m, c);
    }
  }

  lemma {:induction false} NothingIsSwept(s: State, run: seq<Action>)
    requires Legal(s, run) && NoShutdown(run) && s.sweep == {}
    ensures After(s, run).sweep == {}
    decreases |run|
  {
    if run != [] {
      assert !run[0].Shutdown? && forall i :: 0 <= i < |run| - 1 ==> run[1..][i] == run[i + 1];
      NothingIsSwept(Apply(s, run[0]), run[1..]);
    }
  }

  lemma NotClosedYet(s: State, run: seq<Action>, m: nat, n: nat, c: Client)
    requires Initial(s) && Legal(s, run) && NoShutdown(run) && m < n < |run| && ClosedAt(s, run, m, c)
    ensures !ClosedAt(s, run, n, c)
  {
    var before := run[..n];
    PrefixIsLegal(s, run, n);
    PrefixIsLegal(s, run, n + 1);
    Snoc(s, run[..n + 1]);
    assert run[..n + 1][..n] == before;
    assert before[..m] == run[..m] && ClosedAt(s, before, m, c);
    ClosedAreTheRun(s, before, c);
    NothingIsSwept(s, before);
    var a := run[n];
    if a.Close? && Steps(After(s, before), a.i) && Names(After(s, before).threads[a.i].phase, c) {
      NoUseAfterClose(s, before, a.i, c);
    }
  }
}
