/** What a sender of the authorization-code grant returns, and which step of the run gave it that. */
module OAuthOutcomes {
  import opened Common
  import opened TokenStore
  import opened OAuthFlow

  /** More than 30 seconds, in nanoseconds, before it expires, or it does not expire. */
  predicate FreshAt(tok: Token, now: int)
  {
    tok.access != "" && (tok.expiry.None? || tok.expiry.value - now > 30_000_000_000)
  }

  /** The step reads the cache. */
  predicate Reads(a: Action)
  {
    a.FirstRead? || a.Reread?
  }

  function ReadBy(t: State, a: Action): Option<Token>
    requires a.i < |t.senders| && Reads(a)
  {
    t.cache.Read(t.senders[a.i].key, a.readable)
  }

  /** Step a, taken in state t, gives its sender this to return. */
  ghost predicate StepGives(t: State, a: Action, out: Outcome)
    requires a.i < |t.senders|
  {
    match out
    case Bearer(b) =>
      (Reads(a) && ReadBy(t, a).Some? && ReadBy(t, a).value.access == b && FreshAt(ReadBy(t, a).value, a.now)) ||
      (a.Reply? && a.access == b && b != "")
    case NotSignedIn => Reads(a) && ReadBy(t, a).None?
    case SessionExpired =>
      a.Reread? && ReadBy(t, a).Some? && !FreshAt(ReadBy(t, a).value, a.now) && ReadBy(t, a).value.refresh == ""
    case Revoked =>
      a.Refuse? && a.code in ["invalid_grant", "invalid_client", "unauthorized_client", "access_denied"]
    case RefreshFailed =>
      a.ReplyLost? || (a.Unreachable? &&
        a.reported !in [Some("invalid_grant"), Some("invalid_client"), Some("unauthorized_client"), Some("access_denied")])
  }

  /** What a sender in this phase is bound to return. */
  function BoundTo(p: Phase): Option<Outcome>
  {
    match p
    case Commit(minted, _) => Some(Bearer(minted.access))
    case Discard(cause, _) => Some(if cause.Refused? then Revoked else SessionExpired)
    case Release(out) => Some(out)
    case Done(out) => Some(out)
    case _ => None
  }

  ghost predicate GivenAt(s: State, run: seq<Action>, n: nat, i: nat, out: Outcome)
  {
    n < |run| && run[n].i == i && Legal(s, run[..n]) && i < |After(s, run[..n]).senders| &&
    StepGives(After(s, run[..n]), run[n], out)
  }

  lemma FreshIsUsable(tok: Token, now: int)
    ensures FreshAt(tok, now) <==> Usable(Some(tok), now)
  {
  }

  lemma StepBinds(t: State, a: Action, out: Outcome)
    requires Enabled(t, a) && BoundTo(Apply(t, a).senders[a.i].phase) == Some(out)
    ensures BoundTo(t.senders[a.i].phase) == Some(out) || StepGives(t, a, out)
  {
    if Reads(a) && ReadBy(t, a).Some? {
      FreshIsUsable(ReadBy(t, a).value, a.now);
    }
  }

  /** And the other way round: a step that gives an outcome settles it, a first read without the lock. */
  lemma GivenIsBound(t: State, a: Action, out: Outcome)
    requires Enabled(t, a) && StepGives(t, a, out)
    ensures BoundTo(Apply(t, a).senders[a.i].phase) == Some(out)
    ensures a.FirstRead? ==> Apply(t, a).senders[a.i].phase == Done(out)
  {
    if Reads(a) && ReadBy(t, a).Some? {
      FreshIsUsable(ReadBy(t, a).value, a.now);
    }
  }

  /** The steps of a run without its last one. */
  lemma GivenBefore(s: State, run: seq<Action>, n: nat, i: nat, out: Outcome)
    requires run != [] && GivenAt(s, run[..|run| - 1], n, i, out)
    ensures GivenAt(s, run, n, i, out)
  {
    assert run[..|run| - 1][..n] == run[..n];
  }

  /**
   * In every run, whatever a sender returns or is bound to return was given to it by a step of its own: a bearer is
   * the access token of a fresh cached token it read, or of the provider's answer, and each error has its cause.
   */
  lemma {:induction false} OutcomeHasCause(s: State, run: seq<Action>, i: nat, out: Outcome)
    requires Initial(s) && Legal(s, run)
    requires i < |After(s, run).senders| && BoundTo(After(s, run).senders[i].phase) == Some(out)
    ensures exists n: nat :: GivenAt(s, run, n, i, out)
    decreases |run|
  {
    if run != [] {
      Snoc(s, run);
      var before, last := run[..|run| - 1], run[|run| - 1];
      var t := After(s, before);
      StepMovesOne(t, last);
      if last.i == i {
        StepBinds(t, last, out);
      }
      if last.i == i && StepGives(t, last, out) {
        assert GivenAt(s, run, |run| - 1, i, out);
      } else {
        OutcomeHasCause(s, before, i, out);
        var n: nat :| GivenAt(s, before, n, i, out);
        GivenBefore(s, run, n, i, out);
      }
    }
  }

  // ---- What is presented, and what is stored --------------------------------

  /** The token a sender refreshes. */
  function Refreshes(p: Phase): Option<Token>
  {
    match p
    case Refresh(tok) => Some(tok)
    case Await(tok) => Some(tok)
    case Commit(_, stale) => Some(stale)
    case _ => None
  }

  /** Step n re-read this token under the lock, found it no longer fresh, and it has a refresh token. */
  ghost predicate StaleAt(s: State, run: seq<Action>, n: nat, i: nat, tok: Token)
  {
    n < |run| && run[n].i == i && run[n].Reread? && Legal(s, run[..n]) && i < |After(s, run[..n]).senders| &&
    ReadBy(After(s, run[..n]), run[n]) == Some(tok) && !FreshAt(tok, run[n].now) && tok.refresh != ""
  }

  /** A sender refreshes nothing but a token it has re-read under the lock and found stale. */
  lemma {:induction false} RefreshHasCause(s: State, run: seq<Action>, i: nat, tok: Token)
    requires Initial(s) && Legal(s, run)
    requires i < |After(s, run).senders| && Refreshes(After(s, run).senders[i].phase) == Some(tok)
    ensures exists n: nat :: StaleAt(s, run, n, i, tok)
    decreases |run|
  {
    if run != [] {
      Snoc(s, run);
      var before, last := run[..|run| - 1], run[|run| - 1];
      var t := After(s, before);
      StepMovesOne(t, last);
      if last.i == i && last.Reread? {
        FreshIsUsable(tok, last.now);
        assert StaleAt(s, run, |run| - 1, i, tok);
      } else {
        RefreshHasCause(s, before, i, tok);
        var n: nat :| StaleAt(s, before, n, i, tok);
        assert before[..n] == run[..n];
        assert StaleAt(s, run, n, i, tok);
      }
    }
  }

  /** Step n is the provider's answer with this token in it; an answer without a refresh token keeps the one presented. */
  predicate AnsweredAt(run: seq<Action>, n: nat, i: nat, minted: Token, stale: Token)
  {
    n < |run| && run[n].i == i && run[n].Reply? && minted.access == run[n].access && minted.expiry == run[n].expiry &&
    minted.refresh == if run[n].refresh == "" then stale.refresh else run[n].refresh
  }

  /** What a sender stores is the provider's answer to the token it presented. */
  lemma {:induction false} StoredIsTheAnswer(s: State, run: seq<Action>, i: nat)
    requires Initial(s) && Legal(s, run)
    requires i < |After(s, run).senders| && After(s, run).senders[i].phase.Commit?
    ensures var p := After(s, run).senders[i].phase; exists n: nat :: AnsweredAt(run, n, i, p.minted, p.stale)
    decreases |run|
  {
    if run != [] {
      Snoc(s, run);
      var before, last := run[..|run| - 1], run[|run| - 1];
      var p := After(s, run).senders[i].phase;
      StepMovesOne(After(s, before), last);
      if last.i == i {
        assert AnsweredAt(run, |run| - 1, i, p.minted, p.stale);
      } else {
        StoredIsTheAnswer(s, before, i);
        var n: nat :| AnsweredAt(before, n, i, p.minted, p.stale);
        assert AnsweredAt(run, n, i, p.minted, p.stale);
      }
    }
  }

  /** And that token is the one in the cache until the answer is stored. */
  lemma RefreshedIsCached(s: State, run: seq<Action>, i: nat, tok: Token)
    requires Initial(s) && Legal(s, run)
    requires i < |After(s, run).senders| && Refreshes(After(s, run).senders[i].phase) == Some(tok)
    ensures After(s, run).cache.Visible(After(s, run).senders[i].key) == Some(tok)
  {
    InitialInv(s, true);
    RunKeepsInv(s, run);
    assert SenderOk(After(s, run), i);
  }

  /** Runs leave nothing out: in each phase every answer of clock, keychain, network and provider is a legal step. */
  lemma NothingIsRuledOut(t: State, i: nat, now: int, yes: bool, access: string, refresh: string, expiry: Option<int>,
                          code: Option<string>)
    requires i < |t.senders|
    ensures var sender := t.senders[i];
      match sender.phase
      case Start => Enabled(t, FirstRead(i, now, yes))
      case WantLock => sender.key !in t.holder ==> Enabled(t, Acquire(i))
      case Locked => Enabled(t, Reread(i, now, yes))
      case Refresh(_) => Enabled(t, Present(i))
      case Await(tok) =>
        (access != "" && (refresh == "" || refresh == tok.refresh || (sender.key, refresh) !in t.issued) ==>
          Enabled(t, Reply(i, access, refresh, expiry))) &&
        (refresh != "" && refresh != tok.refresh && (sender.key, refresh) !in t.issued ==>
          Enabled(t, ReplyLost(i, refresh))) &&
        (if code.Some? && code.value in ["invalid_grant", "invalid_client", "unauthorized_client", "access_denied"]
         then Enabled(t, Refuse(i, code.value)) else Enabled(t, Unreachable(i, code)))
      case Commit(_, _) => Enabled(t, Store(i, yes))
      case Discard(_, _) => Enabled(t, Forget(i, yes))
      case Release(_) => Enabled(t, Unlock(i))
      case Done(_) => forall a: Action :: Enabled(t, a) ==> a.i != i
  {
  }

  // ---- What was exchanged ---------------------------------------------------

  /** In state t the step is an answer by which the provider exchanges this grant for another, lost or not. */
  ghost predicate Exchanges(t: State, a: Action, g: Grant)
  {
    (a.Reply? || a.ReplyLost?) && a.i < |t.senders| && t.senders[a.i].phase.Await? &&
    g == (t.senders[a.i].key, t.senders[a.i].phase.tok.refresh) &&
    a.refresh != "" && a.refresh != t.senders[a.i].phase.tok.refresh
  }

  ghost predicate ExchangedAt(s: State, run: seq<Action>, n: nat, g: Grant)
  {
    n < |run| && Legal(s, run[..n]) && Exchanges(After(s, run[..n]), run[n], g)
  }

  lemma StepExchanges(t: State, a: Action, g: Grant)
    requires Enabled(t, a)
    ensures g in Apply(t, a).rotated <==> g in t.rotated || Exchanges(t, a, g)
    ensures g in Apply(t, a).lost <==> g in t.lost || (Exchanges(t, a, g) && a.ReplyLost?)
  {
  }

  /** Some step of the run exchanges the grant; with `unheard`, one whose answer is lost. */
  ghost predicate ExchangedIn(s: State, run: seq<Action>, g: Grant, unheard: bool)
  {
    exists n: nat :: ExchangedAt(s, run, n, g) && (unheard ==> run[n].ReplyLost?)
  }

  lemma ExchangedInNext(s: State, run: seq<Action>, g: Grant, unheard: bool)
    requires run != [] && Legal(s, run) && Legal(s, run[..|run| - 1])
    ensures var before, last := run[..|run| - 1], run[|run| - 1];
      ExchangedIn(s, run, g, unheard) <==>
        ExchangedIn(s, before, g, unheard) || (Exchanges(After(s, before), last, g) && (unheard ==> last.ReplyLost?))
  {
    var before := run[..|run| - 1];
    assert ExchangedAt(s, run, |before|, g) <==> Exchanges(After(s, before), run[|run| - 1], g);
    forall n: nat | n < |before| ensures ExchangedAt(s, run, n, g) <==> ExchangedAt(s, before, n, g) {
      assert before[..n] == run[..n];
    }
  }

  /** The provider's books hold exactly the grants that answers of the run exchanged, and which of these were lost. */
  lemma {:induction false} BooksAreTheRun(s: State, run: seq<Action>, g: Grant)
    requires Initial(s) && Legal(s, run)
    ensures g in After(s, run).rotated <==> ExchangedIn(s, run, g, false)
    ensures g in After(s, run).lost <==> ExchangedIn(s, run, g, true)
    decreases |run|
  {
    if run != [] {
      Snoc(s, run);
      var before := run[..|run| - 1];
      StepExchanges(After(s, before), run[|run| - 1], g);
      BooksAreTheRun(s, before, g);
      ExchangedInNext(s, run, g, false);
      ExchangedInNext(s, run, g, true);
    }
  }

  /**
   * Stated on the steps alone: with every answer delivered, and a keychain that takes every delete or every write,
   * a refresh token is never presented after an answer that exchanged it.
   */
  lemma NothingExchangedIsPresented(s: State, run: seq<Action>, i: nat, n: nat)
    requires Initial(s) && Legal(s, run) && Enabled(After(s, run), Present(i))
    requires (Taken(run, true) || Taken(run, false)) && Delivered(run)
    ensures var sender := After(s, run).senders[i]; !ExchangedAt(s, run, n, (sender.key, sender.phase.tok.refresh))
  {
    var sender := After(s, run).senders[i];
    NeverReplaysASpentGrant(s, run, i);
    BooksAreTheRun(s, run, (sender.key, sender.phase.tok.refresh));
  }
}
