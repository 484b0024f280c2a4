/**
 * clientCredentialsToken as interleaved steps of any number of senders: read, lock, read again, mint,
 * store in memory only, unlock. Every clock reading is an argument of its step.
 */
module ClientCredentials {
  import opened Common
  import opened TokenStore

  datatype Phase =
    | Start
    | WantLock
    | Locked
    | Fetching
    | Storing(tok: Token)
    | Leaving(out: Option<string>)
    | Done(out: Option<string>)

  /** A sender returns an access token, or None when none could be fetched. */
  datatype Sender = Sender(key: Key, phase: Phase)

  datatype State = State(cache: Cache, holder: map<Key, nat>, senders: seq<Sender>)

  datatype Action =
    | FirstRead(i: nat, now: int)
    | Acquire(i: nat)
    | Reread(i: nat, now: int)
    | Mint(i: nat, tok: Token)
    | MintFails(i: nat)
    | Store(i: nat)
    | Unlock(i: nat)

  predicate Enabled(s: State, a: Action)
  {
    a.i < |s.senders| &&
    match a
    case FirstRead(i, _) => s.senders[i].phase.Start?
    case Acquire(i) => s.senders[i].phase.WantLock? && s.senders[i].key !in s.holder
    case Reread(i, _) => s.senders[i].phase.Locked?
    case Mint(i, _) => s.senders[i].phase.Fetching?
    case MintFails(i) => s.senders[i].phase.Fetching?
    case Store(i) => s.senders[i].phase.Storing?
    case Unlock(i) => s.senders[i].phase.Leaving?
  }

  function Enter(s: State, i: nat, phase: Phase): State
    requires i < |s.senders|
  {
    s.(senders := s.senders[i := s.senders[i].(phase := phase)])
  }

  function Apply(s: State, a: Action): State
    requires Enabled(s, a)
  {
    var key, phase := s.senders[a.i].key, s.senders[a.i].phase;
    match a
    case FirstRead(i, now) =>
      Enter(s.(cache := s.cache.Filled(key)), i,
            if Usable(s.cache.Visible(key), now) then Done(Some(s.cache.Visible(key).value.access)) else WantLock)
    case Acquire(i) => Enter(s.(holder := s.holder[key := i]), i, Locked)
    case Reread(i, now) =>
      Enter(s.(cache := s.cache.Filled(key)), i,
            if Usable(s.cache.Visible(key), now) then Leaving(Some(s.cache.Visible(key).value.access)) else Fetching)
    case Mint(i, tok) => Enter(s, i, Storing(tok))
    case MintFails(i) => Enter(s, i, Leaving(None))
    case Store(i) => Enter(s.(cache := s.cache.Stored(key, phase.tok, false)), i, Leaving(Some(phase.tok.access)))
    case Unlock(i) => Enter(s.(holder := s.holder - {key}), i, Done(phase.out))
  }

  ghost predicate Initial(s: State)
  {
    s.holder == map[] && forall i :: 0 <= i < |s.senders| ==> s.senders[i].phase.Start?
  }

  ghost predicate Legal(s: State, run: seq<Action>)
    decreases |run|
  {
    run == [] || (Enabled(s, run[0]) && Legal(Apply(s, run[0]), run[1..]))
  }

  ghost function After(s: State, run: seq<Action>): State
    requires Legal(s, run)
    decreases |run|
  {
    if run == [] then s else After(Apply(s, run[0]), run[1..])
  }

  // ---- One sender at a time -------------------------------------------------

  predicate Inside(p: Phase)
  {
    p.Locked? || p.Fetching? || p.Storing? || p.Leaving?
  }

  ghost predicate LocksMatch(s: State)
  {
    (forall i :: 0 <= i < |s.senders| && Inside(s.senders[i].phase) ==>
      s.senders[i].key in s.holder && s.holder[s.senders[i].key] == i) &&
    forall k :: k in s.holder ==>
      s.holder[k] < |s.senders| && s.senders[s.holder[k]].key == k && Inside(s.senders[s.holder[k]].phase)
  }

  lemma StepKeepsLocks(s: State, a: Action)
    requires LocksMatch(s) && Enabled(s, a)
    ensures LocksMatch(Apply(s, a))
  {
    var t := Apply(s, a);
    assert forall j :: 0 <= j < |s.senders| ==> t.senders[j].key == s.senders[j].key;
    assert forall j :: 0 <= j < |s.senders| && j != a.i ==> t.senders[j] == s.senders[j];
  }

  lemma {:induction false} RunKeepsLocks(s: State, run: seq<Action>)
    requires LocksMatch(s) && Legal(s, run)
    ensures LocksMatch(After(s, run))
    decreases |run|
  {
    if run != [] {
      StepKeepsLocks(s, run[0]);
      RunKeepsLocks(Apply(s, run[0]), run[1..]);
    }
  }

  // ---- One mint -------------------------------------------------------------

  /** Whoever is fetching or storing for this key has a token of its own in mind; the others read `tok`. */
  ghost predicate Served(s: State, key: Key, tok: Token)
  {
    (forall i :: 0 <= i < |s.senders| && s.senders[i].key == key ==>
      !s.senders[i].phase.Fetching? && (s.senders[i].phase.Storing? ==> s.senders[i].phase.tok == tok)) &&
    (s.cache.Visible(key) == Some(tok) || exists i :: 0 <= i < |s.senders| && StoringFor(s, i, key))
  }

  predicate StoringFor(s: State, i: nat, key: Key)
    requires i < |s.senders|
  {
    s.senders[i].key == key && s.senders[i].phase.Storing?
  }

  /** The token is usable at every clock reading of the run. */
  predicate UsableThroughout(run: seq<Action>, tok: Token)
  {
    forall n :: 0 <= n < |run| && (run[n].Reread? || run[n].FirstRead?) ==> Usable(Some(tok), run[n].now)
  }

  lemma MintServes(s: State, a: Action)
    requires LocksMatch(s) && Enabled(s, a) && a.Mint?
    ensures Served(Apply(s, a), s.senders[a.i].key, a.tok)
  {
    var t, key := Apply(s, a), s.senders[a.i].key;
    assert StoringFor(t, a.i, key);
    assert forall i :: 0 <= i < |s.senders| && i != a.i ==> t.senders[i] == s.senders[i];
    assert forall i :: 0 <= i < |s.senders| && s.senders[i].key == key && Inside(s.senders[i].phase) ==> i == a.i;
  }

  lemma StepKeepsServed(s: State, a: Action, key: Key, tok: Token)
    requires LocksMatch(s) && Enabled(s, a) && Served(s, key, tok)
    requires a.Reread? ==> Usable(Some(tok), a.now)
    ensures Served(Apply(s, a), key, tok) && !(a.Mint? && s.senders[a.i].key == key)
  {
    var t, own := Apply(s, a), s.senders[a.i];
    assert forall j :: 0 <= j < |s.senders| && j != a.i ==> t.senders[j] == s.senders[j];
    if a.Reread? && own.key == key {
      // Nobody else is inside, so nobody is storing and the cache already holds the token.
      forall j | 0 <= j < |s.senders| ensures !StoringFor(s, j, key) {
        assert Inside(s.senders[j].phase) && s.senders[j].key == key ==> j == a.i;
      }
    }
    if exists j :: 0 <= j < |s.senders| && StoringFor(s, j, key) {
      var j :| 0 <= j < |s.senders| && StoringFor(s, j, key);
      assert !(a.Store? && a.i == j) ==> StoringFor(t, j, key);
    }
  }

  lemma {:induction false} ServedRunMintsNothing(s: State, run: seq<Action>, key: Key, tok: Token, n: nat)
    requires LocksMatch(s) && Legal(s, run) && Served(s, key, tok) && UsableThroughout(run, tok)
    requires n < |run| && run[n].Mint?
    ensures run[n].i < |s.senders| && s.senders[run[n].i].key != key
    decreases |run|
  {
    StepKeepsServed(s, run[0], key, tok);
    if n > 0 {
      assert forall m :: 0 <= m < |run| - 1 ==> run[1..][m] == run[m + 1];
      StepKeepsLocks(s, run[0]);
      ServedRunMintsNothing(Apply(s, run[0]), run[1..], key, tok, n - 1);
      assert Apply(s, run[0]).senders[run[n].i].key == s.senders[run[n].i].key;
    }
  }

  /**
   * No stampede: once a token has been minted, however the senders of its key interleave, no second one is
   * minted while clock readings find it usable.
   */
  lemma OneMintServesAll(s: State, before: seq<Action>, mint: Action, after: seq<Action>, n: nat)
    requires Initial(s) && Legal(s, before) && mint.Mint? && Enabled(After(s, before), mint)
    requires Legal(Apply(After(s, before), mint), after) && UsableThroughout(after, mint.tok)
    requires n < |after| && after[n].Mint?
    ensures var t := After(s, before);
      after[n].i < |t.senders| && t.senders[after[n].i].key != t.senders[mint.i].key
  {
    RunKeepsLocks(s, before);
    var t := After(s, before);
    var u := Apply(t, mint);
    StepKeepsLocks(t, mint);
    MintServes(t, mint);
    ServedRunMintsNothing(u, after, t.senders[mint.i].key, mint.tok, n);
    assert u.senders[after[n].i].key == t.senders[after[n].i].key;
  }

  /** A machine-minted token is never written to the keychain. */
  lemma {:induction false} KeychainIsUntouched(s: State, run: seq<Action>)
    requires Legal(s, run)
    ensures After(s, run).cache.chain == s.cache.chain
    decreases |run|
  {
    if run != [] {
      KeychainIsUntouched(Apply(s, run[0]), run[1..]);
    }
  }

  // ---- What a sender returns ------------------------------------------------

  /** What a sender in this phase is bound to return. */
  function BoundTo(p: Phase): Option<Option<string>>
  {
    match p
    case Storing(tok) => Some(Some(tok.access))
    case Leaving(out) => Some(out)
    case Done(out) => Some(out)
    case _ => None
  }

  /** The cached token has this access token, and more than 30 seconds, in nanoseconds, or no expiry at all. */
  predicate FreshInCache(t: State, key: Key, access: string, now: int)
  {
    var tok := t.cache.Visible(key);
    tok.Some? && tok.value.access == access && access != "" &&
    (tok.value.expiry.None? || tok.value.expiry.value - now > 30_000_000_000)
  }

  /** Step a, taken in state t, gives its sender this to return. */
  ghost predicate StepGives(t: State, a: Action, out: Option<string>)
    requires a.i < |t.senders|
  {
    match out
    case None => a.MintFails?
    case Some(access) =>
      ((a.FirstRead? || a.Reread?) && FreshInCache(t, t.senders[a.i].key, access, a.now)) ||
      (a.Mint? && a.tok.access == access)
  }

  ghost predicate GivenAt(s: State, run: seq<Action>, n: nat, i: nat, out: Option<string>)
  {
    n < |run| && run[n].i == i && Legal(s, run[..n]) && i < |After(s, run[..n]).senders| &&
    StepGives(After(s, run[..n]), run[n], out)
  }

  lemma StepBinds(t: State, a: Action, out: Option<string>)
    requires Enabled(t, a) && BoundTo(Apply(t, a).senders[a.i].phase) == Some(out)
    ensures BoundTo(t.senders[a.i].phase) == Some(out) || StepGives(t, a, out)
  {
  }

  /** And the other way round: such a step settles what its sender returns. */
  lemma GivenIsBound(t: State, a: Action, out: Option<string>)
    requires Enabled(t, a) && StepGives(t, a, out)
    ensures BoundTo(Apply(t, a).senders[a.i].phase) == Some(out)
    ensures a.FirstRead? ==> Apply(t, a).senders[a.i].phase == Done(out)
  {
  }

  lemma {:induction false} Snoc(s: State, run: seq<Action>)
    requires run != [] && Legal(s, run)
    ensures var before := run[..|run| - 1]; var last := run[|run| - 1];
      Legal(s, before) && Enabled(After(s, before), last) && After(s, run) == Apply(After(s, before), last)
    decreases |run|
  {
    if |run| > 1 {
      Snoc(Apply(s, run[0]), run[1..]);
      assert run[1..][..|run| - 2] == run[..|run| - 1][1..];
    }
  }

  /**
   * In every run, what a sender returns was given to it by a step of its own: a fresh cached token it read, or the
   * token it minted; it returns none only when its own minting failed.
   */
  lemma {:induction false} OutcomeHasCause(s: State, run: seq<Action>, i: nat, out: Option<string>)
    requires Initial(s) && Legal(s, run)
    requires i < |After(s, run).senders| && BoundTo(After(s, run).senders[i].phase) == Some(out)
    ensures exists n: nat :: GivenAt(s, run, n, i, out)
    decreases |run|
  {
    if run != [] {
      Snoc(s, run);
      var before, last := run[..|run| - 1], run[|run| - 1];
      var t := After(s, before);
      assert last.i != i ==> After(s, run).senders[i] == t.senders[i];
      if last.i == i {
        StepBinds(t, last, out);
      }
      if last.i == i && StepGives(t, last, out) {
        assert GivenAt(s, run, |run| - 1, i, out);
      } else {
        OutcomeHasCause(s, before, i, out);
        var n: nat :| GivenAt(s, before, n, i, out);
        assert before[..n] == run[..n];
        assert GivenAt(s, run, n, i, out);
      }
    }
  }

  /** A step a sender can take now, unless it waits for the lock or has returned. */
  function NextOf(p: Phase, i: nat): Action
  {
    match p
    case Start => FirstRead(i, 0)
    case WantLock => Acquire(i)
    case Locked => Reread(i, 0)
    case Fetching => MintFails(i)
    case Storing(_) => Store(i)
    case Leaving(_) => Unlock(i)
    case Done(_) => Unlock(i)
  }

  /** While a sender has not returned, some sender can move. */
  lemma NoDeadlock(s: State, run: seq<Action>, i: nat)
    requires Initial(s) && Legal(s, run) && i < |After(s, run).senders| && !After(s, run).senders[i].phase.Done?
    ensures exists a :: Enabled(After(s, run), a)
  {
    RunKeepsLocks(s, run);
    var t := After(s, run);
    var key := t.senders[i].key;
    var j := if t.senders[i].phase.WantLock? && key in t.holder then t.holder[key] else i;
    assert Enabled(t, NextOf(t.senders[j].phase, j));
  }
}
