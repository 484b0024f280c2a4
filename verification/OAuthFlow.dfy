/**
 * authCodeToken as interleaved steps of any number of senders. Each action is
 * one critical section of the source: a cache access under the cache mutex, the
 * acquisition or release of a per-key lock, or one half of a provider round trip.
 * Every clock reading is an argument of the action, so clocks are arbitrary.
 */
module OAuthFlow {
  import opened Common
  import opened TokenStore

  datatype Outcome = Bearer(access: string) | NotSignedIn | SessionExpired | Revoked | RefreshFailed

  datatype Cause = Refused | NoRefreshToken

  datatype Phase =
    | Start
    | WantLock
    | Locked
    | Refresh(tok: Token)
    | Await(tok: Token)
    | Commit(minted: Token, stale: Token)
    | Discard(cause: Cause, tok: Token)
    | Release(out: Outcome)
    | Done(out: Outcome)

  datatype Sender = Sender(key: Key, phase: Phase)

  /** A refresh token of one sign-in. */
  type Grant = (Key, string)

  /**
   * `holder` is the per-key lock table. The last three fields are history: every
   * refresh token the provider or the initial cache ever held, those the provider
   * has exchanged for a different one, and those among them whose answer was lost.
   */
  datatype State = State(
    cache: Cache, holder: map<Key, nat>, senders: seq<Sender>,
    issued: set<Grant>, rotated: set<Grant>, lost: set<Grant>)

  datatype Action =
    | FirstRead(i: nat, now: int, readable: bool)
    | Acquire(i: nat)
    | Reread(i: nat, now: int, readable: bool)
    | Present(i: nat)
    | Reply(i: nat, access: string, refresh: string, expiry: Option<int>)
    | Refuse(i: nat, code: string)
    | Unreachable(i: nat, reported: Option<string>)
    | ReplyLost(i: nat, refresh: string)
    | Store(i: nat, writable: bool)
    | Forget(i: nat, deletable: bool)
    | Unlock(i: nat)

  /** The error codes of section 5.2 of RFC 6749 by which a provider says no; None is no answer at all. */
  predicate RefreshRefused(code: Option<string>)
  {
    code.Some? && code.value in REFUSALS
  }

  const REFUSALS := ["invalid_grant", "invalid_client", "unauthorized_client", "access_denied"]

  /** Does a token response carrying `refresh` replace the current token? An empty one means "unchanged". */
  predicate Rotates(current: string, refresh: string)
  {
    refresh != "" && refresh != current
  }

  ghost predicate Enabled(s: State, a: Action)
  {
    a.i < |s.senders| &&
    var key, phase := s.senders[a.i].key, s.senders[a.i].phase;
    match a
    case FirstRead(_, _, _) => phase.Start?
    case Acquire(_) => phase.WantLock? && key !in s.holder
    case Reread(_, _, _) => phase.Locked?
    case Present(_) => phase.Refresh?
    // A token response carries an access token, and a rotated refresh token is a new one.
    case Reply(_, access, refresh, _) =>
      phase.Await? && access != "" &&
      (Rotates(phase.tok.refresh, refresh) ==> (key, refresh) !in s.issued)
    case Refuse(_, code) => phase.Await? && RefreshRefused(Some(code))
    case Unreachable(_, reported) => phase.Await? && !RefreshRefused(reported)
    case ReplyLost(_, refresh) =>
      phase.Await? && Rotates(phase.tok.refresh, refresh) && (key, refresh) !in s.issued
    case Store(_, _) => phase.Commit?
    case Forget(_, _) => phase.Discard?
    case Unlock(_) => phase.Release?
  }

  function Enter(s: State, i: nat, phase: Phase): State
    requires i < |s.senders|
  {
    s.(senders := s.senders[i := s.senders[i].(phase := phase)])
  }

  /** The re-read under the lock decides: return, refresh, or give up. */
  function AfterReread(tok: Option<Token>, now: int): Phase
  {
    if tok.None? then Release(NotSignedIn)
    else if Usable(tok, now) then Release(Bearer(tok.value.access))
    else if tok.value.refresh == "" then Discard(NoRefreshToken, tok.value)
    else Refresh(tok.value)
  }

  ghost function Apply(s: State, a: Action): State
    requires Enabled(s, a)
  {
    var i, key, phase := a.i, s.senders[a.i].key, s.senders[a.i].phase;
    match a
    case FirstRead(_, now, readable) =>
      var tok := s.cache.Read(key, readable);
      Enter(s.(cache := s.cache.AfterRead(key, readable)), i,
            if tok.None? then Done(NotSignedIn)
            else if Usable(tok, now) then Done(Bearer(tok.value.access))
            else WantLock)
    case Acquire(_) => Enter(s.(holder := s.holder[key := i]), i, Locked)
    case Reread(_, now, readable) =>
      Enter(s.(cache := s.cache.AfterRead(key, readable)), i, AfterReread(s.cache.Read(key, readable), now))
    case Present(_) => Enter(s, i, Await(phase.tok))
    case Reply(_, access, refresh, expiry) =>
      var minted := Token(access, if refresh == "" then phase.tok.refresh else refresh, expiry);
      Enter(if Rotates(phase.tok.refresh, refresh) then Exchanged(s, key, phase.tok.refresh, refresh) else s,
            i, Commit(minted, phase.tok))
    case Refuse(_, _) => Enter(s, i, Discard(Refused, phase.tok))
    case Unreachable(_, _) => Enter(s, i, Release(RefreshFailed))
    case ReplyLost(_, refresh) =>
      var t := Exchanged(s, key, phase.tok.refresh, refresh);
      Enter(t.(lost := t.lost + {(key, phase.tok.refresh)}), i, Release(RefreshFailed))
    case Store(_, writable) =>
      Enter(s.(cache := s.cache.Stored(key, phase.minted, writable)), i, Release(Bearer(phase.minted.access)))
    case Forget(_, deletable) =>
      Enter(s.(cache := s.cache.Dropped(key, deletable)), i,
            Release(if phase.cause.Refused? then Revoked else SessionExpired))
    case Unlock(_) => Enter(s.(holder := s.holder - {key}), i, Done(phase.out))
  }

  /** The provider's own books: `spent` is exchanged and `next` issued. */
  function Exchanged(s: State, key: Key, spent: string, next: string): State
  {
    s.(issued := s.issued + {(key, next)}, rotated := s.rotated + {(key, spent)})
  }

  /** Any memory and any keychain or none, any number of senders on any keys, nothing held, nothing exchanged yet. */
  ghost predicate Initial(s: State)
  {
    s.holder == map[] && s.rotated == {} && s.lost == {} &&
    (forall i :: 0 <= i < |s.senders| ==> s.senders[i].phase == Start) &&
    (forall k :: k in s.cache.mem ==> (k, s.cache.mem[k].refresh) in s.issued) &&
    forall k :: s.cache.Kept(k) ==> (k, s.cache.chain.value[k].refresh) in s.issued
  }

  ghost predicate Legal(s: State, run: seq<Action>)
    decreases |run|
  {
    run == [] || (Enabled(s, run[0]) && Legal(Apply(s, run[0]), run[1..]))
  }

  ghost function After(s: State, run: seq<Action>): State
    requires Legal(s, run)
    decreases |run|
  {
    if run == [] then s else After(Apply(s, run[0]), run[1..])
  }

  /** The phases between lockKey and its deferred unlock. */
  predicate InSection(p: Phase)
  {
    !p.Start? && !p.WantLock? && !p.Done?
  }

  /** The token a phase is working on, which must still be the cached one. */
  function Working(p: Phase): Option<Token>
  {
    match p
    case Refresh(tok) => Some(tok)
    case Await(tok) => Some(tok)
    case Commit(_, stale) => Some(stale)
    case Discard(_, tok) => Some(tok)
    case _ => None
  }

  ghost predicate LocksMatch(s: State)
  {
    (forall i :: 0 <= i < |s.senders| && InSection(s.senders[i].phase)
       ==> s.senders[i].key in s.holder && s.holder[s.senders[i].key] == i) &&
    forall k :: k in s.holder ==>
      s.holder[k] < |s.senders| && s.senders[s.holder[k]].key == k && InSection(s.senders[s.holder[k]].phase)
  }

  ghost predicate Committing(s: State, k: Key)
  {
    k in s.holder && s.holder[k] < |s.senders| && s.senders[s.holder[k]].phase.Commit?
  }

  /** A refresh token that may be presented: never exchanged, or exchanged in an answer that was lost. */
  ghost predicate Fresh(s: State, g: Grant)
  {
    g in s.issued && (g in s.rotated ==> g in s.lost)
  }

  ghost predicate SenderOk(s: State, i: nat)
    requires i < |s.senders|
  {
    var key, p := s.senders[i].key, s.senders[i].phase;
    (Working(p).Some? ==> s.cache.Visible(key) == Working(p)) &&
    (p.Discard? ==> (p.cause.NoRefreshToken? <==> p.tok.refresh == "")) &&
    (p.Refresh? || p.Await? || p.Commit? ==> Working(p).value.refresh != "") &&
    (p.Commit? ==> p.minted.access != "")
  }

  ghost predicate Inv(s: State)
  {
    LocksMatch(s) && forall i :: 0 <= i < |s.senders| ==> SenderOk(s, i)
  }

  ghost predicate MintedFresh(s: State, i: nat)
    requires i < |s.senders|
  {
    s.senders[i].phase.Commit? ==> Fresh(s, (s.senders[i].key, s.senders[i].phase.minted.refresh))
  }

  /** What is read is fresh. */
  ghost predicate SeenFresh(s: State, k: Key)
  {
    s.cache.Visible(k).Some? ==> Fresh(s, (k, s.cache.Visible(k).value.refresh))
  }

  /** The keychain's own copy is fresh. */
  ghost predicate CopyFresh(s: State, k: Key)
  {
    s.cache.Kept(k) ==> Fresh(s, (k, s.cache.chain.value[k].refresh))
  }

  /**
   * The provider's books against the cache. When the keychain may refuse deletes its own copies matter
   * too; a committing sender is about to replace both.
   */
  ghost predicate Books(s: State, deletes: bool)
  {
    s.rotated <= s.issued && s.lost <= s.rotated &&
    (forall i :: 0 <= i < |s.senders| ==> MintedFresh(s, i)) &&
    forall k :: Committing(s, k) || (SeenFresh(s, k) && (deletes || CopyFresh(s, k)))
  }

  /** The keychain takes every delete, or it takes every write. */
  predicate TakenBy(a: Action, deletes: bool)
  {
    if deletes then a.Forget? ==> a.deletable else a.Store? ==> a.writable
  }

  predicate Taken(run: seq<Action>, deletes: bool)
  {
    forall n :: 0 <= n < |run| ==> TakenBy(run[n], deletes)
  }

  /** A step moves its own sender only. */
  lemma StepMovesOne(s: State, a: Action)
    requires Enabled(s, a)
    ensures var t := Apply(s, a);
      |t.senders| == |s.senders| && t.senders == s.senders[a.i := s.senders[a.i].(phase := t.senders[a.i].phase)]
  {
  }

  lemma LockingKeepsLocks(s: State, a: Action)
    requires Inv(s) && Enabled(s, a) && (a.Acquire? || a.Unlock?)
    ensures LocksMatch(Apply(s, a))
  {
    StepMovesOne(s, a);
  }

  lemma SameSection(s: State, t: State, i: nat)
    requires LocksMatch(s) && t.holder == s.holder && i < |s.senders| == |t.senders|
    requires t.senders == s.senders[i := s.senders[i].(phase := t.senders[i].phase)]
    requires InSection(t.senders[i].phase) == InSection(s.senders[i].phase)
    ensures LocksMatch(t)
  {
  }

  lemma StepKeepsLocks(s: State, a: Action)
    requires Inv(s) && Enabled(s, a)
    ensures LocksMatch(Apply(s, a))
  {
    if a.Acquire? || a.Unlock? {
      LockingKeepsLocks(s, a);
    } else {
      StepMovesOne(s, a);
      SameSection(s, Apply(s, a), a.i);
    }
  }

  /** How one step changes what is read for each key. */
  lemma StepVisible(s: State, a: Action, k: Key)
    requires Enabled(s, a)
    ensures var t := Apply(s, a); var sender := s.senders[a.i];
      t.cache.Visible(k) ==
        if a.Store? && k == sender.key then Some(sender.phase.minted)
        else if a.Forget? && k == sender.key then s.cache.Dropped(k, a.deletable).Visible(k)
        else s.cache.Visible(k)
  {
  }

  lemma StepKeepsSenders(s: State, a: Action, j: nat)
    requires Inv(s) && Enabled(s, a) && j < |s.senders|
    ensures SenderOk(Apply(s, a), j)
  {
    var t := Apply(s, a);
    var key := s.senders[j].key;
    assert t.senders[j].key == key;
    StepVisible(s, a, key);
    StepVisible(s, a, s.senders[a.i].key);
    if j != a.i {
      assert SenderOk(s, j) && SenderOk(s, a.i);
      if InSection(s.senders[j].phase) && InSection(s.senders[a.i].phase) {
        assert key != s.senders[a.i].key;
      }
    } else {
      assert SenderOk(s, j);
      assert s.senders[j].phase.Await? ==> !Committing(s, key);
    }
  }

  lemma StepKeepsInv(s: State, a: Action)
    requires Inv(s) && Enabled(s, a)
    ensures Inv(Apply(s, a))
  {
    StepKeepsLocks(s, a);
    forall j | 0 <= j < |Apply(s, a).senders| ensures SenderOk(Apply(s, a), j) {
      StepKeepsSenders(s, a, j);
    }
  }

  lemma {:induction false} RunKeepsInv(s: State, run: seq<Action>)
    requires Inv(s) && Legal(s, run)
    ensures Inv(After(s, run))
    decreases |run|
  {
    if run != [] {
      StepKeepsInv(s, run[0]);
      RunKeepsInv(Apply(s, run[0]), run[1..]);
    }
  }

  lemma InitialInv(s: State, deletes: bool)
    requires Initial(s)
    ensures Inv(s) && Books(s, deletes)
  {
  }

  /** The token a sender exchanges is the cached one, so it is fresh. */
  lemma WorkingIsFresh(s: State, deletes: bool, i: nat)
    requires Inv(s) && Books(s, deletes) && i < |s.senders| && s.senders[i].phase.Await?
    ensures Fresh(s, (s.senders[i].key, s.senders[i].phase.tok.refresh)) && !Committing(s, s.senders[i].key)
  {
    assert SenderOk(s, i);
    assert !Committing(s, s.senders[i].key);
    assert SeenFresh(s, s.senders[i].key);
  }

  /** Freshness outlives every step except the exchange of that very grant, which is then committed or lost. */
  lemma StepKeepsFresh(s: State, a: Action, deletes: bool, g: Grant)
    requires Inv(s) && Books(s, deletes) && Enabled(s, a) && Fresh(s, g)
    ensures (a.Reply? && s.senders[a.i].key == g.0) || Fresh(Apply(s, a), g)
  {
  }

  lemma StepKeepsTotals(s: State, a: Action, deletes: bool)
    requires Inv(s) && Books(s, deletes) && Enabled(s, a)
    ensures var t := Apply(s, a); t.rotated <= t.issued && t.lost <= t.rotated
  {
    if a.Reply? || a.ReplyLost? {
      WorkingIsFresh(s, deletes, a.i);
    }
  }

  lemma StepKeepsMinted(s: State, a: Action, deletes: bool, j: nat)
    requires Inv(s) && Books(s, deletes) && Enabled(s, a) && j < |s.senders|
    ensures |Apply(s, a).senders| == |s.senders| && MintedFresh(Apply(s, a), j)
  {
    StepMovesOne(s, a);
    assert MintedFresh(s, j);
    if a.i == j {
      if a.Reply? {
        WorkingIsFresh(s, deletes, j);
      }
    } else if s.senders[j].phase.Commit? {
      StepKeepsFresh(s, a, deletes, (s.senders[j].key, s.senders[j].phase.minted.refresh));
    }
  }

  lemma StepKeepsCached(s: State, a: Action, deletes: bool, k: Key)
    requires Inv(s) && Books(s, deletes) && Enabled(s, a) && TakenBy(a, deletes) && !Committing(Apply(s, a), k)
    ensures SeenFresh(Apply(s, a), k) && (deletes || CopyFresh(Apply(s, a), k))
  {
    var t := Apply(s, a);
    StepVisible(s, a, k);
    StepCopies(s, a, k);
    StepMovesOne(s, a);
    StepKeepsLocks(s, a);
    if s.senders[a.i].key == k && a.Store? {
      assert MintedFresh(s, a.i);
    } else {
      assert !(a.Reply? && s.senders[a.i].key == k) && !Committing(s, k);
      StepKeepsSeen(s, a, deletes, k);
    }
  }

  /** A step that does not touch the key's grants otherwise keeps what is read and kept fresh. */
  lemma StepKeepsSeen(s: State, a: Action, deletes: bool, k: Key)
    requires Inv(s) && Books(s, deletes) && Enabled(s, a) && !Committing(s, k)
    requires s.senders[a.i].key == k ==> !a.Reply?
    ensures s.cache.Visible(k).Some? ==> Fresh(Apply(s, a), (k, s.cache.Visible(k).value.refresh))
    ensures !deletes && s.cache.Kept(k) ==> Fresh(Apply(s, a), (k, s.cache.chain.value[k].refresh))
  {
    if s.cache.Visible(k).Some? {
      StepKeepsFresh(s, a, deletes, (k, s.cache.Visible(k).value.refresh));
    }
    if !deletes && s.cache.Kept(k) {
      StepKeepsFresh(s, a, deletes, (k, s.cache.chain.value[k].refresh));
    }
  }

  /** How one step changes the keychain's copy of each key. */
  lemma StepCopies(s: State, a: Action, k: Key)
    requires Enabled(s, a)
    ensures var c, d := s.cache, Apply(s, a).cache; var sender := s.senders[a.i];
      if a.Store? && a.writable && k == sender.key then
        d.Kept(k) ==> d.chain.value[k] == sender.phase.minted
      else if a.Forget? && a.deletable && k == sender.key then !d.Kept(k)
      else (d.Kept(k) <==> c.Kept(k)) && (c.Kept(k) ==> d.chain.value[k] == c.chain.value[k])
  {
  }

  lemma StepKeepsBooks(s: State, a: Action, deletes: bool)
    requires Inv(s) && Books(s, deletes) && Enabled(s, a) && TakenBy(a, deletes)
    ensures Books(Apply(s, a), deletes)
  {
    var t := Apply(s, a);
    StepKeepsTotals(s, a, deletes);
    StepMovesOne(s, a);
    forall j | 0 <= j < |t.senders| ensures MintedFresh(t, j) {
      StepKeepsMinted(s, a, deletes, j);
    }
    forall k | !Committing(t, k) ensures SeenFresh(t, k) && (deletes || CopyFresh(t, k)) {
      StepKeepsCached(s, a, deletes, k);
    }
  }

  lemma {:induction false} RunKeepsBooks(s: State, run: seq<Action>, deletes: bool)
    requires Inv(s) && Books(s, deletes) && Legal(s, run) && Taken(run, deletes)
    ensures Inv(After(s, run)) && Books(After(s, run), deletes)
    decreases |run|
  {
    if run != [] {
      StepKeepsInv(s, run[0]);
      StepKeepsBooks(s, run[0], deletes);
      assert forall n :: 0 <= n < |run[1..]| ==> run[1..][n] == run[n + 1];
      RunKeepsBooks(Apply(s, run[0]), run[1..], deletes);
    }
  }

  /** Single flight: two senders of one sign-in are never inside the refresh section together. */
  lemma SingleFlight(s: State, run: seq<Action>, i: nat, j: nat)
    requires Initial(s) && Legal(s, run)
    requires var t := After(s, run);
      i < |t.senders| && j < |t.senders| && t.senders[i].key == t.senders[j].key &&
      InSection(t.senders[i].phase) && InSection(t.senders[j].phase)
    ensures i == j
  {
    InitialInv(s, true);
    RunKeepsInv(s, run);
  }

  /** Whenever a refresh token is presented it is the one cached for that sign-in. */
  lemma PresentsTheCachedGrant(s: State, run: seq<Action>, i: nat)
    requires Initial(s) && Legal(s, run) && Enabled(After(s, run), Present(i))
    ensures var t := After(s, run); var tok := t.senders[i].phase.tok;
      t.cache.Visible(t.senders[i].key) == Some(tok) && tok.refresh != ""
  {
    InitialInv(s, true);
    RunKeepsInv(s, run);
    assert SenderOk(After(s, run), i);
  }

  /**
   * When the keychain takes every delete, or takes every write, a refresh token that is presented has
   * been exchanged before exactly when the answer to that exchange was lost on the way back.
   */
  lemma ReplaysOnlyAfterLostReplies(s: State, run: seq<Action>, i: nat)
    requires Initial(s) && Legal(s, run) && Enabled(After(s, run), Present(i))
    requires Taken(run, true) || Taken(run, false)
    ensures var t := After(s, run); var grant := (t.senders[i].key, t.senders[i].phase.tok.refresh);
      grant in t.rotated <==> grant in t.lost
  {
    var deletes, t := Taken(run, true), After(s, run);
    InitialInv(s, deletes);
    RunKeepsBooks(s, run, deletes);
    assert SenderOk(t, i);
    assert !Committing(t, t.senders[i].key);
    assert SeenFresh(t, t.senders[i].key);
  }

  /** Every answer of the provider arrives. */
  predicate Delivered(run: seq<Action>)
  {
    forall n :: 0 <= n < |run| ==> !run[n].ReplyLost?
  }

  lemma {:induction false} LossesComeFromLostReplies(s: State, run: seq<Action>)
    requires Legal(s, run) && Delivered(run)
    ensures After(s, run).lost == s.lost
    decreases |run|
  {
    if run != [] {
      assert forall n :: 0 <= n < |run[1..]| ==> run[1..][n] == run[n + 1];
      LossesComeFromLostReplies(Apply(s, run[0]), run[1..]);
    }
  }

  /** With every provider answer delivered as well, an exchanged refresh token is never presented again. */
  lemma NeverReplaysASpentGrant(s: State, run: seq<Action>, i: nat)
    requires Initial(s) && Legal(s, run) && Enabled(After(s, run), Present(i))
    requires (Taken(run, true) || Taken(run, false)) && Delivered(run)
    ensures var t := After(s, run); (t.senders[i].key, t.senders[i].phase.tok.refresh) !in t.rotated
  {
    ReplaysOnlyAfterLostReplies(s, run, i);
    LossesComeFromLostReplies(s, run);
  }

  // ---- The two families that fail without those conditions ------------------

  /** n senders of one sign-in that is in the keychain and not in memory yet. */
  function Waiting(key: Key, tok: Token, n: nat): State
  {
    State(Cache(map[], Some(map[key := tok])), map[], seq(n, _ => Sender(key, Start)), {(key, tok.refresh)}, {}, {})
  }

  function Approaching(i: nat, now: int): seq<Action>
  {
    [FirstRead(i, now, true), Acquire(i), Reread(i, now, true)]
  }

  /** A free lock and an unusable token in the cache: the sender gets as far as presenting it. */
  lemma Approaches(s: State, i: nat, tok: Token, now: int)
    requires i < |s.senders| && s.senders[i].phase == Start && s.senders[i].key !in s.holder
    requires s.cache.Visible(s.senders[i].key) == Some(tok) && !Usable(Some(tok), now) && tok.refresh != ""
    ensures var key, run := s.senders[i].key, Approaching(i, now);
      Legal(s, run) &&
      After(s, run) == Enter(s.(cache := s.cache.Filled(key), holder := s.holder[key := i]), i, Refresh(tok))
  {
    var key := s.senders[i].key;
    var read := s.(cache := s.cache.Filled(key));
    var s1 := Enter(read, i, WantLock);
    var s2 := Enter(read.(holder := s.holder[key := i]), i, Locked);
    assert Enabled(s, FirstRead(i, now, true)) && Apply(s, FirstRead(i, now, true)) == s1;
    WaitsForTheLock(s1, s2, i);
    RereadsTheSame(s2, i, tok, now);
    var r2 := [Reread(i, now, true)] + [];
    var r1 := [Acquire(i)] + r2;
    LegalStep(s2, Reread(i, now, true), []);
    LegalStep(s1, Acquire(i), r2);
    LegalStep(s, FirstRead(i, now, true), r1);
    assert Approaching(i, now) == [FirstRead(i, now, true)] + r1;
  }

  lemma WaitsForTheLock(s: State, t: State, i: nat)
    requires i < |s.senders| && s.senders[i].phase == WantLock && s.senders[i].key !in s.holder
    requires t == Enter(s.(holder := s.holder[s.senders[i].key := i]), i, Locked)
    ensures Enabled(s, Acquire(i)) && Apply(s, Acquire(i)) == t
  {
  }

  lemma RereadsTheSame(s: State, i: nat, tok: Token, now: int)
    requires i < |s.senders| && s.senders[i].phase == Locked && !Usable(Some(tok), now) && tok.refresh != ""
    requires s.senders[i].key in s.cache.mem && s.cache.mem[s.senders[i].key] == tok
    ensures Enabled(s, Reread(i, now, true)) && Apply(s, Reread(i, now, true)) == Enter(s, i, Refresh(tok))
  {
    var key := s.senders[i].key;
    assert s.cache.AfterRead(key, true) == s.cache && s.cache.Read(key, true) == Some(tok);
  }

  /** The exchange succeeds at the provider and its answer never arrives. */
  lemma LosesItsReply(s: State, i: nat, rotatedTo: string)
    requires i < |s.senders| && s.senders[i].phase.Refresh?
    requires var key := s.senders[i].key;
      Rotates(s.senders[i].phase.tok.refresh, rotatedTo) && (key, rotatedTo) !in s.issued
    ensures var key, tok := s.senders[i].key, s.senders[i].phase.tok;
      var run, t := [Present(i), ReplyLost(i, rotatedTo), Unlock(i)], Exchanged(s, key, tok.refresh, rotatedTo);
      Legal(s, run) && After(s, run) ==
        Enter(t.(lost := t.lost + {(key, tok.refresh)}, holder := s.holder - {key}), i, Done(RefreshFailed))
  {
    var key, tok := s.senders[i].key, s.senders[i].phase.tok;
    var t := Exchanged(s, key, tok.refresh, rotatedTo);
    var s1 := Enter(s, i, Await(tok));
    var s2 := Enter(t.(lost := t.lost + {(key, tok.refresh)}), i, Release(RefreshFailed));
    assert Apply(s, Present(i)) == s1 && Apply(s1, ReplyLost(i, rotatedTo)) == s2;
    var r2 := [Unlock(i)] + [];
    var r1 := [ReplyLost(i, rotatedTo)] + r2;
    LegalStep(s2, Unlock(i), []);
    LegalStep(s1, ReplyLost(i, rotatedTo), r2);
    LegalStep(s, Present(i), r1);
    assert [Present(i), ReplyLost(i, rotatedTo), Unlock(i)] == [Present(i)] + r1;
  }

  /** The exchange succeeds, and the keychain refuses to take the new token. */
  lemma StoresInMemoryOnly(s: State, i: nat, access: string, refresh: string, expiry: Option<int>)
    requires i < |s.senders| && s.senders[i].phase.Refresh? && access != ""
    requires Rotates(s.senders[i].phase.tok.refresh, refresh) && (s.senders[i].key, refresh) !in s.issued
    ensures var key, tok := s.senders[i].key, s.senders[i].phase.tok;
      var run := [Present(i), Reply(i, access, refresh, expiry), Store(i, false), Unlock(i)];
      var t := Exchanged(s, key, tok.refresh, refresh);
      Legal(s, run) && After(s, run) ==
        Enter(t.(cache := s.cache.(mem := s.cache.mem[key := Token(access, refresh, expiry)]),
                 holder := s.holder - {key}), i, Done(Bearer(access)))
  {
    var key, tok, minted := s.senders[i].key, s.senders[i].phase.tok, Token(access, refresh, expiry);
    var t := Exchanged(s, key, tok.refresh, refresh);
    var s1, s2 := Enter(s, i, Await(tok)), Enter(t, i, Commit(minted, tok));
    var s3 := Enter(t.(cache := s.cache.(mem := s.cache.mem[key := minted])), i, Release(Bearer(access)));
    assert Apply(s, Present(i)) == s1 && Apply(s1, Reply(i, access, refresh, expiry)) == s2;
    assert Apply(s2, Store(i, false)) == s3;
    var r3 := [Unlock(i)] + [];
    var r2 := [Store(i, false)] + r3;
    var r1 := [Reply(i, access, refresh, expiry)] + r2;
    LegalStep(s3, Unlock(i), []);
    LegalStep(s2, Store(i, false), r3);
    LegalStep(s1, Reply(i, access, refresh, expiry), r2);
    LegalStep(s, Present(i), r1);
    assert [Present(i), Reply(i, access, refresh, expiry), Store(i, false), Unlock(i)] == [Present(i)] + r1;
  }

  /** The provider refuses, and the keychain keeps its copy. */
  lemma DropsFromMemoryOnly(s: State, i: nat)
    requires i < |s.senders| && s.senders[i].phase.Refresh?
    ensures var key := s.senders[i].key;
      var run := [Present(i), Refuse(i, REFUSALS[0]), Forget(i, false), Unlock(i)];
      Legal(s, run) && After(s, run) ==
        Enter(s.(cache := s.cache.(mem := s.cache.mem - {key}), holder := s.holder - {key}), i, Done(Revoked))
  {
    var tok, code := s.senders[i].phase.tok, REFUSALS[0];
    var s1, s2 := Enter(s, i, Await(tok)), Enter(s, i, Discard(Refused, tok));
    assert Apply(s, Present(i)) == s1 && Apply(s1, Refuse(i, code)) == s2;
    ForgetsInMemoryOnly(s2, i);
    var r2 := [Forget(i, false), Unlock(i)];
    var r1 := [Refuse(i, code)] + r2;
    LegalStep(s1, Refuse(i, code), r2);
    LegalStep(s, Present(i), r1);
    assert [Present(i), Refuse(i, code), Forget(i, false), Unlock(i)] == [Present(i)] + r1;
  }

  lemma ForgetsInMemoryOnly(s: State, i: nat)
    requires i < |s.senders| && s.senders[i].phase.Discard? && s.senders[i].phase.cause.Refused?
    ensures var key := s.senders[i].key;
      var run := [Forget(i, false), Unlock(i)];
      Legal(s, run) && After(s, run) ==
        Enter(s.(cache := s.cache.(mem := s.cache.mem - {key}), holder := s.holder - {key}), i, Done(Revoked))
  {
    var key := s.senders[i].key;
    var s1 := Enter(s.(cache := s.cache.(mem := s.cache.mem - {key})), i, Release(Revoked));
    assert Apply(s, Forget(i, false)) == s1;
    LegalStep(s1, Unlock(i), []);
    LegalStep(s, Forget(i, false), [Unlock(i)]);
  }

  /** After a lost answer the next sender replays the grant. */
  lemma LostReplyIsReplayed(key: Key, tok: Token, rotatedTo: string, now: int)
    requires tok.access != "" && Rotates(tok.refresh, rotatedTo) && tok.refresh != "" && !Usable(Some(tok), now)
    ensures var s := Waiting(key, tok, 2);
      var run := Approaching(0, now) + [Present(0), ReplyLost(0, rotatedTo), Unlock(0)] + Approaching(1, now);
      Initial(s) && Legal(s, run) && Taken(run, true) && Enabled(After(s, run), Present(1)) &&
      After(s, run).senders[1] == Sender(key, Refresh(tok)) && (key, tok.refresh) in After(s, run).rotated
  {
    var s := Waiting(key, tok, 2);
    Approaches(s, 0, tok, now);
    var s1 := After(s, Approaching(0, now));
    var lose := [Present(0), ReplyLost(0, rotatedTo), Unlock(0)];
    LosesItsReply(s1, 0, rotatedTo);
    Joined(s, Approaching(0, now), lose);
    Approaches(After(s1, lose), 1, tok, now);
    Joined(s, Approaching(0, now) + lose, Approaching(1, now));
  }

  /**
   * The keychain refuses first to take a rotated token and then to give up its old copy: the copy
   * comes back, and the next sender presents a grant that was exchanged, and whose answer arrived.
   */
  lemma RefusedDeleteIsReplayed(key: Key, tok: Token, minted: Token, now: int)
    requires tok.access != "" && minted.access != "" && tok.refresh != "" && Rotates(tok.refresh, minted.refresh)
    requires !Usable(Some(tok), now) && !Usable(Some(minted), now)
    ensures var s := Waiting(key, tok, 3);
      var store := [Present(0), Reply(0, minted.access, minted.refresh, minted.expiry), Store(0, false), Unlock(0)];
      var drop := [Present(1), Refuse(1, REFUSALS[0]), Forget(1, false), Unlock(1)];
      var run := Approaching(0, now) + store + Approaching(1, now) + drop + Approaching(2, now);
      Initial(s) && Legal(s, run) && Enabled(After(s, run), Present(2)) &&
      After(s, run).senders[2] == Sender(key, Refresh(tok)) && After(s, run).lost == {} &&
      (key, tok.refresh) in After(s, run).rotated
  {
    var s, t := Waiting(key, tok, 3), AfterRefusedStore(key, tok, minted);
    var store := [Present(0), Reply(0, minted.access, minted.refresh, minted.expiry), Store(0, false), Unlock(0)];
    var drop := [Present(1), Refuse(1, REFUSALS[0]), Forget(1, false), Unlock(1)];
    RefusedStore(key, tok, minted, now);
    RefusedDelete(key, tok, minted, now);
    Joined(s, Approaching(0, now) + store, Approaching(1, now));
    Joined(s, Approaching(0, now) + store + Approaching(1, now), drop);
    Joined(s, Approaching(0, now) + store + Approaching(1, now) + drop, Approaching(2, now));
  }

  /** Sender 0 has stored its new token in memory only. */
  function AfterRefusedStore(key: Key, tok: Token, minted: Token): State
  {
    State(Cache(map[key := minted], Some(map[key := tok])), map[],
          [Sender(key, Done(Bearer(minted.access))), Sender(key, Start), Sender(key, Start)],
          {(key, tok.refresh), (key, minted.refresh)}, {(key, tok.refresh)}, {})
  }

  lemma RefusedStore(key: Key, tok: Token, minted: Token, now: int)
    requires tok.access != "" && minted.access != "" && tok.refresh != "" && Rotates(tok.refresh, minted.refresh)
    requires !Usable(Some(tok), now)
    ensures var s := Waiting(key, tok, 3);
      var store := [Present(0), Reply(0, minted.access, minted.refresh, minted.expiry), Store(0, false), Unlock(0)];
      var run := Approaching(0, now) + store;
      Legal(s, run) && After(s, run) == AfterRefusedStore(key, tok, minted)
  {
    var s := Waiting(key, tok, 3);
    var store := [Present(0), Reply(0, minted.access, minted.refresh, minted.expiry), Store(0, false), Unlock(0)];
    Approaches(s, 0, tok, now);
    StoresInMemoryOnly(After(s, Approaching(0, now)), 0, minted.access, minted.refresh, minted.expiry);
    Joined(s, Approaching(0, now), store);
  }

  lemma RefusedDelete(key: Key, tok: Token, minted: Token, now: int)
    requires tok.access != "" && minted.access != "" && tok.refresh != "" && minted.refresh != ""
    requires !Usable(Some(tok), now) && !Usable(Some(minted), now)
    ensures var s := AfterRefusedStore(key, tok, minted);
      var drop := [Present(1), Refuse(1, REFUSALS[0]), Forget(1, false), Unlock(1)];
      Legal(s, Approaching(1, now)) && var s' := After(s, Approaching(1, now));
      Legal(s', drop) && var s'' := After(s', drop);
      Legal(s'', Approaching(2, now)) && var t := After(s'', Approaching(2, now));
      |t.senders| == 3 && t.senders[2] == Sender(key, Refresh(tok)) && t.rotated == s.rotated && t.lost == {}
  {
    var s := AfterRefusedStore(key, tok, minted);
    var drop := [Present(1), Refuse(1, REFUSALS[0]), Forget(1, false), Unlock(1)];
    Approaches(s, 1, minted, now);
    var s' := After(s, Approaching(1, now));
    DropsFromMemoryOnly(s', 1);
    Approaches(After(s', drop), 2, tok, now);
  }

  /** What can go wrong around the senders: answers lost on the way back, and what the keychain refuses. */
  datatype Weather = Weather(losesAnswers: bool, refusesWrites: bool, refusesDeletes: bool)

  predicate May(w: Weather, a: Action)
  {
    (a.ReplyLost? ==> w.losesAnswers) && (a.Store? && !a.writable ==> w.refusesWrites) &&
    (a.Forget? && !a.deletable ==> w.refusesDeletes)
  }

  predicate MayRun(w: Weather, run: seq<Action>)
  {
    forall n :: 0 <= n < |run| ==> May(w, run[n])
  }

  /** If sender i can present its refresh token after the run, that token was not exchanged before. */
  ghost predicate PresentsUnspent(s: State, run: seq<Action>, i: nat)
  {
    Initial(s) && Legal(s, run) && Enabled(After(s, run), Present(i)) ==>
      var sender := After(s, run).senders[i]; (sender.key, sender.phase.tok.refresh) !in After(s, run).rotated
  }

  /** No run of this weather, from any start, presents an exchanged refresh token. */
  ghost predicate NeverReplays(w: Weather)
  {
    forall s, run, i: nat :: MayRun(w, run) ==> PresentsUnspent(s, run, i)
  }

  /** Exactly when no answer is lost, and the keychain does not refuse both writes and deletes. */
  lemma NeverReplaysIff(w: Weather)
    ensures NeverReplays(w) <==> !w.losesAnswers && !(w.refusesWrites && w.refusesDeletes)
  {
    if w.losesAnswers {
      LostAnswersReplay(w);
    } else if w.refusesWrites && w.refusesDeletes {
      RefusalsReplay(w);
    } else {
      forall s, run, i: nat | MayRun(w, run) ensures PresentsUnspent(s, run, i) {
        assert Delivered(run) && (Taken(run, true) || Taken(run, false)) by {
          assert forall n :: 0 <= n < |run| ==> May(w, run[n]);
        }
        if Initial(s) && Legal(s, run) && Enabled(After(s, run), Present(i)) {
          NeverReplaysASpentGrant(s, run, i);
        }
      }
    }
  }

  lemma Replays(w: Weather, s: State, run: seq<Action>, i: nat)
    requires MayRun(w, run) && !PresentsUnspent(s, run, i)
    ensures !NeverReplays(w)
  {
  }

  lemma LostAnswersReplay(w: Weather)
    requires w.losesAnswers
    ensures !NeverReplays(w)
  {
    var tok := Token("access", "refresh", Some(0));
    var lose := [Present(0), ReplyLost(0, "next"), Unlock(0)];
    var run := Approaching(0, 0) + lose + Approaching(1, 0);
    LostReplyIsReplayed("key", tok, "next", 0);
    Replays(w, Waiting("key", tok, 2), run, 1);
  }

  lemma RefusalsReplay(w: Weather)
    requires w.refusesWrites && w.refusesDeletes
    ensures !NeverReplays(w)
  {
    var tok, minted := Token("access", "refresh", Some(0)), Token("later", "next", Some(0));
    var store := [Present(0), Reply(0, minted.access, minted.refresh, minted.expiry), Store(0, false), Unlock(0)];
    var drop := [Present(1), Refuse(1, REFUSALS[0]), Forget(1, false), Unlock(1)];
    var run := Approaching(0, 0) + store + Approaching(1, 0) + drop + Approaching(2, 0);
    RefusedDeleteIsReplayed("key", tok, minted, 0);
    Replays(w, Waiting("key", tok, 3), run, 2);
  }

  lemma {:induction false} Joined(s: State, first: seq<Action>, later: seq<Action>)
    requires Legal(s, first) && Legal(After(s, first), later)
    ensures Legal(s, first + later) && After(s, first + later) == After(After(s, first), later)
    decreases |later|
  {
    if later == [] {
      assert first + later == first;
    } else {
      var a, rest := later[0], later[1..];
      assert (first + [a]) + rest == first + later;
      OneMore(s, first, a);
      Joined(s, first + [a], rest);
    }
  }

  lemma {:induction false} OneMore(s: State, run: seq<Action>, a: Action)
    requires Legal(s, run) && Enabled(After(s, run), a)
    ensures Legal(s, run + [a]) && After(s, run + [a]) == Apply(After(s, run), a)
    decreases |run|
  {
    if run == [] {
      assert run + [a] == [a] + [];
      LegalStep(s, a, []);
    } else {
      assert run + [a] == [run[0]] + (run[1..] + [a]);
      OneMore(Apply(s, run[0]), run[1..], a);
      LegalStep(s, run[0], run[1..] + [a]);
    }
  }

  lemma LegalStep(s: State, a: Action, rest: seq<Action>)
    requires Enabled(s, a) && Legal(Apply(s, a), rest)
    ensures Legal(s, [a] + rest) && After(s, [a] + rest) == After(Apply(s, a), rest)
  {
    assert ([a] + rest)[1..] == rest;
  }

  lemma {:induction false} Snoc(s: State, run: seq<Action>)
    requires run != [] && Legal(s, run)
    ensures var before := run[..|run| - 1]; var last := run[|run| - 1];
      Legal(s, before) && Enabled(After(s, before), last) && After(s, run) == Apply(After(s, before), last)
    decreases |run|
  {
    if |run| > 1 {
      Snoc(Apply(s, run[0]), run[1..]);
      assert run[1..][..|run| - 2] == run[..|run| - 1][1..];
    }
  }

  predicate RefusedBy(a: Action)
  {
    a.Refuse? && RefreshRefused(Some(a.code))
  }

  /**
   * A stored sign-in disappears only in a Forget step of a sender of that sign-in, and that sender
   * was refused by the provider, or re-read an unusable token that has no refresh token.
   */
  lemma SignInDroppedOnlyForCause(s: State, run: seq<Action>, a: Action, k: Key)
    requires Initial(s) && Legal(s, run) && Enabled(After(s, run), a)
    requires var t := After(s, run); t.cache.Visible(k).Some? && Apply(t, a).cache.Visible(k).None?
    ensures var tok := After(s, run).cache.Visible(k);
      a.Forget? && After(s, run).senders[a.i].key == k &&
      exists n :: 0 <= n < |run| && run[n].i == a.i &&
        (RefusedBy(run[n]) || (run[n].Reread? && !Usable(tok, run[n].now) && tok.value.refresh == ""))
  {
    InitialInv(s, true);
    RunKeepsInv(s, run);
    StepVisible(After(s, run), a, k);
    assert SenderOk(After(s, run), a.i);
    DiscardHasCause(s, run, a.i);
  }

  /** The step after which sender i means to drop the sign-in. */
  predicate Causes(a: Action, i: nat, p: Phase)
    requires p.Discard?
  {
    a.i == i &&
    if p.cause.Refused? then RefusedBy(a)
    else a.Reread? && !Usable(Some(p.tok), a.now) && p.tok.refresh == ""
  }

  lemma {:induction false} DiscardHasCause(s: State, run: seq<Action>, i: nat)
    requires Initial(s) && Legal(s, run)
    requires i < |After(s, run).senders| && After(s, run).senders[i].phase.Discard?
    ensures exists n :: 0 <= n < |run| && Causes(run[n], i, After(s, run).senders[i].phase)
    decreases |run|
  {
    if run != [] {
      Snoc(s, run);
      var before, last := run[..|run| - 1], run[|run| - 1];
      var t := After(s, before);
      StepMovesOne(t, last);
      if last.i == i {
        StepsIntoDiscard(t, last);
      } else {
        DiscardHasCause(s, before, i);
        var n :| 0 <= n < |before| && Causes(before[n], i, t.senders[i].phase);
        assert run[n] == before[n];
      }
    }
  }

  lemma StepsIntoDiscard(s: State, a: Action)
    requires Enabled(s, a) && Apply(s, a).senders[a.i].phase.Discard?
    ensures Causes(a, a.i, Apply(s, a).senders[a.i].phase)
  {
  }

  /** Steps a sender has left, at most. */
  function Rank(p: Phase): nat
  {
    match p
    case Start => 8
    case WantLock => 7
    case Locked => 6
    case Refresh(_) => 5
    case Await(_) => 4
    case Commit(_, _) => 2
    case Discard(_, _) => 2
    case Release(_) => 1
    case Done(_) => 0
  }

  function TotalRank(senders: seq<Sender>): nat
  {
    if senders == [] then 0 else Rank(senders[0].phase) + TotalRank(senders[1..])
  }

  lemma {:induction false} RankOfUpdate(senders: seq<Sender>, i: nat, x: Sender)
    requires i < |senders|
    ensures TotalRank(senders[i := x]) == TotalRank(senders) - Rank(senders[i].phase) + Rank(x.phase)
  {
    if i == 0 {
      assert senders[0 := x][1..] == senders[1..];
    } else {
      assert senders[i := x][1..] == senders[1..][i - 1 := x];
      RankOfUpdate(senders[1..], i - 1, x);
    }
  }

  lemma StepSpends(s: State, a: Action)
    requires Enabled(s, a)
    ensures TotalRank(Apply(s, a).senders) < TotalRank(s.senders)
  {
    StepMovesOne(s, a);
    RankOfUpdate(s.senders, a.i, Apply(s, a).senders[a.i]);
  }

  /** Every step uses up budget, so no interleaving of n senders runs longer than 8n steps. */
  lemma {:induction false} RunsAreBounded(s: State, run: seq<Action>)
    requires Legal(s, run)
    ensures |run| + TotalRank(After(s, run).senders) <= TotalRank(s.senders)
    decreases |run|
  {
    if run != [] {
      StepSpends(s, run[0]);
      RunsAreBounded(Apply(s, run[0]), run[1..]);
    }
  }

  /** A step some sender can take now whatever the provider does, unless all have returned. */
  function NextOf(p: Phase, i: nat): Action
  {
    match p
    case Start => FirstRead(i, 0, true)
    case WantLock => Acquire(i)
    case Locked => Reread(i, 0, true)
    case Refresh(_) => Present(i)
    case Await(_) => Unreachable(i, None)
    case Commit(_, _) => Store(i, true)
    case Discard(_, _) => Forget(i, true)
    case Release(_) => Unlock(i)
    case Done(_) => Unlock(i)
  }

  /** No deadlock: while a sender has not returned, some sender can move. */
  lemma NoDeadlock(s: State, run: seq<Action>, i: nat)
    requires Initial(s) && Legal(s, run)
    requires i < |After(s, run).senders| && !After(s, run).senders[i].phase.Done?
    ensures exists a :: Enabled(After(s, run), a)
  {
    InitialInv(s, true);
    RunKeepsInv(s, run);
    var t := After(s, run);
    var key, p := t.senders[i].key, t.senders[i].phase;
    if p.WantLock? && key in t.holder {
      var h := t.holder[key];
      assert Enabled(t, NextOf(t.senders[h].phase, h));
    } else {
      assert Enabled(t, NextOf(p, i));
    }
  }
}
