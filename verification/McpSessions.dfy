/** Concurrent operations on debugging sessions with other MCP servers: one lock per connection id. */
module McpSessions {
  import opened Common

  type Id = string

  /** A session, numbered by when it was dialed. */
  type Client = nat

  datatype Op = Connect | Disconnect | Call

  /** Where an operation is; the named client is the one it works on. */
  datatype Phase =
    | Waiting
    | Locked
    | Probing(client: Client)
    | Evicting(client: Client)
    | Closing(client: Client)
    | Dialing
    | Registering(client: Client)
    | Calling(client: Client)
    | Leaving
    | Done

  datatype Thread = Thread(id: Id, op: Op, phase: Phase)

  /**
   * `clients` is the map under its own short mutex, `holder` the per-id locks. `owner` gives the id each
   * session was dialed for, `closed` the sessions that were closed, `sweep` those a shutdown took out of
   * the map and still has to close.
   */
  datatype State = State(
    clients: map<Id, Client>, holder: map<Id, nat>, threads: seq<Thread>,
    owner: seq<Id>, closed: set<Client>, down: bool, sweep: set<Client>)

  datatype Action =
    | Acquire(i: nat)
    | Look(i: nat)
    | ProbeAnswers(i: nat)
    | ProbeFails(i: nat)
    | Evict(i: nat)
    | Close(i: nat)
    | DialFails(i: nat)
    | Dial(i: nat)
    | Register(i: nat)
    | Return(i: nat)
    | Unlock(i: nat)
    | Shutdown
    | CloseSwept(client: Client)

  predicate Steps(s: State, i: nat)
  {
    i < |s.threads|
  }

  predicate Enabled(s: State, a: Action)
  {
    match a
    case Acquire(i) => Steps(s, i) && s.threads[i].phase.Waiting? && s.threads[i].id !in s.holder
    case Look(i) => Steps(s, i) && s.threads[i].phase.Locked?
    case ProbeAnswers(i) => Steps(s, i) && s.threads[i].phase.Probing?
    case ProbeFails(i) => Steps(s, i) && s.threads[i].phase.Probing?
    case Evict(i) => Steps(s, i) && s.threads[i].phase.Evicting?
    case Close(i) => Steps(s, i) && s.threads[i].phase.Closing?
    case DialFails(i) => Steps(s, i) && s.threads[i].phase.Dialing?
    case Dial(i) => Steps(s, i) && s.threads[i].phase.Dialing?
    case Register(i) => Steps(s, i) && s.threads[i].phase.Registering?
    case Return(i) => Steps(s, i) && s.threads[i].phase.Calling?
    case Unlock(i) => Steps(s, i) && s.threads[i].phase.Leaving?
    case Shutdown => !s.down
    case CloseSwept(c) => c in s.sweep
  }

  function Enter(s: State, i: nat, phase: Phase): State
    requires Steps(s, i)
  {
    s.(threads := s.threads[i := s.threads[i].(phase := phase)])
  }

  /** What a locked operation does on finding, or not finding, its session in the map. */
  function Found(op: Op, client: Option<Client>): Phase
  {
    match op
    case Connect => if client.Some? then Probing(client.value) else Dialing
    case Call => if client.Some? then Calling(client.value) else Leaving
    case Disconnect => if client.Some? then Closing(client.value) else Leaving
  }

  function Apply(s: State, a: Action): State
    requires Enabled(s, a)
  {
    match a
    case Acquire(i) => Enter(s.(holder := s.holder[s.threads[i].id := i]), i, Locked)
    case Look(i) =>
      var t := s.threads[i];
      var client := if t.id in s.clients then Some(s.clients[t.id]) else None;
      // A disconnect takes the entry out in the same critical section.
      Enter(if t.op.Disconnect? then s.(clients := s.clients - {t.id}) else s, i, Found(t.op, client))
    case ProbeAnswers(i) => Enter(s, i, Leaving)
    case ProbeFails(i) => Enter(s, i, Evicting(s.threads[i].phase.client))
    case Evict(i) =>
      Enter(s.(clients := s.clients - {s.threads[i].id}), i, Closing(s.threads[i].phase.client))
    case Close(i) =>
      Enter(s.(closed := s.closed + {s.threads[i].phase.client}), i,
            if s.threads[i].op.Connect? then Dialing else Leaving)
    case DialFails(i) => Enter(s, i, Leaving)
    case Dial(i) => Enter(s.(owner := s.owner + [s.threads[i].id]), i, Registering(|s.owner|))
    case Register(i) =>
      var c := s.threads[i].phase.client;
      Enter(s.(clients := s.clients[s.threads[i].id := c]), i, Calling(c))
    case Return(i) => Enter(s, i, Leaving)
    case Unlock(i) => Enter(s.(holder := s.holder - {s.threads[i].id}), i, Done)
    case Shutdown => s.(down := true, sweep := s.clients.Values, clients := map[])
    case CloseSwept(c) => s.(closed := s.closed + {c}, sweep := s.sweep - {c})
  }

  ghost predicate Initial(s: State)
  {
    s.clients == map[] && s.holder == map[] && s.owner == [] && s.closed == {} && !s.down && s.sweep == {} &&
    forall i :: 0 <= i < |s.threads| ==> s.threads[i].phase.Waiting?
  }

  ghost predicate Legal(s: State, run: seq<Action>)
    decreases |run|
  {
    run == [] || (Enabled(s, run[0]) && Legal(Apply(s, run[0]), run[1..]))
  }

  ghost function After(s: State, run: seq<Action>): State
    requires Legal(s, run)
    decreases |run|
  {
    if run == [] then s else After(Apply(s, run[0]), run[1..])
  }

  // ---- The invariant --------------------------------------------------------

  predicate Inside(p: Phase)
  {
    !p.Waiting? && !p.Done?
  }

  /** The session only this thread can still reach. */
  predicate Holds(p: Phase, c: Client)
  {
    (p.Closing? || p.Registering?) && p.client == c
  }

  predicate Names(p: Phase, c: Client)
  {
    (p.Probing? || p.Evicting? || p.Closing? || p.Registering? || p.Calling?) && p.client == c
  }

  predicate Live(s: State, c: Client)
  {
    c < |s.owner| && c !in s.closed
  }

  predicate InMap(s: State, c: Client)
  {
    c < |s.owner| && s.owner[c] in s.clients && s.clients[s.owner[c]] == c
  }

  /** A lock is held exactly while a thread is inside for its id. */
  ghost predicate LocksMatch(s: State)
  {
    (forall i :: 0 <= i < |s.threads| && Inside(s.threads[i].phase) ==>
      s.threads[i].id in s.holder && s.holder[s.threads[i].id] == i) &&
    forall id :: id in s.holder ==>
      Steps(s, s.holder[id]) && s.threads[s.holder[id]].id == id && Inside(s.threads[s.holder[id]].phase)
  }

  ghost predicate ClientsAreOwned(s: State)
  {
    (forall id :: id in s.clients ==> s.clients[id] < |s.owner| && s.owner[s.clients[id]] == id) &&
    (forall c :: c in s.closed || c in s.sweep ==> c < |s.owner|) && (!s.down ==> s.sweep == {})
  }

  /** Sessions in the map are neither closed nor about to be. */
  ghost predicate MapIsLive(s: State)
  {
    forall id :: id in s.clients ==> s.clients[id] !in s.closed && s.clients[id] !in s.sweep
  }

  ghost predicate HeldByThread(s: State, c: Client)
  {
    exists i :: 0 <= i < |s.threads| && Holds(s.threads[i].phase, c)
  }

  /** Somebody who may close the session can still reach it. */
  ghost predicate Kept(s: State, c: Client)
  {
    InMap(s, c) || HeldByThread(s, c) || c in s.sweep
  }

  ghost predicate NobodyIsLost(s: State)
  {
    forall c: Client :: Live(s, c) ==> Kept(s, c)
  }

  ghost predicate ThreadOk(s: State, i: nat)
    requires Steps(s, i)
  {
    var id, op, phase := s.threads[i].id, s.threads[i].op, s.threads[i].phase;
    match phase
    case Waiting => true
    case Locked => true
    case Probing(c) => op.Connect? && WorksOn(s, id, c)
    case Evicting(c) => op.Connect? && WorksOn(s, id, c)
    case Calling(c) => WorksOn(s, id, c)
    case Closing(c) => id !in s.clients && OwnedBy(s, id, c) && (!s.down ==> c !in s.closed)
    case Dialing => op.Connect? && id !in s.clients
    case Registering(c) => op.Connect? && id !in s.clients && OwnedBy(s, id, c) && c !in s.closed && c !in s.sweep
    case Leaving => true
    case Done => true
  }

  predicate OwnedBy(s: State, id: Id, c: Client)
  {
    c < |s.owner| && s.owner[c] == id
  }

  /** The session is the one in the map, unless a shutdown took it out. */
  predicate WorksOn(s: State, id: Id, c: Client)
  {
    OwnedBy(s, id, c) && (id in s.clients ==> s.clients[id] == c) && (!s.down ==> id in s.clients)
  }

  ghost predicate Inv(s: State)
  {
    LocksMatch(s) && ClientsAreOwned(s) && MapIsLive(s) && NobodyIsLost(s) &&
    forall i :: 0 <= i < |s.threads| ==> ThreadOk(s, i)
  }

  predicate IsThreadStep(a: Action)
  {
    !a.Shutdown? && !a.CloseSwept?
  }

  lemma SameInside(s: State, t: State)
    requires LocksMatch(s) && |t.threads| == |s.threads| && t.holder == s.holder
    requires forall j :: 0 <= j < |s.threads| ==> t.threads[j].id == s.threads[j].id
    requires forall j :: 0 <= j < |s.threads| ==> (Inside(t.threads[j].phase) <==> Inside(s.threads[j].phase))
    ensures LocksMatch(t)
  {
  }

  lemma LockingKeepsLocks(s: State, a: Action)
    requires Inv(s) && Enabled(s, a) && (a.Acquire? || a.Unlock?)
    ensures LocksMatch(Apply(s, a))
  {
    var t := Apply(s, a);
    assert forall j :: 0 <= j < |s.threads| && j != a.i ==> t.threads[j] == s.threads[j];
    assert t.threads[a.i].id == s.threads[a.i].id;
  }

  lemma PlainStepInside(s: State, a: Action, j: nat)
    requires Enabled(s, a) && !a.Acquire? && !a.Unlock? && Steps(s, j)
    ensures var t := Apply(s, a);
      Steps(t, j) && t.threads[j].id == s.threads[j].id && (Inside(t.threads[j].phase) <==> Inside(s.threads[j].phase))
  {
  }

  lemma StepKeepsLocks(s: State, a: Action)
    requires Inv(s) && Enabled(s, a)
    ensures LocksMatch(Apply(s, a))
  {
    if a.Acquire? || a.Unlock? {
      LockingKeepsLocks(s, a);
    } else {
      forall j: nat | Steps(s, j)
        ensures Apply(s, a).threads[j].id == s.threads[j].id
        ensures Inside(Apply(s, a).threads[j].phase) <==> Inside(s.threads[j].phase)
      {
        PlainStepInside(s, a, j);
      }
      SameInside(s, Apply(s, a));
    }
  }

  lemma StepKeepsMap(s: State, a: Action)
    requires Inv(s) && Enabled(s, a)
    ensures ClientsAreOwned(Apply(s, a)) && MapIsLive(Apply(s, a))
  {
    if IsThreadStep(a) {
      assert ThreadOk(s, a.i);
    }
  }

  /** All that connection `id` can see is as it was. */
  ghost predicate SameFor(s: State, t: State, id: Id)
  {
    (id in t.clients <==> id in s.clients) && (id in s.clients ==> t.clients[id] == s.clients[id]) &&
    t.down == s.down && t.sweep == s.sweep && |s.owner| <= |t.owner| &&
    forall c :: OwnedBy(s, id, c) ==> OwnedBy(t, id, c) && (c in t.closed <==> c in s.closed)
  }

  /** A step on one connection changes nothing another one can see. */
  lemma StepIsLocal(s: State, a: Action, id: Id)
    requires Inv(s) && Enabled(s, a) && IsThreadStep(a) && s.threads[a.i].id != id
    ensures SameFor(s, Apply(s, a), id)
  {
    assert ThreadOk(s, a.i);
  }

  lemma StillOk(s: State, t: State, j: nat)
    requires Steps(s, j) && Steps(t, j) && t.threads[j] == s.threads[j] && ThreadOk(s, j)
    requires SameFor(s, t, s.threads[j].id)
    ensures ThreadOk(t, j)
  {
  }

  lemma StepKeepsOther(s: State, a: Action, j: nat)
    requires Inv(s) && Enabled(s, a) && Steps(s, j) && IsThreadStep(a) && a.i != j
    ensures ThreadOk(Apply(s, a), j)
  {
    var t := Apply(s, a);
    assert t.threads[j] == s.threads[j] && ThreadOk(s, j);
    if Inside(s.threads[j].phase) {
      StepIsLocal(s, a, s.threads[j].id);
      StillOk(s, t, j);
    }
  }

  lemma ShutdownKeeps(s: State, a: Action, j: nat)
    requires Inv(s) && Enabled(s, a) && Steps(s, j) && !IsThreadStep(a)
    ensures ThreadOk(Apply(s, a), j)
  {
    assert ThreadOk(s, j);
  }

  lemma StepKeepsOwn(s: State, a: Action)
    requires Inv(s) && Enabled(s, a) && IsThreadStep(a)
    ensures ThreadOk(Apply(s, a), a.i)
  {
    assert ThreadOk(s, a.i);
  }

  lemma MappedIsKept(s: State, a: Action, c: Client)
    requires Inv(s) && Enabled(s, a) && Live(Apply(s, a), c) && InMap(s, c)
    ensures Kept(Apply(s, a), c)
  {
    var t := Apply(s, a);
    assert c in s.clients.Values;
    if IsThreadStep(a) {
      assert ThreadOk(s, a.i);
      assert Holds(t.threads[a.i].phase, c) ==> Kept(t, c);
    }
  }

  lemma HeldIsKept(s: State, a: Action, c: Client)
    requires Inv(s) && Enabled(s, a) && Live(Apply(s, a), c) && HeldByThread(s, c)
    ensures Kept(Apply(s, a), c)
  {
    var t := Apply(s, a);
    var j :| 0 <= j < |s.threads| && Holds(s.threads[j].phase, c);
    assert ThreadOk(s, j);
    if !IsThreadStep(a) || j != a.i {
      assert Holds(t.threads[j].phase, c);
    }
  }

  lemma StepLosesNobody(s: State, a: Action, c: Client)
    requires Inv(s) && Enabled(s, a) && Live(Apply(s, a), c)
    ensures Kept(Apply(s, a), c)
  {
    var t := Apply(s, a);
    if !Live(s, c) {
      assert Holds(t.threads[a.i].phase, c);
    } else if InMap(s, c) {
      MappedIsKept(s, a, c);
    } else if HeldByThread(s, c) {
      HeldIsKept(s, a, c);
    }
  }

  lemma StepKeepsInv(s: State, a: Action)
    requires Inv(s) && Enabled(s, a)
    ensures Inv(Apply(s, a))
  {
    var t := Apply(s, a);
    StepKeepsLocks(s, a);
    StepKeepsMap(s, a);
    forall c: Client | Live(t, c) ensures Kept(t, c) {
      StepLosesNobody(s, a, c);
    }
    forall j | 0 <= j < |t.threads| ensures ThreadOk(t, j) {
      if IsThreadStep(a) && a.i == j {
        StepKeepsOwn(s, a);
      } else if IsThreadStep(a) {
        StepKeepsOther(s, a, j);
      } else {
        ShutdownKeeps(s, a, j);
      }
    }
  }

  lemma {:induction false} RunKeepsInv(s: State, run: seq<Action>)
    requires Inv(s) && Legal(s, run)
    ensures Inv(After(s, run))
    decreases |run|
  {
    if run != [] {
      StepKeepsInv(s, run[0]);
      RunKeepsInv(Apply(s, run[0]), run[1..]);
    }
  }

  // ---- The promises ---------------------------------------------------------

  predicate NoShutdown(run: seq<Action>)
  {
    forall i :: 0 <= i < |run| ==> !run[i].Shutdown?
  }

  lemma {:induction false} StaysUp(s: State, run: seq<Action>)
    requires Legal(s, run) && NoShutdown(run) && !s.down
    ensures !After(s, run).down
    decreases |run|
  {
    if run != [] {
      assert !run[0].Shutdown? && forall i :: 0 <= i < |run| - 1 ==> run[1..][i] == run[i + 1];
      StaysUp(Apply(s, run[0]), run[1..]);
    }
  }

  /** In every interleaving, one operation at a time works on a connection. */
  lemma OneAtATime(s: State, run: seq<Action>, i: nat, j: nat)
    requires Initial(s) && Legal(s, run)
    requires var t := After(s, run); Steps(t, i) && Steps(t, j) && i != j && t.threads[i].id == t.threads[j].id
    ensures var t := After(s, run); !(Inside(t.threads[i].phase) && Inside(t.threads[j].phase))
  {
    RunKeepsInv(s, run);
  }

  /** Without a shutdown no operation ever works on a closed session. */
  lemma NoUseAfterClose(s: State, run: seq<Action>, i: nat, c: Client)
    requires Initial(s) && Legal(s, run) && NoShutdown(run)
    requires Steps(After(s, run), i) && Names(After(s, run).threads[i].phase, c)
    ensures c !in After(s, run).closed
  {
    RunKeepsInv(s, run);
    StaysUp(s, run);
    assert ThreadOk(After(s, run), i);
  }

  /** Sessions that a shutdown did not take out of the map: a thread works on such a one only while it is open. */
  ghost predicate OnlySweptAreStale(s: State, swept: set<Client>)
  {
    s.sweep <= swept &&
    forall i, c :: 0 <= i < |s.threads| && Names(s.threads[i].phase, c) && c !in swept ==> c !in s.closed
  }

  /** Two threads never work on one session. */
  lemma OneWorksOn(s: State, i: nat, j: nat, c: Client)
    requires Inv(s) && Steps(s, i) && Steps(s, j)
    requires Names(s.threads[i].phase, c) && Names(s.threads[j].phase, c)
    ensures i == j
  {
    assert ThreadOk(s, i) && ThreadOk(s, j);
  }

  /** A thread comes to work on open sessions only. */
  lemma OwnStaleStep(s: State, a: Action, swept: set<Client>, c: Client)
    requires Inv(s) && Enabled(s, a) && IsThreadStep(a) && OnlySweptAreStale(s, swept)
    requires Names(Apply(s, a).threads[a.i].phase, c) && c !in swept
    ensures c !in Apply(s, a).closed
  {
    assert ThreadOk(s, a.i);
  }

  /** And nobody else closes the one it works on. */
  lemma OtherStaleStep(s: State, a: Action, swept: set<Client>, i: nat, c: Client)
    requires Inv(s) && Enabled(s, a) && !a.Shutdown? && OnlySweptAreStale(s, swept)
    requires Steps(s, i) && (IsThreadStep(a) ==> a.i != i) && Names(s.threads[i].phase, c) && c !in swept
    ensures c !in Apply(s, a).closed
  {
    if a.Close? && s.threads[a.i].phase.client == c {
      OneWorksOn(s, i, a.i, c);
    }
  }

  lemma StaleStep(s: State, a: Action, swept: set<Client>, i: nat, c: Client)
    requires Inv(s) && Enabled(s, a) && !a.Shutdown? && OnlySweptAreStale(s, swept)
    requires Steps(Apply(s, a), i) && Names(Apply(s, a).threads[i].phase, c) && c !in swept
    ensures c !in Apply(s, a).closed
  {
    if IsThreadStep(a) && a.i == i {
      OwnStaleStep(s, a, swept, c);
    } else {
      assert Apply(s, a).threads[i] == s.threads[i];
      OtherStaleStep(s, a, swept, i, c);
    }
  }

  lemma {:induction false} StaleRun(s: State, run: seq<Action>, swept: set<Client>)
    requires Inv(s) && s.down && Legal(s, run) && OnlySweptAreStale(s, swept)
    ensures OnlySweptAreStale(After(s, run), swept)
    decreases |run|
  {
    if run != [] {
      var t := Apply(s, run[0]);
      StepKeepsInv(s, run[0]);
      forall i, c | 0 <= i < |t.threads| && Names(t.threads[i].phase, c) && c !in swept ensures c !in t.closed {
        StaleStep(s, run[0], swept, i, c);
      }
      StaleRun(t, run[1..], swept);
    }
  }

  /** An operation that works on a closed session works on one that the shutdown took out of the map. */
  lemma StaleSessionsWereSwept(s: State, run: seq<Action>, rest: seq<Action>, i: nat, c: Client)
    requires Initial(s) && Legal(s, run) && Enabled(After(s, run), Shutdown)
    requires Legal(Apply(After(s, run), Shutdown), rest)
    requires var t := After(Apply(After(s, run), Shutdown), rest);
      Steps(t, i) && Names(t.threads[i].phase, c) && c in t.closed
    ensures c in After(s, run).clients.Values
  {
    var u := After(s, run);
    var t := Apply(u, Shutdown);
    RunKeepsInv(s, run);
    StepKeepsInv(u, Shutdown);
    forall j, d | 0 <= j < |t.threads| && Names(t.threads[j].phase, d) ensures d !in t.closed {
      assert ThreadOk(u, j);
    }
    StaleRun(t, rest, u.clients.Values);
  }

  /** A live session no shutdown is about to close is in the map, or in the hands of a thread that finds none there. */
  lemma LiveIsKeptOnce(s: State, c: Client)
    requires Inv(s) && Live(s, c) && c !in s.sweep
    ensures InMap(s, c) || (s.owner[c] in s.holder && s.owner[c] !in s.clients &&
      Steps(s, s.holder[s.owner[c]]) && Holds(s.threads[s.holder[s.owner[c]]].phase, c))
  {
    if !InMap(s, c) {
      var i :| 0 <= i < |s.threads| && Holds(s.threads[i].phase, c);
      assert ThreadOk(s, i);
    }
  }

  /** In every run, of two live sessions of one connection one is waiting to be closed by a shutdown. */
  lemma SecondSessionIsSwept(s: State, run: seq<Action>, c: Client, d: Client)
    requires Initial(s) && Legal(s, run)
    requires var t := After(s, run); Live(t, c) && Live(t, d) && t.owner[c] == t.owner[d] && c != d
    ensures c in After(s, run).sweep || d in After(s, run).sweep
  {
    RunKeepsInv(s, run);
    var t := After(s, run);
    if c !in t.sweep && d !in t.sweep {
      LiveIsKeptOnce(t, c);
      LiveIsKeptOnce(t, d);
    }
  }

  /** So without a shutdown a connection never has two live sessions, not even for a moment. */
  lemma OneLiveSession(s: State, run: seq<Action>, c: Client, d: Client)
    requires Initial(s) && Legal(s, run) && NoShutdown(run)
    requires var t := After(s, run); Live(t, c) && Live(t, d) && t.owner[c] == t.owner[d]
    ensures c == d
  {
    RunKeepsInv(s, run);
    StaysUp(s, run);
    if c != d {
      SecondSessionIsSwept(s, run, c, d);
    }
  }

  /** Nobody is inside, and a shutdown has closed all it took. */
  ghost predicate Quiet(s: State)
  {
    s.sweep == {} && forall i :: 0 <= i < |s.threads| ==> !Inside(s.threads[i].phase)
  }

  lemma QuietHoldsNothing(s: State, c: Client)
    requires Quiet(s)
    ensures !HeldByThread(s, c)
  {
    assert forall i :: 0 <= i < |s.threads| && Holds(s.threads[i].phase, c) ==> Inside(s.threads[i].phase);
  }

  lemma QuietSessions(s: State, c: Client)
    requires Inv(s) && Quiet(s)
    ensures Live(s, c) <==> InMap(s, c)
  {
    QuietHoldsNothing(s, c);
  }

  /** When things are quiet the live sessions are exactly those in the map, shutdown or not. */
  lemma NoSessionLeaks(s: State, run: seq<Action>, c: Client)
    requires Initial(s) && Legal(s, run) && Quiet(After(s, run))
    ensures Live(After(s, run), c) <==> InMap(After(s, run), c)
  {
    RunKeepsInv(s, run);
    QuietSessions(After(s, run), c);
  }

  lemma Prepend(s: State, a: Action, rest: seq<Action>)
    requires Enabled(s, a) && Legal(Apply(s, a), rest)
    ensures Legal(s, [a] + rest) && After(s, [a] + rest) == After(Apply(s, a), rest)
  {
    assert ([a] + rest)[1..] == rest;
  }

  // ---- Shutdown -------------------------------------------------------------

  /** A connect that has not come past its registration. */
  predicate Ahead(t: Thread)
  {
    t.op.Connect? && !t.phase.Calling? && !t.phase.Leaving? && !t.phase.Done?
  }

  ghost predicate MayRegister(s: State)
  {
    exists i :: 0 <= i < |s.threads| && Ahead(s.threads[i])
  }

  ghost predicate SomethingLives(s: State)
  {
    exists c: Client :: Live(s, c)
  }

  /** Some way of going on ends quietly with a session still live. */
  ghost predicate CanLeaveSession(s: State)
  {
    exists rest :: LeavesSession(s, rest)
  }

  ghost predicate LeavesSession(s: State, rest: seq<Action>)
  {
    Legal(s, rest) && Quiet(After(s, rest)) && SomethingLives(After(s, rest))
  }

  ghost predicate NothingComes(s: State)
  {
    s.down && s.clients == map[] && !MayRegister(s)
  }

  lemma StepKeepsNothing(s: State, a: Action)
    requires Inv(s) && Enabled(s, a) && NothingComes(s)
    ensures NothingComes(Apply(s, a))
  {
    var t := Apply(s, a);
    if IsThreadStep(a) {
      assert ThreadOk(s, a.i) && !Ahead(s.threads[a.i]);
      assert forall j :: 0 <= j < |s.threads| && j != a.i ==> t.threads[j] == s.threads[j];
      assert !Ahead(t.threads[a.i]);
    }
    forall j | 0 <= j < |t.threads| ensures !Ahead(t.threads[j]) {
      assert !Ahead(s.threads[j]);
    }
  }

  lemma {:induction false} RunKeepsNothing(s: State, run: seq<Action>)
    requires Inv(s) && Legal(s, run) && NothingComes(s)
    ensures NothingComes(After(s, run))
    decreases |run|
  {
    if run != [] {
      StepKeepsInv(s, run[0]);
      StepKeepsNothing(s, run[0]);
      RunKeepsNothing(Apply(s, run[0]), run[1..]);
    }
  }

  lemma StepBack(s: State, a: Action)
    requires Enabled(s, a) && CanLeaveSession(Apply(s, a))
    ensures CanLeaveSession(s)
  {
    var rest :| LeavesSession(Apply(s, a), rest);
    Prepend(s, a, rest);
    assert LeavesSession(s, [a] + rest);
  }

  /** Steps a thread has left, at most. */
  function Rank(p: Phase): nat
  {
    match p
    case Waiting => 9
    case Locked => 8
    case Probing(_) => 7
    case Evicting(_) => 6
    case Closing(_) => 5
    case Dialing => 4
    case Registering(_) => 3
    case Calling(_) => 2
    case Leaving => 1
    case Done => 0
  }

  function TotalRank(threads: seq<Thread>): nat
  {
    if threads == [] then 0 else Rank(threads[0].phase) + TotalRank(threads[1..])
  }

  lemma {:induction false} RankOfUpdate(threads: seq<Thread>, i: nat, t: Thread)
    requires i < |threads| && Rank(t.phase) < Rank(threads[i].phase)
    ensures TotalRank(threads[i := t]) < TotalRank(threads)
    decreases |threads|
  {
    if i > 0 {
      assert threads[i := t][1..] == threads[1..][i - 1 := t];
      RankOfUpdate(threads[1..], i - 1, t);
    } else {
      assert threads[i := t][1..] == threads[1..];
    }
  }

  lemma StepSpends(s: State, a: Action)
    requires Enabled(s, a) && IsThreadStep(a)
    ensures TotalRank(Apply(s, a).threads) < TotalRank(s.threads) && Apply(s, a).sweep == s.sweep
    ensures Apply(s, a).threads == s.threads[a.i := Apply(s, a).threads[a.i]]
  {
    RankOfUpdate(s.threads, a.i, Apply(s, a).threads[a.i]);
  }

  /** With nobody else inside and all swept, a connect about to register leaves its session behind. */
  lemma RegistersAndLeaves(s: State, i: nat)
    requires Inv(s) && s.sweep == {} && Steps(s, i) && s.threads[i].phase.Registering?
    requires forall j :: 0 <= j < |s.threads| && j != i ==> !Inside(s.threads[j].phase)
    ensures CanLeaveSession(s)
  {
    assert ThreadOk(s, i);
    var c := s.threads[i].phase.client;
    var s1 := Apply(s, Register(i));
    var s2 := Apply(s1, Return(i));
    var s3 := Apply(s2, Unlock(i));
    assert Live(s3, c);
    assert LeavesSession(s3, []);
    StepBack(s2, Unlock(i));
    StepBack(s1, Return(i));
    StepBack(s, Register(i));
  }

  /** The next step of a connect on its way to registering. */
  lemma ConnectGoesOn(s: State, i: nat)
    requires Inv(s) && Steps(s, i) && Ahead(s.threads[i]) && !s.threads[i].phase.Registering?
    requires forall j :: 0 <= j < |s.threads| && j != i ==> !Inside(s.threads[j].phase)
    ensures var a := NextOf(s.threads[i].phase, i);
      Enabled(s, a) && IsThreadStep(a) && a.i == i && Ahead(Apply(s, a).threads[i])
  {
    assert ThreadOk(s, i);
  }

  /** First everybody else finishes, then all that was swept is closed, then the connect goes on. */
  lemma {:induction false} ConnectCanLeave(s: State, i: nat)
    requires Inv(s) && Steps(s, i) && Ahead(s.threads[i])
    ensures CanLeaveSession(s)
    decreases TotalRank(s.threads) + |s.sweep|
  {
    var a: Action;
    if j: nat :| j < |s.threads| && j != i && Inside(s.threads[j].phase) {
      a := NextOf(s.threads[j].phase, j);
      StepSpends(s, a);
    } else if s.sweep != {} {
      var c :| c in s.sweep;
      a := CloseSwept(c);
    } else if s.threads[i].phase.Registering? {
      RegistersAndLeaves(s, i);
      return;
    } else {
      ConnectGoesOn(s, i);
      a := NextOf(s.threads[i].phase, i);
      StepSpends(s, a);
    }
    StepKeepsInv(s, a);
    ConnectCanLeave(Apply(s, a), i);
    StepBack(s, a);
  }

  /**
   * A shutdown is complete, whatever is still under way, exactly when no connect is before its
   * registration at that moment: then no session is live once things are quiet; otherwise things can
   * go on so that one is.
   */
  lemma ShutdownIsCompleteIff(s: State, run: seq<Action>)
    requires Initial(s) && Legal(s, run) && Enabled(After(s, run), Shutdown)
    ensures CanLeaveSession(Apply(After(s, run), Shutdown)) <==> MayRegister(After(s, run))
  {
    RunKeepsInv(s, run);
    var u := After(s, run);
    var t := Apply(u, Shutdown);
    StepKeepsInv(u, Shutdown);
    if MayRegister(u) {
      var i :| 0 <= i < |u.threads| && Ahead(u.threads[i]);
      ConnectCanLeave(t, i);
    } else if CanLeaveSession(t) {
      var rest :| LeavesSession(t, rest);
      RunKeepsInv(t, rest);
      RunKeepsNothing(t, rest);
      var c: Client :| Live(After(t, rest), c);
      QuietSessions(After(t, rest), c);
    }
  }

  /** The session was registered by a step of the run. */
  ghost predicate RegisteredIn(s: State, run: seq<Action>, c: Client)
    requires Legal(s, run)
    decreases |run|
  {
    run != [] &&
    ((run[0].Register? && s.threads[run[0].i].phase == Registering(c)) || RegisteredIn(Apply(s, run[0]), run[1..], c))
  }

  lemma {:induction false} MappedWasRegistered(s: State, run: seq<Action>, id: Id)
    requires Legal(s, run) && id in After(s, run).clients
    ensures (id in s.clients && s.clients[id] == After(s, run).clients[id]) ||
      RegisteredIn(s, run, After(s, run).clients[id])
    decreases |run|
  {
    if run != [] {
      MappedWasRegistered(Apply(s, run[0]), run[1..], id);
    }
  }

  /** Whatever is live in a quiet state after a shutdown was registered after it. */
  lemma SurvivorsCameLater(s: State, run: seq<Action>, rest: seq<Action>, c: Client)
    requires Initial(s) && Legal(s, run) && Enabled(After(s, run), Shutdown)
    requires var t := Apply(After(s, run), Shutdown); Legal(t, rest) && Quiet(After(t, rest)) && Live(After(t, rest), c)
    ensures RegisteredIn(Apply(After(s, run), Shutdown), rest, c)
  {
    RunKeepsInv(s, run);
    var t := Apply(After(s, run), Shutdown);
    StepKeepsInv(After(s, run), Shutdown);
    RunKeepsInv(t, rest);
    QuietSessions(After(t, rest), c);
    MappedWasRegistered(t, rest, After(t, rest).owner[c]);
  }

  const ONE_CONNECT := State(map[], map[], [Thread("m", Connect, Waiting)], [], {}, false, {})

  const DIALING_WHEN_DOWN := State(map[], map["m" := 0], [Thread("m", Connect, Dialing)], [], {}, true, {})

  const LEFT_BEHIND := State(map["m" := 0], map[], [Thread("m", Connect, Done)], ["m"], {}, true, {})

  lemma DialAfterShutdown(run: seq<Action>)
    requires run == [Dial(0), Register(0), Return(0), Unlock(0)]
    ensures Legal(DIALING_WHEN_DOWN, run) && After(DIALING_WHEN_DOWN, run) == LEFT_BEHIND
  {
    var s1 := Apply(DIALING_WHEN_DOWN, Dial(0));
    var s2 := Apply(s1, Register(0));
    var s3 := Apply(s2, Return(0));
    assert s3.threads == [Thread("m", Connect, Leaving)];
    Prepend(s3, Unlock(0), []);
    Prepend(s2, Return(0), [Unlock(0)]);
    Prepend(s1, Register(0), [Return(0), Unlock(0)]);
    assert [Register(0)] + [Return(0), Unlock(0)] == [Register(0), Return(0), Unlock(0)];
    Prepend(DIALING_WHEN_DOWN, Dial(0), [Register(0), Return(0), Unlock(0)]);
    assert run == [Dial(0)] + [Register(0), Return(0), Unlock(0)];
  }

  /** A shutdown takes no connection's lock: a connect that was dialing leaves a live session behind. */
  lemma ShutdownMissesADial() returns (run: seq<Action>)
    ensures Initial(ONE_CONNECT) && Legal(ONE_CONNECT, run)
    ensures var t := After(ONE_CONNECT, run); Quiet(t) && t.down && Live(t, 0)
  {
    var rest := [Dial(0), Register(0), Return(0), Unlock(0)];
    DialAfterShutdown(rest);
    var s1 := Apply(ONE_CONNECT, Acquire(0));
    var s2 := Apply(s1, Look(0));
    assert Apply(s2, Shutdown) == DIALING_WHEN_DOWN;
    Prepend(s2, Shutdown, rest);
    Prepend(s1, Look(0), [Shutdown] + rest);
    Prepend(ONE_CONNECT, Acquire(0), [Look(0)] + ([Shutdown] + rest));
    run := [Acquire(0)] + ([Look(0)] + ([Shutdown] + rest));
  }

  /** Whoever is not done can always go on, or waits for somebody who can. */
  lemma NoDeadlock(s: State, run: seq<Action>, i: nat)
    requires Initial(s) && Legal(s, run) && Steps(After(s, run), i) && !After(s, run).threads[i].phase.Done?
    ensures exists a :: IsThreadStep(a) && Enabled(After(s, run), a)
  {
    RunKeepsInv(s, run);
    var t := After(s, run);
    var id := t.threads[i].id;
    if t.threads[i].phase.Waiting? && id !in t.holder {
      assert Enabled(t, Acquire(i));
    } else {
      var j := if t.threads[i].phase.Waiting? then t.holder[id] else i;
      InsideGoesOn(t, j);
    }
  }

  /** A step a thread inside can take now. */
  function NextOf(p: Phase, j: nat): Action
  {
    match p
    case Waiting => Acquire(j)
    case Locked => Look(j)
    case Probing(_) => ProbeFails(j)
    case Evicting(_) => Evict(j)
    case Closing(_) => Close(j)
    case Dialing => Dial(j)
    case Registering(_) => Register(j)
    case Calling(_) => Return(j)
    case Leaving => Unlock(j)
    case Done => Unlock(j)
  }

  lemma InsideGoesOn(s: State, j: nat)
    requires Steps(s, j) && Inside(s.threads[j].phase)
    ensures exists a :: IsThreadStep(a) && Enabled(s, a)
  {
    var a := NextOf(s.threads[j].phase, j);
    assert IsThreadStep(a) && Enabled(s, a);
  }
}
