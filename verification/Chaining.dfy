/**
 * Request chaining: RunRequest resolves a request's response() references,
 * auto-sending each referenced request that has no cached response.
 */
module Chaining {
  import opened Common

  type Id = string
  type Response = string

  /** One response('Name').path reference; `target` is None when no request has that name. */
  datatype Ref = Ref(target: Option<Id>, path: string)

  /** The references in a request's templated fields, then those in its active auth block. */
  datatype Node = Node(fields: seq<Ref>, auth: seq<Ref>) {
    function Refs(): seq<Ref> { fields + auth }
  }

  datatype Failure =
    | Cycle(id: Id) | TooDeep | UnknownRequest | UnknownName | NoValue | NotAllowed | SendFailed

  datatype Outcome = Failed | Replied(resp: Response)

  /**
   * The workspace and everything outside the engine. `allowed` covers what can stop a request
   * between its references and its send (auth, script, policy, missing protocol); `outcome` is
   * the transport. Both may answer differently on every call: the second argument counts the
   * sends made so far.
   */
  datatype World = World(
    nodes: map<Id, Node>,
    allowed: (Id, nat) -> bool,
    outcome: (Id, nat) -> Outcome,
    extract: (Response, string) -> Option<string>)

  /** The chain bookkeeping carried in the context. */
  datatype Chain = Chain(depth: nat, visited: set<Id>)

  const MAX_CHAIN_DEPTH: nat := 8

  /** One protocol.Execute; `saved` when its response reached the cache. */
  datatype Send = Send(id: Id, chain: Chain, saved: bool)

  datatype State = State(cache: map<Id, Response>, log: seq<Send>, clock: nat)

  function WithChainRequest(prev: Option<Chain>, id: Id): (r: Result<Chain, Failure>)
  {
    var depth := if prev.Some? then prev.value.depth + 1 else 0;
    var visited := if prev.Some? then prev.value.visited else {};
    if id in visited then Err(Cycle(id))
    else if depth > MAX_CHAIN_DEPTH then Err(TooDeep)
    else Ok(Chain(depth, visited + {id}))
  }

  /** Levels of auto-send still allowed below a chain. */
  function Budget(chain: Option<Chain>): nat
  {
    if chain.None? then MAX_CHAIN_DEPTH + 2
    else if chain.value.depth > MAX_CHAIN_DEPTH then 0
    else MAX_CHAIN_DEPTH + 1 - chain.value.depth
  }

  function Run(w: World, id: Id, prev: Option<Chain>, st: State): (Result<Response, Failure>, State)
    decreases Budget(prev), 1, 0
  {
    match WithChainRequest(prev, id)
    case Err(e) => (Err(e), st)
    case Ok(chain) =>
      if id !in w.nodes then (Err(UnknownRequest), st)
      else
        var (fieldsErr, st1) := ResolveAll(w, w.nodes[id].fields, chain, st);
        if fieldsErr.Some? then (Err(fieldsErr.value), st1)
        else
          var (authErr, st2) := ResolveAll(w, w.nodes[id].auth, chain, st1);
          if authErr.Some? then (Err(authErr.value), st2)
          else if !w.allowed(id, st2.clock) then (Err(NotAllowed), st2)
          else Execute(w, id, chain, st2)
  }

  /** Send, then save the response under the request's id. */
  function Execute(w: World, id: Id, chain: Chain, st: State): (Result<Response, Failure>, State)
  {
    match w.outcome(id, st.clock)
    case Failed => (Err(SendFailed), State(st.cache, st.log + [Send(id, chain, false)], st.clock + 1))
    case Replied(resp) => (Ok(resp), State(st.cache[id := resp], st.log + [Send(id, chain, true)], st.clock + 1))
  }

  /** Template expansion evaluates every reference, also after one has failed, and reports the first failure. */
  function ResolveAll(w: World, refs: seq<Ref>, chain: Chain, st: State): (Option<Failure>, State)
    decreases Budget(Some(chain)), 2, |refs|
  {
    if refs == [] then (None, st)
    else
      var (v, st1) := ResolveChainRef(w, refs[0], chain, st);
      var (rest, st2) := ResolveAll(w, refs[1..], chain, st1);
      (if v.Err? then Some(v.error) else rest, st2)
  }

  function ResolveChainRef(w: World, ref: Ref, chain: Chain, st: State): (Result<string, Failure>, State)
    decreases Budget(Some(chain)), 2, 0
  {
    if ref.target.None? then (Err(UnknownName), st)
    else if ref.target.value in st.cache then (Extract(w, st.cache[ref.target.value], ref.path), st)
    else
      match Run(w, ref.target.value, Some(chain), st)
      case (Err(e), st1) => (Err(e), st1)
      case (Ok(resp), st1) => (Extract(w, resp, ref.path), st1)
  }

  function Extract(w: World, resp: Response, path: string): Result<string, Failure>
  {
    match w.extract(resp, path)
    case Some(v) => Ok(v)
    case None => Err(NoValue)
  }

  // ---- What every run keeps -------------------------------------------------

  function Saved(log: seq<Send>): set<Id>
  {
    set s | s in log && s.saved :: s.id
  }

  predicate ChainOk(chain: Chain)
  {
    chain.depth <= MAX_CHAIN_DEPTH && |chain.visited| == chain.depth + 1
  }

  /**
   * Send k of a run that began at clock t0 with `base` cached: it is allowed, its chain has distinct members
   * and at most nine of them, every response it references was there before it, and nothing saved is resent.
   */
  ghost predicate SendOk(w: World, base: set<Id>, t0: nat, log: seq<Send>, k: nat)
    requires k < |log|
  {
    var s := log[k];
    s.id in w.nodes && w.allowed(s.id, t0 + k) && ChainOk(s.chain) && s.id in s.chain.visited &&
    (s.id in base ==> s.chain.depth == 0) &&
    (forall r :: r in w.nodes[s.id].Refs() ==> r.target.Some? && r.target.value in base + Saved(log[..k])) &&
    (forall j :: 0 <= j < k && log[j].saved ==> log[j].id != s.id) &&
    (s.saved <==> w.outcome(s.id, t0 + k).Replied?)
  }

  ghost predicate Wf(w: World, base: set<Id>, t0: nat, st: State)
  {
    st.cache.Keys == base + Saved(st.log) && st.clock == t0 + |st.log| &&
    forall k :: 0 <= k < |st.log| ==> SendOk(w, base, t0, st.log, k)
  }

  /** The later state only adds sends, none of them for a member of `avoid`. */
  ghost predicate Extends(st: State, st': State, avoid: set<Id>)
  {
    st.log <= st'.log && st.cache.Keys <= st'.cache.Keys &&
    forall k :: |st.log| <= k < |st'.log| ==> st'.log[k].id !in avoid
  }

  function Visited(prev: Option<Chain>): set<Id>
  {
    if prev.Some? then prev.value.visited else {}
  }

  lemma SendKeepsWf(w: World, base: set<Id>, t0: nat, id: Id, chain: Chain, st: State)
    requires Wf(w, base, t0, st) && id in w.nodes && w.allowed(id, st.clock) && ChainOk(chain) && id in chain.visited
    requires id in base ==> chain.depth == 0
    requires id !in Saved(st.log)
    requires forall r :: r in w.nodes[id].Refs() ==> r.target.Some? && r.target.value in st.cache
    ensures var (r, st') := Execute(w, id, chain, st);
      Wf(w, base, t0, st') && st'.log == st.log + [Send(id, chain, r.Ok?)] &&
      st.cache.Keys <= st'.cache.Keys && (r.Ok? ==> id in st'.cache)
  {
    var (r, st') := Execute(w, id, chain, st);
    var n := |st.log|;
    assert st'.log[..n] == st.log && st'.log[n] == Send(id, chain, r.Ok?);
    assert Saved(st'.log) == Saved(st.log) + if r.Ok? then {id} else {};
    forall k | 0 <= k < |st'.log| ensures SendOk(w, base, t0, st'.log, k) {
      if k < n {
        assert SendOk(w, base, t0, st.log, k) && st'.log[..k] == st.log[..k];
      }
    }
  }

  /** What resolving a request's own references, fields first, leaves behind. */
  ghost predicate Prepared(w: World, base: set<Id>, t0: nat, id: Id, chain: Chain, st: State)
    requires id in w.nodes
  {
    var (fieldsErr, st1) := ResolveAll(w, w.nodes[id].fields, chain, st);
    var (authErr, st2) := ResolveAll(w, w.nodes[id].auth, chain, st1);
    Wf(w, base, t0, st1) && Extends(st, st1, chain.visited) &&
    (fieldsErr.None? ==> Wf(w, base, t0, st2) && Extends(st, st2, chain.visited) && id !in Saved(st2.log)) &&
    (fieldsErr.None? && authErr.None? ==>
       forall r :: r in w.nodes[id].Refs() ==> r.target.Some? && r.target.value in st2.cache)
  }

  lemma {:induction false} PrepareKeepsWf(w: World, base: set<Id>, t0: nat, id: Id, chain: Chain, st: State)
    requires Wf(w, base, t0, st) && id !in Saved(st.log) && ChainOk(chain) && id in chain.visited && id in w.nodes
    ensures Prepared(w, base, t0, id, chain, st)
    decreases Budget(Some(chain)), 3, 0
  {
    var node := w.nodes[id];
    ResolveAllKeepsWf(w, base, t0, node.fields, chain, st);
    var (fieldsErr, st1) := ResolveAll(w, node.fields, chain, st);
    NewSendsAvoid(st, st1, chain.visited, id);
    if fieldsErr.None? {
      ResolveAllKeepsWf(w, base, t0, node.auth, chain, st1);
      var (authErr, st2) := ResolveAll(w, node.auth, chain, st1);
      NewSendsAvoid(st1, st2, chain.visited, id);
      ExtendsTransitive(st, st1, st2, chain.visited);
    }
  }

  lemma FewerAvoided(a: State, b: State, avoid: set<Id>, fewer: set<Id>)
    requires Extends(a, b, avoid) && fewer <= avoid
    ensures Extends(a, b, fewer)
  {
  }

  /** What a run that gets as far as its own chain gives. */
  lemma RunIs(w: World, id: Id, prev: Option<Chain>, st: State, chain: Chain)
    requires WithChainRequest(prev, id) == Ok(chain) && id in w.nodes
    ensures var (fieldsErr, st1) := ResolveAll(w, w.nodes[id].fields, chain, st);
      var (authErr, st2) := ResolveAll(w, w.nodes[id].auth, chain, st1);
      var r := Run(w, id, prev, st);
      if fieldsErr.Some? then r == (Err(fieldsErr.value), st1)
      else if authErr.Some? then r == (Err(authErr.value), st2)
      else if !w.allowed(id, st2.clock) then r == (Err(NotAllowed), st2)
      else r == Execute(w, id, chain, st2)
  {
  }

  lemma {:induction false} RunKeepsWf(w: World, base: set<Id>, t0: nat, id: Id, prev: Option<Chain>, st: State)
    requires Wf(w, base, t0, st) && id !in Saved(st.log)
    requires prev.Some? ==> ChainOk(prev.value) && id !in base
    ensures var (r, st') := Run(w, id, prev, st);
      Wf(w, base, t0, st') && Extends(st, st', Visited(prev)) &&
      (r.Ok? ==> id in st'.cache && |st'.log| > |st.log| && st'.log[|st'.log| - 1].id == id)
    decreases Budget(prev), 1, 0
  {
    var c := WithChainRequest(prev, id);
    if c.Ok? && id in w.nodes {
      var chain := c.value;
      ChainGrows(prev, id, chain);
      PrepareKeepsWf(w, base, t0, id, chain, st);
      RunIs(w, id, prev, st, chain);
      var (fieldsErr, st1) := ResolveAll(w, w.nodes[id].fields, chain, st);
      var (authErr, st2) := ResolveAll(w, w.nodes[id].auth, chain, st1);
      FewerAvoided(st, st1, chain.visited, Visited(prev));
      if fieldsErr.None? {
        FewerAvoided(st, st2, chain.visited, Visited(prev));
        if authErr.None? && w.allowed(id, st2.clock) {
          SendKeepsWf(w, base, t0, id, chain, st2);
          var st3 := Execute(w, id, chain, st2).1;
          SendExtends(w, id, chain, st2, Visited(prev));
          ExtendsTransitive(st, st2, st3, Visited(prev));
        }
      }
    }
  }

  lemma ChainGrows(prev: Option<Chain>, id: Id, chain: Chain)
    requires WithChainRequest(prev, id) == Ok(chain) && (prev.Some? ==> ChainOk(prev.value))
    ensures ChainOk(chain) && chain.visited == Visited(prev) + {id} && id !in Visited(prev)
    ensures Budget(Some(chain)) < Budget(prev) && (prev.None? ==> chain.depth == 0)
  {
  }

  lemma SendExtends(w: World, id: Id, chain: Chain, st: State, avoid: set<Id>)
    requires id !in avoid
    ensures Extends(st, Execute(w, id, chain, st).1, avoid)
  {
  }

  lemma ExtendsTransitive(a: State, b: State, c: State, avoid: set<Id>)
    requires Extends(a, b, avoid) && Extends(b, c, avoid)
    ensures Extends(a, c, avoid)
  {
  }

  lemma NewSendsAvoid(a: State, b: State, avoid: set<Id>, id: Id)
    requires Extends(a, b, avoid) && id in avoid && id !in Saved(a.log)
    ensures id !in Saved(b.log)
    ensures forall fewer :: fewer <= avoid ==> Extends(a, b, fewer)
  {
  }

  lemma {:induction false} ResolveAllKeepsWf(w: World, base: set<Id>, t0: nat, refs: seq<Ref>, chain: Chain, st: State)
    requires Wf(w, base, t0, st) && ChainOk(chain)
    ensures var (failure, st') := ResolveAll(w, refs, chain, st);
      Wf(w, base, t0, st') && Extends(st, st', chain.visited) &&
      (failure.None? ==> forall r :: r in refs ==> r.target.Some? && r.target.value in st'.cache)
    decreases Budget(Some(chain)), 2, |refs|
  {
    if refs != [] {
      var ref := refs[0];
      if ref.target.Some? && ref.target.value !in st.cache {
        RunKeepsWf(w, base, t0, ref.target.value, Some(chain), st);
      }
      var (_, st1) := ResolveChainRef(w, ref, chain, st);
      ResolveAllKeepsWf(w, base, t0, refs[1..], chain, st1);
    }
  }

  /** One whole run from outside, with any response cache. */
  function TopRun(w: World, id: Id, cache: map<Id, Response>, t0: nat): (Result<Response, Failure>, State)
  {
    Run(w, id, None, State(cache, [], t0))
  }

  lemma TopRunWf(w: World, id: Id, cache: map<Id, Response>, t0: nat)
    ensures var (r, st) := TopRun(w, id, cache, t0);
      Wf(w, cache.Keys, t0, st) && (r.Ok? ==> st.log != [] && st.log[|st.log| - 1].id == id)
  {
    RunKeepsWf(w, cache.Keys, t0, id, None, State(cache, [], t0));
  }

  // ---- The promises ---------------------------------------------------------

  /** Every send happens inside a chain of at most nine distinct requests, its own included. */
  lemma ChainsAreShortAndDistinct(w: World, id: Id, cache: map<Id, Response>, t0: nat, k: nat)
    requires k < |TopRun(w, id, cache, t0).1.log|
    ensures var s := TopRun(w, id, cache, t0).1.log[k];
      |s.chain.visited| == s.chain.depth + 1 <= 9 && s.id in s.chain.visited
  {
    TopRunWf(w, id, cache, t0);
    assert SendOk(w, cache.Keys, t0, TopRun(w, id, cache, t0).1.log, k);
  }

  /** Nothing is sent that auth, script or policy refuses at that moment. */
  lemma OnlyAllowedAreSent(w: World, id: Id, cache: map<Id, Response>, t0: nat, k: nat)
    requires k < |TopRun(w, id, cache, t0).1.log|
    ensures w.allowed(TopRun(w, id, cache, t0).1.log[k].id, t0 + k)
  {
    TopRunWf(w, id, cache, t0);
    assert SendOk(w, cache.Keys, t0, TopRun(w, id, cache, t0).1.log, k);
  }

  /** Every response a request references was cached at the start or saved by an earlier send. */
  lemma ReferencesAreSavedFirst(w: World, id: Id, cache: map<Id, Response>, t0: nat, k: nat)
    requires k < |TopRun(w, id, cache, t0).1.log|
    ensures var log := TopRun(w, id, cache, t0).1.log;
      log[k].id in w.nodes && forall r :: r in w.nodes[log[k].id].Refs() ==>
        r.target.Some? && (r.target.value in cache ||
          exists j :: 0 <= j < k && log[j].id == r.target.value && log[j].saved)
  {
    TopRunWf(w, id, cache, t0);
    var log := TopRun(w, id, cache, t0).1.log;
    assert SendOk(w, cache.Keys, t0, log, k);
    forall r | r in w.nodes[log[k].id].Refs() && r.target.value !in cache
      ensures exists j :: 0 <= j < k && log[j].id == r.target.value && log[j].saved
    {
      var s :| s in log[..k] && s.saved && s.id == r.target.value;
      var j :| 0 <= j < k && log[..k][j] == s;
      assert log[j] == s;
    }
  }

  /** A cached response is never refetched below the top, and a saved one is never sent again. */
  lemma NothingAvailableIsResent(w: World, id: Id, cache: map<Id, Response>, t0: nat, k: nat)
    requires k < |TopRun(w, id, cache, t0).1.log|
    ensures var log := TopRun(w, id, cache, t0).1.log;
      (log[k].id in cache ==> log[k].chain.depth == 0) &&
      forall j :: 0 <= j < k && log[j].id == log[k].id ==> !log[j].saved
  {
    TopRunWf(w, id, cache, t0);
    assert SendOk(w, cache.Keys, t0, TopRun(w, id, cache, t0).1.log, k);
  }

  ghost predicate SentOnce(log: seq<Send>)
  {
    forall j, k :: 0 <= j < k < |log| ==> log[j].id != log[k].id
  }

  /** Over every workspace, refusal of requests, cache and starting point, no request is sent twice in one run. */
  ghost predicate AlwaysSentOnce(outcome: (Id, nat) -> Outcome)
  {
    forall w: World, id, cache, t0 :: w.outcome == outcome ==> SentOnce(TopRun(w, id, cache, t0).1.log)
  }

  const OPEN: (Id, nat) -> bool := (id, t) => true

  /**
   * At most one send per request and run, whatever auth, scripts and policy refuse: exactly for
   * transports that never fail.
   */
  lemma AtMostOnceIffNothingFails(outcome: (Id, nat) -> Outcome)
    ensures AlwaysSentOnce(outcome) <==> forall id, t :: outcome(id, t).Replied?
  {
    if forall id, t :: outcome(id, t).Replied? {
      forall w: World, id, cache, t0 | w.outcome == outcome
        ensures SentOnce(TopRun(w, id, cache, t0).1.log)
      {
        TopRunWf(w, id, cache, t0);
        var log := TopRun(w, id, cache, t0).1.log;
        forall j, k | 0 <= j < k < |log| ensures log[j].id != log[k].id {
          assert SendOk(w, cache.Keys, t0, log, j) && SendOk(w, cache.Keys, t0, log, k);
        }
      }
    } else {
      var id, t :| outcome(id, t).Failed?;
      var w := World(TwiceReferenced(id), OPEN, outcome, (r, p) => None);
      FailedReferenceIsResent(w, id, t);
      assert w.outcome == outcome && !SentOnce(TopRun(w, id + "'", map[], t).1.log);
    }
  }

  /** A request naming `id` twice. */
  function TwiceReferenced(id: Id): map<Id, Node>
  {
    map[id := Node([], []), id + "'" := Node([Ref(Some(id), ""), Ref(Some(id), "")], [])]
  }

  lemma FailedReferenceIsResent(w: World, id: Id, t: nat)
    requires w.nodes == TwiceReferenced(id) && w.allowed == OPEN && w.outcome(id, t).Failed?
    ensures var log := TopRun(w, id + "'", map[], t).1.log;
      |log| >= 2 && log[0].id == id && log[1].id == id && !SentOnce(log)
  {
    var top, ref := id + "'", Ref(Some(id), "");
    assert top != id;
    var chain := Chain(0, {top});
    var below := Chain(1, {top} + {id});
    var s0 := State(map[], [], t);
    assert Run(w, id, Some(chain), s0) == Execute(w, id, below, s0);
    var s1 := Execute(w, id, below, s0).1;
    assert Run(w, id, Some(chain), s1) == Execute(w, id, below, s1);
    assert ResolveChainRef(w, ref, chain, s0) == (Err(SendFailed), s1);
    assert ResolveChainRef(w, ref, chain, s1).1 == Execute(w, id, below, s1).1;
    assert [ref, ref][1..] == [ref] && [ref][1..] == [];
    var s2 := Execute(w, id, below, s1).1;
    assert ResolveAll(w, [ref], chain, s1).1 == s2;
    assert ResolveAll(w, [ref, ref], chain, s0) == (Some(SendFailed), s2);
    assert {} + {top} == {top};
    assert TopRun(w, top, map[], t).1 == s2;
  }

  /** No such request, or one with a reference that has no target or a target in d. */
  ghost predicate Stuck(w: World, d: set<Id>, x: Id)
  {
    x in w.nodes ==> exists r :: r in w.nodes[x].Refs() && (r.target.None? || r.target.value in d)
  }

  /** Uncached requests that wait for one another, or for nobody. */
  ghost predicate Doomed(w: World, cache: map<Id, Response>, d: set<Id>)
  {
    forall x :: x in d ==> x !in cache && Stuck(w, d, x)
  }

  lemma {:induction false} StuckNotSent(
      w: World, id: Id, cache: map<Id, Response>, t0: nat, d: set<Id>, k: nat)
    requires Doomed(w, cache, d) && k < |TopRun(w, id, cache, t0).1.log|
    ensures !Stuck(w, d, TopRun(w, id, cache, t0).1.log[k].id)
    decreases k
  {
    var log := TopRun(w, id, cache, t0).1.log;
    var x := log[k].id;
    ReferencesAreSavedFirst(w, id, cache, t0, k);
    if Stuck(w, d, x) {
      var r :| r in w.nodes[x].Refs() && (r.target.None? || r.target.value in d);
      var j :| 0 <= j < k && log[j].id == r.target.value && log[j].saved;
      StuckNotSent(w, id, cache, t0, d, j);
    }
  }

  /**
   * Whatever request a run starts at, nothing stuck on a doomed set is ever sent, and starting at
   * something stuck, itself cached or not, fails.
   */
  lemma DoomedNeverSend(w: World, id: Id, cache: map<Id, Response>, t0: nat, d: set<Id>)
    requires Doomed(w, cache, d)
    ensures var (r, st) := TopRun(w, id, cache, t0);
      (forall s :: s in st.log ==> !Stuck(w, d, s.id) && s.id !in d) && (Stuck(w, d, id) ==> r.Err?)
  {
    var (r, st) := TopRun(w, id, cache, t0);
    forall s | s in st.log ensures !Stuck(w, d, s.id) {
      var k :| 0 <= k < |st.log| && st.log[k] == s;
      StuckNotSent(w, id, cache, t0, d, k);
    }
    TopRunWf(w, id, cache, t0);
    assert r.Ok? ==> st.log[|st.log| - 1] in st.log;
  }

  predicate Refers(w: World, x: Id, y: Id)
  {
    x in w.nodes && exists r :: r in w.nodes[x].Refs() && r.target == Some(y)
  }

  /** A chain of uncached requests, each referencing the next, that runs back into itself at position `back`. */
  ghost predicate ClosedChain(w: World, cache: map<Id, Response>, chain: seq<Id>, back: nat)
  {
    back < |chain| && Refers(w, chain[|chain| - 1], chain[back]) &&
    (forall i :: 0 <= i < |chain| ==> chain[i] !in cache) &&
    forall i :: 0 <= i < |chain| - 1 ==> Refers(w, chain[i], chain[i + 1])
  }

  /**
   * A cycle through uncached requests: wherever a run starts, no member of a chain that leads into the
   * cycle, the cycle included, is ever sent; starting at any member, or at a request, cached or not,
   * that references a member, is an error.
   */
  lemma CyclesNeverSend(w: World, id: Id, cache: map<Id, Response>, t0: nat, chain: seq<Id>, back: nat)
    requires ClosedChain(w, cache, chain, back)
    ensures var (r, st) := TopRun(w, id, cache, t0);
      (forall s :: s in st.log ==> s.id !in chain && forall i :: 0 <= i < |chain| ==> !Refers(w, s.id, chain[i])) &&
      (id in chain || (exists i :: 0 <= i < |chain| && Refers(w, id, chain[i])) ==> r.Err?)
  {
    var d := set x | x in chain;
    forall x | x in d ensures Stuck(w, d, x) {
      var i :| 0 <= i < |chain| && chain[i] == x;
      var next := if i == |chain| - 1 then chain[back] else chain[i + 1];
      assert Refers(w, x, next) && next in d;
    }
    assert forall x, i :: 0 <= i < |chain| && Refers(w, x, chain[i]) ==> chain[i] in d && Stuck(w, d, x);
    DoomedNeverSend(w, id, cache, t0, d);
  }

  // ---- When a run succeeds --------------------------------------------------

  /** Whatever this response cache holds for `id`, or its transport may answer, has a value at `path`. */
  ghost predicate Readable(w: World, cache: map<Id, Response>, id: Id, path: string)
  {
    (id in cache ==> w.extract(cache[id], path).Some?) &&
    forall t :: w.outcome(id, t).Replied? ==> w.extract(w.outcome(id, t).resp, path).Some?
  }

  ghost predicate HealthyRequest(w: World, cache: map<Id, Response>, height: map<Id, nat>, x: Id)
    requires x in height
  {
    x in w.nodes && (forall t :: w.allowed(x, t) && w.outcome(x, t).Replied?) &&
    forall r :: r in w.nodes[x].Refs() ==> HealthyRef(w, cache, height, height[x], r)
  }

  ghost predicate HealthyRef(w: World, cache: map<Id, Response>, height: map<Id, nat>, above: nat, r: Ref)
  {
    r.target.Some? &&
    (r.target.value in cache || (r.target.value in height && height[r.target.value] < above)) &&
    Readable(w, cache, r.target.value, r.path)
  }

  /**
   * `height` bounds the uncached references below each of its requests: all of them exist, are
   * allowed, answer, and refer only to cached requests or to requests of smaller height.
   */
  ghost predicate Healthy(w: World, cache: map<Id, Response>, height: map<Id, nat>)
  {
    forall x :: x in height ==> HealthyRequest(w, cache, height, x)
  }

  ghost predicate Sourced(w: World, cache: map<Id, Response>, st: State)
  {
    cache.Keys <= st.cache.Keys && forall x :: x in st.cache ==>
      (x in cache && st.cache[x] == cache[x]) || exists t :: w.outcome(x, t) == Replied(st.cache[x])
  }

  lemma {:induction false} HealthyRunSucceeds(
      w: World, cache: map<Id, Response>, height: map<Id, nat>, id: Id, prev: Option<Chain>, st: State)
    requires Healthy(w, cache, height) && id in height && Sourced(w, cache, st)
    requires forall v :: v in Visited(prev) && v in height ==> height[v] > height[id]
    requires (if prev.Some? then prev.value.depth + 1 else 0) + height[id] <= MAX_CHAIN_DEPTH
    ensures var (r, st') := Run(w, id, prev, st);
      r.Ok? && Sourced(w, cache, st') && exists t :: w.outcome(id, t) == Replied(r.value)
    decreases Budget(prev), 1, 0
  {
    assert HealthyRequest(w, cache, height, id);
    var chain := WithChainRequest(prev, id).value;
    var node := w.nodes[id];
    HealthyRefsSucceed(w, cache, height, id, node.fields, chain, st);
    var st1 := ResolveAll(w, node.fields, chain, st).1;
    HealthyRefsSucceed(w, cache, height, id, node.auth, chain, st1);
    var st2 := ResolveAll(w, node.auth, chain, st1).1;
    assert w.outcome(id, st2.clock).Replied?;
  }

  lemma {:induction false} HealthyRefsSucceed(
      w: World, cache: map<Id, Response>, height: map<Id, nat>, id: Id, refs: seq<Ref>, chain: Chain, st: State)
    requires Healthy(w, cache, height) && id in height && Sourced(w, cache, st)
    requires forall r :: r in refs ==> r in w.nodes[id].Refs()
    requires forall v :: v in chain.visited && v in height ==> height[v] >= height[id]
    requires chain.depth + height[id] <= MAX_CHAIN_DEPTH
    ensures var (failure, st') := ResolveAll(w, refs, chain, st); failure.None? && Sourced(w, cache, st')
    decreases Budget(Some(chain)), 2, |refs|
  {
    if refs != [] {
      var ref := refs[0];
      assert ref in w.nodes[id].Refs();
      assert HealthyRequest(w, cache, height, id) && HealthyRef(w, cache, height, height[id], ref);
      var target := ref.target.value;
      if target !in st.cache {
        HealthyRunSucceeds(w, cache, height, target, Some(chain), st);
      }
      HealthyRefsSucceed(w, cache, height, id, refs[1..], chain, ResolveChainRef(w, ref, chain, st).1);
    }
  }

  /** The partner of the guards: up to nine levels of healthy, acyclic references are sent without error. */
  lemma ShallowAcyclicRunSucceeds(w: World, cache: map<Id, Response>, height: map<Id, nat>, id: Id, t0: nat)
    requires Healthy(w, cache, height) && id in height && height[id] <= MAX_CHAIN_DEPTH
    ensures TopRun(w, id, cache, t0).0.Ok?
  {
    HealthyRunSucceeds(w, cache, height, id, None, State(cache, [], t0));
  }

  /** Requests that each reference the next, none of them cached and all of them healthy. */
  ghost predicate Line(w: World, cache: map<Id, Response>, line: seq<Id>)
  {
    line != [] && forall i :: 0 <= i < |line| ==>
      line[i] in w.nodes && line[i] !in cache &&
      (forall t :: w.allowed(line[i], t) && w.outcome(line[i], t).Replied?) &&
      Readable(w, cache, line[i], "") &&
      w.nodes[line[i]] == Node(if i + 1 < |line| then [Ref(Some(line[i + 1]), "")] else [], [])
  }

  lemma OneRefFails(w: World, target: Id, chain: Chain, st: State)
    requires target !in st.cache && Run(w, target, Some(chain), st).0.Err? && Run(w, target, Some(chain), st).1 == st
    ensures var (failure, st') := ResolveAll(w, [Ref(Some(target), "")], chain, st); failure.Some? && st' == st
  {
    var ref := Ref(Some(target), "");
    assert [ref][1..] == [];
    assert ResolveAll(w, [], chain, st) == (None, st);
    assert ResolveChainRef(w, ref, chain, st) == (Err(Run(w, target, Some(chain), st).0.error), st);
  }

  lemma {:induction false} LongLineFails(
      w: World, line: seq<Id>, i: nat, prev: Option<Chain>, st: State)
    requires Line(w, st.cache, line) && i < |line| && |line| > MAX_CHAIN_DEPTH + 1
    requires if i == 0 then prev.None? else prev.Some? && prev.value.depth == i - 1
    ensures Run(w, line[i], prev, st).0.Err? && Run(w, line[i], prev, st).1 == st
    decreases |line| - i
  {
    var c := WithChainRequest(prev, line[i]);
    if c.Ok? {
      LongLineFails(w, line, i + 1, Some(c.value), st);
      assert w.nodes[line[i]].fields == [Ref(Some(line[i + 1]), "")];
      OneRefFails(w, line[i + 1], c.value, st);
      RunIs(w, line[i], prev, st, c.value);
    }
  }

  /** How far each member of a line is from its end. */
  function LineHeight(line: seq<Id>): map<Id, nat>
    requires forall i, j :: 0 <= i < j < |line| ==> line[i] != line[j]
  {
    map i | 0 <= i < |line| :: line[i] := |line| - 1 - i
  }

  lemma LineMemberHealthy(w: World, cache: map<Id, Response>, line: seq<Id>, i: nat)
    requires Line(w, cache, line) && i < |line|
    requires forall i, j :: 0 <= i < j < |line| ==> line[i] != line[j]
    ensures HealthyRequest(w, cache, LineHeight(line), line[i])
  {
    var height := LineHeight(line);
    assert line[i] in height;
    if i + 1 < |line| {
      assert line[i + 1] in height && height[line[i + 1]] < height[line[i]];
      assert w.nodes[line[i]].Refs() == [Ref(Some(line[i + 1]), "")];
    } else {
      assert w.nodes[line[i]].Refs() == [];
    }
  }

  /** The depth cap is exact: a line of distinct uncached requests is sent when it has at most nine members. */
  lemma LineSucceedsIffNine(w: World, cache: map<Id, Response>, line: seq<Id>, t0: nat)
    requires Line(w, cache, line)
    requires forall i, j :: 0 <= i < j < |line| ==> line[i] != line[j]
    ensures TopRun(w, line[0], cache, t0).0.Ok? <==> |line| <= 9
  {
    if |line| <= 9 {
      var height := LineHeight(line);
      forall x | x in height ensures HealthyRequest(w, cache, height, x) {
        var i: nat :| i < |line| && x == line[i];
        LineMemberHealthy(w, cache, line, i);
      }
      assert line[0] in height;
      ShallowAcyclicRunSucceeds(w, cache, height, line[0], t0);
    } else {
      LongLineFails(w, line, 0, None, State(cache, [], t0));
    }
  }

  // ---- What a run and a reference give --------------------------------------

  /** The last send was this request's, and its answer, now cached, is `resp`. */
  ghost predicate AnsweredLast(w: World, id: Id, resp: Response, st: State)
  {
    id in st.cache && st.cache[id] == resp && st.log != [] && st.log[|st.log| - 1].id == id &&
    st.log[|st.log| - 1].saved && st.clock > 0 && w.outcome(id, st.clock - 1) == Replied(resp)
  }

  lemma RunGivesTheAnswer(w: World, id: Id, prev: Option<Chain>, st: State)
    ensures var (r, st') := Run(w, id, prev, st); r.Ok? ==> AnsweredLast(w, id, r.value, st')
  {
  }

  /** A reference to a cached response is read out of it; nothing else changes. */
  lemma CachedReferenceIs(w: World, ref: Ref, chain: Chain, st: State)
    requires ref.target.Some? && ref.target.value in st.cache
    ensures var (v, st') := ResolveChainRef(w, ref, chain, st);
      st' == st && forall s :: v == Ok(s) <==> w.extract(st.cache[ref.target.value], ref.path) == Some(s)
  {
  }

  /** The value is at that path of the answer to the last send, which was this request's and is cached. */
  ghost predicate ReadsOutOfAnswer(w: World, path: string, id: Id, value: string, st: State)
  {
    id in st.cache && w.extract(st.cache[id], path) == Some(value) && AnsweredLast(w, id, st.cache[id], st)
  }

  /** Any other is read out of the answer that its own send, the last one made for it, has brought into the cache. */
  lemma SentReferenceIs(w: World, ref: Ref, chain: Chain, st: State)
    requires ref.target.Some? && ref.target.value !in st.cache
    ensures var (v, st') := ResolveChainRef(w, ref, chain, st); var t := ref.target.value;
      v.Ok? ==> ReadsOutOfAnswer(w, ref.path, t, v.value, st')
  {
    RunGivesTheAnswer(w, ref.target.value, Some(chain), st);
  }

  /** Send k answered with this response, which was saved. */
  ghost predicate AnswerOf(w: World, t0: nat, log: seq<Send>, k: nat, x: Id, resp: Response)
  {
    k < |log| && log[k].id == x && log[k].saved && w.outcome(x, t0 + k) == Replied(resp)
  }

  ghost predicate Answered(w: World, t0: nat, st: State, x: Id)
    requires x in st.cache
  {
    exists k: nat :: AnswerOf(w, t0, st.log, k, x, st.cache[x])
  }

  /** Every cached response is a saved send's own answer, or was there at the start and no send has replaced it. */
  ghost predicate HoldsAnswers(w: World, base: map<Id, Response>, t0: nat, st: State)
  {
    st.clock == t0 + |st.log| && forall x :: x in st.cache ==>
      Answered(w, t0, st, x) || (x in base && st.cache[x] == base[x] && x !in Saved(st.log))
  }

  lemma SendHoldsAnswers(w: World, base: map<Id, Response>, t0: nat, id: Id, chain: Chain, st: State)
    requires HoldsAnswers(w, base, t0, st)
    ensures HoldsAnswers(w, base, t0, Execute(w, id, chain, st).1)
  {
    var (r, st') := Execute(w, id, chain, st);
    assert Saved(st'.log) == Saved(st.log) + if r.Ok? then {id} else {};
    forall x | x in st'.cache
      ensures Answered(w, t0, st', x) || (x in base && st'.cache[x] == base[x] && x !in Saved(st'.log))
    {
      if x == id && r.Ok? {
        assert AnswerOf(w, t0, st'.log, |st.log|, x, st'.cache[x]);
      } else if Answered(w, t0, st, x) {
        var k: nat :| AnswerOf(w, t0, st.log, k, x, st.cache[x]);
        assert AnswerOf(w, t0, st'.log, k, x, st'.cache[x]);
      }
    }
  }

  lemma {:induction false} RunHoldsAnswers(
      w: World, base: map<Id, Response>, t0: nat, id: Id, prev: Option<Chain>, st: State)
    requires HoldsAnswers(w, base, t0, st)
    ensures HoldsAnswers(w, base, t0, Run(w, id, prev, st).1)
    decreases Budget(prev), 1, 0
  {
    var c := WithChainRequest(prev, id);
    if c.Ok? && id in w.nodes {
      RefsHoldAnswers(w, base, t0, w.nodes[id].fields, c.value, st);
      var st1 := ResolveAll(w, w.nodes[id].fields, c.value, st).1;
      RefsHoldAnswers(w, base, t0, w.nodes[id].auth, c.value, st1);
      var st2 := ResolveAll(w, w.nodes[id].auth, c.value, st1).1;
      SendHoldsAnswers(w, base, t0, id, c.value, st2);
      RunIs(w, id, prev, st, c.value);
    }
  }

  lemma {:induction false} RefsHoldAnswers(
      w: World, base: map<Id, Response>, t0: nat, refs: seq<Ref>, chain: Chain, st: State)
    requires HoldsAnswers(w, base, t0, st)
    ensures HoldsAnswers(w, base, t0, ResolveAll(w, refs, chain, st).1)
    decreases Budget(Some(chain)), 2, |refs|
  {
    if refs != [] {
      if refs[0].target.Some? && refs[0].target.value !in st.cache {
        RunHoldsAnswers(w, base, t0, refs[0].target.value, Some(chain), st);
      }
      RefsHoldAnswers(w, base, t0, refs[1..], chain, ResolveChainRef(w, refs[0], chain, st).1);
    }
  }

  /** After every run from any cache: each response is that of the request it is cached for, the newest there is. */
  lemma CacheHoldsAnswers(w: World, id: Id, cache: map<Id, Response>, t0: nat)
    ensures HoldsAnswers(w, cache, t0, TopRun(w, id, cache, t0).1)
  {
    RunHoldsAnswers(w, cache, t0, id, None, State(cache, [], t0));
  }

  /** Where resolving stands after the first i references. */
  ghost function Through(w: World, refs: seq<Ref>, chain: Chain, st: State, i: nat): State
    requires i <= |refs|
  {
    if i == 0 then st else ResolveChainRef(w, refs[i - 1], chain, Through(w, refs, chain, st, i - 1)).1
  }

  ghost function ValueAt(w: World, refs: seq<Ref>, chain: Chain, st: State, i: nat): Result<string, Failure>
    requires i < |refs|
  {
    ResolveChainRef(w, refs[i], chain, Through(w, refs, chain, st, i)).0
  }

  lemma {:induction false} ThroughRest(w: World, refs: seq<Ref>, chain: Chain, st: State, i: nat)
    requires i < |refs|
    ensures Through(w, refs, chain, st, i + 1) ==
      Through(w, refs[1..], chain, ResolveChainRef(w, refs[0], chain, st).1, i)
    decreases i
  {
    if i > 0 {
      ThroughRest(w, refs, chain, st, i - 1);
    } else {
      assert Through(w, refs, chain, st, 0) == st;
    }
  }

  ghost predicate FirstFailsAt(w: World, refs: seq<Ref>, chain: Chain, st: State, i: nat, e: Failure)
  {
    i < |refs| && ValueAt(w, refs, chain, st, i) == Err(e) &&
    forall j :: 0 <= j < i ==> ValueAt(w, refs, chain, st, j).Ok?
  }

  /** The failure reported is that of the first reference that fails; every reference is looked up in turn. */
  ghost predicate ReportsFirst(w: World, refs: seq<Ref>, chain: Chain, st: State, failure: Option<Failure>)
  {
    match failure
    case None => forall i :: 0 <= i < |refs| ==> ValueAt(w, refs, chain, st, i).Ok?
    case Some(e) => exists i: nat :: FirstFailsAt(w, refs, chain, st, i, e)
  }

  lemma {:induction false} FirstFailureIsReported(w: World, refs: seq<Ref>, chain: Chain, st: State)
    ensures var (failure, st') := ResolveAll(w, refs, chain, st);
      ReportsFirst(w, refs, chain, st, failure) && st' == Through(w, refs, chain, st, |refs|)
    decreases |refs|
  {
    if refs != [] {
      var (v, st1) := ResolveChainRef(w, refs[0], chain, st);
      var rest := refs[1..];
      FirstFailureIsReported(w, rest, chain, st1);
      ThroughRest(w, refs, chain, st, |rest|);
      assert ValueAt(w, refs, chain, st, 0) == v;
      forall i | 0 <= i < |rest| ensures ValueAt(w, refs, chain, st, i + 1) == ValueAt(w, rest, chain, st1, i) {
        ThroughRest(w, refs, chain, st, i);
      }
      FailureOfRest(w, refs, chain, st);
    }
  }

  lemma FailureOfRest(w: World, refs: seq<Ref>, chain: Chain, st: State)
    requires refs != []
    requires var st1 := ResolveChainRef(w, refs[0], chain, st).1;
      ReportsFirst(w, refs[1..], chain, st1, ResolveAll(w, refs[1..], chain, st1).0) &&
      forall i :: 0 <= i < |refs| - 1 ==> ValueAt(w, refs, chain, st, i + 1) == ValueAt(w, refs[1..], chain, st1, i)
    ensures ReportsFirst(w, refs, chain, st, ResolveAll(w, refs, chain, st).0)
  {
    var (v, st1) := ResolveChainRef(w, refs[0], chain, st);
    var rest := ResolveAll(w, refs[1..], chain, st1).0;
    assert ValueAt(w, refs, chain, st, 0) == v;
    if v.Err? {
      assert FirstFailsAt(w, refs, chain, st, 0, v.error);
    } else {
      if rest.Some? {
        var i: nat :| FirstFailsAt(w, refs[1..], chain, st1, i, rest.value);
        assert ValueAt(w, refs, chain, st, i + 1) == Err(rest.value);
        forall j | 0 <= j < i + 1 ensures ValueAt(w, refs, chain, st, j).Ok? {
          assert j > 0 ==> ValueAt(w, refs, chain, st, j - 1 + 1) == ValueAt(w, refs[1..], chain, st1, j - 1);
        }
        assert FirstFailsAt(w, refs, chain, st, i + 1, rest.value);
      } else {
        forall j | 0 <= j < |refs| ensures ValueAt(w, refs, chain, st, j).Ok? {
          assert j > 0 ==> ValueAt(w, refs, chain, st, j - 1 + 1) == ValueAt(w, refs[1..], chain, st1, j - 1);
        }
      }
    }
  }

  // ---- What an error means --------------------------------------------------

  /** Each request of the list references the next. */
  ghost predicate Path(w: World, p: seq<Id>)
  {
    p != [] && forall i :: 0 <= i < |p| - 1 ==> Refers(w, p[i], p[i + 1])
  }

  /**
   * The last request of a path is what the error says, the first one being `above` requests below the top
   * and `visited` being those above it.
   */
  ghost predicate Explains(w: World, above: nat, visited: set<Id>, p: seq<Id>, e: Failure)
    requires p != []
  {
    var x := p[|p| - 1];
    match e
    case Cycle(id) => id == x && (x in visited || x in p[..|p| - 1])
    case TooDeep => above + |p| > 9
    case UnknownRequest => x !in w.nodes
    case UnknownName => x in w.nodes && exists r :: r in w.nodes[x].Refs() && r.target.None?
    case NoValue => x in w.nodes && exists r :: r in w.nodes[x].Refs() && Unreadable(w, r)
    case NotAllowed => x in w.nodes && exists t :: !w.allowed(x, t)
    case SendFailed => exists t :: w.outcome(x, t).Failed?
  }

  ghost predicate Unreadable(w: World, r: Ref)
  {
    exists resp :: w.extract(resp, r.path).None?
  }

  function AboveOf(prev: Option<Chain>): nat
  {
    if prev.Some? then prev.value.depth + 1 else 0
  }

  lemma PathFurther(w: World, id: Id, p: seq<Id>, above: nat, visited: set<Id>, e: Failure)
    requires Path(w, p) && Refers(w, id, p[0]) && Explains(w, above + 1, visited + {id}, p, e)
    ensures Path(w, [id] + p) && Explains(w, above, visited, [id] + p, e)
  {
    var q := [id] + p;
    assert q[..|q| - 1] == [id] + p[..|p| - 1];
    assert q[|q| - 1] == p[|p| - 1] && q[0] == id && q[1] == p[0];
    forall i | 0 <= i < |q| - 1 ensures Refers(w, q[i], q[i + 1]) {
      assert i > 0 ==> q[i] == p[i - 1] && q[i + 1] == p[i];
      assert i > 0 ==> Refers(w, p[i - 1], p[(i - 1) + 1]);
    }
  }

  /** Every error of a run is true of a request it came to along references. */
  lemma {:induction false} RunErrorIsTrue(w: World, id: Id, prev: Option<Chain>, st: State) returns (p: seq<Id>)
    requires Run(w, id, prev, st).0.Err?
    ensures Path(w, p) && p[0] == id && Explains(w, AboveOf(prev), Visited(prev), p, Run(w, id, prev, st).0.error)
    decreases Budget(prev), 1, 0
  {
    p := [id];
    var c := WithChainRequest(prev, id);
    if c.Ok? && id in w.nodes {
      var node, chain := w.nodes[id], c.value;
      RunIs(w, id, prev, st, chain);
      var (fieldsErr, st1) := ResolveAll(w, node.fields, chain, st);
      var (authErr, st2) := ResolveAll(w, node.auth, chain, st1);
      if fieldsErr.Some? {
        p := RefErrorIsTrue(w, id, prev, node.fields, chain, st);
      } else if authErr.Some? {
        p := RefErrorIsTrue(w, id, prev, node.auth, chain, st1);
      }
    }
  }

  lemma {:induction false} RefErrorIsTrue(
      w: World, id: Id, prev: Option<Chain>, refs: seq<Ref>, chain: Chain, st: State) returns (p: seq<Id>)
    requires WithChainRequest(prev, id) == Ok(chain) && id in w.nodes
    requires (forall r :: r in refs ==> r in w.nodes[id].Refs()) && ResolveAll(w, refs, chain, st).0.Some?
    ensures Path(w, p) && p[0] == id &&
      Explains(w, AboveOf(prev), Visited(prev), p, ResolveAll(w, refs, chain, st).0.value)
    decreases Budget(Some(chain)), 2, |refs|
  {
    var ref := refs[0];
    var (v, st1) := ResolveChainRef(w, ref, chain, st);
    assert ref in w.nodes[id].Refs();
    p := [id];
    if v.Ok? {
      p := RefErrorIsTrue(w, id, prev, refs[1..], chain, st1);
    } else if ref.target.Some? && ref.target.value !in st.cache && Run(w, ref.target.value, Some(chain), st).0.Err? {
      var q := RunErrorIsTrue(w, ref.target.value, Some(chain), st);
      assert Refers(w, id, ref.target.value) && chain.depth + 1 == AboveOf(prev) + 1;
      PathFurther(w, id, q, AboveOf(prev), Visited(prev), v.error);
      p := [id] + q;
    } else if ref.target.Some? {
      assert Unreadable(w, ref);
    }
  }

  // ---- The engine that updates its store ------------------------------------

  class Engine {
    var cache: map<Id, Response>
    var log: seq<Send>
    var clock: nat

    ghost function Now(): State
      reads this
    {
      State(cache, log, clock)
    }

    constructor (stored: map<Id, Response>)
      ensures Now() == State(stored, [], 0)
    {
      cache, log, clock := stored, [], 0;
    }

    method RunRequest(w: World, id: Id, prev: Option<Chain>) returns (r: Result<Response, Failure>)
      modifies this
      ensures (r, Now()) == Run(w, id, prev, old(Now()))
      ensures r.Ok? ==> AnsweredLast(w, id, r.value, Now())
      decreases Budget(prev), 1, 0
    {
      var c := WithChainRequest(prev, id);
      if c.Err? {
        return Err(c.error);
      }
      if id !in w.nodes {
        return Err(UnknownRequest);
      }
      var failure := ResolveRefs(w, w.nodes[id].fields, c.value);
      if failure.Some? {
        return Err(failure.value);
      }
      failure := ResolveRefs(w, w.nodes[id].auth, c.value);
      if failure.Some? {
        return Err(failure.value);
      }
      if !w.allowed(id, clock) {
        return Err(NotAllowed);
      }
      var outcome := w.outcome(id, clock);
      clock := clock + 1;
      if outcome.Failed? {
        log := log + [Send(id, c.value, false)];
        return Err(SendFailed);
      }
      cache := cache[id := outcome.resp];
      log := log + [Send(id, c.value, true)];
      return Ok(outcome.resp);
    }

    method ResolveRefs(w: World, refs: seq<Ref>, chain: Chain) returns (firstErr: Option<Failure>)
      modifies this
      ensures (firstErr, Now()) == ResolveAll(w, refs, chain, old(Now()))
      decreases Budget(Some(chain)), 2, |refs| + 1
    {
      firstErr := None;
      for i := 0 to |refs|
        invariant var (rest, st) := ResolveAll(w, refs[i..], chain, Now());
          ResolveAll(w, refs, chain, old(Now())) == (if firstErr.Some? then firstErr else rest, st)
      {
        assert refs[i..][1..] == refs[i + 1..];
        var v := Lookup(w, refs[i], chain);
        if v.Err? && firstErr.None? {
          firstErr := Some(v.error);
        }
      }
    }

    method Lookup(w: World, ref: Ref, chain: Chain) returns (v: Result<string, Failure>)
      modifies this
      ensures (v, Now()) == ResolveChainRef(w, ref, chain, old(Now()))
      ensures ref.target.Some? && ref.target.value in old(cache) ==> Now() == old(Now())
      ensures ref.target.Some? && ref.target.value in old(cache) ==>
        forall s :: v == Ok(s) <==> w.extract(old(cache)[ref.target.value], ref.path) == Some(s)
      ensures ref.target.Some? && ref.target.value !in old(cache) && v.Ok? ==>
        ReadsOutOfAnswer(w, ref.path, ref.target.value, v.value, Now())
      decreases Budget(Some(chain)), 2, 0
    {
      ghost var before := Now();
      if ref.target.Some? && ref.target.value !in cache {
        SentReferenceIs(w, ref, chain, before);
      }
      if ref.target.None? {
        return Err(UnknownName);
      }
      if ref.target.value in cache {
        return Extract(w, cache[ref.target.value], ref.path);
      }
      var resp := RunRequest(w, ref.target.value, Some(chain));
      if resp.Err? {
        return Err(resp.error);
      }
      return Extract(w, resp.value, ref.path);
    }
  }
}
