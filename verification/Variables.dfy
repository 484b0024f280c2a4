/** The layers a request's variables resolve against, and where a script's writes land. */
module Variables {
  import opened Common
  import opened SortedNames
  import opened Substrings

  type Id = string

  datatype Folder = Folder(workspace: Id, parent: Option<Id>, variables: seq<KeyValue>)

  /** The stored shape: `secrets` names variables whose values are in the keychain. */
  datatype Environment = Environment(workspace: Id, variables: seq<KeyValue>, secrets: set<string>)

  datatype Store = Store(
    environments: map<Id, Environment>, keychain: map<(Id, string), string>, folders: map<Id, Folder>)

  datatype Request = Request(workspace: Id, folder: Option<Id>)

  /** RunScopedVars: a data row, and the current iteration's script writes over it. */
  datatype Layer = Layer(data: map<string, string>, writes: map<string, string>, unsets: set<string>)

  datatype World = World(store: Store, session: map<Id, map<string, string>>, layer: Option<Layer>)

  /** The templater's reading of a variable list: the last enabled entry wins. */
  function Lookup(vars: seq<KeyValue>, name: string): Option<string>
    decreases |vars|
  {
    if vars == [] then None
    else
      var last := vars[|vars| - 1];
      if last.enabled && last.key == name then Some(last.value) else Lookup(vars[..|vars| - 1], name)
  }

  lemma {:induction false} LookupAppend(a: seq<KeyValue>, b: seq<KeyValue>, name: string)
    ensures Lookup(a + b, name) == if Lookup(b, name).Some? then Lookup(b, name) else Lookup(a, name)
    decreases |b|
  {
    if b == [] {
      assert a + b == a;
    } else {
      assert (a + b)[..|a + b| - 1] == a + b[..|b| - 1];
      LookupAppend(a, b[..|b| - 1], name);
    }
  }

  ghost function Rows(m: map<string, string>): (r: seq<KeyValue>)
    ensures |r| == 0 <==> m == map[]
  {
    var names := SortedKeys(m.Keys);
    assert |names| == 0 <==> m == map[] by {
      assert |names| > 0 ==> names[0] in m;
      assert m != map[] ==> exists k :: k in m && k in names;
    }
    seq(|names|, i requires 0 <= i < |names| => KeyValue(names[i], m[names[i]], true))
  }

  lemma LookupRows(m: map<string, string>, name: string)
    ensures Lookup(Rows(m), name) == if name in m then Some(m[name]) else None
  {
    LookupListed(SortedKeys(m.Keys), m, Rows(m), name);
  }

  lemma {:induction false} LookupListed(names: seq<string>, m: map<string, string>, rows: seq<KeyValue>, name: string)
    requires |rows| == |names|
    requires forall i :: 0 <= i < |names| ==> names[i] in m && rows[i] == KeyValue(names[i], m[names[i]], true)
    ensures Lookup(rows, name) == if name in names then Some(m[name]) else None
    decreases |names|
  {
    if names != [] {
      var n := |names| - 1;
      LookupListed(names[..n], m, rows[..n], name);
      assert names == names[..n] + [names[n]];
    }
  }

  // ---- Folders --------------------------------------------------------------

  /** The folder n parent links above, as long as the links lead to stored folders. */
  function Ancestor(folders: map<Id, Folder>, id: Option<Id>, n: nat): Option<Id>
    decreases n
  {
    if id.None? || id.value !in folders then None
    else if n == 0 then id else Ancestor(folders, folders[id.value].parent, n - 1)
  }

  /** The loop up the parent links comes to an end. */
  ghost predicate ChainEnds(folders: map<Id, Folder>, id: Option<Id>)
  {
    exists n: nat :: Ancestor(folders, id, n).None?
  }

  ghost function ChainLength(folders: map<Id, Folder>, id: Option<Id>, n: nat): nat
    requires Ancestor(folders, id, n).None?
    decreases n
  {
    if id.None? || id.value !in folders then 0 else 1 + ChainLength(folders, folders[id.value].parent, n - 1)
  }

  lemma {:induction false} OneLength(folders: map<Id, Folder>, id: Option<Id>, n: nat, m: nat)
    requires Ancestor(folders, id, n).None? && Ancestor(folders, id, m).None?
    ensures ChainLength(folders, id, n) == ChainLength(folders, id, m)
    decreases n
  {
    if id.Some? && id.value in folders {
      OneLength(folders, folders[id.value].parent, n - 1, m - 1);
    }
  }

  ghost function Depth(folders: map<Id, Folder>, id: Option<Id>): nat
    requires ChainEnds(folders, id)
  {
    var n: nat :| Ancestor(folders, id, n).None?;
    ChainLength(folders, id, n)
  }

  lemma ParentIsNearer(folders: map<Id, Folder>, id: Option<Id>)
    requires ChainEnds(folders, id) && id.Some? && id.value in folders
    ensures ChainEnds(folders, folders[id.value].parent)
    ensures Depth(folders, folders[id.value].parent) < Depth(folders, id)
  {
    var parent := folders[id.value].parent;
    var n: nat :| Ancestor(folders, id, n).None? && Depth(folders, id) == ChainLength(folders, id, n);
    assert Ancestor(folders, parent, n - 1).None?;
    var m: nat :| Ancestor(folders, parent, m).None? && Depth(folders, parent) == ChainLength(folders, parent, m);
    OneLength(folders, parent, n - 1, m);
    assert ChainLength(folders, id, n) == 1 + ChainLength(folders, parent, n - 1);
  }

  function EnabledOf(vars: seq<KeyValue>): seq<KeyValue>
  {
    if vars == [] then []
    else (if vars[0].enabled then [vars[0]] else []) + EnabledOf(vars[1..])
  }

  /** Enabled variables of the folder chain, the root's first; a dangling parent ends the chain. */
  function FolderVariables(folders: map<Id, Folder>, id: Option<Id>): seq<KeyValue>
    requires ChainEnds(folders, id)
    decreases Depth(folders, id)
  {
    if id.None? || id.value !in folders then []
    else
      ParentIsNearer(folders, id);
      FolderVariables(folders, folders[id.value].parent) + EnabledOf(folders[id.value].variables)
  }

  /** ListFolders is per workspace: a parent in another workspace is dangling. */
  function InWorkspace(folders: map<Id, Folder>, workspace: Id): map<Id, Folder>
  {
    map id | id in folders && folders[id].workspace == workspace :: folders[id]
  }

  ghost predicate LoopEnds(folders: map<Id, Folder>, req: Request)
  {
    ChainEnds(InWorkspace(folders, req.workspace), req.folder)
  }

  function FolderLayer(w: World, req: Request): seq<KeyValue>
    requires LoopEnds(w.store.folders, req)
  {
    FolderVariables(InWorkspace(w.store.folders, req.workspace), req.folder)
  }

  /** Some folder of the chain comes again further up: it is its own ancestor. */
  predicate ComesAgain(folders: map<Id, Folder>, id: Option<Id>, n: nat, m: nat)
  {
    n < m && Ancestor(folders, id, n).Some? && Ancestor(folders, id, n) == Ancestor(folders, id, m)
  }

  /** The loop ends exactly when no folder it passes is its own ancestor. */
  lemma ChainEndsIff(folders: map<Id, Folder>, id: Option<Id>)
    ensures ChainEnds(folders, id) <==> !exists n: nat, m: nat :: ComesAgain(folders, id, n, m)
  {
    if n: nat, m: nat :| ComesAgain(folders, id, n, m) {
      forall k: nat ensures Ancestor(folders, id, k).Some? {
        GoesRound(folders, id, n, m, k);
      }
    } else if !ChainEnds(folders, id) {
      var seen := Seen(folders, id, |folders| + 1);
      SubsetSize(seen, folders.Keys);
    }
  }

  lemma {:induction false} AncestorAdds(folders: map<Id, Folder>, id: Option<Id>, n: nat, k: nat)
    ensures Ancestor(folders, id, n + k) ==
      if Ancestor(folders, id, n).Some? then Ancestor(folders, Ancestor(folders, id, n), k) else None
    decreases n
  {
    if n > 0 && id.Some? && id.value in folders {
      AncestorAdds(folders, folders[id.value].parent, n - 1, k);
    }
  }

  lemma {:induction false} GoesRound(folders: map<Id, Folder>, id: Option<Id>, n: nat, m: nat, k: nat)
    requires ComesAgain(folders, id, n, m)
    ensures Ancestor(folders, id, k).Some?
    decreases k
  {
    if k < m {
      AncestorAdds(folders, id, k, m - k);
    } else {
      AncestorAdds(folders, id, m, k - m);
      AncestorAdds(folders, id, n, k - m);
      GoesRound(folders, id, n, m, n + (k - m));
    }
  }

  /** x is among the first n folders of the chain. */
  ghost predicate Passes(folders: map<Id, Folder>, id: Option<Id>, n: nat, x: Id)
  {
    exists i: nat :: i < n && Ancestor(folders, id, i) == Some(x)
  }

  /** The first n folders of an endless chain that never repeats: n of them. */
  lemma {:induction false} Seen(folders: map<Id, Folder>, id: Option<Id>, n: nat) returns (seen: set<Id>)
    requires !ChainEnds(folders, id) && forall i: nat, j: nat :: !ComesAgain(folders, id, i, j)
    ensures |seen| == n && seen <= folders.Keys
    ensures forall x :: x in seen ==> Passes(folders, id, n, x)
    decreases n
  {
    seen := {};
    if n > 0 {
      var before := Seen(folders, id, n - 1);
      AncestorIsStored(folders, id, n - 1);
      assert Ancestor(folders, id, n - 1).Some?;
      var x := Ancestor(folders, id, n - 1).value;
      forall i: nat | i < n - 1 ensures Ancestor(folders, id, i) != Some(x) {
        assert !ComesAgain(folders, id, i, n - 1);
      }
      seen := before + {x};
      assert Ancestor(folders, id, n - 1) == Some(x);
    }
  }

  lemma {:induction false} AncestorIsStored(folders: map<Id, Folder>, id: Option<Id>, n: nat)
    ensures Ancestor(folders, id, n).Some? ==> Ancestor(folders, id, n).value in folders
    decreases n
  {
    if n > 0 && id.Some? && id.value in folders {
      AncestorIsStored(folders, folders[id.value].parent, n - 1);
    }
  }

  // ---- Reading --------------------------------------------------------------

  /** GetEnvironment puts the keychain's values over the secret-backed variables. */
  function Resolved(store: Store, id: Id): Environment
    requires id in store.environments
  {
    var env := store.environments[id];
    env.(variables := seq(|env.variables|, i requires 0 <= i < |env.variables| =>
      var kv := env.variables[i];
      if kv.key in env.secrets && (id, kv.key) in store.keychain then kv.(value := store.keychain[(id, kv.key)]) else kv))
  }

  function SessionOf(w: World, workspace: Id): map<string, string>
  {
    if workspace in w.session then w.session[workspace] else map[]
  }

  function Overlay(layer: Layer): map<string, string>
  {
    (layer.data - layer.unsets) + layer.writes
  }

  /** Everything layered over the environment: folders, then session, then the run layer. */
  ghost function Above(w: World, req: Request): seq<KeyValue>
    requires LoopEnds(w.store.folders, req)
  {
    FolderLayer(w, req) + Rows(SessionOf(w, req.workspace)) +
    (if w.layer.Some? then Rows(Overlay(w.layer.value)) else [])
  }

  ghost function MergedEnvironment(w: World, req: Request, envId: Id): Result<Option<Environment>, string>
    requires LoopEnds(w.store.folders, req)
  {
    if envId != "" && envId !in w.store.environments then Err("load environment")
    else
      var env := if envId == "" then None else Some(Resolved(w.store, envId));
      if Above(w, req) == [] then Ok(env)
      else
        var base := if env.None? then Environment("", [], {}) else env.value;
        Ok(Some(base.(variables := base.variables + Above(w, req))))
  }

  function VariablesOf(env: Option<Environment>): seq<KeyValue>
  {
    if env.None? then [] else env.value.variables
  }

  function SecretsOf(env: Option<Environment>): set<string>
  {
    if env.None? then {} else env.value.secrets
  }

  /** What ${name} resolves to for this request. */
  ghost function Reads(w: World, req: Request, envId: Id, name: string): Option<string>
    requires LoopEnds(w.store.folders, req)
  {
    match MergedEnvironment(w, req, envId)
    case Ok(env) => Lookup(VariablesOf(env), name)
    case Err(_) => None
  }

  /** What an environment gives for a name whose stored entries give `stored`: a secret's value is the keychain's. */
  function EnvironmentGives(store: Store, id: Id, name: string, stored: Option<string>): Option<string>
    requires id in store.environments
  {
    if stored.Some? && name in store.environments[id].secrets && (id, name) in store.keychain then
      Some(store.keychain[(id, name)])
    else stored
  }

  /** Resolving secrets changes the values of secret names alone, to those of the keychain. */
  lemma ResolvedLookup(store: Store, id: Id, name: string)
    requires id in store.environments
    ensures Lookup(Resolved(store, id).variables, name) ==
      EnvironmentGives(store, id, name, Lookup(store.environments[id].variables, name))
  {
    var given := if name in store.environments[id].secrets && (id, name) in store.keychain
                 then Some(store.keychain[(id, name)]) else None;
    SameEntriesSameLookup(Resolved(store, id).variables, store.environments[id].variables, name, given);
  }

  lemma {:induction false} SameEntriesSameLookup(a: seq<KeyValue>, b: seq<KeyValue>, name: string, given: Option<string>)
    requires |a| == |b|
    requires forall i :: 0 <= i < |a| ==> a[i].key == b[i].key && a[i].enabled == b[i].enabled
    requires forall i :: 0 <= i < |a| && a[i].key == name ==>
      a[i].value == if given.Some? then given.value else b[i].value
    ensures Lookup(a, name) == if Lookup(b, name).Some? && given.Some? then given else Lookup(b, name)
    decreases |a|
  {
    if a != [] {
      SameEntriesSameLookup(a[..|a| - 1], b[..|b| - 1], name, given);
    }
  }

  /** Layer by layer, the highest one that has the name answers. */
  lemma ReadsThroughLayers(w: World, req: Request, envId: Id, name: string)
    requires LoopEnds(w.store.folders, req) && (envId == "" || envId in w.store.environments)
    ensures var session := SessionOf(w, req.workspace);
      Reads(w, req, envId, name) ==
        if w.layer.Some? && name in Overlay(w.layer.value) then Some(Overlay(w.layer.value)[name])
        else if name in session then Some(session[name])
        else if Lookup(FolderLayer(w, req), name).Some? then Lookup(FolderLayer(w, req), name)
        else if envId == "" then None
        else EnvironmentGives(w.store, envId, name, Lookup(w.store.environments[envId].variables, name))
  {
    var base := if envId == "" then [] else Resolved(w.store, envId).variables;
    MergedVariables(w, req, envId);
    LookupAppend(base, Above(w, req), name);
    LookupAbove(w, req, name);
    if envId != "" {
      ResolvedLookup(w.store, envId, name);
    }
  }

  /** Entry i is the last enabled one of that name. */
  predicate LastEnabled(vars: seq<KeyValue>, name: string, i: nat)
  {
    i < |vars| && vars[i].enabled && vars[i].key == name && NoneEnabled(vars[i + 1..], name)
  }

  predicate NoneEnabled(vars: seq<KeyValue>, name: string)
  {
    forall i :: 0 <= i < |vars| ==> !(vars[i].enabled && vars[i].key == name)
  }

  /** These variables give the name this value: that of its last enabled entry, or none. */
  ghost predicate Gives(vars: seq<KeyValue>, name: string, value: Option<string>)
  {
    if value.None? then NoneEnabled(vars, name)
    else exists i: nat :: LastEnabled(vars, name, i) && vars[i].value == value.value
  }

  lemma {:induction false} LookupGives(vars: seq<KeyValue>, name: string)
    ensures Gives(vars, name, Lookup(vars, name))
    decreases |vars|
  {
    if vars != [] {
      var n := |vars| - 1;
      if vars[n].enabled && vars[n].key == name {
        assert LastEnabled(vars, name, n);
      } else {
        LookupGives(vars[..n], name);
        if Lookup(vars[..n], name).Some? {
          var i: nat :| LastEnabled(vars[..n], name, i) && vars[..n][i].value == Lookup(vars[..n], name).value;
          assert vars[i + 1..] == vars[..n][i + 1..] + [vars[n]];
          assert LastEnabled(vars, name, i);
        } else {
          assert vars == vars[..n] + [vars[n]];
        }
      }
    }
  }

  lemma {:induction false} EnabledGive(vars: seq<KeyValue>, name: string)
    ensures Lookup(EnabledOf(vars), name) == Lookup(vars, name)
    decreases |vars|
  {
    if vars != [] {
      var first, rest := [vars[0]], vars[1..];
      assert vars == first + rest;
      EnabledGive(rest, name);
      LookupAppend(first, rest, name);
      LookupAppend(if vars[0].enabled then first else [], EnabledOf(rest), name);
      assert first[..0] == [];
    }
  }

  /** The n-th folder above is the nearest that has an enabled entry of the name. */
  ghost predicate NearestGives(folders: map<Id, Folder>, id: Option<Id>, name: string, n: nat, value: string)
  {
    Ancestor(folders, id, n).Some? && Ancestor(folders, id, n).value in folders &&
    Gives(folders[Ancestor(folders, id, n).value].variables, name, Some(value)) &&
    NoneBelow(folders, id, name, n)
  }

  ghost predicate NoneBelow(folders: map<Id, Folder>, id: Option<Id>, name: string, n: nat)
  {
    forall m: nat :: m < n ==> NoneAt(folders, id, name, m)
  }

  ghost predicate NoneAt(folders: map<Id, Folder>, id: Option<Id>, name: string, n: nat)
  {
    Ancestor(folders, id, n).Some? && Ancestor(folders, id, n).value in folders ==>
      NoneEnabled(folders[Ancestor(folders, id, n).value].variables, name)
  }

  /** What the folders say of the name: the nearest that has an enabled entry decides, by its last one. */
  ghost predicate FoldersGive(folders: map<Id, Folder>, id: Option<Id>, name: string, value: Option<string>)
  {
    if value.None? then forall n: nat :: NoneAt(folders, id, name, n)
    else exists n: nat :: NearestGives(folders, id, name, n, value.value)
  }

  lemma {:induction false} NearestFolderDecides(folders: map<Id, Folder>, id: Option<Id>, name: string)
    requires ChainEnds(folders, id)
    ensures FoldersGive(folders, id, name, Lookup(FolderVariables(folders, id), name))
    decreases Depth(folders, id)
  {
    if id.Some? && id.value in folders {
      var parent, own := folders[id.value].parent, folders[id.value].variables;
      ParentIsNearer(folders, id);
      NearestFolderDecides(folders, parent, name);
      LookupAppend(FolderVariables(folders, parent), EnabledOf(own), name);
      EnabledGive(own, name);
      LookupGives(own, name);
      assert Ancestor(folders, id, 0) == id;
      if Lookup(own, name).Some? {
        assert NearestGives(folders, id, name, 0, Lookup(own, name).value);
      } else {
        OneFolderFurther(folders, id, name, Lookup(FolderVariables(folders, parent), name));
      }
    }
  }

  /** A folder without the name leaves the decision to those above it. */
  lemma OneFolderFurther(folders: map<Id, Folder>, id: Option<Id>, name: string, value: Option<string>)
    requires id.Some? && id.value in folders && NoneEnabled(folders[id.value].variables, name)
    requires FoldersGive(folders, folders[id.value].parent, name, value)
    ensures FoldersGive(folders, id, name, value)
  {
    var parent := folders[id.value].parent;
    assert forall n: nat :: n > 0 ==> Ancestor(folders, id, n) == Ancestor(folders, parent, n - 1);
    if value.Some? {
      var n: nat :| NearestGives(folders, parent, name, n, value.value);
      forall m: nat | m < n + 1 ensures NoneAt(folders, id, name, m) {
        assert m > 0 ==> NoneAt(folders, parent, name, m - 1);
      }
      assert NearestGives(folders, id, name, n + 1, value.value);
    } else {
      forall m: nat ensures NoneAt(folders, id, name, m) {
        assert m > 0 ==> NoneAt(folders, parent, name, m - 1);
      }
    }
  }

  predicate LocalAt(folders: map<Id, Folder>, ws: Id, id: Option<Id>, m: nat)
  {
    Ancestor(folders, id, m).Some? && Ancestor(folders, id, m).value in folders &&
    folders[Ancestor(folders, id, m).value].workspace == ws
  }

  ghost predicate LocalUpTo(folders: map<Id, Folder>, ws: Id, id: Option<Id>, n: nat)
  {
    forall m: nat :: m <= n ==> LocalAt(folders, ws, id, m)
  }

  lemma LocalFurther(folders: map<Id, Folder>, ws: Id, id: Option<Id>, n: nat)
    requires id.Some? && id.value in folders && n > 0
    ensures LocalUpTo(folders, ws, id, n) <==>
      folders[id.value].workspace == ws && LocalUpTo(folders, ws, folders[id.value].parent, n - 1)
  {
    var parent := folders[id.value].parent;
    assert Ancestor(folders, id, 0) == id;
    if LocalUpTo(folders, ws, id, n) {
      assert LocalAt(folders, ws, id, 0);
      forall m: nat | m <= n - 1 ensures LocalAt(folders, ws, parent, m) {
        assert LocalAt(folders, ws, id, m + 1);
      }
    } else if folders[id.value].workspace == ws {
      var m: nat :| m <= n && !LocalAt(folders, ws, id, m);
      assert m > 0 && !LocalAt(folders, ws, parent, m - 1);
    }
  }

  /** In a workspace the chain goes as far as it stays among the workspace's own folders. */
  lemma {:induction false} AncestorInWorkspace(folders: map<Id, Folder>, ws: Id, id: Option<Id>, n: nat, x: Id)
    ensures Ancestor(InWorkspace(folders, ws), id, n) == Some(x) <==>
      Ancestor(folders, id, n) == Some(x) && LocalUpTo(folders, ws, id, n)
    decreases n
  {
    if id.Some? && id.value in folders {
      if n > 0 {
        LocalFurther(folders, ws, id, n);
        AncestorInWorkspace(folders, ws, folders[id.value].parent, n - 1, x);
      } else {
        assert Ancestor(folders, id, 0) == id;
        assert LocalUpTo(folders, ws, id, 0) <==> LocalAt(folders, ws, id, 0);
      }
    }
  }

  /**
   * A name reads as the highest layer that has it says: the run layer, the session, the nearest folder
   * with an enabled entry, the environment by its last enabled entry or, for a secret, by the keychain.
   */
  lemma ReadsByLayer(w: World, req: Request, envId: Id, name: string) returns (folder: Option<string>, env: Option<string>)
    requires LoopEnds(w.store.folders, req) && (envId == "" || envId in w.store.environments)
    ensures FoldersGive(InWorkspace(w.store.folders, req.workspace), req.folder, name, folder)
    ensures if envId == "" then env == None else Gives(w.store.environments[envId].variables, name, env)
    ensures Reads(w, req, envId, name) ==
      if w.layer.Some? && name in w.layer.value.writes then Some(w.layer.value.writes[name])
      else if w.layer.Some? && name in w.layer.value.data && name !in w.layer.value.unsets then
        Some(w.layer.value.data[name])
      else if req.workspace in w.session && name in w.session[req.workspace] then Some(w.session[req.workspace][name])
      else if folder.Some? then folder
      else if env.Some? && name in w.store.environments[envId].secrets && (envId, name) in w.store.keychain then
        Some(w.store.keychain[(envId, name)])
      else env
  {
    folder := Lookup(FolderLayer(w, req), name);
    env := if envId == "" then None else Lookup(w.store.environments[envId].variables, name);
    ReadsThroughLayers(w, req, envId, name);
    NearestFolderDecides(InWorkspace(w.store.folders, req.workspace), req.folder, name);
    if envId != "" {
      LookupGives(w.store.environments[envId].variables, name);
    }
  }

  lemma MergedVariables(w: World, req: Request, envId: Id)
    requires LoopEnds(w.store.folders, req) && (envId == "" || envId in w.store.environments)
    ensures var base := if envId == "" then [] else Resolved(w.store, envId).variables;
      var env := MergedEnvironment(w, req, envId);
      env.Ok? && VariablesOf(env.value) == base + Above(w, req)
  {
    var base := if envId == "" then [] else Resolved(w.store, envId).variables;
    assert base + [] == base;
  }

  lemma LookupAbove(w: World, req: Request, name: string)
    requires LoopEnds(w.store.folders, req)
    ensures var session := SessionOf(w, req.workspace);
      Lookup(Above(w, req), name) ==
        if w.layer.Some? && name in Overlay(w.layer.value) then Some(Overlay(w.layer.value)[name])
        else if name in session then Some(session[name])
        else Lookup(FolderLayer(w, req), name)
  {
    var folder, session := FolderLayer(w, req), Rows(SessionOf(w, req.workspace));
    LookupAppend(folder, session, name);
    LookupRows(SessionOf(w, req.workspace), name);
    if w.layer.Some? {
      LookupRows(Overlay(w.layer.value), name);
      LookupAppend(folder + session, Rows(Overlay(w.layer.value)), name);
    } else {
      assert folder + session + [] == folder + session;
    }
  }

  // ---- Writing --------------------------------------------------------------

  /** Secret names of every environment of the workspace, and of the environment in use. */
  function Protected(w: World, req: Request, env: Option<Environment>): set<string>
  {
    (set e, n | e in w.store.environments && w.store.environments[e].workspace == req.workspace &&
                n in w.store.environments[e].secrets :: n) + SecretsOf(env)
  }

  /** The resolved secret values a script must not write anywhere. */
  function Leaks(env: Option<Environment>): set<string>
  {
    set kv | kv in VariablesOf(env) && kv.enabled && kv.key in SecretsOf(env) && kv.value != "" :: kv.value
  }

  predicate Safe(w: World, req: Request, env: Option<Environment>, name: string, value: string)
  {
    name !in Protected(w, req, env) && forall leak :: leak in Leaks(env) ==> !Contains(value, leak)
  }

  function SafeWrites(w: World, req: Request, env: Option<Environment>, writes: map<string, string>): map<string, string>
  {
    map n | n in writes && Safe(w, req, env, n, writes[n]) :: writes[n]
  }

  function SafeUnsets(unsets: seq<string>, guarded: set<string>): seq<string>
  {
    if unsets == [] then []
    else (if unsets[0] in guarded then [] else [unsets[0]]) + SafeUnsets(unsets[1..], guarded)
  }

  lemma {:induction false} SafeUnsetsAre(unsets: seq<string>, guarded: set<string>, n: string)
    ensures n in SafeUnsets(unsets, guarded) <==> n in unsets && n !in guarded
  {
    if unsets != [] {
      SafeUnsetsAre(unsets[1..], guarded, n);
    }
  }

  /** The first entry of that name takes the value and is enabled; a new name is appended. */
  function UpsertVariable(vars: seq<KeyValue>, name: string, value: string): seq<KeyValue>
  {
    if vars == [] then [KeyValue(name, value, true)]
    else if vars[0].key == name then [KeyValue(name, value, true)] + vars[1..]
    else [vars[0]] + UpsertVariable(vars[1..], name, value)
  }

  function RemoveVariable(vars: seq<KeyValue>, name: string): seq<KeyValue>
  {
    if vars == [] then []
    else (if vars[0].key == name then [] else [vars[0]]) + RemoveVariable(vars[1..], name)
  }

  function UpsertAll(vars: seq<KeyValue>, names: seq<string>, writes: map<string, string>): seq<KeyValue>
    requires forall i :: 0 <= i < |names| ==> names[i] in writes
    decreases |names|
  {
    if names == [] then vars else UpsertAll(UpsertVariable(vars, names[0], writes[names[0]]), names[1..], writes)
  }

  function RemoveAll(vars: seq<KeyValue>, names: seq<string>): seq<KeyValue>
    decreases |names|
  {
    if names == [] then vars else RemoveAll(RemoveVariable(vars, names[0]), names[1..])
  }

  ghost function Persisted(vars: seq<KeyValue>, writes: map<string, string>, unsets: seq<string>): seq<KeyValue>
  {
    RemoveAll(UpsertAll(vars, SortedKeys(writes.Keys), writes), unsets)
  }

  function SetScript(layer: Layer, name: string, value: string): Layer
  {
    Layer(layer.data, layer.writes[name := value], layer.unsets - {name})
  }

  function UnsetScript(layer: Layer, name: string): Layer
  {
    Layer(layer.data, layer.writes - {name}, layer.unsets + {name})
  }

  function LayerAfter(layer: Layer, writes: map<string, string>, unsets: seq<string>): Layer
  {
    var gone := NamesIn(unsets);
    Layer(layer.data, (layer.writes + writes) - gone, (layer.unsets - writes.Keys) + gone)
  }

  function KeysOf(vars: seq<KeyValue>): set<string>
  {
    set kv | kv in vars :: kv.key
  }

  /** With the environment persisted, only writes a folder variable would hide keep a session entry. */
  function SessionBeside(session: map<string, string>, writes: map<string, string>, unsets: seq<string>,
                         shadowed: set<string>): map<string, string>
  {
    var kept := map n | n in writes && n in shadowed :: writes[n];
    (session + kept) - ((writes.Keys + NamesIn(unsets)) - kept.Keys)
  }

  function SessionInstead(session: map<string, string>, writes: map<string, string>, unsets: seq<string>): map<string, string>
  {
    (session + writes) - NamesIn(unsets)
  }

  /** The environment is there to be written, and the store accepts it. */
  predicate Persists(w: World, envId: Id, writable: bool)
  {
    envId != "" && envId in w.store.environments && writable
  }

  /** Where a screened delta lands: the run layer, or the environment, or else the session. */
  ghost function Placed(w: World, req: Request, envId: Id, safe: map<string, string>, gone: seq<string>, writable: bool): World
    requires LoopEnds(w.store.folders, req)
  {
    var session := SessionOf(w, req.workspace);
    if safe == map[] && gone == [] then w
    else if w.layer.Some? then w.(layer := Some(LayerAfter(w.layer.value, safe, gone)))
    else if Persists(w, envId, writable) then
      var e := w.store.environments[envId];
      var shadowed := KeysOf(FolderLayer(w, req));
      w.(store := w.store.(environments := w.store.environments[envId :=
           e.(variables := Persisted(e.variables, safe, gone))]),
         session := w.session[req.workspace := SessionBeside(session, safe, gone, shadowed)])
    else w.(session := w.session[req.workspace := SessionInstead(session, safe, gone)])
  }

  /** applyVariableWrites: `env` is the merged environment the script ran with. */
  ghost function Written(w: World, req: Request, envId: Id, env: Option<Environment>,
                         writes: map<string, string>, unsets: seq<string>, writable: bool): World
    requires LoopEnds(w.store.folders, req)
  {
    Placed(w, req, envId, SafeWrites(w, req, env, writes), SafeUnsets(unsets, Protected(w, req, env)), writable)
  }

  // ---- Entries of one name --------------------------------------------------

  function Only(vars: seq<KeyValue>, name: string): seq<KeyValue>
  {
    if vars == [] then [] else (if vars[0].key == name then [vars[0]] else []) + Only(vars[1..], name)
  }

  lemma {:induction false} OnlyAppend(a: seq<KeyValue>, b: seq<KeyValue>, name: string)
    ensures Only(a + b, name) == Only(a, name) + Only(b, name)
    decreases |a|
  {
    if a == [] {
      assert a + b == b;
    } else {
      var own := if a[0].key == name then [a[0]] else [];
      assert (a + b)[0] == a[0] && (a + b)[1..] == a[1..] + b;
      OnlyAppend(a[1..], b, name);
      assert own + (Only(a[1..], name) + Only(b, name)) == own + Only(a[1..], name) + Only(b, name);
    }
  }

  lemma {:induction false} LookupOnly(vars: seq<KeyValue>, name: string)
    ensures Lookup(vars, name) == Lookup(Only(vars, name), name)
    decreases |vars|
  {
    if vars != [] {
      var n := |vars| - 1;
      var init, last := vars[..n], vars[n];
      assert vars == init + [last];
      OnlyAppend(init, [last], name);
      assert [last][..0] == [] && [last][1..] == [];
      assert Only([last], name) == if last.key == name then [last] else [];
      LookupOnly(init, name);
      LookupAppend(init, [last], name);
      LookupAppend(Only(init, name), [last], name);
      assert Only(init, name) + [] == Only(init, name);
    }
  }

  lemma {:induction false} UpsertEntries(vars: seq<KeyValue>, name: string, value: string, other: string)
    ensures Only(UpsertVariable(vars, name, value), other) ==
      if other != name then Only(vars, other)
      else [KeyValue(name, value, true)] + (if Only(vars, name) == [] then [] else Only(vars, name)[1..])
  {
    if vars == [] {
      assert [KeyValue(name, value, true)][1..] == [];
    } else if vars[0].key == name {
      var after := [KeyValue(name, value, true)] + vars[1..];
      assert after[1..] == vars[1..];
    } else {
      UpsertEntries(vars[1..], name, value, other);
      OnlyAppend([vars[0]], UpsertVariable(vars[1..], name, value), other);
      assert [vars[0]][1..] == [];
    }
  }

  lemma {:induction false} RemoveEntries(vars: seq<KeyValue>, name: string, other: string)
    ensures Only(RemoveVariable(vars, name), other) == if other == name then [] else Only(vars, other)
  {
    if vars != [] {
      RemoveEntries(vars[1..], name, other);
      OnlyAppend(if vars[0].key == name then [] else [vars[0]], RemoveVariable(vars[1..], name), other);
    }
  }

  lemma {:induction false} UpsertAllEntries(vars: seq<KeyValue>, names: seq<string>, writes: map<string, string>, name: string)
    requires forall i :: 0 <= i < |names| ==> names[i] in writes
    requires forall i, j :: 0 <= i < j < |names| ==> names[i] != names[j]
    ensures Only(UpsertAll(vars, names, writes), name) ==
      if name !in names then Only(vars, name)
      else [KeyValue(name, writes[name], true)] + (if Only(vars, name) == [] then [] else Only(vars, name)[1..])
    decreases |names|
  {
    if names != [] {
      assert names == [names[0]] + names[1..];
      UpsertEntries(vars, names[0], writes[names[0]], name);
      UpsertAllEntries(UpsertVariable(vars, names[0], writes[names[0]]), names[1..], writes, name);
    }
  }

  lemma {:induction false} RemoveAllEntries(vars: seq<KeyValue>, names: seq<string>, name: string)
    ensures Only(RemoveAll(vars, names), name) == if name in names then [] else Only(vars, name)
    decreases |names|
  {
    if names != [] {
      assert names == [names[0]] + names[1..];
      RemoveEntries(vars, names[0], name);
      RemoveAllEntries(RemoveVariable(vars, names[0]), names[1..], name);
    }
  }

  /** The entries of one name after a delta has been persisted. */
  lemma PersistedEntries(vars: seq<KeyValue>, writes: map<string, string>, unsets: seq<string>, name: string)
    ensures Only(Persisted(vars, writes, unsets), name) ==
      if name in unsets then []
      else if name !in writes then Only(vars, name)
      else [KeyValue(name, writes[name], true)] + (if Only(vars, name) == [] then [] else Only(vars, name)[1..])
  {
    var names := SortedKeys(writes.Keys);
    assert forall i, j :: 0 <= i < j < |names| && names[i] == names[j] ==> Less(names[i], names[i]);
    forall i | 0 <= i < |names| ensures !Less(names[i], names[i]) {
      LessIrreflexive(names[i]);
    }
    UpsertAllEntries(vars, names, writes, name);
    RemoveAllEntries(UpsertAll(vars, names, writes), unsets, name);
  }

  // ---- The promises ---------------------------------------------------------

  /** A second enabled entry of this name, with another value, that a write to the first does not reach. */
  predicate DuplicateOverrules(vars: seq<KeyValue>, name: string, value: string)
  {
    var entries := Only(vars, name);
    entries != [] && Lookup(entries[1..], name).Some? && Lookup(entries[1..], name).value != value
  }

  /** The write went to the environment and no folder variable made it keep a session entry. */
  ghost predicate OnlyInEnvironment(w: World, req: Request, envId: Id, name: string, writable: bool)
    requires LoopEnds(w.store.folders, req)
  {
    w.layer.None? && Persists(w, envId, writable) && name !in KeysOf(FolderLayer(w, req))
  }

  lemma {:induction false} LookupInKeys(vars: seq<KeyValue>, name: string)
    requires Lookup(vars, name).Some?
    ensures name in KeysOf(vars)
    decreases |vars|
  {
    var last := vars[|vars| - 1];
    if last.enabled && last.key == name {
      assert last in vars;
    } else {
      LookupInKeys(vars[..|vars| - 1], name);
      var kv :| kv in vars[..|vars| - 1] && kv.key == name;
      assert kv in vars;
    }
  }

  /**
   * Read your writes: wherever a script's safe write lands (run layer, environment or session), the next
   * resolution for that request yields it, above every environment, folder and older session value. The
   * one exception is an environment listing the name twice.
   */
  lemma ReadYourWritesIff(w: World, req: Request, envId: Id, env: Option<Environment>,
                          writes: map<string, string>, unsets: seq<string>, writable: bool, name: string)
    requires LoopEnds(w.store.folders, req) && MergedEnvironment(w, req, envId) == Ok(env)
    requires name in writes && name !in unsets && Safe(w, req, env, name, writes[name])
    ensures var w' := Written(w, req, envId, env, writes, unsets, writable);
      w'.store.folders == w.store.folders &&
      (Reads(w', req, envId, name) == Some(writes[name]) <==>
       !(OnlyInEnvironment(w, req, envId, name, writable) &&
         DuplicateOverrules(w.store.environments[envId].variables, name, writes[name])))
  {
    var safe := SafeWrites(w, req, env, writes);
    var gone := SafeUnsets(unsets, Protected(w, req, env));
    SafeUnsetsAre(unsets, Protected(w, req, env), name);
    assert name in safe && name !in gone;
    PlacedIsRead(w, req, envId, safe, gone, writable, name);
  }

  /** The same for a write that has passed the screening. */
  lemma PlacedIsRead(w: World, req: Request, envId: Id, safe: map<string, string>, gone: seq<string>,
                     writable: bool, name: string)
    requires LoopEnds(w.store.folders, req) && (envId == "" || envId in w.store.environments)
    requires (envId != "" ==> name !in w.store.environments[envId].secrets) && name in safe && name !in gone
    ensures var w' := Placed(w, req, envId, safe, gone, writable);
      w'.store.folders == w.store.folders &&
      (Reads(w', req, envId, name) == Some(safe[name]) <==>
       !(OnlyInEnvironment(w, req, envId, name, writable) &&
         DuplicateOverrules(w.store.environments[envId].variables, name, safe[name])))
  {
    ReadsThroughLayers(Placed(w, req, envId, safe, gone, writable), req, envId, name);
    if w.layer.Some? {
      assert Overlay(LayerAfter(w.layer.value, safe, gone))[name] == safe[name];
    } else if Persists(w, envId, writable) {
      var shadowed := KeysOf(FolderLayer(w, req));
      SessionHas(SessionOf(w, req.workspace), safe, gone, shadowed, name);
      EnvironmentHas(w.store.environments[envId].variables, safe, gone, name);
      if Lookup(FolderLayer(w, req), name).Some? {
        LookupInKeys(FolderLayer(w, req), name);
      }
    } else {
      SessionHas(SessionOf(w, req.workspace), safe, gone, {}, name);
    }
  }

  lemma SessionHas(session: map<string, string>, writes: map<string, string>, unsets: seq<string>,
                   shadowed: set<string>, name: string)
    requires name in writes && name !in unsets
    ensures var s := SessionBeside(session, writes, unsets, shadowed);
      (name in s <==> name in shadowed) && (name in s ==> s[name] == writes[name])
    ensures var s := SessionInstead(session, writes, unsets); name in s && s[name] == writes[name]
  {
  }

  lemma EnvironmentHas(vars: seq<KeyValue>, writes: map<string, string>, unsets: seq<string>, name: string)
    requires name in writes && name !in unsets
    ensures Lookup(Persisted(vars, writes, unsets), name) == Some(writes[name]) <==>
      !DuplicateOverrules(vars, name, writes[name])
  {
    PersistedEntries(vars, writes, unsets, name);
    LookupOnly(Persisted(vars, writes, unsets), name);
    var first := [KeyValue(name, writes[name], true)];
    var later := if Only(vars, name) == [] then [] else Only(vars, name)[1..];
    LookupAppend(first, later, name);
    assert Lookup(first, name) == Some(writes[name]);
  }

  /** With each name listed once, as the editor keeps it, a safe write is always read back. */
  lemma ReadYourWrites(w: World, req: Request, envId: Id, env: Option<Environment>,
                       writes: map<string, string>, unsets: seq<string>, writable: bool, name: string)
    requires LoopEnds(w.store.folders, req) && MergedEnvironment(w, req, envId) == Ok(env)
    requires name in writes && name !in unsets && Safe(w, req, env, name, writes[name])
    requires envId in w.store.environments ==> |Only(w.store.environments[envId].variables, name)| <= 1
    ensures var w' := Written(w, req, envId, env, writes, unsets, writable);
      w'.store.folders == w.store.folders && Reads(w', req, envId, name) == Some(writes[name])
  {
    ReadYourWritesIff(w, req, envId, env, writes, unsets, writable, name);
  }

  ghost predicate SameAt(a: map<string, string>, b: map<string, string>, name: string)
  {
    (name in a <==> name in b) && (name in a ==> a[name] == b[name])
  }

  lemma SessionAt(session: map<string, string>, writes: map<string, string>, unsets: seq<string>,
                  shadowed: set<string>, name: string)
    requires name !in writes && name !in unsets
    ensures SameAt(SessionBeside(session, writes, unsets, shadowed), session, name)
    ensures SameAt(SessionInstead(session, writes, unsets), session, name)
  {
  }

  /** A delta changes the store only where it is persisted. */
  lemma PlacedStore(w: World, req: Request, envId: Id, safe: map<string, string>, gone: seq<string>, writable: bool)
    requires LoopEnds(w.store.folders, req)
    ensures var after := Placed(w, req, envId, safe, gone, writable).store;
      after == w.store ||
      (Persists(w, envId, writable) && var e := w.store.environments[envId];
       after == w.store.(environments := w.store.environments[envId := e.(variables := Persisted(e.variables, safe, gone))]))
  {
  }

  /** A name outside the delta keeps its entries in every stored environment. */
  lemma OthersKeepEntries(w: World, req: Request, envId: Id, safe: map<string, string>, gone: seq<string>,
                          writable: bool, name: string, e: Id)
    requires LoopEnds(w.store.folders, req) && name !in safe && name !in gone && e in w.store.environments
    ensures var w' := Placed(w, req, envId, safe, gone, writable);
      w'.store.keychain == w.store.keychain && w'.store.environments.Keys == w.store.environments.Keys &&
      w'.store.environments[e].secrets == w.store.environments[e].secrets &&
      Only(w'.store.environments[e].variables, name) == Only(w.store.environments[e].variables, name)
  {
    PlacedStore(w, req, envId, safe, gone, writable);
    PersistedEntries(w.store.environments[e].variables, safe, gone, name);
  }

  /** And keeps its session value; other workspaces' sessions are not touched at all. */
  lemma OthersKeepSession(w: World, req: Request, envId: Id, safe: map<string, string>, gone: seq<string>,
                          writable: bool, name: string, ws: Id)
    requires LoopEnds(w.store.folders, req) && name !in safe && name !in gone
    ensures var w' := Placed(w, req, envId, safe, gone, writable);
      SameAt(SessionOf(w', ws), SessionOf(w, ws), name) && (ws != req.workspace ==> SessionOf(w', ws) == SessionOf(w, ws))
  {
    SessionAt(SessionOf(w, req.workspace), safe, gone, KeysOf(FolderLayer(w, req)), name);
  }

  /** No script adds, removes or changes a secret-backed name in any stored environment. */
  lemma SecretsStayInEnvironments(w: World, req: Request, envId: Id, env: Option<Environment>,
                                  writes: map<string, string>, unsets: seq<string>, writable: bool, name: string, e: Id)
    requires LoopEnds(w.store.folders, req) && name in Protected(w, req, env) && e in w.store.environments
    ensures var w' := Written(w, req, envId, env, writes, unsets, writable);
      w'.store.keychain == w.store.keychain && w'.store.environments.Keys == w.store.environments.Keys &&
      w'.store.environments[e].secrets == w.store.environments[e].secrets &&
      Only(w'.store.environments[e].variables, name) == Only(w.store.environments[e].variables, name)
  {
    var safe, gone := SafeWrites(w, req, env, writes), SafeUnsets(unsets, Protected(w, req, env));
    SafeUnsetsAre(unsets, Protected(w, req, env), name);
    OthersKeepEntries(w, req, envId, safe, gone, writable, name, e);
  }

  /** Nor in the session, where a plain value would hide the secret in every environment. */
  lemma SecretsStayOutOfSession(w: World, req: Request, envId: Id, env: Option<Environment>,
                                writes: map<string, string>, unsets: seq<string>, writable: bool, name: string, ws: Id)
    requires LoopEnds(w.store.folders, req) && name in Protected(w, req, env)
    ensures var w' := Written(w, req, envId, env, writes, unsets, writable);
      SameAt(SessionOf(w', ws), SessionOf(w, ws), name)
  {
    var safe, gone := SafeWrites(w, req, env, writes), SafeUnsets(unsets, Protected(w, req, env));
    SafeUnsetsAre(unsets, Protected(w, req, env), name);
    OthersKeepSession(w, req, envId, safe, gone, writable, name, ws);
  }

  /** Nor in the run layer. */
  lemma SecretsStayOutOfLayer(w: World, req: Request, envId: Id, env: Option<Environment>,
                              writes: map<string, string>, unsets: seq<string>, writable: bool, name: string)
    requires LoopEnds(w.store.folders, req) && name in Protected(w, req, env) && w.layer.Some?
    ensures var w' := Written(w, req, envId, env, writes, unsets, writable);
      w'.layer.Some? && SameAt(Overlay(w'.layer.value), Overlay(w.layer.value), name)
  {
    SafeUnsetsAre(unsets, Protected(w, req, env), name);
    assert name !in SafeWrites(w, req, env, writes);
  }

  // ---- The run layer --------------------------------------------------------

  datatype Op = Set(name: string, value: string) | Unset(name: string)

  function Step(layer: Layer, op: Op): Layer
  {
    match op
    case Set(n, v) => SetScript(layer, n, v)
    case Unset(n) => UnsetScript(layer, n)
  }

  function StepAll(layer: Layer, ops: seq<Op>): Layer
    decreases |ops|
  {
    if ops == [] then layer else StepAll(Step(layer, ops[0]), ops[1..])
  }

  /** The operations themselves, on a plain map. */
  function Replay(m: map<string, string>, ops: seq<Op>): map<string, string>
    decreases |ops|
  {
    if ops == [] then m else Replay(ReplayOne(m, ops[0]), ops[1..])
  }

  function ReplayOne(m: map<string, string>, op: Op): map<string, string>
  {
    match op
    case Set(n, v) => m[n := v]
    case Unset(n) => m - {n}
  }

  function Reset(data: map<string, string>): Layer
  {
    Layer(data, map[], {})
  }

  lemma {:induction false} OverlayReplays(layer: Layer, ops: seq<Op>)
    ensures Overlay(StepAll(layer, ops)) == Replay(Overlay(layer), ops)
    decreases |ops|
  {
    if ops != [] {
      match ops[0] {
        case Set(n, v) => assert Overlay(SetScript(layer, n, v)) == Overlay(layer)[n := v];
        case Unset(n) => assert Overlay(UnsetScript(layer, n)) == Overlay(layer) - {n};
      }
      OverlayReplays(Step(layer, ops[0]), ops[1..]);
    }
  }

  /** Since the last Reset: what the layer contributes is the data row with the script's operations replayed on it. */
  lemma OverlayIsRowWithOps(data: map<string, string>, ops: seq<Op>)
    ensures Overlay(StepAll(Reset(data), ops)) == Replay(data, ops)
  {
    OverlayReplays(Reset(data), ops);
    assert Overlay(Reset(data)) == data;
  }

  /** One request of a run: the environment its script saw, and what the script wrote. */
  datatype Sent = Sent(req: Request, envId: Id, env: Option<Environment>,
                       writes: map<string, string>, unsets: seq<string>, writable: bool)

  /** One pass over the plan with one data row. */
  datatype Iteration = Iteration(row: map<string, string>, sends: seq<Sent>)

  ghost predicate LoopsEnd(folders: map<Id, Folder>, sends: seq<Sent>)
  {
    forall i :: 0 <= i < |sends| ==> LoopEnds(folders, sends[i].req)
  }

  ghost predicate RunLoopsEnd(folders: map<Id, Folder>, run: seq<Iteration>)
  {
    forall i :: 0 <= i < |run| ==> LoopsEnd(folders, run[i].sends)
  }

  ghost function AfterSends(w: World, sends: seq<Sent>): World
    requires LoopsEnd(w.store.folders, sends)
    decreases |sends|
  {
    if sends == [] then w
    else
      var s := sends[0];
      var w' := Written(w, s.req, s.envId, s.env, s.writes, s.unsets, s.writable);
      AfterSends(w', sends[1..])
  }

  ghost function StartOf(w: World, row: map<string, string>): World
  {
    w.(layer := Some(Reset(row)))
  }

  ghost function AfterRun(w: World, run: seq<Iteration>): World
    requires RunLoopsEnd(w.store.folders, run)
    decreases |run|
  {
    if run == [] then w
    else
      SendsOnlyTouchTheLayer(StartOf(w, run[0].row), run[0].sends);
      AfterRun(AfterSends(StartOf(w, run[0].row), run[0].sends), run[1..])
  }

  lemma {:induction false} SendsOnlyTouchTheLayer(w: World, sends: seq<Sent>)
    requires w.layer.Some? && LoopsEnd(w.store.folders, sends)
    ensures var w' := AfterSends(w, sends);
      w'.layer.Some? && w'.store == w.store && w'.session == w.session && w'.layer.value.data == w.layer.value.data
    decreases |sends|
  {
    if sends != [] {
      var s := sends[0];
      SendsOnlyTouchTheLayer(Written(w, s.req, s.envId, s.env, s.writes, s.unsets, s.writable), sends[1..]);
    }
  }

  /** A run of any iterations never changes stored environments or the session. */
  lemma {:induction false} RunLeavesWorkspaceAlone(w: World, run: seq<Iteration>)
    requires RunLoopsEnd(w.store.folders, run)
    ensures AfterRun(w, run).store == w.store && AfterRun(w, run).session == w.session
    decreases |run|
  {
    if run != [] {
      var start := StartOf(w, run[0].row);
      SendsOnlyTouchTheLayer(start, run[0].sends);
      RunLeavesWorkspaceAlone(AfterSends(start, run[0].sends), run[1..]);
    }
  }

  /** What an iteration's requests resolve against does not depend on what earlier iterations' scripts wrote. */
  lemma IterationsAreIndependent(w: World, earlier: seq<Iteration>, other: seq<Iteration>, row: map<string, string>)
    requires RunLoopsEnd(w.store.folders, earlier)
    requires RunLoopsEnd(w.store.folders, other)
    ensures StartOf(AfterRun(w, earlier), row) == StartOf(AfterRun(w, other), row)
  {
    RunLeavesWorkspaceAlone(w, earlier);
    RunLeavesWorkspaceAlone(w, other);
  }
}
