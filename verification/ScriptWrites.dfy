/** What a script's writes and unsets may do, in terms of the stored variables and secret names alone. */
module ScriptWrites {
  import opened Common
  import opened Substrings
  import opened Variables

  /** The name is a secret of some environment of the workspace, or of the environment in use. */
  ghost predicate NamesSecret(w: World, req: Request, env: Option<Environment>, name: string)
  {
    (exists e :: e in w.store.environments && w.store.environments[e].workspace == req.workspace &&
                 name in w.store.environments[e].secrets) ||
    (env.Some? && name in env.value.secrets)
  }

  /** Entry i of the environment in use is a secret with a value. */
  predicate SecretEntry(env: Option<Environment>, i: nat)
  {
    env.Some? && i < |env.value.variables| && env.value.variables[i].enabled && env.value.variables[i].value != "" &&
    env.value.variables[i].key in env.value.secrets
  }

  /** The value contains that of a secret. */
  ghost predicate TellsSecret(env: Option<Environment>, value: string)
  {
    exists i: nat :: SecretEntry(env, i) && Contains(value, env.value.variables[i].value)
  }

  /** Exactly the writes that neither name nor tell a secret are let through. */
  lemma SafeIff(w: World, req: Request, env: Option<Environment>, name: string, value: string)
    ensures Safe(w, req, env, name, value) <==> !NamesSecret(w, req, env, name) && !TellsSecret(env, value)
  {
    ProtectedIff(w, req, env, name);
    if TellsSecret(env, value) {
      var i: nat :| SecretEntry(env, i) && Contains(value, env.value.variables[i].value);
      assert env.value.variables[i].value in Leaks(env);
    } else {
      forall leak | leak in Leaks(env) ensures !Contains(value, leak) {
        var kv :| kv in VariablesOf(env) && kv.enabled && kv.key in SecretsOf(env) && kv.value != "" && kv.value == leak;
        var i: nat :| i < |env.value.variables| && env.value.variables[i] == kv;
        assert SecretEntry(env, i);
      }
    }
  }

  lemma ProtectedIff(w: World, req: Request, env: Option<Environment>, name: string)
    ensures name in Protected(w, req, env) <==> NamesSecret(w, req, env, name)
  {
  }

  /** A write that names or tells a secret changes nothing that is stored or read under its name. */
  ghost predicate Untouched(w: World, w': World, name: string)
  {
    w'.store.keychain == w.store.keychain && w'.store.environments.Keys == w.store.environments.Keys &&
    (forall e :: e in w.store.environments ==>
      w'.store.environments[e].secrets == w.store.environments[e].secrets &&
      Only(w'.store.environments[e].variables, name) == Only(w.store.environments[e].variables, name)) &&
    (forall ws :: SameAt(SessionOf(w', ws), SessionOf(w, ws), name)) &&
    (w'.layer.Some? <==> w.layer.Some?) &&
    (w.layer.Some? ==> SameAt(Overlay(w'.layer.value), Overlay(w.layer.value), name))
  }

  lemma NoSecretIsTold(w: World, req: Request, envId: Id, env: Option<Environment>,
                       writes: map<string, string>, unsets: seq<string>, writable: bool, name: string)
    requires LoopEnds(w.store.folders, req) && name in writes && name !in unsets
    requires NamesSecret(w, req, env, name) || TellsSecret(env, writes[name])
    ensures Untouched(w, Written(w, req, envId, env, writes, unsets, writable), name)
  {
    var safe, gone := SafeWrites(w, req, env, writes), SafeUnsets(unsets, Protected(w, req, env));
    SafeIff(w, req, env, name, writes[name]);
    SafeUnsetsAre(unsets, Protected(w, req, env), name);
    NotInDelta(w, req, envId, safe, gone, writable, name);
  }

  /** What a secret variable of a stored environment is worth: its value in the keychain, or else the stored one. */
  function Worth(store: Store, id: Id, i: nat): string
    requires id in store.environments && i < |store.environments[id].variables|
  {
    var kv := store.environments[id].variables[i];
    if (id, kv.key) in store.keychain then store.keychain[(id, kv.key)] else kv.value
  }

  /** The environment a request is sent with keeps the secret names of the stored one, and begins with its entries. */
  lemma MergedKeepsSecrets(w: World, req: Request, envId: Id, i: nat)
    requires LoopEnds(w.store.folders, req) && envId != "" && envId in w.store.environments
    requires i < |w.store.environments[envId].variables|
    ensures var merged, stored := MergedEnvironment(w, req, envId), w.store.environments[envId];
      merged.Ok? && merged.value.Some? && merged.value.value.secrets == stored.secrets &&
      i < |merged.value.value.variables| && merged.value.value.variables[i].key == stored.variables[i].key &&
      merged.value.value.variables[i].enabled == stored.variables[i].enabled &&
      (stored.variables[i].key in stored.secrets ==> merged.value.value.variables[i].value == Worth(w.store, envId, i))
  {
    var variables := Resolved(w.store, envId).variables;
    assert (variables + Above(w, req))[i] == variables[i];
  }

  /**
   * In terms of the store: a write that contains what an enabled secret of the chosen environment is worth
   * changes nothing under its name.
   */
  lemma StoredSecretIsNotTold(w: World, req: Request, envId: Id, i: nat, env: Option<Environment>,
                              writes: map<string, string>, unsets: seq<string>, writable: bool, name: string)
    requires LoopEnds(w.store.folders, req) && envId != "" && MergedEnvironment(w, req, envId) == Ok(env)
    requires envId in w.store.environments && i < |w.store.environments[envId].variables|
    requires var kv := w.store.environments[envId].variables[i];
      kv.enabled && kv.key in w.store.environments[envId].secrets
    requires Worth(w.store, envId, i) != "" && name in writes && Contains(writes[name], Worth(w.store, envId, i))
    requires name !in unsets
    ensures Untouched(w, Written(w, req, envId, env, writes, unsets, writable), name)
  {
    MergedKeepsSecrets(w, req, envId, i);
    assert SecretEntry(env, i);
    NoSecretIsTold(w, req, envId, env, writes, unsets, writable, name);
  }

  /** Neither does a script that does not mention the name. */
  lemma NotInDelta(w: World, req: Request, envId: Id, safe: map<string, string>, gone: seq<string>,
                   writable: bool, name: string)
    requires LoopEnds(w.store.folders, req) && name !in safe && name !in gone
    ensures Untouched(w, Placed(w, req, envId, safe, gone, writable), name)
  {
    forall e | e in w.store.environments
      ensures var w' := Placed(w, req, envId, safe, gone, writable);
        w'.store.environments.Keys == w.store.environments.Keys &&
        w'.store.environments[e].secrets == w.store.environments[e].secrets &&
        Only(w'.store.environments[e].variables, name) == Only(w.store.environments[e].variables, name)
    {
      OthersKeepEntries(w, req, envId, safe, gone, writable, name, e);
    }
    forall ws ensures SameAt(SessionOf(Placed(w, req, envId, safe, gone, writable), ws), SessionOf(w, ws), name) {
      OthersKeepSession(w, req, envId, safe, gone, writable, name, ws);
    }
    PlacedStore(w, req, envId, safe, gone, writable);
    OverlayStays(w, req, envId, safe, gone, writable, name);
  }

  lemma OverlayStays(w: World, req: Request, envId: Id, safe: map<string, string>, gone: seq<string>,
                     writable: bool, name: string)
    requires LoopEnds(w.store.folders, req) && name !in safe && name !in gone
    ensures var w' := Placed(w, req, envId, safe, gone, writable);
      (w'.layer.Some? <==> w.layer.Some?) &&
      (w.layer.Some? ==> SameAt(Overlay(w'.layer.value), Overlay(w.layer.value), name))
  {
  }

  /** The first stored entry of the name holds the value, and it is the session's too if a folder would hide it. */
  ghost predicate StoredIn(w: World, w': World, req: Request, envId: Id, name: string, value: string)
    requires LoopEnds(w.store.folders, req)
  {
    var session := SessionOf(w', req.workspace);
    envId in w'.store.environments && Only(w'.store.environments[envId].variables, name) != [] &&
    Only(w'.store.environments[envId].variables, name)[0] == KeyValue(name, value, true) &&
    if exists kv :: kv in FolderLayer(w, req) && kv.key == name then name in session && session[name] == value
    else name !in session
  }

  /** In the run layer; without one, in the chosen environment if it can be written; else in the session. */
  ghost predicate Landed(w: World, w': World, req: Request, envId: Id, writable: bool, name: string, value: string)
    requires LoopEnds(w.store.folders, req)
  {
    if w.layer.Some? then
      w'.store == w.store && w'.session == w.session && w'.layer.Some? &&
      name in Overlay(w'.layer.value) && Overlay(w'.layer.value)[name] == value
    else if envId != "" && envId in w.store.environments && writable then
      w'.store.folders == w.store.folders && w'.store.keychain == w.store.keychain &&
      StoredIn(w, w', req, envId, name, value)
    else w'.store == w.store && name in SessionOf(w', req.workspace) && SessionOf(w', req.workspace)[name] == value
  }

  lemma StoresWrite(w: World, req: Request, envId: Id, safe: map<string, string>, gone: seq<string>, name: string)
    requires LoopEnds(w.store.folders, req) && envId != "" && envId in w.store.environments && w.layer.None?
    requires name in safe && name !in gone
    ensures Landed(w, Placed(w, req, envId, safe, gone, true), req, envId, true, name, safe[name])
  {
    PersistedEntries(w.store.environments[envId].variables, safe, gone, name);
    assert name in KeysOf(FolderLayer(w, req)) <==> exists kv :: kv in FolderLayer(w, req) && kv.key == name;
  }

  /** So it is for every write that passes. */
  lemma WriteLands(w: World, req: Request, envId: Id, env: Option<Environment>,
                   writes: map<string, string>, unsets: seq<string>, writable: bool, name: string)
    requires LoopEnds(w.store.folders, req) && name in writes && name !in unsets
    requires !NamesSecret(w, req, env, name) && !TellsSecret(env, writes[name])
    ensures Landed(w, Written(w, req, envId, env, writes, unsets, writable), req, envId, writable, name, writes[name])
  {
    var safe, gone := SafeWrites(w, req, env, writes), SafeUnsets(unsets, Protected(w, req, env));
    SafeIff(w, req, env, name, writes[name]);
    SafeUnsetsAre(unsets, Protected(w, req, env), name);
    if w.layer.None? && envId != "" && envId in w.store.environments && writable {
      StoresWrite(w, req, envId, safe, gone, name);
    }
  }

  /**
   * An unset name that is no secret is gone from the highest place a script writes to: the run layer, else the
   * session, and the environment when it can be written. What lies below reads as before.
   */
  lemma UnsetIsRead(w: World, req: Request, envId: Id, env: Option<Environment>,
                    writes: map<string, string>, unsets: seq<string>, writable: bool, name: string)
    requires LoopEnds(w.store.folders, req) && MergedEnvironment(w, req, envId) == Ok(env)
    requires name in unsets && name !in writes && !NamesSecret(w, req, env, name)
    ensures var w' := Written(w, req, envId, env, writes, unsets, writable);
      var folder := Lookup(FolderLayer(w, req), name);
      w'.store.folders == w.store.folders && Reads(w', req, envId, name) ==
        if w.layer.Some? && name in SessionOf(w, req.workspace) then Some(SessionOf(w, req.workspace)[name])
        else if folder.Some? then folder
        else if envId == "" || (w.layer.None? && writable) then None
        else Lookup(w.store.environments[envId].variables, name)
  {
    var safe, gone := SafeWrites(w, req, env, writes), SafeUnsets(unsets, Protected(w, req, env));
    ProtectedIff(w, req, env, name);
    SafeUnsetsAre(unsets, Protected(w, req, env), name);
    UnsetPlaced(w, req, envId, safe, gone, writable, name);
  }

  /** The same for an unset that has passed the screening. */
  lemma UnsetPlaced(w: World, req: Request, envId: Id, safe: map<string, string>, gone: seq<string>,
                    writable: bool, name: string)
    requires LoopEnds(w.store.folders, req) && (envId == "" || envId in w.store.environments)
    requires (envId != "" ==> name !in w.store.environments[envId].secrets) && name !in safe && name in gone
    ensures var w' := Placed(w, req, envId, safe, gone, writable);
      var folder := Lookup(FolderLayer(w, req), name);
      w'.store.folders == w.store.folders && Reads(w', req, envId, name) ==
        if w.layer.Some? && name in SessionOf(w, req.workspace) then Some(SessionOf(w, req.workspace)[name])
        else if folder.Some? then folder
        else if envId == "" || (w.layer.None? && writable) then None
        else Lookup(w.store.environments[envId].variables, name)
  {
    ReadsThroughLayers(Placed(w, req, envId, safe, gone, writable), req, envId, name);
    if w.layer.None? {
      SessionForgets(SessionOf(w, req.workspace), safe, gone, KeysOf(FolderLayer(w, req)), name);
      if envId != "" {
        PersistedEntries(w.store.environments[envId].variables, safe, gone, name);
        LookupOnly(Persisted(w.store.environments[envId].variables, safe, gone), name);
      }
    }
  }

  lemma SessionForgets(session: map<string, string>, writes: map<string, string>, unsets: seq<string>,
                       shadowed: set<string>, name: string)
    requires name in unsets && name !in writes
    ensures name !in SessionBeside(session, writes, unsets, shadowed) && name !in SessionInstead(session, writes, unsets)
  {
  }
}
