/** The objects that hold script variables, and the engine method that fills them. */
module VariableStores {
  import opened Common
  import opened SortedNames
  import opened Substrings
  import opened Variables

  /** What vars.set and vars.unset leave in the sandbox: the writes, and the unset names in order. */
  datatype Delta = Delta(writes: map<string, string>, unsets: seq<string>)

  function Without(names: seq<string>, name: string): seq<string>
  {
    if names == [] then []
    else (if names[0] == name then [] else [names[0]]) + Without(names[1..], name)
  }

  lemma {:induction false} WithoutIs(names: seq<string>, name: string)
    ensures NamesIn(Without(names, name)) == NamesIn(names) - {name}
  {
    if names != [] {
      WithoutIs(names[1..], name);
      assert NamesIn(names) == {names[0]} + NamesIn(names[1..]);
      assert NamesIn(Without(names, name)) ==
        (if names[0] == name then {} else {names[0]}) + NamesIn(Without(names[1..], name));
    }
  }

  lemma {:induction false} WithoutAppend(names: seq<string>, last: string, name: string)
    ensures Without(names + [last], name) == Without(names, name) + (if last == name then [] else [last])
    decreases |names|
  {
    if names == [] {
      assert names + [last] == [last] && [last][1..] == [];
    } else {
      assert (names + [last])[1..] == names[1..] + [last];
      WithoutAppend(names[1..], last, name);
    }
  }

  function Record(d: Delta, op: Op): Delta
  {
    match op
    case Set(n, v) => Delta(d.writes[n := v], Without(d.unsets, n))
    case Unset(n) => Delta(d.writes - {n}, if n in d.unsets then d.unsets else d.unsets + [n])
  }

  function RecordAll(d: Delta, ops: seq<Op>): Delta
    decreases |ops|
  {
    if ops == [] then d else RecordAll(Record(d, ops[0]), ops[1..])
  }

  /** No name is both written and unset. */
  predicate Disjoint(d: Delta)
  {
    NamesIn(d.unsets) !! d.writes.Keys
  }

  function Applied(m: map<string, string>, d: Delta): map<string, string>
  {
    (m - NamesIn(d.unsets)) + d.writes
  }

  /** The delta is the whole effect of the script: applied to what it started from, it replays every call. */
  lemma {:induction false} DeltaReplays(m: map<string, string>, d: Delta, ops: seq<Op>)
    requires Disjoint(d)
    ensures Disjoint(RecordAll(d, ops))
    ensures Applied(m, RecordAll(d, ops)) == Replay(Applied(m, d), ops)
    decreases |ops|
  {
    if ops != [] {
      RecordApplies(m, d, ops[0]);
      DeltaReplays(m, Record(d, ops[0]), ops[1..]);
    }
  }

  lemma RecordApplies(m: map<string, string>, d: Delta, op: Op)
    requires Disjoint(d)
    ensures Disjoint(Record(d, op)) && Applied(m, Record(d, op)) == ReplayOne(Applied(m, d), op)
  {
    var gone := NamesIn(d.unsets);
    if op.Set? {
      WithoutIs(d.unsets, op.name);
      SetApplies(m, d.writes, gone, op.name, op.value);
    } else {
      assert NamesIn(Record(d, op).unsets) == gone + {op.name};
      UnsetApplies(m, d.writes, gone, op.name);
    }
  }

  lemma SetApplies(m: map<string, string>, writes: map<string, string>, gone: set<string>, n: string, v: string)
    ensures (m - (gone - {n})) + writes[n := v] == ((m - gone) + writes)[n := v]
  {
  }

  lemma UnsetApplies(m: map<string, string>, writes: map<string, string>, gone: set<string>, n: string)
    ensures (m - (gone + {n})) + (writes - {n}) == ((m - gone) + writes) - {n}
  {
  }

  lemma {:induction false} DeltaReplaysFromEmpty(ops: seq<Op>)
    ensures RecordAll(Delta(map[], []), ops).writes == Replay(map[], ops)
    ensures Disjoint(RecordAll(Delta(map[], []), ops))
  {
    DeltaReplays(map[], Delta(map[], []), ops);
    assert Applied(map[], Delta(map[], [])) == map[];
    assert Applied(map[], RecordAll(Delta(map[], []), ops)) == RecordAll(Delta(map[], []), ops).writes;
  }

  /**
   * End to end: if the script's calls leave `name` set, safely, to a value, the next resolution of the
   * request reads that value, wherever the delta landed.
   */
  lemma ScriptWritesAreRead(w: World, req: Request, envId: Id, env: Option<Environment>,
                            ops: seq<Op>, writable: bool, name: string)
    requires LoopEnds(w.store.folders, req) && MergedEnvironment(w, req, envId) == Ok(env)
    requires name in Replay(map[], ops) && Safe(w, req, env, name, Replay(map[], ops)[name])
    requires envId in w.store.environments ==> |Only(w.store.environments[envId].variables, name)| <= 1
    ensures var d := RecordAll(Delta(map[], []), ops);
      var w' := Written(w, req, envId, env, d.writes, d.unsets, writable);
      w'.store.folders == w.store.folders && Reads(w', req, envId, name) == Some(Replay(map[], ops)[name])
  {
    DeltaReplaysFromEmpty(ops);
    var d := RecordAll(Delta(map[], []), ops);
    ReadYourWrites(w, req, envId, env, d.writes, d.unsets, writable, name);
  }

  class Sandbox {
    var varWrites: map<string, string>
    var varUnsets: seq<string>

    ghost function State(): Delta
      reads this
    {
      Delta(varWrites, varUnsets)
    }

    constructor ()
      ensures State() == Delta(map[], [])
    {
      varWrites, varUnsets := map[], [];
    }

    method VarSet(name: string, value: string)
      modifies this
      ensures State() == Record(old(State()), Set(name, value))
    {
      varWrites := varWrites[name := value];
      var names, kept: seq<string> := varUnsets, [];
      for i := 0 to |names|
        invariant kept == Without(names[..i], name) && varWrites == old(varWrites)[name := value]
      {
        assert names[..i + 1] == names[..i] + [names[i]];
        WithoutAppend(names[..i], names[i], name);
        if names[i] != name {
          kept := kept + [names[i]];
        }
      }
      assert names[..|names|] == names;
      varUnsets := kept;
    }

    method VarUnset(name: string)
      modifies this
      ensures State() == Record(old(State()), Unset(name))
    {
      varWrites := varWrites - {name};
      if name !in varUnsets {
        varUnsets := varUnsets + [name];
      }
    }
  }

  class SessionVars {
    var byWorkspace: map<Id, map<string, string>>

    ghost function Of(workspace: Id): map<string, string>
      reads this
    {
      if workspace in byWorkspace then byWorkspace[workspace] else map[]
    }

    constructor ()
      ensures byWorkspace == map[]
    {
      byWorkspace := map[];
    }

    method Put(workspace: Id, name: string, value: string)
      modifies this
      ensures Of(workspace) == old(Of(workspace))[name := value]
      ensures forall other :: other != workspace ==> Of(other) == old(Of(other))
    {
      if workspace !in byWorkspace {
        byWorkspace := byWorkspace[workspace := map[]];
      }
      byWorkspace := byWorkspace[workspace := byWorkspace[workspace][name := value]];
    }

    method Forget(workspace: Id, names: seq<string>)
      modifies this
      ensures Of(workspace) == old(Of(workspace)) - NamesIn(names)
      ensures forall other :: other != workspace ==> Of(other) == old(Of(other))
    {
      if workspace !in byWorkspace {
        return;
      }
      var vars := byWorkspace[workspace];
      for i := 0 to |names|
        invariant vars == old(Of(workspace)) - NamesIn(names[..i])
      {
        assert names[..i + 1] == names[..i] + [names[i]];
        vars := vars - {names[i]};
      }
      assert names[..|names|] == names;
      byWorkspace := byWorkspace[workspace := vars];
    }
  }

  /** The last enabled value of each name: the data row a layer is reset to. */
  function RowMap(rows: seq<KeyValue>): (m: map<string, string>)
    ensures forall n :: if n in m then Lookup(rows, n) == Some(m[n]) else Lookup(rows, n).None?
    decreases |rows|
  {
    if rows == [] then map[]
    else
      var last := rows[|rows| - 1];
      var m := RowMap(rows[..|rows| - 1]);
      if last.enabled then m[last.key := last.value] else m
  }

  lemma RowAt(m: map<string, string>, names: seq<string>, i: nat)
    requires names == SortedKeys(m.Keys) && i < |names|
    ensures |Variables.Rows(m)| == |names| && Variables.Rows(m)[i] == KeyValue(names[i], m[names[i]], true)
  {
  }

  method ListRows(m: map<string, string>) returns (out: seq<KeyValue>)
    ensures out == Variables.Rows(m)
  {
    var names := SortKeys(m.Keys);
    ghost var all := Variables.Rows(m);
    out := [];
    for i := 0 to |names|
      invariant |all| == |names| && out == all[..i]
    {
      RowAt(m, names, i);
      out := out + [KeyValue(names[i], m[names[i]], true)];
    }
  }

  class RunScopedVars {
    var data: map<string, string>
    var writes: map<string, string>
    var unsets: set<string>

    ghost function State(): Layer
      reads this
    {
      Layer(data, writes, unsets)
    }

    constructor ()
      ensures State() == Variables.Reset(map[])
    {
      data, writes, unsets := map[], map[], {};
    }

    method Reset(rows: seq<KeyValue>)
      modifies this
      ensures State() == Variables.Reset(RowMap(rows))
    {
      var next: map<string, string> := map[];
      for i := 0 to |rows|
        invariant next == RowMap(rows[..i])
      {
        assert rows[..i + 1][..i] == rows[..i];
        if rows[i].enabled {
          next := next[rows[i].key := rows[i].value];
        }
      }
      assert rows[..|rows|] == rows;
      data, writes, unsets := next, map[], {};
    }

    method PutScript(name: string, value: string)
      modifies this
      ensures State() == SetScript(old(State()), name, value)
    {
      unsets := unsets - {name};
      writes := writes[name := value];
    }

    method DropScript(name: string)
      modifies this
      ensures State() == UnsetScript(old(State()), name)
    {
      writes := writes - {name};
      unsets := unsets + {name};
    }

    /** The row without what the script dropped, then what it wrote over it. */
    method Effective() returns (eff: map<string, string>)
      ensures eff == Overlay(State())
    {
      eff := map[];
      var left := data.Keys;
      while left != {}
        invariant left <= data.Keys
        invariant eff == map k | k in data && k !in left && k !in unsets :: data[k]
        decreases left
      {
        var k :| k in left;
        if k !in unsets {
          eff := eff[k := data[k]];
        }
        left := left - {k};
      }
      eff := eff + writes;
    }

    method Rows() returns (out: seq<KeyValue>)
      ensures out == Variables.Rows(Overlay(State()))
    {
      var eff := Effective();
      out := ListRows(eff);
    }
  }

  /** The same workspace as far as any reader can tell. */
  ghost predicate SameWorld(a: World, b: World)
  {
    a.store == b.store && a.layer == b.layer && forall ws :: SessionOf(a, ws) == SessionOf(b, ws)
  }

  function PutShadowed(m: map<string, string>, names: seq<string>, safe: map<string, string>, shadowed: set<string>):
      map<string, string>
    decreases |names|
  {
    if names == [] then m
    else if names[0] in safe && names[0] in shadowed then
      PutShadowed(m[names[0] := safe[names[0]]], names[1..], safe, shadowed)
    else PutShadowed(m, names[1..], safe, shadowed)
  }

  function SettledNames(names: seq<string>, safe: map<string, string>, shadowed: set<string>): seq<string>
  {
    if names == [] then []
    else
      (if names[0] in safe && names[0] in shadowed then [] else [names[0]]) + SettledNames(names[1..], safe, shadowed)
  }

  lemma {:induction false} SettledNamesAre(names: seq<string>, safe: map<string, string>, shadowed: set<string>, n: string)
    ensures n in SettledNames(names, safe, shadowed) <==> n in names && !(n in safe && n in shadowed)
  {
    if names != [] {
      SettledNamesAre(names[1..], safe, shadowed, n);
    }
  }

  lemma {:induction false} PutShadowedAt(
      m: map<string, string>, names: seq<string>, safe: map<string, string>, shadowed: set<string>, n: string)
    ensures var r := PutShadowed(m, names, safe, shadowed);
      if n in names && n in safe && n in shadowed then n in r && r[n] == safe[n]
      else (n in r <==> n in m) && (n in m ==> r[n] == m[n])
    decreases |names|
  {
    if names != [] {
      assert names == [names[0]] + names[1..];
      var m' := if names[0] in safe && names[0] in shadowed then m[names[0] := safe[names[0]]] else m;
      PutShadowedAt(m', names[1..], safe, shadowed, n);
    }
  }

  lemma AllSettled(before: map<string, string>, safe: map<string, string>, gone: seq<string>, shadowed: set<string>,
                   names: seq<string>)
    requires forall n :: n in names <==> n in safe || n in gone
    ensures PutShadowed(before, names, safe, shadowed) - NamesIn(SettledNames(names, safe, shadowed)) ==
      SessionBeside(before, safe, gone, shadowed)
  {
    var left := PutShadowed(before, names, safe, shadowed) - NamesIn(SettledNames(names, safe, shadowed));
    var right := SessionBeside(before, safe, gone, shadowed);
    forall n ensures (n in left <==> n in right) && (n in left ==> left[n] == right[n]) {
      PutShadowedAt(before, names, safe, shadowed, n);
      SettledNamesAre(names, safe, shadowed, n);
    }
  }

  lemma PlacedOutsideLayer(before: World, after: World, req: Request, envId: Id,
                           safe: map<string, string>, gone: seq<string>, writable: bool)
    requires LoopEnds(before.store.folders, req) && before.layer.None? && (safe != map[] || gone != [])
    requires after.store == Placed(before, req, envId, safe, gone, writable).store && after.layer.None?
    requires var session := SessionOf(before, req.workspace);
      SessionOf(after, req.workspace) ==
        if Persists(before, envId, writable) then SessionBeside(session, safe, gone, KeysOf(FolderLayer(before, req)))
        else SessionInstead(session, safe, gone)
    requires forall ws :: ws != req.workspace ==> SessionOf(after, ws) == SessionOf(before, ws)
    ensures SameWorld(after, Placed(before, req, envId, safe, gone, writable))
  {
  }

  lemma MoreWritten(m: map<string, string>, u: set<string>, safe: map<string, string>, left: set<string>, n: string)
    requires n in left && left <= safe.Keys
    ensures m + (safe - (left - {n})) == (m + (safe - left))[n := safe[n]]
    ensures u - (safe.Keys - (left - {n})) == (u - (safe.Keys - left)) - {n}
  {
  }

  lemma MoreDropped(m: map<string, string>, u: set<string>, gone: seq<string>, i: nat)
    requires i < |gone|
    ensures m - NamesIn(gone[..i + 1]) == (m - NamesIn(gone[..i])) - {gone[i]}
    ensures u + NamesIn(gone[..i + 1]) == (u + NamesIn(gone[..i])) + {gone[i]}
  {
    assert gone[..i + 1] == gone[..i] + [gone[i]];
  }

  class Engine {
    var store: Store
    const session: SessionVars

    ghost function Now(layer: RunScopedVars?): World
      reads this, session, layer
    {
      World(store, session.byWorkspace, if layer == null then None else Some(layer.State()))
    }

    constructor (store: Store)
      ensures this.store == store && fresh(session) && session.byWorkspace == map[]
    {
      this.store := store;
      session := new SessionVars();
    }

    method ApplyVariableWrites(req: Request, envId: Id, env: Option<Environment>, writes: map<string, string>,
                               unsets: seq<string>, writable: bool, layer: RunScopedVars?)
      requires LoopEnds(store.folders, req)
      modifies this, session, layer
      ensures SameWorld(Now(layer), Written(old(Now(layer)), req, envId, env, writes, unsets, writable))
    {
      var safe, gone := Screen(req, env, writes, unsets, layer);
      Place(req, envId, safe, gone, writable, layer);
    }

    method Place(req: Request, envId: Id, safe: map<string, string>, gone: seq<string>, writable: bool,
                 layer: RunScopedVars?)
      requires LoopEnds(store.folders, req)
      modifies this, session, layer
      ensures SameWorld(Now(layer), Placed(old(Now(layer)), req, envId, safe, gone, writable))
    {
      if safe == map[] && gone == [] {
        return;
      }
      if layer != null {
        FillLayer(layer, safe, gone);
        return;
      }
      PlaceOutsideLayer(req, envId, safe, gone, writable);
    }

    method PlaceOutsideLayer(req: Request, envId: Id, safe: map<string, string>, gone: seq<string>, writable: bool)
      requires LoopEnds(store.folders, req) && !(safe == map[] && gone == [])
      modifies this, session
      ensures SameWorld(Now(null), Placed(old(Now(null)), req, envId, safe, gone, writable))
    {
      ghost var before := Now(null);
      var shadowed := KeysOf(FolderLayer(World(store, map[], None), req));
      var persisted := false;
      if envId != "" {
        persisted := PersistVariables(envId, safe, gone, writable);
      }
      if persisted {
        SettleSession(req.workspace, safe, gone, shadowed);
      } else {
        FillSession(req.workspace, safe, gone);
      }
      assert forall ws :: SessionOf(before, ws) == old(session.Of(ws));
      assert forall ws :: SessionOf(Now(null), ws) == session.Of(ws);
      PlacedOutsideLayer(before, Now(null), req, envId, safe, gone, writable);
    }

    method Screen(req: Request, env: Option<Environment>, writes: map<string, string>, unsets: seq<string>,
                  ghost layer: RunScopedVars?)
      returns (safe: map<string, string>, gone: seq<string>)
      ensures safe == SafeWrites(Now(layer), req, env, writes)
      ensures gone == SafeUnsets(unsets, Protected(Now(layer), req, env))
    {
      var w := World(store, map[], None);
      var guarded, leaks := Protected(w, req, env), Leaks(env);
      safe := map[];
      var left := writes.Keys;
      while left != {}
        invariant left <= writes.Keys
        invariant safe == map n | n in writes && n !in left && Safe(w, req, env, n, writes[n]) :: writes[n]
        decreases left
      {
        var n :| n in left;
        if n !in guarded && !exists leak :: leak in leaks && Contains(writes[n], leak) {
          safe := safe[n := writes[n]];
        }
        left := left - {n};
      }
      gone := SafeUnsets(unsets, guarded);
    }

    method FillLayer(layer: RunScopedVars, safe: map<string, string>, gone: seq<string>)
      modifies layer
      ensures layer.State() == LayerAfter(old(layer.State()), safe, gone)
    {
      var left := safe.Keys;
      ghost var w0, u0 := layer.writes, layer.unsets;
      assert safe - left == map[] && w0 + map[] == w0;
      while left != {}
        invariant left <= safe.Keys && layer.data == old(layer.data)
        invariant layer.writes == w0 + (safe - left)
        invariant layer.unsets == u0 - (safe.Keys - left)
        decreases left
      {
        var n :| n in left;
        MoreWritten(w0, u0, safe, left, n);
        layer.PutScript(n, safe[n]);
        left := left - {n};
      }
      assert safe - left == safe && safe.Keys - left == safe.Keys;
      ghost var w1, u1 := layer.writes, layer.unsets;
      for i := 0 to |gone|
        invariant layer.data == old(layer.data)
        invariant layer.writes == w1 - NamesIn(gone[..i])
        invariant layer.unsets == u1 + NamesIn(gone[..i])
      {
        MoreDropped(w1, u1, gone, i);
        layer.DropScript(gone[i]);
      }
      assert gone[..|gone|] == gone;
    }

    static method PersistedVariables(vars: seq<KeyValue>, safe: map<string, string>, gone: seq<string>)
      returns (r: seq<KeyValue>)
      ensures r == Persisted(vars, safe, gone)
    {
      var names := SortKeys(safe.Keys);
      r := vars;
      ghost var upserted := UpsertAll(vars, names, safe);
      for i := 0 to |names|
        invariant UpsertAll(r, names[i..], safe) == upserted
      {
        assert names[i..][1..] == names[i + 1..];
        r := UpsertVariable(r, names[i], safe[names[i]]);
      }
      assert r == upserted;
      for i := 0 to |gone|
        invariant RemoveAll(r, gone[i..]) == RemoveAll(upserted, gone)
      {
        assert gone[i..][1..] == gone[i + 1..];
        r := RemoveVariable(r, gone[i]);
      }
    }

    /** False when the environment is unknown or the store refuses the write. */
    method PersistVariables(envId: Id, safe: map<string, string>, gone: seq<string>, writable: bool)
      returns (ok: bool)
      modifies this
      ensures ok <==> envId in old(store).environments && writable
      ensures store == if !ok then old(store) else
        var e := old(store).environments[envId];
        old(store).(environments := old(store).environments[envId :=
          e.(variables := Persisted(e.variables, safe, gone))])
    {
      if envId !in store.environments {
        return false;
      }
      var env := store.environments[envId];
      var vars := PersistedVariables(env.variables, safe, gone);
      if !writable {
        return false;
      }
      store := store.(environments := store.environments[envId := env.(variables := vars)]);
      return true;
    }

    method SettleSession(workspace: Id, safe: map<string, string>, gone: seq<string>, shadowed: set<string>)
      modifies session
      ensures session.Of(workspace) == SessionBeside(old(session.Of(workspace)), safe, gone, shadowed)
      ensures forall other :: other != workspace ==> session.Of(other) == old(session.Of(other))
    {
      var written := SortKeys(safe.Keys);
      AllSettled(session.Of(workspace), safe, gone, shadowed, written + gone);
      SettleNames(workspace, written + gone, safe, shadowed);
    }

    method SettleNames(workspace: Id, names: seq<string>, safe: map<string, string>, shadowed: set<string>)
      modifies session
      ensures session.Of(workspace) ==
        PutShadowed(old(session.Of(workspace)), names, safe, shadowed) - NamesIn(SettledNames(names, safe, shadowed))
      ensures forall other :: other != workspace ==> session.Of(other) == old(session.Of(other))
    {
      var settled: seq<string> := [];
      var left := names;
      ghost var before := session.Of(workspace);
      while left != []
        invariant PutShadowed(session.Of(workspace), left, safe, shadowed) == PutShadowed(before, names, safe, shadowed)
        invariant settled + SettledNames(left, safe, shadowed) == SettledNames(names, safe, shadowed)
        invariant forall other :: other != workspace ==> session.Of(other) == old(session.Of(other))
        decreases |left|
      {
        var kept := KeepShadowed(workspace, left[0], safe, shadowed);
        settled := settled + if kept then [] else [left[0]];
        left := left[1..];
      }
      session.Forget(workspace, settled);
    }

    method KeepShadowed(workspace: Id, name: string, safe: map<string, string>, shadowed: set<string>)
      returns (kept: bool)
      modifies session
      ensures kept <==> name in safe && name in shadowed
      ensures session.Of(workspace) ==
        if kept then old(session.Of(workspace))[name := safe[name]] else old(session.Of(workspace))
      ensures forall other :: other != workspace ==> session.Of(other) == old(session.Of(other))
    {
      kept := name in safe && name in shadowed;
      if kept {
        session.Put(workspace, name, safe[name]);
      }
    }

    method FillSession(workspace: Id, safe: map<string, string>, gone: seq<string>)
      modifies session
      ensures session.Of(workspace) == SessionInstead(old(session.Of(workspace)), safe, gone)
      ensures forall other :: other != workspace ==> session.Of(other) == old(session.Of(other))
    {
      var left := safe.Keys;
      while left != {}
        invariant left <= safe.Keys
        invariant session.Of(workspace) == old(session.Of(workspace)) + (safe - left)
        invariant forall other :: other != workspace ==> session.Of(other) == old(session.Of(other))
        decreases left
      {
        var n :| n in left;
        session.Put(workspace, n, safe[n]);
        left := left - {n};
      }
      session.Forget(workspace, gone);
    }
  }
}
