/**
 * The header names a script sets are kept in a map, and the map is walked in any order: when the order
 * cannot be seen in the request.
 */
module EditOrder {
  import opened Common
  import opened Redaction
  import opened ScriptEdits

  /** The entries of the map in one of the orders a walk may take. */
  ghost predicate Lists(edits: seq<Edit>, m: map<string, string>)
  {
    (forall i, j :: 0 <= i < j < |edits| ==> edits[i].name != edits[j].name) &&
    forall name, value :: Edit(name, value) in edits <==> name in m && m[name] == value
  }

  /** No two names address the same headers. */
  predicate FoldApart(m: map<string, string>)
  {
    forall a, b :: a in m && b in m && a != b ==> !EqualFold(a, b)
  }

  /** The same first n headers, and the same others in any order. */
  ghost predicate SameUpToOrder(a: seq<KeyValue>, b: seq<KeyValue>, n: nat)
  {
    |a| >= n && |b| >= n && a[..n] == b[..n] && multiset(a[n..]) == multiset(b[n..])
  }

  /** Whatever headers there are, two walks change them in the same way and append the same others. */
  ghost predicate OrderIsHidden(m: map<string, string>)
  {
    forall h, a, b :: Lists(a, m) && Lists(b, m) ==> SameUpToOrder(ApplyEdits(h, a), ApplyEdits(h, b), |h|)
  }

  /** The walk's order cannot be seen, but for the order of added headers, exactly when no two names fold together. */
  lemma OrderIsHiddenIff(m: map<string, string>)
    ensures OrderIsHidden(m) <==> FoldApart(m)
  {
    if FoldApart(m) {
      forall h, a, b | Lists(a, m) && Lists(b, m) ensures SameUpToOrder(ApplyEdits(h, a), ApplyEdits(h, b), |h|) {
        WalksAgree(h, a, b, m);
      }
    } else {
      var x, y :| x in m && y in m && x != y && EqualFold(x, y);
      var a, b := OrderShows(x, y, m);
      var none: seq<KeyValue> := [];
      assert !SameUpToOrder(ApplyEdits(none, a), ApplyEdits(none, b), |none|);
    }
  }

  // ---- Names that fold apart ------------------------------------------------

  predicate NamesApart(edits: seq<Edit>)
  {
    forall i, j :: 0 <= i < j < |edits| ==> !EqualFold(edits[i].name, edits[j].name)
  }

  lemma ListedApart(edits: seq<Edit>, m: map<string, string>)
    requires Lists(edits, m) && FoldApart(m)
    ensures NamesApart(edits)
  {
    forall i | 0 <= i < |edits| ensures edits[i].name in m {
      assert Edit(edits[i].name, edits[i].value) in edits;
    }
  }

  /** At most one edit addresses a header. */
  lemma OneEditEach(h: seq<KeyValue>, edits: seq<Edit>, i: nat, j: nat)
    requires NamesApart(edits) && i < |edits| && j < |edits| && i != j
    ensures Slot(h, edits[i].name) == Slot(h, edits[j].name) ==> Slot(h, edits[i].name) == |h|
  {
    assert !EqualFold(edits[i].name, edits[j].name) by {
      if i < j {
        assert !EqualFold(edits[i].name, edits[j].name);
      } else {
        assert !EqualFold(edits[j].name, edits[i].name);
      }
    }
  }

  lemma {:induction false} NoEditOf(h: seq<KeyValue>, edits: seq<Edit>, i: nat)
    requires i < |h| && forall k :: 0 <= k < |edits| ==> Slot(h, edits[k].name) != i
    ensures EditOf(h, edits, i) == None
    decreases |edits|
  {
    if edits != [] {
      NoEditOf(h, edits[1..], i);
    }
  }

  lemma {:induction false} TheEditOf(h: seq<KeyValue>, edits: seq<Edit>, k: nat)
    requires NamesApart(edits) && k < |edits| && Slot(h, edits[k].name) < |h|
    ensures EditOf(h, edits, Slot(h, edits[k].name)) == Some(edits[k].value)
    decreases |edits|
  {
    var i := Slot(h, edits[k].name);
    if k > 0 {
      TheEditOf(h, edits[1..], k - 1);
    } else {
      forall j | 0 <= j < |edits[1..]| ensures Slot(h, edits[1..][j].name) != i {
        OneEditEach(h, edits, 0, j + 1);
      }
      NoEditOf(h, edits[1..], i);
    }
  }

  lemma SameEditOf(h: seq<KeyValue>, a: seq<Edit>, b: seq<Edit>, m: map<string, string>, i: nat)
    requires Lists(a, m) && Lists(b, m) && FoldApart(m) && i < |h|
    ensures EditOf(h, a, i) == EditOf(h, b, i)
  {
    ListedApart(a, m);
    ListedApart(b, m);
    if k :| 0 <= k < |a| && Slot(h, a[k].name) == i {
      assert Edit(a[k].name, a[k].value) in b;
      var j :| 0 <= j < |b| && b[j] == a[k];
      TheEditOf(h, a, k);
      TheEditOf(h, b, j);
    } else {
      NoEditOf(h, a, i);
      forall j | 0 <= j < |b| ensures Slot(h, b[j].name) != i {
        assert Edit(b[j].name, b[j].value) in a;
        var k :| 0 <= k < |a| && a[k] == b[j];
      }
      NoEditOf(h, b, i);
    }
  }

  /** The headers the edits add. */
  function Added(h: seq<KeyValue>, edits: seq<Edit>): seq<KeyValue>
    decreases |edits|
  {
    if edits == [] then []
    else
      (if Slot(h, edits[0].name) == |h| then [KeyValue(edits[0].name, edits[0].value, true)] else []) +
      Added(h, edits[1..])
  }

  /** Two header lists in which the names to come address the same headers, or none in either. */
  ghost predicate SameSlots(h: seq<KeyValue>, h': seq<KeyValue>, edits: seq<Edit>)
  {
    forall k :: 0 <= k < |edits| ==> (Slot(h, edits[k].name) == |h| <==> Slot(h', edits[k].name) == |h'|)
  }

  lemma {:induction false} SameAdded(h: seq<KeyValue>, h': seq<KeyValue>, edits: seq<Edit>)
    requires SameSlots(h, h', edits)
    ensures Added(h, edits) == Added(h', edits)
    decreases |edits|
  {
    if edits != [] {
      assert forall k :: 0 <= k < |edits[1..]| ==> edits[1..][k] == edits[k + 1];
      SameAdded(h, h', edits[1..]);
    }
  }

  lemma UpsertKeepsOthers(h: seq<KeyValue>, edits: seq<Edit>)
    requires NamesApart(edits) && edits != []
    ensures SameSlots(h, Upsert(h, edits[0].name, edits[0].value), edits[1..])
  {
    var name, h' := edits[0].name, Upsert(h, edits[0].name, edits[0].value);
    forall k | 0 <= k < |edits[1..]|
      ensures Slot(h, edits[1..][k].name) == |h| <==> Slot(h', edits[1..][k].name) == |h'|
    {
      assert !EqualFold(name, edits[k + 1].name);
      SlotAfterUpsert(h, name, edits[0].value, edits[k + 1].name);
    }
  }

  lemma {:induction false} AddedAre(h: seq<KeyValue>, edits: seq<Edit>)
    requires NamesApart(edits)
    ensures var after := ApplyEdits(h, edits); |after| >= |h| && after[|h|..] == Added(h, edits)
    decreases |edits|
  {
    if edits != [] {
      var e, rest := edits[0], edits[1..];
      var h' := Upsert(h, e.name, e.value);
      RestApart(edits);
      AddedAre(h', rest);
      AddedRest(h, edits);
      var after := ApplyEdits(h', rest);
      if Slot(h, e.name) == |h| {
        AddedStays(h, edits);
        assert |h'| == |h| + 1 && after[|h| + 1..] == Added(h, rest);
      } else {
        assert |h'| == |h| && after[|h|..] == Added(h, rest);
      }
    }
  }

  lemma RestApart(edits: seq<Edit>)
    requires NamesApart(edits) && edits != []
    ensures NamesApart(edits[1..])
  {
    assert forall k :: 0 <= k < |edits[1..]| ==> edits[1..][k] == edits[k + 1];
  }

  lemma AddedRest(h: seq<KeyValue>, edits: seq<Edit>)
    requires NamesApart(edits) && edits != []
    ensures Added(h, edits[1..]) == Added(Upsert(h, edits[0].name, edits[0].value), edits[1..])
  {
    UpsertKeepsOthers(h, edits);
    SameAdded(h, Upsert(h, edits[0].name, edits[0].value), edits[1..]);
  }

  /** A header just added is not edited again. */
  lemma AddedStays(h: seq<KeyValue>, edits: seq<Edit>)
    requires NamesApart(edits) && edits != [] && Slot(h, edits[0].name) == |h|
    ensures var kv, after := KeyValue(edits[0].name, edits[0].value, true), ApplyEdits(h, edits);
      |after| > |h| && after[|h|..] == [kv] + after[|h| + 1..]
  {
    var kv, rest := KeyValue(edits[0].name, edits[0].value, true), edits[1..];
    var h' := h + [kv];
    assert Upsert(h, edits[0].name, edits[0].value) == h';
    assert forall k :: 0 <= k < |rest| ==> rest[k] == edits[k + 1] && !EqualFold(edits[0].name, edits[k + 1].name);
    LastStays(h', rest);
    FromFirst(ApplyEdits(h', rest), |h|);
  }

  lemma LastStays(h: seq<KeyValue>, edits: seq<Edit>)
    requires h != [] && forall k :: 0 <= k < |edits| ==> !EqualFold(h[|h| - 1].key, edits[k].name)
    ensures var after := ApplyEdits(h, edits); |after| >= |h| && after[|h| - 1] == h[|h| - 1]
  {
    LastIsNotAddressed(h, edits);
    EditedHeader(h, edits, |h| - 1);
  }

  lemma LastIsNotAddressed(h: seq<KeyValue>, edits: seq<Edit>)
    requires h != [] && forall k :: 0 <= k < |edits| ==> !EqualFold(h[|h| - 1].key, edits[k].name)
    ensures EditOf(h, edits, |h| - 1) == None
  {
    NoEditOf(h, edits, |h| - 1);
  }

  lemma FromFirst<T>(xs: seq<T>, n: nat)
    requires n < |xs|
    ensures xs[n..] == [xs[n]] + xs[n + 1..]
  {
  }

  /** How often a header is added is told by the map alone. */
  lemma {:induction false} AddedCount(h: seq<KeyValue>, edits: seq<Edit>, kv: KeyValue)
    requires NamesApart(edits)
    ensures multiset(Added(h, edits))[kv] ==
      if kv.enabled && Slot(h, kv.key) == |h| && Edit(kv.key, kv.value) in edits then 1 else 0
    decreases |edits|
  {
    if edits != [] {
      var e, rest := edits[0], edits[1..];
      assert edits == [e] + rest;
      AddedCount(h, rest, kv);
      if kv.key == e.name {
        forall k | 0 <= k < |rest| ensures rest[k].name != e.name {
          assert !EqualFold(edits[0].name, edits[k + 1].name);
        }
      }
    }
  }

  lemma WalksAgree(h: seq<KeyValue>, a: seq<Edit>, b: seq<Edit>, m: map<string, string>)
    requires Lists(a, m) && Lists(b, m) && FoldApart(m)
    ensures SameUpToOrder(ApplyEdits(h, a), ApplyEdits(h, b), |h|)
  {
    ListedApart(a, m);
    ListedApart(b, m);
    AddedAre(h, a);
    AddedAre(h, b);
    WalksAddAlike(h, a, b, m);
    forall i | 0 <= i < |h| ensures ApplyEdits(h, a)[i] == ApplyEdits(h, b)[i] {
      WalksEditAlike(h, a, b, m, i);
    }
    PartsAgree(ApplyEdits(h, a), ApplyEdits(h, b), |h|, Added(h, a), Added(h, b));
  }

  lemma PartsAgree(x: seq<KeyValue>, y: seq<KeyValue>, n: nat, p: seq<KeyValue>, q: seq<KeyValue>)
    requires |x| >= n && |y| >= n && (forall i :: 0 <= i < n ==> x[i] == y[i])
    requires x[n..] == p && y[n..] == q && multiset(p) == multiset(q)
    ensures SameUpToOrder(x, y, n)
  {
  }

  lemma WalksAddAlike(h: seq<KeyValue>, a: seq<Edit>, b: seq<Edit>, m: map<string, string>)
    requires Lists(a, m) && Lists(b, m) && FoldApart(m)
    ensures multiset(Added(h, a)) == multiset(Added(h, b))
  {
    ListedApart(a, m);
    ListedApart(b, m);
    forall kv: KeyValue ensures multiset(Added(h, a))[kv] == multiset(Added(h, b))[kv] {
      AddedCount(h, a, kv);
      AddedCount(h, b, kv);
    }
  }

  lemma WalksEditAlike(h: seq<KeyValue>, a: seq<Edit>, b: seq<Edit>, m: map<string, string>, i: nat)
    requires Lists(a, m) && Lists(b, m) && FoldApart(m) && i < |h|
    ensures |ApplyEdits(h, a)| >= |h| && |ApplyEdits(h, b)| >= |h| && ApplyEdits(h, a)[i] == ApplyEdits(h, b)[i]
  {
    EditedHeader(h, a, i);
    EditedHeader(h, b, i);
    SameEditOf(h, a, b, m, i);
  }

  // ---- Names that fold together ---------------------------------------------

  /** Some walk of the map. */
  lemma {:induction false} SomeWalk(m: map<string, string>) returns (edits: seq<Edit>)
    ensures Lists(edits, m)
    decreases m.Keys
  {
    edits := [];
    if m != map[] {
      var name :| name in m;
      var rest := SomeWalk(m - {name});
      forall i | 0 <= i < |rest| ensures rest[i].name in m - {name} {
        assert Edit(rest[i].name, rest[i].value) in rest;
      }
      edits := [Edit(name, m[name])] + rest;
    }
  }

  predicate KeysApart(h: seq<KeyValue>)
  {
    forall i, j :: 0 <= i < j < |h| ==> !EqualFold(h[i].key, h[j].key)
  }

  lemma {:induction false} EditsKeepKeysApart(h: seq<KeyValue>, edits: seq<Edit>)
    requires KeysApart(h)
    ensures KeysApart(ApplyEdits(h, edits))
    decreases |edits|
  {
    if edits != [] {
      EditsKeepKeysApart(Upsert(h, edits[0].name, edits[0].value), edits[1..]);
    }
  }

  /** Of two names that fold together the one that comes first gives its letters to the header. */
  lemma FirstNameStays(x: string, y: string, vx: string, vy: string, rest: seq<Edit>)
    requires EqualFold(x, y)
    ensures var after := ApplyEdits([], [Edit(x, vx), Edit(y, vy)] + rest);
      KeysApart(after) && after != [] && after[0].key == x
  {
    var edits := [Edit(x, vx), Edit(y, vy)] + rest;
    assert edits[1..] == [Edit(y, vy)] + rest && edits[1..][1..] == rest;
    var h := [KeyValue(x, vx, true)];
    assert Upsert([], x, vx) == h;
    EditsKeepKeysApart(h, edits[1..]);
    EditedHeader(h, edits[1..], 0);
  }

  lemma OrderShows(x: string, y: string, m: map<string, string>) returns (a: seq<Edit>, b: seq<Edit>)
    requires x in m && y in m && x != y && EqualFold(x, y)
    ensures Lists(a, m) && Lists(b, m) && !SameUpToOrder(ApplyEdits([], a), ApplyEdits([], b), 0)
  {
    var rest := SomeWalk(m - {x, y});
    forall i | 0 <= i < |rest| ensures rest[i].name in m - {x, y} {
      assert Edit(rest[i].name, rest[i].value) in rest;
    }
    a, b := [Edit(x, m[x]), Edit(y, m[y])] + rest, [Edit(y, m[y]), Edit(x, m[x])] + rest;
    FirstNameStays(x, y, m[x], m[y], rest);
    FirstNameStays(y, x, m[y], m[x], rest);
    FirstKeysShow(ApplyEdits([], a), ApplyEdits([], b));
  }

  lemma FirstKeysShow(h: seq<KeyValue>, h': seq<KeyValue>)
    requires h != [] && h' != [] && KeysApart(h') && EqualFold(h[0].key, h'[0].key) && h[0].key != h'[0].key
    ensures !SameUpToOrder(h, h', 0)
  {
    forall j | 0 <= j < |h'| ensures h'[j] != h[0] {
      assert j > 0 ==> !EqualFold(h'[0].key, h'[j].key);
    }
    assert h[0..] == h && h'[0..] == h';
    assert h[0] in multiset(h) && h[0] !in multiset(h');
  }

  // ---- The request that is sent ---------------------------------------------

  /** With names that fold apart the requests sent after two walks are the same, but for the order of added headers. */
  lemma SentUpToOrder(actual: Resolved, a: seq<Edit>, b: seq<Edit>, m: map<string, string>,
                      values: seq<string>, secrets: map<string, string>)
    requires Valid(values, secrets) && Lists(a, m) && Lists(b, m) && FoldApart(m)
    ensures var s, t := SentAfter(actual, a, values, secrets), SentAfter(actual, b, values, secrets);
      SameUpToOrder(s.headers, t.headers, |actual.headers|) && s == t.(headers := s.headers)
  {
    var shown := RedactResolved(actual, values, secrets).headers;
    WalksAgree(shown, a, b, m);
    MergedUpToOrder(actual.headers, shown, ApplyEdits(shown, a), ApplyEdits(shown, b));
  }

  lemma MergedUpToOrder(actual: seq<KeyValue>, shown: seq<KeyValue>, a: seq<KeyValue>, b: seq<KeyValue>)
    requires |shown| == |actual| && SameUpToOrder(a, b, |shown|)
    ensures SameUpToOrder(MergeHeaders(actual, shown, a), MergeHeaders(actual, shown, b), |actual|)
  {
    var n, s, t := |actual|, MergeHeaders(actual, shown, a), MergeHeaders(actual, shown, b);
    assert s[n..] == a[n..] && t[n..] == b[n..];
    forall i | 0 <= i < n ensures s[i] == t[i] {
      assert a[i] == a[..n][i] && b[i] == b[..n][i];
    }
  }
}
