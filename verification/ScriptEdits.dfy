/**
 * A pre-request script edits a redacted copy of the request; its edits are then
 * folded back onto the real one.
 */
module ScriptEdits {
  import opened Common
  import opened Redaction
  import opened SecretOverlaps

  datatype Body = Body(kind: string, text: string)

  datatype Resolved = Resolved(
    url: string, httpMethod: string, headers: seq<KeyValue>, params: seq<KeyValue>, body: Option<Body>,
    pathParams: seq<KeyValue>, auth: Option<string>)

  /** One ctx.setHeader(name, value). */
  datatype Edit = Edit(name: string, value: string)

  function FoldChar(c: char): char
  {
    if 'A' <= c <= 'Z' then c + ' ' else c
  }

  predicate EqualFold(a: string, b: string)
  {
    |a| == |b| && forall i :: 0 <= i < |a| ==> FoldChar(a[i]) == FoldChar(b[i])
  }

  /** The same character, or one Latin letter in capital and in small. */
  predicate SameLetter(c: char, d: char)
  {
    c == d || (65 <= c as int <= 90 && d as int == c as int + 32) || (97 <= c as int <= 122 && d as int == c as int - 32)
  }

  /** Two names fold together exactly when they differ in the case of letters only. */
  lemma FoldIff(a: string, b: string)
    ensures EqualFold(a, b) <==> |a| == |b| && forall i :: 0 <= i < |a| ==> SameLetter(a[i], b[i])
  {
    forall c, d ensures FoldChar(c) == FoldChar(d) <==> SameLetter(c, d) {
      FoldCharIff(c, d);
    }
  }

  lemma FoldCharIff(c: char, d: char)
    ensures FoldChar(c) == FoldChar(d) <==> SameLetter(c, d)
  {
  }

  /** The first header a name addresses, or |headers|. */
  function Slot(headers: seq<KeyValue>, name: string): (i: nat)
    ensures i <= |headers|
    ensures i < |headers| ==> EqualFold(headers[i].key, name)
    ensures forall j :: 0 <= j < i ==> !EqualFold(headers[j].key, name)
  {
    if headers == [] || EqualFold(headers[0].key, name) then 0 else 1 + Slot(headers[1..], name)
  }

  function Upsert(headers: seq<KeyValue>, name: string, value: string): seq<KeyValue>
  {
    var i := Slot(headers, name);
    if i < |headers| then headers[i := KeyValue(headers[i].key, value, true)]
    else headers + [KeyValue(name, value, true)]
  }

  function ApplyEdits(headers: seq<KeyValue>, edits: seq<Edit>): seq<KeyValue>
    decreases |edits|
  {
    if edits == [] then headers
    else ApplyEdits(Upsert(headers, edits[0].name, edits[0].value), edits[1..])
  }

  function RedactHeaders(headers: seq<KeyValue>, values: seq<string>, secrets: map<string, string>): (r: seq<KeyValue>)
    requires Valid(values, secrets)
    ensures |r| == |headers|
  {
    seq(|headers|, i requires 0 <= i < |headers| =>
      headers[i].(key := Redact(headers[i].key, values, secrets), value := Redact(headers[i].value, values, secrets)))
  }

  function RedactResolved(r: Resolved, values: seq<string>, secrets: map<string, string>): Resolved
    requires Valid(values, secrets)
  {
    r.(url := Redact(r.url, values, secrets),
       headers := RedactHeaders(r.headers, values, secrets),
       body := if r.body.None? then None else Some(r.body.value.(text := Redact(r.body.value.text, values, secrets))))
  }

  /** Header i of the script's output, put back over the real one where the script left it alone. */
  function MergeHeader(actual: seq<KeyValue>, baseline: seq<KeyValue>, scripted: seq<KeyValue>, i: nat): KeyValue
    requires i < |scripted|
  {
    if i >= |baseline| || i >= |actual| || scripted[i].key != baseline[i].key then scripted[i]
    else KeyValue(actual[i].key,
                  if scripted[i].value == baseline[i].value then actual[i].value else scripted[i].value,
                  scripted[i].enabled)
  }

  function MergeHeaders(actual: seq<KeyValue>, baseline: seq<KeyValue>, scripted: seq<KeyValue>): (r: seq<KeyValue>)
    ensures |r| == |scripted|
  {
    seq(|scripted|, i requires 0 <= i < |scripted| => MergeHeader(actual, baseline, scripted, i))
  }

  function MergeScriptEdits(actual: Resolved, baseline: Resolved, scripted: Resolved): Resolved
  {
    scripted.(
      url := if scripted.url == baseline.url then actual.url else scripted.url,
      body := if scripted.body.Some? && baseline.body.Some? && actual.body.Some? &&
                 scripted.body.value.text == baseline.body.value.text
              then Some(scripted.body.value.(text := actual.body.value.text)) else scripted.body,
      headers := MergeHeaders(actual.headers, baseline.headers, scripted.headers),
      auth := actual.auth)
  }

  /** What goes out for header i: the script's own, or the real one with what the script changed of it. */
  predicate HeaderMerged(actual: seq<KeyValue>, baseline: seq<KeyValue>, scripted: seq<KeyValue>, i: nat, h: KeyValue)
    requires i < |scripted|
  {
    var own := |baseline| <= i || |actual| <= i || baseline[i].key != scripted[i].key;
    if own then h == scripted[i]
    else
      h.key == actual[i].key && h.enabled == scripted[i].enabled &&
      (baseline[i].value == scripted[i].value ==> h.value == actual[i].value) &&
      (baseline[i].value != scripted[i].value ==> h.value == scripted[i].value)
  }

  /** A body text the script was shown and left alone is the real one again. */
  predicate BodyMerged(actual: Option<Body>, baseline: Option<Body>, scripted: Option<Body>, body: Option<Body>)
  {
    if actual.None? || baseline.None? || scripted.None? || baseline.value.text != scripted.value.text
    then body == scripted
    else body == Some(Body(scripted.value.kind, actual.value.text))
  }

  /**
   * Whatever a script makes of the request it was shown, each part it left as shown goes out as it really is and
   * each part it changed goes out as changed; credentials are the real ones always.
   */
  lemma PartsAreMerged(actual: Resolved, baseline: Resolved, scripted: Resolved)
    ensures var r := MergeScriptEdits(actual, baseline, scripted);
      r.auth == actual.auth && r.httpMethod == scripted.httpMethod && r.params == scripted.params &&
      r.pathParams == scripted.pathParams && BodyMerged(actual.body, baseline.body, scripted.body, r.body) &&
      (baseline.url == scripted.url ==> r.url == actual.url) && (baseline.url != scripted.url ==> r.url == scripted.url)
    ensures var r := MergeScriptEdits(actual, baseline, scripted);
      |r.headers| == |scripted.headers| &&
      forall i :: 0 <= i < |scripted.headers| ==>
        HeaderMerged(actual.headers, baseline.headers, scripted.headers, i, r.headers[i])
  {
  }

  /** The request sent after a script that made these edits. */
  function SentAfter(actual: Resolved, edits: seq<Edit>, values: seq<string>, secrets: map<string, string>): Resolved
    requires Valid(values, secrets)
  {
    var snapshot := RedactResolved(actual, values, secrets);
    MergeScriptEdits(actual, snapshot, snapshot.(headers := ApplyEdits(snapshot.headers, edits)))
  }

  /** Redaction is invisible: the request sent is the real one with the same edits. */
  ghost predicate Transparent(actual: Resolved, edits: seq<Edit>, values: seq<string>, secrets: map<string, string>)
    requires Valid(values, secrets)
  {
    SentAfter(actual, edits, values, secrets) == actual.(headers := ApplyEdits(actual.headers, edits))
  }

  /** A script that changes nothing leaves the request exactly as it was, secrets included. */
  lemma EmptyScriptIsIdentity(actual: Resolved, values: seq<string>, secrets: map<string, string>)
    requires Valid(values, secrets)
    ensures SentAfter(actual, [], values, secrets) == actual
  {
    assert SentAfter(actual, [], values, secrets).headers == actual.headers;
  }

  // ---- Where an edit lands --------------------------------------------------

  /** The last value an edit list gives header i, if it gives one. */
  function EditOf(headers: seq<KeyValue>, edits: seq<Edit>, i: nat): Option<string>
    requires i < |headers|
  {
    if edits == [] then None
    else
      var later := EditOf(headers, edits[1..], i);
      if later.Some? then later else if Slot(headers, edits[0].name) == i then Some(edits[0].value) else None
  }

  ghost predicate SlotsAgree(a: seq<KeyValue>, b: seq<KeyValue>)
  {
    |a| == |b| && forall name :: Slot(a, name) == Slot(b, name)
  }

  predicate SameKeys(a: seq<KeyValue>, b: seq<KeyValue>)
  {
    |a| == |b| && forall i :: 0 <= i < |a| ==> a[i].key == b[i].key
  }

  lemma SlotIs(headers: seq<KeyValue>, name: string, i: nat)
    requires i <= |headers| && (i < |headers| ==> EqualFold(headers[i].key, name))
    requires forall j :: 0 <= j < i ==> !EqualFold(headers[j].key, name)
    ensures Slot(headers, name) == i
  {
  }

  lemma SameKeysSameSlots(a: seq<KeyValue>, b: seq<KeyValue>)
    requires SameKeys(a, b)
    ensures SlotsAgree(a, b)
  {
    forall name ensures Slot(a, name) == Slot(b, name) {
      SlotIs(b, name, Slot(a, name));
    }
  }

  lemma UpsertKeepsSlots(a: seq<KeyValue>, b: seq<KeyValue>, name: string, value: string)
    requires SlotsAgree(a, b)
    ensures SlotsAgree(Upsert(a, name, value), Upsert(b, name, value))
  {
    var a', b' := Upsert(a, name, value), Upsert(b, name, value);
    forall other ensures Slot(a', other) == Slot(b', other) {
      SlotAfterUpsert(a, name, value, other);
      SlotAfterUpsert(b, name, value, other);
    }
  }

  lemma SlotAfterUpsert(a: seq<KeyValue>, name: string, value: string, other: string)
    ensures var after := Upsert(a, name, value);
      Slot(after, other) ==
        if Slot(a, other) < |a| then Slot(a, other)
        else if |after| > |a| && !EqualFold(name, other) then |a| + 1 else |a|
  {
    var after := Upsert(a, name, value);
    var i := Slot(a, other);
    if i < |a| || |after| == |a| || EqualFold(name, other) {
      SlotIs(after, other, i);
    } else {
      SlotIs(after, other, |a| + 1);
    }
  }

  /** Editing two header lists whose names address the same slots edits both in the same places. */
  lemma {:induction false} EditsAgree(a: seq<KeyValue>, b: seq<KeyValue>, edits: seq<Edit>, n: nat)
    requires SlotsAgree(a, b) && n <= |a| && a[n..] == b[n..]
    ensures var a', b' := ApplyEdits(a, edits), ApplyEdits(b, edits);
      |a'| == |b'| >= |a| && a'[n..] == b'[n..]
    decreases |edits|
  {
    if edits != [] {
      var e := edits[0];
      var a', b' := Upsert(a, e.name, e.value), Upsert(b, e.name, e.value);
      UpsertKeepsSlots(a, b, e.name, e.value);
      UpsertKeepsTails(a, b, e.name, e.value, n);
      EditsAgree(a', b', edits[1..], n);
    }
  }

  lemma UpsertKeepsTails(a: seq<KeyValue>, b: seq<KeyValue>, name: string, value: string, n: nat)
    requires SlotsAgree(a, b) && n <= |a| && a[n..] == b[n..]
    ensures var a', b' := Upsert(a, name, value), Upsert(b, name, value);
      |a'| == |b'| >= |a| && a'[n..] == b'[n..]
  {
    var a', b', j := Upsert(a, name, value), Upsert(b, name, value), Slot(a, name);
    assert Slot(b, name) == j;
    if j < n {
      assert a'[n..] == a[n..] && b'[n..] == b[n..];
    } else if j < |a| {
      assert a[j] == a[n..][j - n] && b[j] == b[n..][j - n];
      assert a'[n..] == a[n..][j - n := a'[j]] && b'[n..] == b[n..][j - n := b'[j]];
    } else {
      var added := KeyValue(name, value, true);
      assert a'[n..] == a[n..] + [added] && b'[n..] == b[n..] + [added];
    }
  }

  /** An existing header keeps its key, and takes the last value given to it. */
  lemma {:induction false} EditedHeader(headers: seq<KeyValue>, edits: seq<Edit>, i: nat)
    requires i < |headers|
    ensures var after := ApplyEdits(headers, edits);
      |after| >= |headers| &&
      after[i] == match EditOf(headers, edits, i)
                  case None => headers[i]
                  case Some(v) => KeyValue(headers[i].key, v, true)
    decreases |edits|
  {
    if edits != [] {
      var next := Upsert(headers, edits[0].name, edits[0].value);
      EditedHeader(next, edits[1..], i);
      EditOfStable(headers, next, edits[1..], i);
    }
  }

  lemma {:induction false} EditOfStable(a: seq<KeyValue>, b: seq<KeyValue>, edits: seq<Edit>, i: nat)
    requires i < |a| <= |b| && SameKeys(a, b[..|a|])
    ensures EditOf(a, edits, i) == EditOf(b, edits, i)
    decreases |edits|
  {
    if edits != [] {
      EditOfStable(a, b, edits[1..], i);
      var name := edits[0].name;
      assert forall j :: 0 <= j < |a| ==> b[j].key == b[..|a|][j].key == a[j].key;
      if Slot(a, name) < |a| {
        SlotIs(b, name, Slot(a, name));
      }
    }
  }

  // ---- When redaction is invisible ------------------------------------------

  /** No edited header ends at the text the script was shown for it, unless that is its real value. */
  predicate Unambiguous(actual: seq<KeyValue>, shown: seq<KeyValue>, edits: seq<Edit>)
    requires |actual| == |shown|
  {
    forall i :: 0 <= i < |actual| ==>
      EditOf(shown, edits, i) == Some(shown[i].value) ==> actual[i].value == shown[i].value
  }

  /** One edit list, with names addressing the slots they address on the real request. */
  lemma TransparentIffUnambiguous(actual: Resolved, edits: seq<Edit>, values: seq<string>, secrets: map<string, string>)
    requires Valid(values, secrets) && SlotsAgree(actual.headers, RedactResolved(actual, values, secrets).headers)
    ensures Transparent(actual, edits, values, secrets) <==>
      Unambiguous(actual.headers, RedactResolved(actual, values, secrets).headers, edits)
  {
    var h, shown := actual.headers, RedactResolved(actual, values, secrets).headers;
    var merged, wanted := SentAfter(actual, edits, values, secrets).headers, ApplyEdits(h, edits);
    EditsAgree(h, shown, edits, |h|);
    assert |merged| == |wanted|;
    forall i | |h| <= i < |merged| ensures merged[i] == wanted[i] {
      assert wanted[|h|..][i - |h|] == ApplyEdits(shown, edits)[|h|..][i - |h|];
    }
    forall i | 0 <= i < |h|
      ensures merged[i] == wanted[i] <==>
        (EditOf(shown, edits, i) == Some(shown[i].value) ==> h[i].value == shown[i].value)
    {
      EditedHeader(h, edits, i);
      EditedHeader(shown, edits, i);
      SameSlotsSameEdits(h, shown, edits, i);
    }
    assert merged == wanted <==> forall i :: 0 <= i < |h| ==> merged[i] == wanted[i];
  }

  lemma {:induction false} SameSlotsSameEdits(a: seq<KeyValue>, b: seq<KeyValue>, edits: seq<Edit>, i: nat)
    requires SlotsAgree(a, b) && i < |a|
    ensures EditOf(a, edits, i) == EditOf(b, edits, i)
    decreases |edits|
  {
    if edits != [] {
      SameSlotsSameEdits(a, b, edits[1..], i);
    }
  }

  ghost predicate TransparentWhenUnambiguous(actual: Resolved, edits: seq<Edit>, values: seq<string>, secrets: map<string, string>)
    requires Valid(values, secrets)
  {
    Unambiguous(actual.headers, RedactResolved(actual, values, secrets).headers, edits) ==>
      Transparent(actual, edits, values, secrets)
  }

  /**
   * For every script: redaction is invisible to unambiguous edits exactly when no redacted header key
   * makes a name address another slot.
   */
  lemma AlwaysTransparentIffSlotsAgree(actual: Resolved, values: seq<string>, secrets: map<string, string>)
    requires Valid(values, secrets)
    ensures (forall edits :: TransparentWhenUnambiguous(actual, edits, values, secrets)) <==>
      SlotsAgree(actual.headers, RedactResolved(actual, values, secrets).headers)
  {
    var shown := RedactResolved(actual, values, secrets).headers;
    if SlotsAgree(actual.headers, shown) {
      forall edits ensures TransparentWhenUnambiguous(actual, edits, values, secrets) {
        TransparentIffUnambiguous(actual, edits, values, secrets);
      }
    } else {
      var name :| Slot(actual.headers, name) != Slot(shown, name);
      MisdirectedEdit(actual, name, values, secrets);
    }
  }

  lemma OneEdit(h: seq<KeyValue>, name: string, value: string)
    ensures ApplyEdits(h, [Edit(name, value)]) == Upsert(h, name, value)
  {
    assert [Edit(name, value)][1..] == [];
  }

  /** The snapshot's slot is header j: the edit lands there and not where it should. */
  lemma LandsElsewhere(actual: Resolved, name: string, values: seq<string>, secrets: map<string, string>)
    requires Valid(values, secrets)
    requires var j := Slot(RedactResolved(actual, values, secrets).headers, name);
      j < |actual.headers| && Slot(actual.headers, name) != j
    ensures exists edits :: !TransparentWhenUnambiguous(actual, edits, values, secrets)
  {
    var h, shown := actual.headers, RedactResolved(actual, values, secrets).headers;
    var j := Slot(shown, name);
    var value := shown[j].value + h[j].value + "x";
    OneEdit(h, name, value);
    OneEdit(shown, name, value);
    assert |value| > |shown[j].value| && |value| > |h[j].value|;
    assert Unambiguous(h, shown, [Edit(name, value)]);
    assert SentAfter(actual, [Edit(name, value)], values, secrets).headers[j].value == value;
    assert Upsert(h, name, value)[j].value == h[j].value;
    assert !TransparentWhenUnambiguous(actual, [Edit(name, value)], values, secrets);
  }

  /** The snapshot has no slot for the name: the edit adds a header instead. */
  lemma LandsBeyond(actual: Resolved, name: string, values: seq<string>, secrets: map<string, string>)
    requires Valid(values, secrets)
    requires Slot(RedactResolved(actual, values, secrets).headers, name) == |actual.headers|
    requires Slot(actual.headers, name) < |actual.headers|
    ensures exists edits :: !TransparentWhenUnambiguous(actual, edits, values, secrets)
  {
    var h, shown := actual.headers, RedactResolved(actual, values, secrets).headers;
    OneEdit(h, name, "");
    OneEdit(shown, name, "");
    assert Unambiguous(h, shown, [Edit(name, "")]);
    assert |SentAfter(actual, [Edit(name, "")], values, secrets).headers| == |h| + 1 && |Upsert(h, name, "")| == |h|;
    assert !TransparentWhenUnambiguous(actual, [Edit(name, "")], values, secrets);
  }

  /** A name whose slot redaction moves: some value set through it lands on the wrong header. */
  lemma MisdirectedEdit(actual: Resolved, name: string, values: seq<string>, secrets: map<string, string>)
    requires Valid(values, secrets)
    requires Slot(actual.headers, name) != Slot(RedactResolved(actual, values, secrets).headers, name)
    ensures exists edits :: !TransparentWhenUnambiguous(actual, edits, values, secrets)
  {
    if Slot(RedactResolved(actual, values, secrets).headers, name) < |actual.headers| {
      LandsElsewhere(actual, name, values, secrets);
    } else {
      LandsBeyond(actual, name, values, secrets);
    }
  }

  /** The check a caller can make: no header key holds a secret. Then unambiguous edits survive redaction. */
  lemma HeaderEditsSurviveRedaction(actual: Resolved, edits: seq<Edit>, values: seq<string>, secrets: map<string, string>)
    requires Valid(values, secrets)
    requires forall i :: 0 <= i < |actual.headers| ==> Clean(actual.headers[i].key, values)
    requires Unambiguous(actual.headers, RedactResolved(actual, values, secrets).headers, edits)
    ensures Transparent(actual, edits, values, secrets)
  {
    var shown := RedactResolved(actual, values, secrets).headers;
    forall i | 0 <= i < |actual.headers| ensures actual.headers[i].key == shown[i].key {
      RedactUntouched(actual.headers[i].key, values, secrets);
    }
    SameKeysSameSlots(actual.headers, shown);
    TransparentIffUnambiguous(actual, edits, values, secrets);
  }

  /** No part of the request that a script is shown contains a secret value. */
  ghost predicate HidesSecrets(shown: Resolved, values: seq<string>)
  {
    Clean(shown.url, values) && (shown.body.Some? ==> Clean(shown.body.value.text, values)) &&
    forall h :: h in shown.headers ==> Clean(h.key, values) && Clean(h.value, values)
  }

  ghost predicate RedactionIsComplete(values: seq<string>, secrets: map<string, string>)
    requires Valid(values, secrets)
  {
    forall s :: RedactsClean(s, values, secrets)
  }

  /** No request ever shows a secret value exactly when redaction leaves none in any string. */
  lemma SnapshotsHideSecretsIff(values: seq<string>, secrets: map<string, string>)
    requires Valid(values, secrets)
    ensures (forall r :: HidesSecrets(RedactResolved(r, values, secrets), values)) <==> RedactionIsComplete(values, secrets)
  {
    if RedactionIsComplete(values, secrets) {
      forall r ensures HidesSecrets(RedactResolved(r, values, secrets), values) {
        CompleteHides(r, values, secrets);
      }
    } else {
      var s :| !RedactsClean(s, values, secrets);
      assert RedactResolved(Resolved(s, "", [], [], None, [], None), values, secrets).url == Redact(s, values, secrets);
    }
  }

  lemma CompleteHides(r: Resolved, values: seq<string>, secrets: map<string, string>)
    requires Valid(values, secrets) && RedactionIsComplete(values, secrets)
    ensures HidesSecrets(RedactResolved(r, values, secrets), values)
  {
    assert RedactsClean(r.url, values, secrets);
    assert r.body.Some? ==> RedactsClean(r.body.value.text, values, secrets);
    var shown := RedactHeaders(r.headers, values, secrets);
    forall i | 0 <= i < |shown| ensures Clean(shown[i].key, values) && Clean(shown[i].value, values) {
      assert RedactsClean(r.headers[i].key, values, secrets) && RedactsClean(r.headers[i].value, values, secrets);
    }
  }

  /** So for bracket-free secrets that each redact clean, and for any that are apart from the placeholders. */
  lemma SnapshotHidesSecrets(actual: Resolved, values: seq<string>, secrets: map<string, string>)
    requires Valid(values, secrets)
    requires (Ordered(values) && BracketFree(values) && EachSecretRedactsClean(values, secrets)) || Apart(values, secrets)
    ensures HidesSecrets(RedactResolved(actual, values, secrets), values)
  {
    forall s ensures RedactsClean(s, values, secrets) {
      if Apart(values, secrets) {
        ApartSecretsNeverLeak(s, values, secrets);
      } else {
        CleanWhenSecretsAre(s, values, secrets);
      }
    }
    CompleteHides(actual, values, secrets);
  }

  // ---- The loops, on shared header slices -----------------------------------

  /** Rewrites an existing header in place; a new one goes into a grown copy. */
  method UpsertHeader(headers: array<KeyValue>, name: string, value: string) returns (out: array<KeyValue>)
    modifies headers
    ensures out[..] == Upsert(old(headers[..]), name, value)
    ensures out == headers || fresh(out)
  {
    var i := 0;
    while i < headers.Length
      invariant i <= headers.Length
      invariant forall j :: 0 <= j < i ==> !EqualFold(headers[j].key, name)
    {
      if EqualFold(headers[i].key, name) {
        SlotIs(headers[..], name, i);
        headers[i] := KeyValue(headers[i].key, value, true);
        return headers;
      }
      i := i + 1;
    }
    SlotIs(headers[..], name, i);
    var n := headers.Length;
    out := new KeyValue[n + 1](k requires 0 <= k <= n reads headers =>
      if k < n then headers[k] else KeyValue(name, value, true));
    assert out[..] == headers[..] + [KeyValue(name, value, true)];
  }

  method CloneHeaders(headers: array<KeyValue>) returns (out: array<KeyValue>)
    ensures fresh(out) && out[..] == headers[..]
  {
    out := new KeyValue[headers.Length](k requires 0 <= k < headers.Length reads headers => headers[k]);
  }

  method ApplyInPlace(snapshot: array<KeyValue>, edits: seq<Edit>) returns (out: array<KeyValue>)
    modifies snapshot
    ensures out == snapshot || fresh(out)
    ensures out[..] == ApplyEdits(old(snapshot[..]), edits)
  {
    out := snapshot;
    for i := 0 to |edits|
      invariant out == snapshot || fresh(out)
      invariant ApplyEdits(out[..], edits[i..]) == ApplyEdits(old(snapshot[..]), edits)
    {
      assert edits[i..][1..] == edits[i + 1..];
      out := UpsertHeader(out, edits[i].name, edits[i].value);
    }
  }

  method MergeScriptHeaders(actual: array<KeyValue>, baseline: array<KeyValue>, scripted: array<KeyValue>)
    returns (headers: array<KeyValue>)
    ensures fresh(headers) && headers[..] == MergeHeaders(actual[..], baseline[..], scripted[..])
  {
    headers := CloneHeaders(scripted);
    var i := 0;
    while i < headers.Length && i < baseline.Length && i < actual.Length
      invariant i <= headers.Length == scripted.Length
      invariant forall k :: 0 <= k < i ==> headers[k] == MergeHeader(actual[..], baseline[..], scripted[..], k)
      invariant forall k :: i <= k < headers.Length ==> headers[k] == scripted[k]
    {
      if headers[i].key == baseline[i].key {
        var value := if headers[i].value == baseline[i].value then actual[i].value else headers[i].value;
        headers[i] := KeyValue(actual[i].key, value, headers[i].enabled);
      }
      i := i + 1;
    }
  }

  /** A request value and the slice its headers live in. */
  ghost predicate Holds(r: Resolved, headers: array<KeyValue>)
    reads headers
  {
    r.headers == headers[..]
  }

  method RedactInto(actual: Resolved, headers: array<KeyValue>, values: seq<string>, secrets: map<string, string>)
    returns (shown: Resolved, copy: array<KeyValue>)
    requires Valid(values, secrets) && Holds(actual, headers)
    ensures fresh(copy) && Holds(shown, copy) && shown == RedactResolved(actual, values, secrets)
  {
    copy := new KeyValue[headers.Length](k requires 0 <= k < headers.Length reads headers =>
      headers[k].(key := Redact(headers[k].key, values, secrets), value := Redact(headers[k].value, values, secrets)));
    assert copy[..] == RedactHeaders(actual.headers, values, secrets);
    shown := actual.(url := Redact(actual.url, values, secrets), headers := copy[..]);
    if shown.body.Some? {
      var text := Redact(shown.body.value.text, values, secrets);
      shown := shown.(body := Some(shown.body.value.(text := text)));
    }
  }

  method MergeInto(actual: Resolved, baseline: Resolved, scripted: Resolved,
                   headers: array<KeyValue>, baselineHeaders: array<KeyValue>, scriptedHeaders: array<KeyValue>)
    returns (sent: Resolved, merged: array<KeyValue>)
    requires Holds(actual, headers) && Holds(baseline, baselineHeaders) && Holds(scripted, scriptedHeaders)
    ensures fresh(merged) && Holds(sent, merged) && sent == MergeScriptEdits(actual, baseline, scripted)
  {
    sent := scripted;
    if sent.url == baseline.url {
      sent := sent.(url := actual.url);
    }
    if sent.body.Some? && baseline.body.Some? && actual.body.Some? && sent.body.value.text == baseline.body.value.text {
      sent := sent.(body := Some(sent.body.value.(text := actual.body.value.text)));
    }
    merged := MergeScriptHeaders(headers, baselineHeaders, scriptedHeaders);
    sent := sent.(headers := merged[..], auth := actual.auth);
  }

  /**
   * The script works in place on the snapshot's header slice. The comparison is against a separate copy
   * of it, and the real slice is only read.
   */
  method RunPreRequest(actual: Resolved, headers: array<KeyValue>, edits: seq<Edit>,
                       values: seq<string>, secrets: map<string, string>)
    returns (sent: Resolved, merged: array<KeyValue>)
    requires Valid(values, secrets) && Holds(actual, headers)
    ensures sent == SentAfter(actual, edits, values, secrets)
    ensures fresh(merged) && Holds(sent, merged) && headers[..] == old(headers[..])
  {
    var shown, snapshot := RedactInto(actual, headers, values, secrets);
    var baseline := CloneHeaders(snapshot);
    var scripted := ApplyInPlace(snapshot, edits);
    sent, merged := MergeInto(actual, shown, shown.(headers := scripted[..]), headers, baseline, scripted);
  }
}
