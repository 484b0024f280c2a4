/**
 * redactSecretValues with brackets allowed in the secrets: exactly when a single secret can reappear,
 * and how far values and placeholders must be apart for several.
 */
module SecretOverlaps {
  import opened Redaction
  import opened Substrings

  predicate Comparable(a: string, b: string)
  {
    a <= b || b <= a
  }

  /** From position i on, the placeholder p spells v or the beginning of v. */
  predicate BeginsAt(v: string, p: string, i: nat)
  {
    i < |p| && Comparable(v, p[i..])
  }

  /** The first k bytes of v can stand before a match of v, and what v goes on with agrees with p. */
  ghost predicate EndsAt(v: string, p: string, k: nat)
  {
    0 < k < |v| && Comparable(v[k..], p) && NoMatchIn(v[..k], v, v)
  }

  ghost predicate Overlaps(v: string, p: string)
  {
    || (exists i: nat :: BeginsAt(v, p, i))
    || (exists k: nat :: EndsAt(v, p, k))
  }

  /**
   * One secret of any bytes: its redaction is complete on every string exactly when the value does
   * not overlap its own placeholder.
   */
  lemma SingleSecretCompleteIff(v: string, name: string)
    requires v != ""
    ensures (forall s :: RedactsClean(s, [v], map[v := name])) <==> !Overlaps(v, Placeholder(name))
  {
    var p, values, secrets := Placeholder(name), [v], map[v := name];
    if Overlaps(v, p) {
      var s := OverlapLeaks(v, p);
      OnePassRedacts(s, v, name);
      assert !RedactsClean(s, values, secrets);
    } else {
      forall s ensures RedactsClean(s, values, secrets) {
        NothingStartsAgain("", s, v, p);
        assert "" + ReplaceAll(s, v, p) == ReplaceAll(s, v, p);
        OnePassRedacts(s, v, name);
      }
    }
  }

  lemma OnePassRedacts(s: string, v: string, name: string)
    requires v != ""
    ensures RedactsClean(s, [v], map[v := name]) <==> !Contains(ReplaceAll(s, v, Placeholder(name)), v)
  {
    var values, out := [v], ReplaceAll(s, v, Placeholder(name));
    assert values[1..] == [];
    assert Redact(s, values, map[v := name]) == out;
    assert Clean(out, values) <==> !Contains(out, values[0]);
  }

  /** Without an overlap no match begins in the scanned text, in a placeholder or behind it. */
  lemma {:induction false} NothingStartsAgain(chunk: string, s: string, v: string, p: string)
    requires v != "" && !Overlaps(v, p) && NoMatchIn(chunk, s, v)
    ensures !Contains(chunk + ReplaceAll(s, v, p), v)
    decreases |s|
  {
    if s == "" {
      assert chunk + ReplaceAll(s, v, p) == chunk == chunk + s;
    } else if v <= s {
      var tail := ReplaceAll(s[|v|..], v, p);
      assert "" + s[|v|..] == s[|v|..] && "" + tail == tail;
      NothingStartsAgain("", s[|v|..], v, p);
      NothingStartsAround(chunk, s, v, p, tail);
      ReplaceAtMatch(chunk, s, v, p);
    } else {
      NoMatchInMore(chunk, s, v);
      NothingStartsAgain(chunk + [s[0]], s[1..], v, p);
      ReplacePastOne(chunk, s, v, p);
    }
  }

  lemma NoneBehind(chunk: string, v: string, p: string, tail: string, i: nat)
    requires v != "" && (forall j: nat :: !BeginsAt(v, p, j)) && !Contains(tail, v)
    requires |chunk| <= i <= |chunk + p + tail|
    ensures !(v <= (chunk + p + tail)[i..])
  {
    var out := chunk + p + tail;
    if i < |chunk| + |p| {
      var j := i - |chunk|;
      assert out[i..] == p[j..] + tail;
      assert !BeginsAt(v, p, j);
      if v <= out[i..] {
        PrefixOfSum(v, p[j..], tail);
      }
    } else {
      assert out[i..] == tail[i - |chunk| - |p|..];
    }
  }

  lemma NothingStartsAround(chunk: string, s: string, v: string, p: string, tail: string)
    requires v != "" && v <= s && !Overlaps(v, p) && NoMatchIn(chunk, s, v) && !Contains(tail, v)
    ensures !Contains(chunk + p + tail, v)
  {
    var out := chunk + p + tail;
    forall i | 0 <= i <= |out| ensures !(v <= out[i..]) {
      if i < |chunk| {
        NothingStartsBefore(chunk, s, v, p, tail, i);
      } else {
        NoneBehind(chunk, v, p, tail, i);
      }
    }
  }

  lemma NothingStartsBefore(chunk: string, s: string, v: string, p: string, tail: string, i: nat)
    requires v != "" && v <= s && !Overlaps(v, p) && NoMatchIn(chunk, s, v) && i < |chunk|
    ensures !(v <= (chunk + p + tail)[i..])
  {
    var a := chunk[i..];
    assert (chunk + p + tail)[i..] == a + (p + tail) && (chunk + s)[i..] == a + s;
    assert !EndsAt(v, p, |a|);
    if v <= a + (p + tail) {
      PrefixOfSum(v, a, p + tail);
      assert !(v <= a) by {
        assert v <= a ==> v <= a + s;
      }
      assert v[..|a|] == a && v[|a|..] <= p + tail;
      PrefixOfSum(v[|a|..], p, tail);
      NoMatchInEnd(chunk, s, v, i);
    }
  }

  lemma NoMatchInEnd(chunk: string, s: string, v: string, i: nat)
    requires v <= s && NoMatchIn(chunk, s, v) && i < |chunk|
    ensures NoMatchIn(chunk[i..], v, v)
  {
    var a := chunk[i..];
    forall j | 0 <= j < |a| ensures !(v <= (a + v)[j..]) {
      assert (chunk + s)[i + j..] == (a + s)[j..];
      assert (a + v)[j..] <= (a + s)[j..];
    }
  }

  lemma PrefixOfSum(v: string, a: string, b: string)
    requires v <= a + b
    ensures Comparable(v, a)
    ensures !(v <= a) ==> v[|a|..] <= b
  {
    if |v| <= |a| {
      assert v == (a + b)[..|v|] == a[..|v|];
    } else {
      assert v[..|a|] == (a + b)[..|a|] == a;
      assert v[|a|..] == (a + b)[|a|..|v|] == b[..|v| - |a|];
    }
  }

  /** A string whose redaction holds the secret, for every way of overlapping. */
  lemma OverlapLeaks(v: string, p: string) returns (s: string)
    requires v != "" && Overlaps(v, p)
    ensures Contains(ReplaceAll(s, v, p), v)
  {
    if i: nat :| BeginsAt(v, p, i) {
      s := LeakBehind(v, p, i);
    } else {
      var k: nat :| EndsAt(v, p, k);
      s := LeakBefore(v, p, k);
    }
  }

  lemma LeakBehind(v: string, p: string, i: nat) returns (s: string)
    requires v != "" && BeginsAt(v, p, i)
    ensures Contains(ReplaceAll(s, v, p), v)
  {
    if v <= p[i..] {
      s := v;
      ReplaceWhole(v, p);
    } else {
      var more := v[|p[i..]|..];
      s := v + more;
      ReplaceThen(v, more, p);
      Straddles(p, i, more, v);
    }
  }

  lemma ReplaceThen(v: string, more: string, p: string)
    requires |more| < |v|
    ensures ReplaceAll(v + more, v, p) == p + more
  {
    ShortIsKept(more, v, p);
    assert (v + more)[|v|..] == more;
  }

  lemma Straddles(p: string, i: nat, more: string, v: string)
    requires i <= |p| && v == p[i..] + more
    ensures Contains(p + more, v)
  {
    assert (p + more)[i..] == p[i..] + more;
    assert v <= (p + more)[i..];
  }

  lemma LeakBefore(v: string, p: string, k: nat) returns (s: string)
    requires EndsAt(v, p, k)
    ensures Contains(ReplaceAll(s, v, p), v)
  {
    var a, b := v[..k], v[k..];
    var more := if b <= p then "" else b[|p|..];
    s := a + (v + more);
    forall j | 0 <= j < |a| ensures !(v <= (a + (v + more))[j..]) {
      assert (a + (v + more))[j..] == (a + v)[j..] + more;
    }
    SkipChunk(a, v + more, v, p);
    ReplaceThen(v, more, p);
    var out := a + (p + more);
    assert v == a + b && b <= p + more;
    assert v <= out[0..];
  }

  lemma ShortIsKept(more: string, v: string, p: string)
    requires |more| < |v|
    ensures ReplaceAll(more, v, p) == more
  {
    assert !Contains(more, v);
    NotContained(more, v, p);
  }

  /** Text in which no match starts is copied. */
  lemma {:induction false} SkipChunk(a: string, s: string, v: string, p: string)
    requires v != "" && NoMatchIn(a, s, v)
    ensures ReplaceAll(a + s, v, p) == a + ReplaceAll(s, v, p)
  {
    if a == "" {
      assert a + s == s;
    } else {
      assert (a + s)[0..] == a + s;
      assert (a + s)[1..] == a[1..] + s;
      forall j | 0 <= j < |a[1..]| ensures !(v <= (a[1..] + s)[j..]) {
        assert (a[1..] + s)[j..] == (a + s)[j + 1..];
      }
      SkipChunk(a[1..], s, v, p);
      assert [a[0]] + (a[1..] + ReplaceAll(s, v, p)) == a + ReplaceAll(s, v, p);
    }
  }

  // ---- Several secrets ------------------------------------------------------

  /** Some text can hold v across an edge of p, or inside it. */
  ghost predicate Touches(v: string, p: string)
  {
    || (exists i: nat :: BeginsAt(v, p, i))
    || (exists k: nat :: RunsInto(v, p, k))
  }

  /** From position k on, v goes on as p begins. */
  predicate RunsInto(v: string, p: string, k: nat)
  {
    0 < k < |v| && Comparable(v[k..], p)
  }

  /** No value touches its own placeholder or one put in after it. */
  ghost predicate Apart(values: seq<string>, secrets: map<string, string>)
    requires Valid(values, secrets)
  {
    forall i, j :: 0 <= i <= j < |values| ==> !Touches(values[i], Placeholder(secrets[values[j]]))
  }

  /** Secrets of any bytes, in any order: when values and placeholders are apart nothing leaks. */
  lemma ApartSecretsNeverLeak(s: string, values: seq<string>, secrets: map<string, string>)
    requires Valid(values, secrets) && Apart(values, secrets)
    ensures RedactsClean(s, values, secrets)
  {
    assert values[0..] == values;
    ApartFrom(s, values, secrets, 0);
  }

  lemma {:induction false} ApartFrom(s: string, values: seq<string>, secrets: map<string, string>, k: nat)
    requires Valid(values, secrets) && Apart(values, secrets) && k <= |values| && Clean(s, values[..k])
    ensures Clean(Redact(s, values[k..], secrets), values)
    decreases |values| - k
  {
    if k == |values| {
      assert values[..k] == values;
    } else {
      var u, p := values[k], Placeholder(secrets[values[k]]);
      var next := ReplaceAll(s, u, p);
      assert values[k..][0] == u && values[k..][1..] == values[k + 1..];
      var done := values[..k + 1];
      forall i | 0 <= i < |done| ensures !Contains(next, done[i]) {
        assert i < k ==> values[..k][i] == values[i];
        assert "" + s == s && "" + next == next;
        NoneAppears("", s, u, p, values[i]);
      }
      ApartFrom(next, values, secrets, k + 1);
    }
  }

  /** Replacing u by p leaves no v where none was, and none at all when v is u. */
  lemma {:induction false} NoneAppears(chunk: string, s: string, u: string, p: string, v: string)
    requires u != "" && v != "" && !Touches(v, p)
    requires NoMatchIn(chunk, s, v) && (u == v || !Contains(s, v))
    ensures !Contains(chunk + ReplaceAll(s, u, p), v)
    decreases |s|
  {
    if s == "" {
      assert chunk + ReplaceAll(s, u, p) == chunk == chunk + s;
    } else if u <= s {
      var tail := ReplaceAll(s[|u|..], u, p);
      NoneInSuffix(s, |u|, u, v);
      assert "" + s[|u|..] == s[|u|..] && "" + tail == tail;
      NoneAppears("", s[|u|..], u, p, v);
      NoneAround(chunk, s, v, p, tail);
      ReplaceAtMatch(chunk, s, u, p);
    } else {
      NoneInSuffix(s, 1, u, v);
      assert s[0..] == s;
      NoMatchInMore(chunk, s, v);
      NoneAppears(chunk + [s[0]], s[1..], u, p, v);
      ReplacePastOne(chunk, s, u, p);
    }
  }

  lemma NoneInSuffix(s: string, n: nat, u: string, v: string)
    requires n <= |s| && (u == v || !Contains(s, v))
    ensures u == v || !Contains(s[n..], v)
  {
    if Contains(s[n..], v) {
      ContainsSuffix(s, n, v);
    }
  }

  lemma NoneAround(chunk: string, s: string, v: string, p: string, tail: string)
    requires v != "" && !Touches(v, p) && NoMatchIn(chunk, s, v) && !Contains(tail, v)
    ensures !Contains(chunk + p + tail, v)
  {
    var out := chunk + p + tail;
    forall i | 0 <= i <= |out| ensures !(v <= out[i..]) {
      if i < |chunk| {
        NoneBefore(chunk, s, v, p, tail, i);
      } else {
        NoneBehind(chunk, v, p, tail, i);
      }
    }
  }

  lemma NoneBefore(chunk: string, s: string, v: string, p: string, tail: string, i: nat)
    requires v != "" && !Touches(v, p) && NoMatchIn(chunk, s, v) && i < |chunk|
    ensures !(v <= (chunk + p + tail)[i..])
  {
    var a := chunk[i..];
    assert (chunk + p + tail)[i..] == a + (p + tail) && (chunk + s)[i..] == a + s;
    assert !RunsInto(v, p, |a|);
    if v <= a + (p + tail) {
      PrefixOfSum(v, a, p + tail);
      assert !(v <= a) by {
        assert v <= a ==> v <= a + s;
      }
      PrefixOfSum(v[|a|..], p, tail);
    }
  }
}
