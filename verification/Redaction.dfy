/**
 * redactSecretValues: what a script sees of a request. A secret map goes from
 * secret value to variable name, and strings are sequences of bytes.
 */
module Redaction {
  import opened Common
  import opened Substrings

  function Placeholder(name: string): string
  {
    "[" + ("secret:" + name) + "]"
  }

  /** The order of secretValuesLongestFirst: longer first, ties in byte order. */
  predicate Before(a: string, b: string)
  {
    |a| > |b| || (|a| == |b| && Less(a, b))
  }

  predicate Ordered(values: seq<string>)
  {
    forall i, j :: 0 <= i < j < |values| ==> Before(values[i], values[j])
  }

  /** `values` lists the keys of the secret map in replacement order. */
  ghost predicate LongestFirst(values: seq<string>, secrets: map<string, string>)
  {
    Ordered(values) && forall v :: v in values <==> v in secrets
  }

  predicate Valid(values: seq<string>, secrets: map<string, string>)
  {
    forall i :: 0 <= i < |values| ==> values[i] != "" && values[i] in secrets
  }

  function Redact(s: string, values: seq<string>, secrets: map<string, string>): string
    requires Valid(values, secrets)
    decreases |values|
  {
    if values == [] then s
    else Redact(ReplaceAll(s, values[0], Placeholder(secrets[values[0]])), values[1..], secrets)
  }

  /** No secret value is left. */
  ghost predicate Clean(s: string, values: seq<string>)
  {
    forall i :: 0 <= i < |values| ==> !Contains(s, values[i])
  }

  /** No value contains `c`. */
  predicate Without(values: seq<string>, c: char)
  {
    forall i :: 0 <= i < |values| ==> c !in values[i]
  }

  predicate BracketFree(values: seq<string>)
  {
    Without(values, '[') && Without(values, ']')
  }

  lemma {:induction false} RedactSplit(a: string, c: char, b: string, values: seq<string>, secrets: map<string, string>)
    requires Valid(values, secrets) && Without(values, c)
    ensures Redact(a + [c] + b, values, secrets) == Redact(a, values, secrets) + [c] + Redact(b, values, secrets)
    decreases |values|
  {
    if values != [] {
      var to := Placeholder(secrets[values[0]]);
      ReplaceSplit(a, c, b, values[0], to);
      RedactSplit(ReplaceAll(a, values[0], to), c, ReplaceAll(b, values[0], to), values[1..], secrets);
    }
  }

  lemma CleanSplit(a: string, c: char, b: string, values: seq<string>)
    requires Without(values, c) && forall i :: 0 <= i < |values| ==> values[i] != ""
    ensures Clean(a + [c] + b, values) <==> Clean(a, values) && Clean(b, values)
  {
    forall i | 0 <= i < |values|
      ensures Contains(a + [c] + b, values[i]) <==> Contains(a, values[i]) || Contains(b, values[i])
    {
      ContainsSplit(a, c, b, values[i]);
    }
  }

  /** A string around a placeholder: redacting it redacts the two sides and the placeholder's text. */
  lemma RedactAround(a: string, name: string, b: string, values: seq<string>, rest: seq<string>, secrets: map<string, string>)
    requires Valid(values, secrets) && BracketFree(values) && Valid(rest, secrets) && BracketFree(rest)
    ensures Clean(Redact(a + Placeholder(name) + b, rest, secrets), values) <==>
      Clean(Redact(a, rest, secrets), values) && Clean(Redact("secret:" + name, rest, secrets), values) &&
      Clean(Redact(b, rest, secrets), values)
  {
    var inner := "secret:" + name;
    var tail := inner + "]" + b;
    assert a + Placeholder(name) + b == a + "[" + tail;
    RedactSplit(a, '[', tail, rest, secrets);
    RedactSplit(inner, ']', b, rest, secrets);
    CleanSplit(Redact(a, rest, secrets), '[', Redact(tail, rest, secrets), values);
    CleanSplit(Redact(inner, rest, secrets), ']', Redact(b, rest, secrets), values);
  }

  lemma {:induction false} RedactEmpty(values: seq<string>, secrets: map<string, string>)
    requires Valid(values, secrets)
    ensures Redact("", values, secrets) == ""
    decreases |values|
  {
    if values != [] {
      RedactEmpty(values[1..], secrets);
    }
  }

  /** From value k on, every placeholder put in is itself cleaned by the later replacements. */
  ghost predicate PlaceholdersClean(values: seq<string>, secrets: map<string, string>, k: nat)
    requires Valid(values, secrets)
  {
    forall j :: k <= j < |values| ==>
      Clean(Redact(Placeholder(secrets[values[j]]), values[j + 1..], secrets), values)
  }

  lemma {:induction false} CleanFrom(s: string, values: seq<string>, secrets: map<string, string>, k: nat)
    requires Valid(values, secrets) && BracketFree(values) && k <= |values|
    requires PlaceholdersClean(values, secrets, k) && Clean(s, values[..k])
    ensures Clean(Redact(s, values[k..], secrets), values)
    decreases |values| - k, |s| + 1
  {
    if k == |values| {
      assert values[..k] == values;
    } else {
      var replaced := ReplaceAll(s, values[k], Placeholder(secrets[values[k]]));
      assert values[k..][0] == values[k] && values[k..][1..] == values[k + 1..];
      assert Redact(s, values[k..], secrets) == Redact(replaced, values[k + 1..], secrets);
      assert "" + s == s && "" + replaced == replaced;
      CleanReplaced("", s, values, secrets, k);
    }
  }

  /** No match of v starts inside `chunk` when s follows it. */
  ghost predicate NoMatchIn(chunk: string, s: string, v: string)
  {
    forall i :: 0 <= i < |chunk| ==> !(v <= (chunk + s)[i..])
  }

  lemma NoMatchInMore(chunk: string, s: string, v: string)
    requires s != "" && NoMatchIn(chunk, s, v) && !(v <= s)
    ensures NoMatchIn(chunk + [s[0]], s[1..], v)
  {
    assert (chunk + [s[0]]) + s[1..] == chunk + s;
    assert (chunk + s)[|chunk|..] == s;
  }

  /** One replacement pass, `chunk` being the text scanned since the last match. */
  lemma {:induction false} CleanReplaced(chunk: string, s: string, values: seq<string>, secrets: map<string, string>, k: nat)
    requires Valid(values, secrets) && BracketFree(values) && k < |values|
    requires PlaceholdersClean(values, secrets, k) && Clean(chunk + s, values[..k]) && NoMatchIn(chunk, s, values[k])
    ensures var v := values[k];
      Clean(Redact(chunk + ReplaceAll(s, v, Placeholder(secrets[v])), values[k + 1..], secrets), values)
    decreases |values| - k, |s|
  {
    var v := values[k];
    if s == "" {
      ChunkAtEnd(chunk, s, values, secrets, k);
    } else if v <= s {
      MatchStep(chunk, s, values, secrets, k);
    } else {
      NoMatchInMore(chunk, s, v);
      assert (chunk + [s[0]]) + s[1..] == chunk + s;
      CleanReplaced(chunk + [s[0]], s[1..], values, secrets, k);
      ReplacePastOne(chunk, s, v, Placeholder(secrets[v]));
    }
  }

  lemma {:induction false} ChunkAtEnd(chunk: string, s: string, values: seq<string>, secrets: map<string, string>, k: nat)
    requires Valid(values, secrets) && BracketFree(values) && k < |values| && s == ""
    requires PlaceholdersClean(values, secrets, k) && Clean(chunk + s, values[..k]) && NoMatchIn(chunk, s, values[k])
    ensures var v := values[k];
      Clean(Redact(chunk + ReplaceAll(s, v, Placeholder(secrets[v])), values[k + 1..], secrets), values)
    decreases |values| - k, |s|, 0
  {
    ChunkIsClean(chunk, s, values, k);
    CleanFrom(chunk, values, secrets, k + 1);
    assert chunk + ReplaceAll(s, values[k], Placeholder(secrets[values[k]])) == chunk;
  }

  lemma {:induction false} MatchStep(chunk: string, s: string, values: seq<string>, secrets: map<string, string>, k: nat)
    requires Valid(values, secrets) && BracketFree(values) && k < |values| && values[k] <= s
    requires PlaceholdersClean(values, secrets, k) && Clean(chunk + s, values[..k]) && NoMatchIn(chunk, s, values[k])
    ensures var v := values[k];
      Clean(Redact(chunk + ReplaceAll(s, v, Placeholder(secrets[v])), values[k + 1..], secrets), values)
    decreases |values| - k, |s|, 0
  {
    var v := values[k];
    var s', to := s[|v|..], Placeholder(secrets[v]);
    var tail := ReplaceAll(s', v, to);
    ChunkIsClean(chunk, s, values, k);
    CleanFrom(chunk, values, secrets, k + 1);
    SuffixIsClean(chunk + s, |chunk| + |v|, values[..k]);
    assert (chunk + s)[|chunk| + |v|..] == s' == "" + s' && "" + tail == tail;
    CleanReplaced("", s', values, secrets, k);
    CleanAround(chunk, tail, values, secrets, k);
    ReplaceAtMatch(chunk, s, v, to);
  }

  lemma SuffixIsClean(s: string, n: nat, values: seq<string>)
    requires n <= |s| && Clean(s, values)
    ensures Clean(s[n..], values)
  {
    forall i | 0 <= i < |values| ensures !Contains(s[n..], values[i]) {
      if Contains(s[n..], values[i]) {
        ContainsSuffix(s, n, values[i]);
      }
    }
  }

  /** Placeholder k between two texts that clean up: the whole cleans up. */
  lemma CleanAround(a: string, b: string, values: seq<string>, secrets: map<string, string>, k: nat)
    requires Valid(values, secrets) && BracketFree(values) && k < |values| && PlaceholdersClean(values, secrets, k)
    requires Clean(Redact(a, values[k + 1..], secrets), values) && Clean(Redact(b, values[k + 1..], secrets), values)
    ensures Clean(Redact(a + Placeholder(secrets[values[k]]) + b, values[k + 1..], secrets), values)
  {
    var name, rest := secrets[values[k]], values[k + 1..];
    assert "" + Placeholder(name) + "" == Placeholder(name);
    RedactAround("", name, "", values, rest, secrets);
    RedactAround(a, name, b, values, rest, secrets);
  }

  lemma ChunkIsClean(chunk: string, s: string, values: seq<string>, k: nat)
    requires k < |values| && values[k] != "" && Clean(chunk + s, values[..k]) && NoMatchIn(chunk, s, values[k])
    ensures Clean(chunk, values[..k + 1])
  {
    assert (chunk + s)[..|chunk|] == chunk;
    forall j | 0 <= j < k ensures !Contains(chunk, values[j]) {
      if Contains(chunk, values[j]) {
        ContainsPrefix(chunk + s, |chunk|, values[..k][j]);
      }
    }
    assert forall i :: 0 <= i <= |chunk| ==> (chunk + s)[i..] == chunk[i..] + s;
    assert forall i :: 0 <= i <= |chunk| ==> !(values[k] <= chunk[i..]);
  }

  /** An earlier value never occurs in a later one. */
  lemma EarlierNotInLater(values: seq<string>, i: nat, j: nat)
    requires Ordered(values) && i < j < |values|
    ensures !Contains(values[j], values[i])
  {
    assert Before(values[i], values[j]);
    if Contains(values[j], values[i]) {
      var n :| 0 <= n <= |values[j]| && values[i] <= values[j][n..];
      assert n == 0 && values[j][0..] == values[j] && values[i] == values[j];
      LessIrreflexive(values[j]);
    }
  }

  lemma {:induction false} OwnRedaction(values: seq<string>, secrets: map<string, string>, i: nat, j: nat)
    requires Valid(values, secrets) && Ordered(values) && i <= j < |values|
    ensures Redact(values[j], values[i..], secrets) ==
      Redact(Placeholder(secrets[values[j]]), values[j + 1..], secrets)
    decreases j - i
  {
    assert values[i..][0] == values[i] && values[i..][1..] == values[i + 1..];
    if i < j {
      EarlierNotInLater(values, i, j);
      NotContained(values[j], values[i], Placeholder(secrets[values[i]]));
      OwnRedaction(values, secrets, i + 1, j);
    } else {
      ReplaceWhole(values[j], Placeholder(secrets[values[j]]));
    }
  }

  ghost predicate RedactsClean(s: string, values: seq<string>, secrets: map<string, string>)
    requires Valid(values, secrets)
  {
    Clean(Redact(s, values, secrets), values)
  }

  /** Redacting each secret on its own leaves no secret: a check of finitely many strings. */
  ghost predicate EachSecretRedactsClean(values: seq<string>, secrets: map<string, string>)
    requires Valid(values, secrets)
  {
    forall j :: 0 <= j < |values| ==> RedactsClean(values[j], values, secrets)
  }

  /**
   * For secrets without brackets, redaction leaves no secret value in any string whatsoever exactly
   * when it leaves none in the secrets themselves.
   */
  lemma RedactionCompleteIff(values: seq<string>, secrets: map<string, string>)
    requires Valid(values, secrets) && Ordered(values) && BracketFree(values)
    ensures (forall s :: RedactsClean(s, values, secrets)) <==> EachSecretRedactsClean(values, secrets)
  {
    if EachSecretRedactsClean(values, secrets) {
      forall s ensures RedactsClean(s, values, secrets) {
        CleanWhenSecretsAre(s, values, secrets);
      }
    }
  }

  lemma CleanWhenSecretsAre(s: string, values: seq<string>, secrets: map<string, string>)
    requires Valid(values, secrets) && Ordered(values) && BracketFree(values)
    requires EachSecretRedactsClean(values, secrets)
    ensures RedactsClean(s, values, secrets)
  {
    assert values[0..] == values;
    forall j | 0 <= j < |values|
      ensures Clean(Redact(Placeholder(secrets[values[j]]), values[j + 1..], secrets), values)
    {
      OwnRedaction(values, secrets, 0, j);
    }
    CleanFrom(s, values, secrets, 0);
  }

  lemma {:induction false} RedactUntouched(s: string, values: seq<string>, secrets: map<string, string>)
    requires Valid(values, secrets) && Clean(s, values)
    ensures Redact(s, values, secrets) == s
    decreases |values|
  {
    if values != [] {
      NotContained(s, values[0], Placeholder(secrets[values[0]]));
      RedactUntouched(s, values[1..], secrets);
    }
  }

  /** In particular when no placeholder contains a value: nothing leaks, and nothing replaced earlier reappears. */
  lemma PlainSecretsNeverLeak(s: string, values: seq<string>, secrets: map<string, string>)
    requires Valid(values, secrets) && Ordered(values) && BracketFree(values)
    requires forall j :: 0 <= j < |values| ==> Clean(Placeholder(secrets[values[j]]), values)
    ensures Clean(Redact(s, values, secrets), values)
  {
    forall j | 0 <= j < |values| ensures RedactsClean(values[j], values, secrets) {
      OwnRedaction(values, secrets, 0, j);
      assert values[0..] == values;
      RedactUntouched(Placeholder(secrets[values[j]]), values[j + 1..], secrets);
    }
    CleanWhenSecretsAre(s, values, secrets);
  }

  /**
   * Between two characters that are in no secret, a secret value is shown as its own name in brackets, when no
   * secret is part of that; what stands around it is redacted for itself.
   */
  lemma SecretShowsItsName(
      a: string, c: char, k: nat, d: char, b: string, values: seq<string>, secrets: map<string, string>)
    requires Valid(values, secrets) && Ordered(values) && k < |values| && Without(values, c) && Without(values, d)
    requires Clean("[secret:" + secrets[values[k]] + "]", values)
    ensures Redact((a + [c] + values[k]) + [d] + b, values, secrets) ==
      (Redact(a, values, secrets) + [c] + ("[secret:" + secrets[values[k]] + "]")) + [d] + Redact(b, values, secrets)
  {
    var shown := "[secret:" + secrets[values[k]] + "]";
    assert shown == Placeholder(secrets[values[k]]);
    RedactSplit(a + [c] + values[k], d, b, values, secrets);
    RedactSplit(a, c, values[k], values, secrets);
    OwnRedaction(values, secrets, 0, k);
    assert values[0..] == values;
    CleanLater(shown, values, k + 1);
    RedactUntouched(shown, values[k + 1..], secrets);
  }

  lemma CleanLater(s: string, values: seq<string>, k: nat)
    requires Clean(s, values) && k <= |values|
    ensures Clean(s, values[k..])
  {
  }

  /** Why brackets are excluded: a later placeholder's bracket can complete an earlier secret. */
  lemma BracketedSecretReappears() returns (s: string, values: seq<string>, secrets: map<string, string>)
    ensures s == "abx" && values == ["]x", "ab"]
    ensures Valid(values, secrets) && LongestFirst(values, secrets) && EachSecretRedactsClean(values, secrets)
    ensures !RedactsClean(s, values, secrets)
  {
    s, values, secrets := "abx", ["]x", "ab"], map["]x" := "n", "ab" := "n"];
    TwoSecretsInOrder(values, secrets);
    TwoSecretsRedactClean(values, secrets);
    SuffixReappears(Placeholder("n"), secrets, values);
    assert Contains(Redact(s, values, secrets), values[0]);
  }

  predicate TwoSecrets(values: seq<string>, secrets: map<string, string>)
  {
    values == ["]x", "ab"] && secrets == map["]x" := "n", "ab" := "n"]
  }

  lemma TwoSecretsInOrder(values: seq<string>, secrets: map<string, string>)
    requires TwoSecrets(values, secrets)
    ensures Valid(values, secrets) && LongestFirst(values, secrets)
  {
    assert Less(values[0], values[1]);
  }

  lemma TwoSecretsRedactClean(values: seq<string>, secrets: map<string, string>)
    requires TwoSecrets(values, secrets) && Valid(values, secrets) && Ordered(values)
    ensures EachSecretRedactsClean(values, secrets)
  {
    var p := Placeholder("n");
    assert p == "[secret:n]";
    NoneStartsAt(p, values[0]);
    NoneStartsAt(p, values[1]);
    SecretRedactsClean(p, values, secrets, 0);
    SecretRedactsClean(p, values, secrets, 1);
  }

  /** A secret whose placeholder is clean redacts clean. */
  lemma SecretRedactsClean(p: string, values: seq<string>, secrets: map<string, string>, j: nat)
    requires Valid(values, secrets) && Ordered(values) && j < |values|
    requires p == Placeholder(secrets[values[j]]) && Clean(p, values)
    ensures RedactsClean(values[j], values, secrets)
  {
    OwnRedaction(values, secrets, 0, j);
    assert values[0..] == values;
    assert Clean(p, values[j + 1..]);
    RedactUntouched(p, values[j + 1..], secrets);
  }

  lemma SuffixReappears(p: string, secrets: map<string, string>, values: seq<string>)
    requires p == Placeholder("n") && TwoSecrets(values, secrets) && Valid(values, secrets)
    ensures Contains(Redact("abx", values, secrets), "]x")
  {
    NoneStartsAt("abx", "]x");
    NotContained("abx", "]x", p);
    assert p == "[secret:n]";
    OnePass(p);
    var last := values[1..];
    assert last == ["ab"];
    assert Redact(p + "x", last[1..], secrets) == p + "x";
    assert Redact("abx", last, secrets) == p + "x";
    assert Redact("abx", values, secrets) == p + "x";
    assert "]x" <= (p + "x")[9..];
  }

  lemma OnePass(p: string)
    requires p == "[secret:n]"
    ensures ReplaceAll("abx", "ab", p) == p + "x"
  {
    assert "abx"[2..] == "x" && "x"[1..] == "" && !("ab" <= "x");
    assert ReplaceAll("x", "ab", p) == ['x'] + "" == "x";
  }

  lemma NoneStartsAt(s: string, v: string)
    requires |v| == 2 && forall i :: 0 <= i < |s| - 1 ==> s[i] != v[0] || s[i + 1] != v[1]
    ensures !Contains(s, v)
  {
    forall i | 0 <= i <= |s| ensures !(v <= s[i..]) {
      if i + 2 <= |s| {
        assert s[i..][0] == s[i] && s[i..][1] == s[i + 1];
      }
    }
  }

  /** The replacement order is determined by the secrets: map iteration order cannot show. */
  lemma {:induction false} OrderIsUnique(a: seq<string>, b: seq<string>, secrets: map<string, string>)
    requires LongestFirst(a, secrets) && LongestFirst(b, secrets)
    ensures a == b
    decreases |a|
  {
    EmptyOrder(a, secrets);
    EmptyOrder(b, secrets);
    if a != [] {
      assert a[0] in b && b[0] in a;
      FirstIsLeast(a, b[0]);
      FirstIsLeast(b, a[0]);
      BeforeAsymmetric(a[0], b[0]);
      var fewer := secrets - {a[0]};
      TailLongestFirst(a, secrets);
      TailLongestFirst(b, secrets);
      OrderIsUnique(a[1..], b[1..], fewer);
    }
  }

  lemma EmptyOrder(a: seq<string>, secrets: map<string, string>)
    requires LongestFirst(a, secrets)
    ensures a == [] <==> secrets == map[]
  {
    if a != [] {
      assert a[0] in secrets;
    }
  }

  lemma FirstIsLeast(a: seq<string>, v: string)
    requires Ordered(a) && v in a
    ensures a[0] == v || Before(a[0], v)
  {
  }

  lemma BeforeAsymmetric(a: string, b: string)
    ensures !(Before(a, b) && Before(b, a))
  {
    if Before(a, b) && Before(b, a) {
      LessTransitive(a, b, a);
      LessIrreflexive(a);
    }
  }

  lemma TailLongestFirst(a: seq<string>, secrets: map<string, string>)
    requires LongestFirst(a, secrets) && a != []
    ensures LongestFirst(a[1..], secrets - {a[0]})
  {
    forall v ensures v in a[1..] <==> v in secrets - {a[0]} {
      BeforeAsymmetric(v, v);
      assert a == [a[0]] + a[1..];
    }
  }

  // ---- The loops ------------------------------------------------------------

  method ValuesLongestFirst(secrets: map<string, string>) returns (values: seq<string>)
    ensures LongestFirst(values, secrets)
  {
    values := [];
    var left := secrets.Keys;
    while left != {}
      invariant left <= secrets.Keys && Ordered(values)
      invariant forall v :: v in values <==> v in secrets && v !in left
      decreases left
    {
      var value :| value in left;
      values := InsertOrdered(values, value);
      left := left - {value};
    }
  }

  method InsertOrdered(values: seq<string>, value: string) returns (out: seq<string>)
    requires Ordered(values) && value !in values
    ensures Ordered(out) && forall v :: v in out <==> v == value || v in values
  {
    var i := 0;
    while i < |values| && Before(values[i], value)
      invariant i <= |values|
      invariant forall k :: 0 <= k < i ==> Before(values[k], value)
    {
      i := i + 1;
    }
    if i < |values| {
      LessTotal(values[i], value);
    }
    forall k | i <= k < |values| ensures Before(value, values[k]) {
      if k > i {
        BeforeTransitive(value, values[i], values[k]);
      }
    }
    out := values[..i] + [value] + values[i..];
    assert values == values[..i] + values[i..];
  }

  lemma BeforeTransitive(a: string, b: string, c: string)
    requires Before(a, b) && Before(b, c)
    ensures Before(a, c)
  {
    if |a| == |b| == |c| {
      LessTransitive(a, b, c);
    }
  }

  method RedactSecretValues(s: string, secrets: map<string, string>) returns (out: string)
    requires "" !in secrets
    ensures forall values :: LongestFirst(values, secrets) ==>
      Valid(values, secrets) && out == Redact(s, values, secrets)
  {
    var values := ValuesLongestFirst(secrets);
    out := s;
    var i := 0;
    while i < |values|
      invariant i <= |values| && Valid(values[i..], secrets)
      invariant Redact(out, values[i..], secrets) == Redact(s, values, secrets)
    {
      assert values[i..][0] == values[i] && values[i..][1..] == values[i + 1..];
      out := ReplaceAll(out, values[i], Placeholder(secrets[values[i]]));
      i := i + 1;
    }
    forall other | LongestFirst(other, secrets) ensures other == values {
      OrderIsUnique(other, values, secrets);
    }
  }
}
