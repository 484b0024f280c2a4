/** Finding and replacing substrings: strings.Contains and strings.ReplaceAll. */
module Substrings {

  /** `v` occurs in `s`. */
  predicate Contains(s: string, v: string)
  {
    exists i :: 0 <= i <= |s| && v <= s[i..]
  }

  /** strings.ReplaceAll for a non-empty `from`: leftmost matches, not overlapping. */
  function ReplaceAll(s: string, from: string, to: string): string
    requires from != ""
  {
    if s == "" then ""
    else if from <= s then to + ReplaceAll(s[|from|..], from, to)
    else [s[0]] + ReplaceAll(s[1..], from, to)
  }

  lemma ContainsSuffix(s: string, k: nat, v: string)
    requires k <= |s| && Contains(s[k..], v)
    ensures Contains(s, v)
  {
    var i :| 0 <= i <= |s[k..]| && v <= s[k..][i..];
    assert s[k..][i..] == s[k + i..];
  }

  lemma ContainsPrefix(s: string, k: nat, v: string)
    requires k <= |s| && Contains(s[..k], v)
    ensures Contains(s, v)
  {
    var i :| 0 <= i <= |s[..k]| && v <= s[..k][i..];
    assert s[..k][i..] == s[i..][..k - i];
    assert v <= s[i..];
  }

  lemma NotContained(s: string, from: string, to: string)
    requires from != "" && !Contains(s, from)
    ensures ReplaceAll(s, from, to) == s
  {
    if s != "" {
      assert s[0..] == s;
      if Contains(s[1..], from) {
        ContainsSuffix(s, 1, from);
      }
      NotContained(s[1..], from, to);
    }
  }

  /** Replacing a text by itself-free occurrences of itself: the whole string turns into `to`. */
  lemma ReplaceWhole(from: string, to: string)
    requires from != ""
    ensures ReplaceAll(from, from, to) == to
  {
    assert from[|from|..] == "";
  }

  lemma ReplaceAtMatch(chunk: string, s: string, from: string, to: string)
    requires from != "" && from <= s
    ensures chunk + ReplaceAll(s, from, to) == chunk + to + ReplaceAll(s[|from|..], from, to)
  {
    assert chunk + (to + ReplaceAll(s[|from|..], from, to)) == chunk + to + ReplaceAll(s[|from|..], from, to);
  }

  lemma ReplacePastOne(chunk: string, s: string, from: string, to: string)
    requires from != "" && s != "" && !(from <= s)
    ensures chunk + ReplaceAll(s, from, to) == (chunk + [s[0]]) + ReplaceAll(s[1..], from, to)
  {
    assert chunk + ([s[0]] + ReplaceAll(s[1..], from, to)) == (chunk + [s[0]]) + ReplaceAll(s[1..], from, to);
  }

  /** A text without `c` is found in `a + [c] + b` exactly when it is found on one side. */
  lemma ContainsSplit(a: string, c: char, b: string, v: string)
    requires v != "" && c !in v
    ensures Contains(a + [c] + b, v) <==> Contains(a, v) || Contains(b, v)
  {
    var s := a + [c] + b;
    assert s[..|a|] == a && s[|a| + 1..] == b && s[|a|] == c;
    if Contains(a, v) {
      ContainsPrefix(s, |a|, v);
    }
    if Contains(b, v) {
      ContainsSuffix(s, |a| + 1, v);
    }
    if Contains(s, v) {
      ContainsOnOneSide(a, c, b, v);
    }
  }

  lemma ContainsOnOneSide(a: string, c: char, b: string, v: string)
    requires v != "" && c !in v && Contains(a + [c] + b, v)
    ensures Contains(a, v) || Contains(b, v)
  {
    var s := a + [c] + b;
    assert s[|a|] == c;
    var i :| 0 <= i <= |s| && v <= s[i..];
    if i > |a| {
      assert b[i - |a| - 1..] == s[i..];
    } else {
      assert i + |v| <= |a| by {
        assert s[i..][|a| - i] == c;
      }
      assert a[i..] == s[i..][..|a| - i] && v <= a[i..];
    }
  }

  lemma PrefixBefore(a: string, c: char, b: string, v: string)
    requires c !in v
    ensures v <= a + [c] + b <==> v <= a
  {
    var s := a + [c] + b;
    assert s[|a|] == c;
    assert a == s[..|a|];
  }

  /** Replacement of a text without `c` works on both sides of a `c` separately. */
  lemma {:induction false} ReplaceSplit(a: string, c: char, b: string, from: string, to: string)
    requires from != "" && c !in from
    ensures ReplaceAll(a + [c] + b, from, to) == ReplaceAll(a, from, to) + [c] + ReplaceAll(b, from, to)
    decreases |a|
  {
    var s := a + [c] + b;
    var tail := ReplaceAll(b, from, to);
    PrefixBefore(a, c, b, from);
    if a == "" {
      assert s[0] == c && s[1..] == b;
      assert ReplaceAll(a, from, to) == "";
    } else if from <= a {
      assert s[|from|..] == a[|from|..] + [c] + b;
      ReplaceSplit(a[|from|..], c, b, from, to);
      InFront(to, ReplaceAll(a[|from|..], from, to), c, tail);
    } else {
      assert s[0] == a[0] && s[1..] == a[1..] + [c] + b;
      ReplaceSplit(a[1..], c, b, from, to);
      InFront([a[0]], ReplaceAll(a[1..], from, to), c, tail);
    }
  }

  lemma InFront(front: string, head: string, c: char, tail: string)
    ensures front + (head + [c] + tail) == (front + head) + [c] + tail
  {
  }
}
