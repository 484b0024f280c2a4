/** Where the path of a URL begins, what a placeholder is and which row fills it, in plain terms. */
module PathShapes {
  import opened Common
  import opened PercentCodec
  import opened PathParams

  predicate HasSchemeAt(s: Bytes, i: nat)
    requires i <= |s|
  {
    "://" <= s[i..]
  }

  predicate NoScheme(s: Bytes)
  {
    forall i :: 0 <= i <= |s| ==> !HasSchemeAt(s, i)
  }

  lemma SchemeIs(s: Bytes, i: nat)
    requires i <= |s|
    ensures HasSchemeAt(s, i) <==> SchemeAt(s, i)
  {
    assert "://" == [':', '/', '/'];
    if HasSchemeAt(s, i) {
      assert s[i..][0] == s[i] && s[i..][1] == s[i + 1] && s[i..][2] == s[i + 2];
    }
  }

  lemma FirstSchemeIs(s: Bytes, i: nat)
    requires i <= |s| && (i < |s| ==> HasSchemeAt(s, i)) && forall j: nat :: j < i ==> !HasSchemeAt(s, j)
    ensures SchemeSep(s) == i
  {
    SchemeIs(s, i);
    forall j: nat | j < i ensures !SchemeAt(s, j) {
      SchemeIs(s, j);
    }
  }

  /** After a scheme the path begins at the first slash after the host; without one there is no path. */
  lemma AbsolutePathStart(scheme: Bytes, host: Bytes, rest: Bytes)
    requires '/' !in host && (rest == [] || rest[0] == '/')
    requires forall j: nat :: j < |scheme| ==> !HasSchemeAt(scheme + "://" + (host + rest), j)
    ensures PathStart(scheme + "://" + (host + rest)) == if rest == [] then None else Some(|scheme| + 3 + |host|)
  {
    var u, i := scheme + "://" + (host + rest), |scheme|;
    assert u[i..] == "://" + (host + rest) && u[i + 3..] == host + rest;
    FirstSchemeIs(u, i);
    SlashAfter(host, rest);
  }

  /** The first slash after a text without one. */
  lemma SlashAfter(head: Bytes, rest: Bytes)
    requires '/' !in head && (rest == [] || rest[0] == '/')
    ensures IndexOf(head + rest, '/') == |head|
  {
    assert forall j :: 0 <= j < |head| ==> (head + rest)[j] == head[j] && head[j] in head;
    IndexOfIs(head + rest, '/', |head|);
  }

  /** So it does after a host that follows two slashes. */
  lemma HostPathStart(host: Bytes, rest: Bytes)
    requires '/' !in host && (rest == [] || rest[0] == '/') && NoScheme("//" + (host + rest))
    ensures PathStart("//" + (host + rest)) == if rest == [] then None else Some(2 + |host|)
  {
    var u := "//" + (host + rest);
    NoSchemeNoSep(u);
    assert u[0] == '/' && u[1] == '/' && u[2..] == host + rest;
    SlashAfter(host, rest);
  }

  /** Anything else has its path from the first slash on. */
  lemma RelativePathStart(head: Bytes, rest: Bytes)
    requires '/' !in head && (rest == [] || rest[0] == '/') && NoScheme(head + rest)
    requires !("//" <= head + rest)
    ensures PathStart(head + rest) == if rest == [] then None else Some(|head|)
  {
    var u := head + rest;
    NoSchemeNoSep(u);
    assert |u| >= 2 && u[0] == '/' && u[1] == '/' ==> "//" <= u;
    SlashAfter(head, rest);
  }

  lemma NoSchemeNoSep(u: Bytes)
    requires NoScheme(u)
    ensures SchemeSep(u) == |u|
  {
    var k := SchemeSep(u);
    SchemeIs(u, k);
    assert !HasSchemeAt(u, k);
  }

  /** A letter or an underscore, by its code; after the first place a digit as well. */
  predicate NameCode(n: int, first: bool)
  {
    97 <= n <= 122 || 65 <= n <= 90 || n == 95 || (!first && 48 <= n <= 57)
  }

  lemma PlaceholderIff(seg: Bytes)
    ensures IsPlaceholder(seg) <==>
      |seg| > 1 && seg[0] == ':' && forall i :: 1 <= i < |seg| ==> NameCode(seg[i] as int, i == 1)
  {
  }

  /** A name stands for the value of its last row; without a row, or without a name, for nothing. */
  lemma {:induction false} ValueIsLast(params: seq<Param>, name: Bytes, i: nat)
    requires i < |params| && params[i].key == name && name != []
    requires forall j :: i < j < |params| ==> params[j].key != name
    ensures ValueOf(params, name) == params[i].value
    decreases |params|
  {
    if i < |params| - 1 {
      ValueIsLast(params[..|params| - 1], name, i);
    }
  }

  lemma {:induction false} NoRowNoValue(params: seq<Param>, name: Bytes)
    requires name == [] || forall j :: 0 <= j < |params| ==> params[j].key != name
    ensures ValueOf(params, name) == []
    decreases |params|
  {
    if params != [] {
      NoRowNoValue(params[..|params| - 1], name);
    }
  }
}
