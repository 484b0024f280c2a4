/** Sorted listing of a key set, as sortedKeys gives it. */
module SortedNames {
  import opened Common

  function NamesIn(names: seq<string>): set<string>
  {
    set n | n in names
  }

  predicate Sorted(names: seq<string>)
  {
    forall i, j :: 0 <= i < j < |names| ==> Less(names[i], names[j])
  }

  ghost predicate Lists(names: seq<string>, all: set<string>)
  {
    Sorted(names) && forall n :: n in names <==> n in all
  }

  ghost function SortedKeys(all: set<string>): (names: seq<string>)
    ensures Lists(names, all)
  {
    if all == {} then []
    else
      var n :| n in all;
      Inserted(SortedKeys(all - {n}), n)
  }

  function Inserted(names: seq<string>, n: string): (r: seq<string>)
    requires Sorted(names) && n !in names
    ensures Sorted(r) && forall m :: m in r <==> m == n || m in names
  {
    if names == [] then [n]
    else if Less(n, names[0]) then
      AllGreater(names, n);
      [n] + names
    else
      LessTotal(n, names[0]);
      var rest := Inserted(names[1..], n);
      assert forall i :: 0 <= i < |rest| ==> rest[i] in rest && (rest[i] == n || rest[i] in names[1..]);
      assert names == [names[0]] + names[1..];
      [names[0]] + rest
  }

  lemma AllGreater(names: seq<string>, n: string)
    requires Sorted(names) && names != [] && Less(n, names[0])
    ensures forall i :: 0 <= i < |names| ==> Less(n, names[i])
  {
    forall i | 0 < i < |names| ensures Less(n, names[i]) {
      LessTransitive(n, names[0], names[i]);
    }
  }

  lemma {:induction false} ListingIsUnique(a: seq<string>, b: seq<string>, all: set<string>)
    requires Lists(a, all) && Lists(b, all)
    ensures a == b
    decreases |a|
  {
    assert |a| > 0 ==> a[0] in a;
    assert |b| > 0 ==> b[0] in b;
    if a != [] {
      assert a[0] in all && a[0] in b && b[0] in b && b[0] in all && b[0] in a;
      assert a[0] != b[0] ==> Less(a[0], b[0]) && Less(b[0], a[0]);
      if a[0] != b[0] {
        LessTransitive(a[0], b[0], a[0]);
        LessIrreflexive(a[0]);
      }
      TailLists(a, all);
      TailLists(b, all);
      ListingIsUnique(a[1..], b[1..], all - {a[0]});
    }
  }

  lemma TailLists(a: seq<string>, all: set<string>)
    requires Lists(a, all) && a != []
    ensures Lists(a[1..], all - {a[0]})
  {
    assert a == [a[0]] + a[1..];
    LessIrreflexive(a[0]);
  }

  method SortKeys(all: set<string>) returns (names: seq<string>)
    ensures names == SortedKeys(all)
  {
    names := [];
    var left := all;
    while left != {}
      invariant left <= all && Lists(names, all - left)
      decreases left
    {
      var n :| n in left;
      names := Inserted(names, n);
      left := left - {n};
    }
    ListingIsUnique(names, SortedKeys(all), all);
  }
}
