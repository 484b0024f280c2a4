/** Ordering by (orderKey, name, id), and sorting by it. */
module SidebarOrder {
  import opened Common

  datatype SortKey = SortKey(orderKey: string, name: string, id: string)

  predicate KeyLess(a: SortKey, b: SortKey)
  {
    if a.orderKey != b.orderKey then Less(a.orderKey, b.orderKey)
    else if a.name != b.name then Less(a.name, b.name)
    else Less(a.id, b.id)
  }

  lemma KeyLessTransitive(a: SortKey, b: SortKey, c: SortKey)
    requires KeyLess(a, b) && KeyLess(b, c)
    ensures KeyLess(a, c)
  {
    LessIrreflexive(a.orderKey);
    LessIrreflexive(a.name);
    if Less(a.orderKey, b.orderKey) && Less(b.orderKey, c.orderKey) {
      LessTransitive(a.orderKey, b.orderKey, c.orderKey);
    }
    if Less(a.name, b.name) && Less(b.name, c.name) {
      LessTransitive(a.name, b.name, c.name);
    }
    if Less(a.id, b.id) && Less(b.id, c.id) {
      LessTransitive(a.id, b.id, c.id);
    }
  }

  lemma KeyLessTotal(a: SortKey, b: SortKey)
    ensures a == b || KeyLess(a, b) || KeyLess(b, a)
  {
    LessTotal(a.orderKey, b.orderKey);
    LessTotal(a.name, b.name);
    LessTotal(a.id, b.id);
  }

  /** No later item comes before an earlier one. */
  ghost predicate SortedBy<T>(xs: seq<T>, key: T -> SortKey)
  {
    forall i, j :: 0 <= i < j < |xs| ==> !KeyLess(key(xs[j]), key(xs[i]))
  }

  /** Stable insertion: after every item that does not come after x. */
  function Insert<T>(x: T, xs: seq<T>, key: T -> SortKey): seq<T>
  {
    if xs == [] || KeyLess(key(x), key(xs[0])) then [x] + xs else [xs[0]] + Insert(x, xs[1..], key)
  }

  /** A stable sort; items are inserted from the front of the list on. */
  function SortBy<T>(xs: seq<T>, key: T -> SortKey): seq<T>
    decreases |xs|
  {
    if xs == [] then [] else Insert(xs[|xs| - 1], SortBy(xs[..|xs| - 1], key), key)
  }

  lemma {:induction false} InsertKeeps<T>(x: T, xs: seq<T>, key: T -> SortKey)
    ensures multiset(Insert(x, xs, key)) == multiset(xs) + multiset{x}
  {
    if xs != [] && !KeyLess(key(x), key(xs[0])) {
      InsertKeeps(x, xs[1..], key);
      assert xs == [xs[0]] + xs[1..];
    }
  }

  lemma {:induction false} InsertSorts<T>(x: T, xs: seq<T>, key: T -> SortKey)
    requires SortedBy(xs, key)
    ensures SortedBy(Insert(x, xs, key), key)
  {
    var r := Insert(x, xs, key);
    if xs == [] {
    } else if KeyLess(key(x), key(xs[0])) {
      forall j | 0 < j < |r| ensures !KeyLess(key(r[j]), key(x)) {
        if KeyLess(key(r[j]), key(x)) {
          KeyLessTransitive(key(r[j]), key(x), key(xs[0]));
          assert r[j] == xs[j - 1];
          LessIrreflexive(key(xs[0]).orderKey);
          LessIrreflexive(key(xs[0]).name);
          LessIrreflexive(key(xs[0]).id);
        }
      }
    } else {
      InsertSorts(x, xs[1..], key);
      var tail := Insert(x, xs[1..], key);
      InsertKeeps(x, xs[1..], key);
      forall j | 0 < j < |r| ensures !KeyLess(key(r[j]), key(xs[0])) {
        assert r[j] == tail[j - 1] && tail[j - 1] in multiset(tail);
        if tail[j - 1] != x {
          assert tail[j - 1] in multiset(xs[1..]) && tail[j - 1] in xs[1..];
        }
      }
    }
  }

  /** SortBy is a sorted permutation. */
  lemma {:induction false} SortBySorts<T>(xs: seq<T>, key: T -> SortKey)
    ensures SortedBy(SortBy(xs, key), key) && multiset(SortBy(xs, key)) == multiset(xs)
    decreases |xs|
  {
    if xs != [] {
      var n := |xs| - 1;
      SortBySorts(xs[..n], key);
      InsertSorts(xs[n], SortBy(xs[..n], key), key);
      InsertKeeps(xs[n], SortBy(xs[..n], key), key);
      assert xs == xs[..n] + [xs[n]];
    }
  }

  method SortInPlace<T>(a: array<T>, key: T -> SortKey)
    modifies a
    ensures a[..] == SortBy(old(a[..]), key)
  {
    var done: seq<T> := [];
    for i := 0 to a.Length
      invariant a[..] == old(a[..]) && done == SortBy(a[..i], key)
    {
      assert a[..i + 1][..i] == a[..i];
      done := InsertOne(a[i], done, key);
    }
    assert a[..a.Length] == a[..];
    SortBySorts(a[..], key);
    assert |done| == |multiset(done)| == |multiset(a[..])| == a.Length;
    forall i | 0 <= i < a.Length {
      a[i] := done[i];
    }
    assert a[..] == done;
  }

  method InsertOne<T>(x: T, xs: seq<T>, key: T -> SortKey) returns (r: seq<T>)
    ensures r == Insert(x, xs, key)
  {
    var i := 0;
    while i < |xs| && !KeyLess(key(x), key(xs[i]))
      invariant i <= |xs| && xs[..i] + Insert(x, xs[i..], key) == Insert(x, xs, key)
    {
      assert xs[..i + 1] == xs[..i] + [xs[i]];
      i := i + 1;
    }
    r := xs[..i] + [x] + xs[i..];
  }
}
