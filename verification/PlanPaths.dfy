/** Where a planned request says it is, and the order in which requests and folders come. */
module PlanPaths {
  import opened Common
  import opened SidebarOrder
  import opened PlanWalk

  // ---- Order ----------------------------------------------------------------

  /** At position k a ends, or has a smaller character than b, and up to there they agree. */
  predicate SmallerAt(a: string, b: string, k: nat)
  {
    k < |b| && k <= |a| && a[..k] == b[..k] && (k == |a| || a[k] < b[k])
  }

  lemma SmallerPastHead(a: string, b: string, k: nat)
    requires SmallerAt(a, b, k) && k > 0
    ensures a != [] && b != [] && a[0] == b[0] && SmallerAt(a[1..], b[1..], k - 1)
  {
    assert a[..k][0] == a[0] && b[..k][0] == b[0];
    assert a[1..][..k - 1] == a[..k][1..] && b[1..][..k - 1] == b[..k][1..];
  }

  /** A string is smaller at the first difference, or as a proper prefix. */
  lemma {:induction false} LessIff(a: string, b: string)
    ensures Less(a, b) <==> exists k: nat :: SmallerAt(a, b, k)
    decreases |a|
  {
    forall k: nat | k > 0 && SmallerAt(a, b, k)
      ensures a != [] && b != [] && a[0] == b[0] && SmallerAt(a[1..], b[1..], k - 1)
    {
      SmallerPastHead(a, b, k);
    }
    assert b != [] && (a == [] || a[0] < b[0]) ==> SmallerAt(a, b, 0);
    if a != [] && b != [] && a[0] == b[0] {
      LessIff(a[1..], b[1..]);
      if k: nat :| SmallerAt(a[1..], b[1..], k) {
        assert a[..k + 1] == [a[0]] + a[1..][..k] && b[..k + 1] == [b[0]] + b[1..][..k];
        assert SmallerAt(a, b, k + 1);
      }
    }
  }

  /** By order key, names deciding between equal order keys and ids between equal names. */
  predicate Precedes(order: string, name: string, id: Id, order': string, name': string, id': Id)
  {
    Less(order, order') ||
    (order == order' && Less(name, name')) ||
    (order == order' && name == name' && Less(id, id'))
  }

  predicate RequestPrecedes(a: Request, b: Request)
  {
    Precedes(a.orderKey, a.name, a.id, b.orderKey, b.name, b.id)
  }

  predicate FolderPrecedes(a: Folder, b: Folder)
  {
    Precedes(a.orderKey, a.name, a.id, b.orderKey, b.name, b.id)
  }

  lemma PrecedesIs(a: SortKey, b: SortKey)
    ensures KeyLess(a, b) <==> Precedes(a.orderKey, a.name, a.id, b.orderKey, b.name, b.id)
  {
    LessIrreflexive(a.orderKey);
    LessIrreflexive(a.name);
  }

  /** A later subfolder never precedes an earlier one, and they are the folders with that parent. */
  lemma SubfoldersAreListed(l: Listing, id: Id, i: nat, j: nat)
    requires i < j < |Children(l, id)|
    ensures !FolderPrecedes(Children(l, id)[j], Children(l, id)[i])
  {
    var kids := Children(l, id);
    ChildrenAre(l, id, kids[i]);
    assert !KeyLess(FolderKey(kids[j]), FolderKey(kids[i]));
    PrecedesIs(FolderKey(kids[j]), FolderKey(kids[i]));
  }

  lemma RequestsAreListed(l: Listing, id: Id, i: nat, j: nat)
    requires i < j < |RequestsIn(l, id)|
    ensures !RequestPrecedes(RequestsIn(l, id)[j], RequestsIn(l, id)[i])
  {
    var rs := RequestsIn(l, id);
    RequestsAre(l, id, rs[i]);
    assert !KeyLess(RequestKey(rs[j]), RequestKey(rs[i]));
    PrecedesIs(RequestKey(rs[j]), RequestKey(rs[i]));
  }

  /** A planned request is filed under a folder of the tree. */
  lemma {:induction false} FlattenStays(l: Listing, n: Node, prefix: seq<string>, p: Planned)
    requires p in Flatten(l, n, prefix)
    ensures p.request in l.requests && p.request.folder.Some? && p.request.folder.value in NodeIds(n)
    decreases n
  {
    var path := prefix + [n.folder.name];
    var own := Planning(RequestsIn(l, n.folder.id), path);
    if p in own {
      InRequests(l, n.folder.id, path, p);
    } else {
      FlattenAllStays(l, n.kids, path, p);
    }
  }

  lemma InRequests(l: Listing, id: Id, path: seq<string>, p: Planned)
    requires p in Planning(RequestsIn(l, id), path)
    ensures p.request in l.requests && p.request.folder == Some(id) && p.path == path
  {
    RequestsAre(l, id, p.request);
    assert p.request in RequestsIn(l, id);
    assert p.request in multiset(RequestsIn(l, id));
    assert p.request in multiset(l.requests);
  }

  lemma {:induction false} FlattenAllStays(l: Listing, ns: seq<Node>, path: seq<string>, p: Planned)
    requires p in FlattenAll(l, ns, path)
    ensures p.request in l.requests && p.request.folder.Some? && p.request.folder.value in AllIds(ns)
    decreases ns
  {
    if p in Flatten(l, ns[0], path) {
      FlattenStays(l, ns[0], path, p);
    } else {
      FlattenAllStays(l, ns[1..], path, p);
    }
  }

  /** Two entries of one folder, in their order. */
  predicate InTurn(plan: seq<Planned>, i: int, j: int)
    requires 0 <= i < j < |plan|
  {
    plan[i].request.folder == plan[j].request.folder ==> !RequestPrecedes(plan[j].request, plan[i].request)
  }

  lemma InTurnAcross(a: seq<Planned>, b: seq<Planned>, i: nat, j: nat)
    requires i < j < |a + b|
    requires forall i, j :: 0 <= i < j < |a| ==> InTurn(a, i, j)
    requires forall i, j :: 0 <= i < j < |b| ==> InTurn(b, i, j)
    requires forall p, q :: p in a && q in b ==> p.request.folder != q.request.folder
    ensures InTurn(a + b, i, j)
  {
    if j < |a| {
      assert InTurn(a, i, j);
    } else if |a| <= i {
      assert InTurn(b, i - |a|, j - |a|);
    } else {
      assert a[i] in a && b[j - |a|] in b;
    }
  }

  lemma {:induction false} FlattenInTurn(l: Listing, n: Node, prefix: seq<string>, i: nat, j: nat)
    requires Proper(n) && i < j < |Flatten(l, n, prefix)|
    ensures InTurn(Flatten(l, n, prefix), i, j)
    decreases n, 0
  {
    var path := prefix + [n.folder.name];
    var own, below := Planning(RequestsIn(l, n.folder.id), path), FlattenAll(l, n.kids, path);
    forall i, j | 0 <= i < j < |own| ensures InTurn(own, i, j) {
      RequestsAreListed(l, n.folder.id, i, j);
    }
    forall i, j | 0 <= i < j < |below| ensures InTurn(below, i, j) {
      FlattenAllInTurn(l, n.kids, path, i, j);
    }
    forall p, q | p in own && q in below ensures p.request.folder != q.request.folder {
      InRequests(l, n.folder.id, path, p);
      FlattenAllStays(l, n.kids, path, q);
    }
    InTurnAcross(own, below, i, j);
  }

  lemma {:induction false} FlattenAllInTurn(l: Listing, ns: seq<Node>, path: seq<string>, i: nat, j: nat)
    requires AllProper(ns) && i < j < |FlattenAll(l, ns, path)|
    ensures InTurn(FlattenAll(l, ns, path), i, j)
    decreases ns, 1
  {
    var first, rest := Flatten(l, ns[0], path), FlattenAll(l, ns[1..], path);
    forall i, j | 0 <= i < j < |first| ensures InTurn(first, i, j) {
      FlattenInTurn(l, ns[0], path, i, j);
    }
    forall i, j | 0 <= i < j < |rest| ensures InTurn(rest, i, j) {
      FlattenAllInTurn(l, ns[1..], path, i, j);
    }
    forall p, q | p in first && q in rest ensures p.request.folder != q.request.folder {
      FlattenStays(l, ns[0], path, p);
      FlattenAllStays(l, ns[1..], path, q);
    }
    InTurnAcross(first, rest, i, j);
  }

  /** In every folder plan the requests of one folder come by order key, then name, then id. */
  lemma PlanIsInTurn(l: Listing, target: Id, prefix: seq<string>, i: nat, j: nat)
    requires l.Distinct() && target in l.Ids()
    requires i < j < |Walk(l, target, prefix, {}).0|
    ensures InTurn(Walk(l, target, prefix, {}).0, i, j)
  {
    PlanIsPreorder(l, target, prefix);
    FlattenInTurn(l, TreeOf(l, target), prefix, i, j);
  }

  // ---- Paths ----------------------------------------------------------------

  /** The names from the folder k links above x down to x. */
  ghost function NamesDown(l: Listing, x: Id, k: nat): seq<string>
    requires Climb(l, x, k).Some?
    decreases k
  {
    (if k == 0 then [] else NamesDown(l, ParentKey(FolderAt(l, x)), k - 1)) + [FolderAt(l, x).name]
  }

  /** k is the number of links from x up to the first time they reach `top`. */
  ghost predicate FirstReaches(l: Listing, x: Id, top: Id, k: nat)
  {
    Climb(l, x, k) == Some(top) && forall m: nat :: m < k ==> Climb(l, x, m).Some? && Climb(l, x, m) != Some(top)
  }

  /** The path of the entry is the prefix and the names from `top` down to its folder. */
  ghost predicate Located(l: Listing, top: Id, prefix: seq<string>, p: Planned)
  {
    p.request in l.requests && p.request.folder.Some? &&
    exists k: nat :: FirstReaches(l, p.request.folder.value, top, k) &&
                     p.path == prefix + NamesDown(l, p.request.folder.value, k)
  }

  /** One more link up. */
  lemma {:induction false} NamesFurther(l: Listing, x: Id, k: nat, top: Id, above: Id)
    requires Climb(l, x, k) == Some(top) && top in l.Ids() && above in l.Ids()
    requires ParentKey(FolderAt(l, top)) == above
    ensures Climb(l, x, k + 1) == Some(above)
    ensures NamesDown(l, x, k + 1) == [FolderAt(l, above).name] + NamesDown(l, x, k)
    decreases k
  {
    ClimbSplit(l, x, k, 1);
    assert Climb(l, above, 0) == Some(above);
    if k > 0 {
      var up := ParentKey(FolderAt(l, x));
      NamesFurther(l, up, k - 1, top, above);
      SumsAssociate([FolderAt(l, above).name], NamesDown(l, up, k - 1), [FolderAt(l, x).name]);
    } else {
      assert NamesDown(l, above, 0) == [FolderAt(l, above).name];
      assert NamesDown(l, x, 0) == [FolderAt(l, x).name];
    }
  }

  /** Before they reach `top`, k links above x, the links stay among the ids. */
  ghost predicate Descends(l: Listing, top: Id, ids: set<Id>, x: Id, k: nat)
  {
    Climb(l, x, k) == Some(top) && forall m: nat :: m < k ==> Climb(l, x, m).Some? && Climb(l, x, m).value in ids
  }

  lemma DescendsFurther(l: Listing, kid: Id, ids: set<Id>, x: Id, k: nat, parent: Id, all: set<Id>)
    requires Descends(l, kid, ids, x, k) && kid in l.Ids() && parent in l.Ids() && ParentKey(FolderAt(l, kid)) == parent
    requires ids <= all && kid in all
    ensures Descends(l, parent, all, x, k + 1)
    ensures NamesDown(l, x, k + 1) == [FolderAt(l, parent).name] + NamesDown(l, x, k)
  {
    NamesFurther(l, x, k, kid, parent);
  }

  /** The entry names the folders from `top` on, which its links reach through the ids. */
  ghost predicate Placed(l: Listing, top: Id, ids: set<Id>, prefix: seq<string>, p: Planned, k: nat)
  {
    p.request in l.requests && p.request.folder.Some? && Descends(l, top, ids, p.request.folder.value, k) &&
    p.path == prefix + NamesDown(l, p.request.folder.value, k)
  }

  lemma PlacedFurther(
      l: Listing, kid: Id, ids: set<Id>, prefix: seq<string>, p: Planned, k: nat, parent: Id, all: set<Id>)
    requires kid in l.Ids() && parent in l.Ids() && ParentKey(FolderAt(l, kid)) == parent && ids <= all && kid in all
    requires Placed(l, kid, ids, prefix + [FolderAt(l, parent).name], p, k)
    ensures Placed(l, parent, all, prefix, p, k + 1)
  {
    var x := p.request.folder.value;
    DescendsFurther(l, kid, ids, x, k, parent, all);
    SumsAssociate(prefix, [FolderAt(l, parent).name], NamesDown(l, x, k));
  }

  lemma {:induction false} FlattenLocates(l: Listing, cut: Id, n: Node, prefix: seq<string>, p: Planned) returns (k: nat)
    requires l.Distinct() && Represents(l, cut, n) && p in Flatten(l, n, prefix)
    ensures Placed(l, n.folder.id, AllIds(n.kids), prefix, p, k)
    decreases n
  {
    var path := prefix + [n.folder.name];
    FolderAtIs(l, n.folder);
    if p in Planning(RequestsIn(l, n.folder.id), path) {
      InRequests(l, n.folder.id, path, p);
      k := 0;
      assert NamesDown(l, n.folder.id, 0) == [n.folder.name];
    } else {
      KidsAreOk(l, cut, n.folder.id);
      k := FlattenAllLocates(l, cut, n.folder.id, Except(Children(l, n.folder.id), cut), n.kids, prefix, p);
    }
  }

  lemma {:induction false} FlattenAllLocates(
      l: Listing, cut: Id, parent: Id, kids: seq<Folder>, ns: seq<Node>, prefix: seq<string>, p: Planned)
    returns (k: nat)
    requires l.Distinct() && parent in l.Ids() && KidsOk(l, cut, parent, kids) && RepresentAll(l, cut, kids, ns)
    requires p in FlattenAll(l, ns, prefix + [FolderAt(l, parent).name])
    ensures Placed(l, parent, AllIds(ns), prefix, p, k)
    decreases ns
  {
    var path := prefix + [FolderAt(l, parent).name];
    if p in Flatten(l, ns[0], path) {
      assert kids[0] in kids;
      k := FlattenLocates(l, cut, ns[0], path, p);
      IdsOfFirst(ns);
      PlacedFurther(l, kids[0].id, AllIds(ns[0].kids), prefix, p, k, parent, AllIds(ns));
      k := k + 1;
    } else {
      KidsRest(l, cut, parent, kids);
      k := FlattenAllLocates(l, cut, parent, kids[1..], ns[1..], prefix, p);
      IdsOfFirst(ns);
      PlacedWider(l, parent, AllIds(ns[1..]), prefix, p, k, AllIds(ns));
    }
  }

  lemma IdsOfFirst(ns: seq<Node>)
    requires ns != []
    ensures ns[0].folder.id in AllIds(ns) && AllIds(ns[0].kids) <= AllIds(ns) && AllIds(ns[1..]) <= AllIds(ns)
  {
    assert NodeIds(ns[0]) <= AllIds(ns);
  }

  lemma PlacedWider(l: Listing, top: Id, ids: set<Id>, prefix: seq<string>, p: Planned, k: nat, all: set<Id>)
    requires Placed(l, top, ids, prefix, p, k) && ids <= all
    ensures Placed(l, top, all, prefix, p, k)
  {
  }

  lemma KidsRest(l: Listing, cut: Id, parent: Id, kids: seq<Folder>)
    requires l.Distinct() && KidsOk(l, cut, parent, kids) && kids != []
    ensures KidsOk(l, cut, parent, kids[1..])
  {
    assert forall f :: f in kids[1..] ==> f in kids;
  }

  /** Every entry of a folder plan names the folders from the target down to the request's own. */
  lemma PlanPathsAreTrue(l: Listing, target: Id, prefix: seq<string>, p: Planned)
    requires l.Distinct() && target in l.Ids() && p in Walk(l, target, prefix, {}).0
    ensures Located(l, target, prefix, p)
  {
    var n := TreeOf(l, target);
    PlanIsPreorder(l, target, prefix);
    var k := FlattenLocates(l, target, n, prefix, p);
    assert FirstReaches(l, p.request.folder.value, target, k);
  }

  // ---- Workspace plans ------------------------------------------------------

  /** Loose requests come first, without a path, by order key, then name, then id. */
  lemma LooseComeFirst(l: Listing, i: nat)
    requires i < |LooseRequests(l)|
    ensures i < |WalkRoot(l)| && WalkRoot(l)[i] == Planned(LooseRequests(l)[i], [])
    ensures LooseRequests(l)[i] in l.requests && LooseRequests(l)[i].folder.None?
    ensures forall j :: i < j < |LooseRequests(l)| ==> !RequestPrecedes(LooseRequests(l)[j], LooseRequests(l)[i])
  {
    var rs, r := LooseRequests(l), LooseRequests(l)[i];
    LooseAre(l, r);
    assert r in multiset(rs);
    assert r in multiset(l.requests);
    forall j | i < j < |rs| ensures !RequestPrecedes(rs[j], rs[i]) {
      assert !KeyLess(RequestKey(rs[j]), RequestKey(rs[i]));
      PrecedesIs(RequestKey(rs[j]), RequestKey(rs[i]));
    }
  }

  lemma LooseAre(l: Listing, r: Request)
    ensures multiset(LooseRequests(l))[r] == if r.folder == None then multiset(l.requests)[r] else 0
    ensures SortedBy(LooseRequests(l), RequestKey)
  {
    var p := InFolder(None);
    KeepIs(l.requests, p, r);
    SortBySorts(Keep(l.requests, p), RequestKey);
  }

  lemma {:induction false} RootsInTurn(l: Listing, roots: seq<Folder>, k: nat)
    requires k < |roots|
    ensures WalkRoots(l, roots) ==
      WalkRoots(l, roots[..k]) + (Walk(l, roots[k].id, [], {}).0 + WalkRoots(l, roots[k + 1..]))
    decreases k
  {
    var first := Walk(l, roots[0].id, [], {}).0;
    if k == 0 {
      assert roots[..0] == [];
      assert [] + WalkRoots(l, roots) == WalkRoots(l, roots);
    } else {
      var rest := roots[1..];
      RootsInTurn(l, rest, k - 1);
      assert rest[..k - 1] == roots[..k][1..] && rest[k..] == roots[k + 1..] && roots[..k][0] == roots[0];
      SumsAssociate(first, WalkRoots(l, rest[..k - 1]), Walk(l, rest[k - 1].id, [], {}).0 + WalkRoots(l, rest[k..]));
    }
  }

  /** Then come the plans of the root folders, those of earlier folders before those of later ones. */
  lemma RootPlansFollow(l: Listing, k: nat)
    requires k < |Children(l, "")|
    ensures var roots := Children(l, "");
      WalkRoot(l) ==
        (Planning(LooseRequests(l), []) + WalkRoots(l, roots[..k])) +
        (Walk(l, roots[k].id, [], {}).0 + WalkRoots(l, roots[k + 1..]))
  {
    RootsInTurn(l, Children(l, ""), k);
  }
}
