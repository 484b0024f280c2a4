/** The walk that turns a folder or workspace into a list of requests to run. */
module PlanWalk {
  import opened Common
  import opened SidebarOrder

  type Id = string

  datatype Folder = Folder(id: Id, parent: Option<Id>, orderKey: string, name: string)

  datatype Request = Request(id: Id, folder: Option<Id>, orderKey: string, name: string)

  datatype Planned = Planned(request: Request, path: seq<string>)

  /** What the store lists, in any order. Parent links may dangle or form cycles. */
  datatype Listing = Listing(folders: seq<Folder>, requests: seq<Request>) {
    predicate Distinct() {
      forall i, j :: 0 <= i < j < |folders| ==> folders[i].id != folders[j].id
    }
    ghost function Ids(): set<Id> {
      set f | f in folders :: f.id
    }
  }

  function FolderKey(f: Folder): SortKey { SortKey(f.orderKey, f.name, f.id) }

  function RequestKey(r: Request): SortKey { SortKey(r.orderKey, r.name, r.id) }

  /** The map key a folder's children entry is filed under; root folders file under "". */
  function ParentKey(f: Folder): Id
  {
    if f.parent.None? then "" else f.parent.value
  }

  function Keep<T>(xs: seq<T>, p: T -> bool): seq<T>
    decreases |xs|
  {
    if xs == [] then []
    else Keep(xs[..|xs| - 1], p) + if p(xs[|xs| - 1]) then [xs[|xs| - 1]] else []
  }

  lemma {:induction false} KeepIs<T>(xs: seq<T>, p: T -> bool, x: T)
    ensures multiset(Keep(xs, p))[x] == if p(x) then multiset(xs)[x] else 0
    decreases |xs|
  {
    if xs != [] {
      var n := |xs| - 1;
      KeepIs(xs[..n], p, x);
      assert xs == xs[..n] + [xs[n]];
    }
  }

  lemma KeepNext<T>(xs: seq<T>, i: nat, p: T -> bool)
    requires i < |xs|
    ensures Keep(xs[..i + 1], p) == Keep(xs[..i], p) + if p(xs[i]) then [xs[i]] else []
  {
    assert xs[..i + 1][..i] == xs[..i];
  }

  function FiledUnder(id: Id): Folder -> bool
  {
    (f: Folder) => ParentKey(f) == id
  }

  function InFolder(id: Option<Id>): Request -> bool
  {
    (r: Request) => r.folder == id
  }

  function Children(l: Listing, id: Id): seq<Folder>
  {
    SortBy(Keep(l.folders, FiledUnder(id)), FolderKey)
  }

  function RequestsIn(l: Listing, id: Id): seq<Request>
  {
    SortBy(Keep(l.requests, InFolder(Some(id))), RequestKey)
  }

  function LooseRequests(l: Listing): seq<Request>
  {
    SortBy(Keep(l.requests, InFolder(None)), RequestKey)
  }

  lemma ChildrenAre(l: Listing, id: Id, f: Folder)
    ensures f in Children(l, id) <==> f in l.folders && ParentKey(f) == id
    ensures SortedBy(Children(l, id), FolderKey)
  {
    var p := FiledUnder(id);
    KeepIs(l.folders, p, f);
    SortBySorts(Keep(l.folders, p), FolderKey);
    assert f in Children(l, id) <==> f in multiset(Children(l, id));
    assert f in l.folders <==> f in multiset(l.folders);
  }

  lemma RequestsAre(l: Listing, id: Id, r: Request)
    ensures multiset(RequestsIn(l, id))[r] == if r.folder == Some(id) then multiset(l.requests)[r] else 0
    ensures SortedBy(RequestsIn(l, id), RequestKey)
  {
    var p := InFolder(Some(id));
    KeepIs(l.requests, p, r);
    SortBySorts(Keep(l.requests, p), RequestKey);
  }

  function Planning(rs: seq<Request>, path: seq<string>): (out: seq<Planned>)
    ensures |out| == |rs|
  {
    seq(|rs|, i requires 0 <= i < |rs| => Planned(rs[i], path))
  }

  ghost function FolderAt(l: Listing, id: Id): Folder
    requires id in l.Ids()
  {
    var f :| f in l.folders && f.id == id;
    f
  }

  lemma FolderAtIs(l: Listing, f: Folder)
    requires l.Distinct() && f in l.folders
    ensures f.id in l.Ids() && FolderAt(l, f.id) == f
  {
  }

  // ---- The walk -------------------------------------------------------------

  /** walk: depth first, marking folders in a set shared by the whole walk. */
  ghost function Walk(l: Listing, id: Id, prefix: seq<string>, seen: set<Id>): (r: (seq<Planned>, set<Id>))
    ensures seen <= r.1
    decreases l.Ids() - seen, 0
  {
    if id in seen then ([], seen)
    else if id !in l.Ids() then ([], seen + {id})
    else
      var path := prefix + [FolderAt(l, id).name];
      assert l.Ids() - (seen + {id}) < l.Ids() - seen by {
        assert id in l.Ids() - seen;
      }
      var below := WalkAll(l, Children(l, id), path, seen + {id});
      (Planning(RequestsIn(l, id), path) + below.0, below.1)
  }

  ghost function WalkAll(l: Listing, kids: seq<Folder>, path: seq<string>, seen: set<Id>): (r: (seq<Planned>, set<Id>))
    ensures seen <= r.1
    decreases l.Ids() - seen, |kids| + 1
  {
    if kids == [] then ([], seen)
    else
      var first := Walk(l, kids[0].id, path, seen);
      assert l.Ids() - first.1 <= l.Ids() - seen;
      var rest := WalkAll(l, kids[1..], path, first.1);
      (first.0 + rest.0, rest.1)
  }

  // ---- The tree a target stands for -----------------------------------------

  /** A finite folder tree. */
  datatype Node = Node(folder: Folder, kids: seq<Node>)

  function NodeIds(n: Node): set<Id>
  {
    {n.folder.id} + AllIds(n.kids)
  }

  function AllIds(ns: seq<Node>): set<Id>
  {
    if ns == [] then {} else NodeIds(ns[0]) + AllIds(ns[1..])
  }

  /** Pre-order: a folder's requests, then each subfolder in turn. */
  function Flatten(l: Listing, n: Node, prefix: seq<string>): seq<Planned>
  {
    var path := prefix + [n.folder.name];
    Planning(RequestsIn(l, n.folder.id), path) + FlattenAll(l, n.kids, path)
  }

  function FlattenAll(l: Listing, ns: seq<Node>, path: seq<string>): seq<Planned>
  {
    if ns == [] then [] else Flatten(l, ns[0], path) + FlattenAll(l, ns[1..], path)
  }

  function Except(kids: seq<Folder>, cut: Id): seq<Folder>
  {
    if kids == [] then [] else (if kids[0].id == cut then [] else [kids[0]]) + Except(kids[1..], cut)
  }

  /** n is the listing's tree below its folder, links back up to `cut` left out. */
  ghost predicate Represents(l: Listing, cut: Id, n: Node)
    decreases n
  {
    n.folder in l.folders && RepresentAll(l, cut, Except(Children(l, n.folder.id), cut), n.kids)
  }

  ghost predicate RepresentAll(l: Listing, cut: Id, kids: seq<Folder>, ns: seq<Node>)
    decreases ns
  {
    if ns == [] then kids == []
    else kids != [] && ns[0].folder == kids[0] && Represents(l, cut, ns[0]) && RepresentAll(l, cut, kids[1..], ns[1..])
  }

  /** No folder appears twice. */
  ghost predicate Proper(n: Node)
  {
    n.folder.id !in AllIds(n.kids) && AllProper(n.kids)
  }

  ghost predicate AllProper(ns: seq<Node>)
  {
    ns != [] ==> Proper(ns[0]) && NodeIds(ns[0]) !! AllIds(ns[1..]) && AllProper(ns[1..])
  }

  /** The shared seen set only ever stops the walk at the cut: it lists the tree in pre-order. */
  lemma {:induction false} WalkFlattens(l: Listing, cut: Id, n: Node, prefix: seq<string>, seen: set<Id>)
    requires l.Distinct() && Represents(l, cut, n) && Proper(n) && NodeIds(n) !! seen
    requires cut in seen || n.folder.id == cut
    ensures Walk(l, n.folder.id, prefix, seen) == (Flatten(l, n, prefix), seen + NodeIds(n))
    decreases n
  {
    var id := n.folder.id;
    FolderAtIs(l, n.folder);
    var path := prefix + [n.folder.name];
    WalkAllFlattens(l, cut, Children(l, id), n.kids, path, seen + {id});
    assert seen + {id} + AllIds(n.kids) == seen + NodeIds(n);
  }

  lemma {:induction false} WalkAllFlattens(
      l: Listing, cut: Id, kids: seq<Folder>, ns: seq<Node>, path: seq<string>, seen: set<Id>)
    requires l.Distinct() && RepresentAll(l, cut, Except(kids, cut), ns) && AllProper(ns) && AllIds(ns) !! seen
    requires cut in seen
    ensures WalkAll(l, kids, path, seen) == (FlattenAll(l, ns, path), seen + AllIds(ns))
    decreases ns, |kids|
  {
    if kids == [] {
      assert ns == [] && seen + AllIds(ns) == seen;
    } else if kids[0].id == cut {
      assert Except(kids, cut) == Except(kids[1..], cut);
      WalkAllFlattens(l, cut, kids[1..], ns, path, seen);
      assert [] + FlattenAll(l, ns, path) == FlattenAll(l, ns, path);
    } else {
      assert Except(kids, cut)[1..] == Except(kids[1..], cut);
      WalkFlattens(l, cut, ns[0], path, seen);
      WalkAllFlattens(l, cut, kids[1..], ns[1..], path, seen + NodeIds(ns[0]));
      assert seen + NodeIds(ns[0]) + AllIds(ns[1..]) == seen + AllIds(ns);
    }
  }

  // ---- Every target has such a tree -----------------------------------------

  /** The folders passed on the way down from the target: each one's parent is among them. */
  ghost predicate DownFrom(l: Listing, target: Id, path: set<Id>)
  {
    path <= l.Ids() && forall x :: x in path && x != target ==> ParentKey(FolderAt(l, x)) in path
  }

  /** f is the next folder on the way down. */
  ghost predicate NextBelow(l: Listing, target: Id, path: set<Id>, f: Folder)
  {
    f in l.folders && f.id !in path && DownFrom(l, target, path) &&
    if f.id == target then path == {} else ParentKey(f) in path
  }

  ghost function Build(l: Listing, target: Id, f: Folder, path: set<Id>): Node
    requires l.Distinct() && NextBelow(l, target, path, f)
    decreases l.Ids() - path, 0
  {
    assert f.id in l.Ids() - path;
    StepDown(l, target, path, f);
    Node(f, BuildAll(l, target, Except(Children(l, f.id), target), path + {f.id}))
  }

  ghost function BuildAll(l: Listing, target: Id, kids: seq<Folder>, path: set<Id>): seq<Node>
    requires l.Distinct() && forall k :: k in kids ==> NextBelow(l, target, path, k)
    decreases l.Ids() - path, |kids| + 1
  {
    if kids == [] then [] else [Build(l, target, kids[0], path)] + BuildAll(l, target, kids[1..], path)
  }

  lemma {:induction false} ExceptAre(kids: seq<Folder>, cut: Id, f: Folder)
    ensures f in Except(kids, cut) <==> f in kids && f.id != cut
  {
    if kids != [] {
      ExceptAre(kids[1..], cut, f);
    }
  }

  /** Going down never meets a folder already passed, other than the target. */
  lemma StepDown(l: Listing, target: Id, path: set<Id>, f: Folder)
    requires l.Distinct() && NextBelow(l, target, path, f)
    ensures forall k :: k in Except(Children(l, f.id), target) ==> NextBelow(l, target, path + {f.id}, k)
  {
    FolderAtIs(l, f);
    forall k | k in Except(Children(l, f.id), target) ensures NextBelow(l, target, path + {f.id}, k) {
      ExceptAre(Children(l, f.id), target, k);
      ChildrenAre(l, f.id, k);
      FolderAtIs(l, k);
    }
  }

  /** Whoever is in the set is a root of it or has its parent there too. */
  ghost predicate Rooted(l: Listing, roots: set<Id>, ids: set<Id>)
  {
    roots <= ids <= l.Ids() && forall x :: x in ids && x !in roots ==> ParentKey(FolderAt(l, x)) in ids
  }

  ghost function IdsOf(kids: seq<Folder>): set<Id>
  {
    set k | k in kids :: k.id
  }

  lemma IdsOfNext(fs: seq<Folder>, i: nat)
    requires i < |fs|
    ensures IdsOf(fs[..i + 1]) == IdsOf(fs[..i]) + {fs[i].id}
  {
    assert fs[..i + 1] == fs[..i] + [fs[i]];
  }

  lemma {:induction false} ExceptFewer(kids: seq<Folder>, cut: Id)
    ensures multiset(Except(kids, cut)) <= multiset(kids)
  {
    if kids != [] {
      ExceptFewer(kids[1..], cut);
      assert kids == [kids[0]] + kids[1..];
    }
  }

  lemma TwiceIsTwo<T>(xs: seq<T>, i: nat, j: nat)
    requires i < j < |xs| && xs[i] == xs[j]
    ensures multiset(xs)[xs[i]] >= 2
  {
    assert xs == xs[..j] + xs[j..];
    assert xs[..j][i] in multiset(xs[..j]) && xs[j..][0] in multiset(xs[j..]);
  }

  predicate DistinctIds(fs: seq<Folder>)
  {
    forall i, j :: 0 <= i < j < |fs| ==> fs[i].id != fs[j].id
  }

  /** `kids` are folders filed under `parent`, each named once, the cut not among them. */
  ghost predicate KidsOk(l: Listing, cut: Id, parent: Id, kids: seq<Folder>)
  {
    DistinctIds(kids) &&
    forall k :: k in kids ==> k in l.folders && k.id in l.Ids() && FolderAt(l, k.id) == k && ParentKey(k) == parent && k.id != cut
  }

  lemma KidsAreOk(l: Listing, cut: Id, parent: Id)
    requires l.Distinct()
    ensures KidsOk(l, cut, parent, Except(Children(l, parent), cut))
  {
    var p := FiledUnder(parent);
    var kids := Except(Children(l, parent), cut);
    forall k | k in kids
      ensures k in l.folders && k.id in l.Ids() && FolderAt(l, k.id) == k && ParentKey(k) == parent && k.id != cut
    {
      ExceptAre(Children(l, parent), cut, k);
      ChildrenAre(l, parent, k);
      FolderAtIs(l, k);
    }
    SortBySorts(Keep(l.folders, p), FolderKey);
    ExceptFewer(Children(l, parent), cut);
    KeptDistinct(l, p, kids);
  }

  /** Of the listed folders that p keeps, each is named once. */
  lemma KeptDistinct(l: Listing, p: Folder -> bool, kids: seq<Folder>)
    requires l.Distinct() && multiset(kids) <= multiset(Keep(l.folders, p))
    requires forall k :: k in kids ==> k.id in l.Ids() && FolderAt(l, k.id) == k
    ensures DistinctIds(kids)
  {
    forall i, j | 0 <= i < j < |kids| ensures kids[i].id != kids[j].id {
      if kids[i].id == kids[j].id {
        TwiceIsTwo(kids, i, j);
        KeepIs(l.folders, p, kids[i]);
        ListedOnce(l.folders, kids[i]);
      }
    }
  }

  lemma {:induction false} ListedOnce(fs: seq<Folder>, f: Folder)
    requires DistinctIds(fs)
    ensures multiset(fs)[f] <= 1
  {
    if fs != [] {
      ListedOnce(fs[1..], f);
      assert fs == [fs[0]] + fs[1..];
      assert f in fs[1..] ==> f != fs[0];
    }
  }

  /** Climbing inside a tree from a node in a rooted set, one stays in that set up to the tree's top. */
  lemma {:induction false} ClimbIn(l: Listing, target: Id, n: Node, x: Id, roots: set<Id>, ids: set<Id>)
    requires l.Distinct() && Represents(l, target, n) && Rooted(l, roots, ids)
    requires x in NodeIds(n) && x in ids && roots !! NodeIds(n)
    ensures n.folder.id in ids
    decreases n
  {
    if x != n.folder.id {
      var kids := Except(Children(l, n.folder.id), target);
      forall k | k in kids ensures k in l.folders && ParentKey(k) == n.folder.id {
        ExceptAre(Children(l, n.folder.id), target, k);
        ChildrenAre(l, n.folder.id, k);
      }
      ClimbInAll(l, target, n.folder.id, kids, n.kids, x, roots, ids);
    }
  }

  lemma {:induction false} ClimbInAll(l: Listing, target: Id, parent: Id, kids: seq<Folder>, ns: seq<Node>, x: Id,
                                      roots: set<Id>, ids: set<Id>)
    requires l.Distinct() && RepresentAll(l, target, kids, ns) && Rooted(l, roots, ids)
    requires forall k :: k in kids ==> k in l.folders && ParentKey(k) == parent
    requires x in AllIds(ns) && x in ids && roots !! AllIds(ns)
    ensures parent in ids
    decreases ns
  {
    if x in NodeIds(ns[0]) {
      ClimbIn(l, target, ns[0], x, roots, ids);
      FolderAtIs(l, kids[0]);
      assert kids[0].id in NodeIds(ns[0]);
    } else {
      ClimbInAll(l, target, parent, kids[1..], ns[1..], x, roots, ids);
    }
  }

  /** What Build promises of the tree it makes. */
  ghost predicate Built(l: Listing, target: Id, f: Folder, path: set<Id>, n: Node)
  {
    n.folder == f && Represents(l, target, n) && Proper(n) && NodeIds(n) !! path && Rooted(l, {f.id}, NodeIds(n)) &&
    (target in NodeIds(n) ==> f.id == target)
  }

  ghost predicate AllBuilt(l: Listing, target: Id, kids: seq<Folder>, path: set<Id>, ns: seq<Node>)
  {
    RepresentAll(l, target, kids, ns) && AllProper(ns) && AllIds(ns) !! path && target !in AllIds(ns) &&
    Rooted(l, IdsOf(kids), AllIds(ns))
  }

  lemma {:induction false} BuildRepresents(l: Listing, target: Id, f: Folder, path: set<Id>)
    requires l.Distinct() && NextBelow(l, target, path, f)
    ensures Built(l, target, f, path, Build(l, target, f, path))
    decreases l.Ids() - path, 0
  {
    assert f.id in l.Ids() - path;
    FolderAtIs(l, f);
    StepDown(l, target, path, f);
    KidsAreOk(l, target, f.id);
    var kids := Except(Children(l, f.id), target);
    BuildAllRepresents(l, target, f.id, kids, path + {f.id});
    RootedNode(l, target, f, kids, path, BuildAll(l, target, kids, path + {f.id}));
  }

  lemma RootedNode(l: Listing, target: Id, f: Folder, kids: seq<Folder>, path: set<Id>, ns: seq<Node>)
    requires l.Distinct() && f in l.folders && f.id !in path && f.id in l.Ids()
    requires kids == Except(Children(l, f.id), target) && KidsOk(l, target, f.id, kids)
    requires AllBuilt(l, target, kids, path + {f.id}, ns)
    ensures Built(l, target, f, path, Node(f, ns))
  {
    var ids := {f.id} + AllIds(ns);
    forall x | x in ids && x != f.id ensures x in l.Ids() && ParentKey(FolderAt(l, x)) in ids {
      if x in IdsOf(kids) {
        var k :| k in kids && k.id == x;
      }
    }
    assert Rooted(l, {f.id}, ids);
  }

  lemma {:induction false} BuildAllRepresents(l: Listing, target: Id, parent: Id, kids: seq<Folder>, path: set<Id>)
    requires l.Distinct() && parent in path && KidsOk(l, target, parent, kids)
    requires forall k :: k in kids ==> NextBelow(l, target, path, k)
    ensures AllBuilt(l, target, kids, path, BuildAll(l, target, kids, path))
    decreases l.Ids() - path, |kids| + 1
  {
    if kids != [] {
      var n, ns := Build(l, target, kids[0], path), BuildAll(l, target, kids[1..], path);
      assert kids[0] in kids && forall k :: k in kids[1..] ==> k in kids;
      assert KidsOk(l, target, parent, kids[1..]);
      BuildRepresents(l, target, kids[0], path);
      BuildAllRepresents(l, target, parent, kids[1..], path);
      assert BuildAll(l, target, kids, path) == [n] + ns && ([n] + ns)[1..] == ns;
      SiblingsDisjoint(l, target, parent, kids, n, ns, path);
      ConsBuilt(l, target, kids, path, [n] + ns);
    }
  }

  lemma ConsBuilt(l: Listing, target: Id, kids: seq<Folder>, path: set<Id>, all: seq<Node>)
    requires kids != [] && all != [] && kids[0].id != target
    requires Built(l, target, kids[0], path, all[0]) && AllBuilt(l, target, kids[1..], path, all[1..])
    requires NodeIds(all[0]) !! AllIds(all[1..])
    ensures AllBuilt(l, target, kids, path, all)
  {
    assert kids == [kids[0]] + kids[1..];
    assert IdsOf(kids) == {kids[0].id} + IdsOf(kids[1..]);
  }

  lemma SiblingsDisjoint(l: Listing, target: Id, parent: Id, kids: seq<Folder>, n: Node, ns: seq<Node>, path: set<Id>)
    requires l.Distinct() && parent in path && kids != [] && KidsOk(l, target, parent, kids)
    requires Built(l, target, kids[0], path, n) && AllBuilt(l, target, kids[1..], path, ns)
    ensures NodeIds(n) !! AllIds(ns)
  {
    var first, roots := kids[0].id, IdsOf(kids[1..]);
    assert kids[0] in kids && first !in roots && first !in AllIds(ns);
    forall r | r in roots ensures r !in NodeIds(n) {
      var k :| k in kids[1..] && k.id == r;
      assert k in kids;
    }
    forall x | x in NodeIds(n) ensures x !in AllIds(ns) {
      if x in AllIds(ns) {
        ClimbIn(l, target, n, x, roots, AllIds(ns));
      }
    }
  }

  /** The tree below a target folder: every listing has one, whatever its parent links. */
  ghost function TreeOf(l: Listing, target: Id): Node
    requires l.Distinct() && target in l.Ids()
  {
    Build(l, target, FolderAt(l, target), {})
  }

  /** The plan of a folder target is the pre-order listing of its tree. */
  lemma PlanIsPreorder(l: Listing, target: Id, prefix: seq<string>)
    requires l.Distinct() && target in l.Ids()
    ensures var n := TreeOf(l, target);
      n.folder.id == target && Represents(l, target, n) && Proper(n) &&
      Walk(l, target, prefix, {}) == (Flatten(l, n, prefix), NodeIds(n))
  {
    var n := TreeOf(l, target);
    BuildRepresents(l, target, FolderAt(l, target), {});
    WalkFlattens(l, target, n, prefix, {});
    assert {} + NodeIds(n) == NodeIds(n);
  }

  // ---- Which requests a plan holds ------------------------------------------

  /** The folder k parent links above x. */
  ghost function Climb(l: Listing, x: Id, k: nat): Option<Id>
    decreases k
  {
    if x !in l.Ids() then None else if k == 0 then Some(x) else Climb(l, ParentKey(FolderAt(l, x)), k - 1)
  }

  /** Following parent links from x reaches the target. */
  ghost predicate Under(l: Listing, target: Id, x: Id)
  {
    exists k: nat :: Climb(l, x, k) == Some(target)
  }

  lemma {:induction false} ClimbSplit(l: Listing, x: Id, k: nat, m: nat)
    ensures Climb(l, x, k + m) == if Climb(l, x, k).Some? then Climb(l, Climb(l, x, k).value, m) else None
    decreases k
  {
    if k > 0 && x in l.Ids() {
      ClimbSplit(l, ParentKey(FolderAt(l, x)), k - 1, m);
    }
  }

  lemma {:induction false} NodeIsUnder(l: Listing, cut: Id, n: Node, x: Id)
    requires l.Distinct() && Represents(l, cut, n) && x in NodeIds(n)
    ensures Under(l, n.folder.id, x)
    decreases n
  {
    FolderAtIs(l, n.folder);
    if x == n.folder.id {
      assert Climb(l, x, 0) == Some(x);
    } else {
      KidsAreOk(l, cut, n.folder.id);
      KidsAreUnder(l, cut, n.folder.id, Except(Children(l, n.folder.id), cut), n.kids, x);
    }
  }

  lemma {:induction false} KidsAreUnder(l: Listing, cut: Id, parent: Id, kids: seq<Folder>, ns: seq<Node>, x: Id)
    requires l.Distinct() && RepresentAll(l, cut, kids, ns) && KidsOk(l, cut, parent, kids) && parent in l.Ids()
    requires x in AllIds(ns)
    ensures Under(l, parent, x)
    decreases ns
  {
    assert kids[0] in kids;
    if x in NodeIds(ns[0]) {
      NodeIsUnder(l, cut, ns[0], x);
      var k: nat :| Climb(l, x, k) == Some(kids[0].id);
      ClimbSplit(l, x, k, 1);
      assert Climb(l, kids[0].id, 1) == Climb(l, parent, 0) == Some(parent);
      assert Climb(l, x, k + 1) == Some(parent);
    } else {
      assert forall k :: k in kids[1..] ==> k in kids;
      KidsAreUnder(l, cut, parent, kids[1..], ns[1..], x);
    }
  }

  lemma {:induction false} ChildIsIn(l: Listing, cut: Id, n: Node, f: Folder)
    requires l.Distinct() && Represents(l, cut, n) && ParentKey(f) in NodeIds(n) && f in l.folders && f.id != cut
    ensures f.id in NodeIds(n)
    decreases n
  {
    var kids := Except(Children(l, n.folder.id), cut);
    if ParentKey(f) == n.folder.id {
      ChildrenAre(l, n.folder.id, f);
      ExceptAre(Children(l, n.folder.id), cut, f);
    }
    ChildIsInAll(l, cut, kids, n.kids, f);
  }

  lemma {:induction false} ChildIsInAll(l: Listing, cut: Id, kids: seq<Folder>, ns: seq<Node>, f: Folder)
    requires l.Distinct() && RepresentAll(l, cut, kids, ns) && f in l.folders && f.id != cut
    ensures f in kids || ParentKey(f) in AllIds(ns) ==> f.id in AllIds(ns)
    decreases ns
  {
    if ns != [] {
      assert kids == [kids[0]] + kids[1..];
      if ParentKey(f) in NodeIds(ns[0]) {
        ChildIsIn(l, cut, ns[0], f);
      }
      ChildIsInAll(l, cut, kids[1..], ns[1..], f);
    }
  }

  lemma {:induction false} UnderIsIn(l: Listing, target: Id, n: Node, x: Id, k: nat)
    requires l.Distinct() && Represents(l, target, n) && n.folder.id == target && Climb(l, x, k) == Some(target)
    ensures x in NodeIds(n)
    decreases k
  {
    if x != target {
      var f := FolderAt(l, x);
      UnderIsIn(l, target, n, ParentKey(f), k - 1);
      ChildIsIn(l, target, n, f);
    }
  }

  function Requests(ps: seq<Planned>): (rs: seq<Request>)
    ensures |rs| == |ps|
  {
    seq(|ps|, i requires 0 <= i < |ps| => ps[i].request)
  }

  lemma RequestsAppend(a: seq<Planned>, b: seq<Planned>)
    ensures Requests(a + b) == Requests(a) + Requests(b)
  {
  }

  /** How often the store lists r, if its folder is one of these. */
  ghost function Listed(l: Listing, r: Request, ids: set<Id>): nat
  {
    if r.folder.Some? && r.folder.value in ids then multiset(l.requests)[r] else 0
  }

  lemma {:induction false} FlattenHolds(l: Listing, n: Node, prefix: seq<string>, r: Request)
    requires Proper(n)
    ensures multiset(Requests(Flatten(l, n, prefix)))[r] == Listed(l, r, NodeIds(n))
    decreases n
  {
    var path := prefix + [n.folder.name];
    var own := RequestsIn(l, n.folder.id);
    FlattenAllHolds(l, n.kids, path, r);
    RequestsAppend(Planning(own, path), FlattenAll(l, n.kids, path));
    assert Requests(Planning(own, path)) == own;
    RequestsAre(l, n.folder.id, r);
  }

  lemma {:induction false} FlattenAllHolds(l: Listing, ns: seq<Node>, path: seq<string>, r: Request)
    requires AllProper(ns)
    ensures multiset(Requests(FlattenAll(l, ns, path)))[r] == Listed(l, r, AllIds(ns))
    decreases ns
  {
    if ns != [] {
      FlattenHolds(l, ns[0], path, r);
      FlattenAllHolds(l, ns[1..], path, r);
      RequestsAppend(Flatten(l, ns[0], path), FlattenAll(l, ns[1..], path));
    }
  }

  /**
   * A folder plan holds each request of each folder under the target as often as the store lists it,
   * once when request ids are distinct, and no other request, even when parent links form cycles.
   */
  lemma FolderPlanIsExact(l: Listing, target: Id, prefix: seq<string>, r: Request)
    requires l.Distinct() && target in l.Ids()
    ensures multiset(Requests(Walk(l, target, prefix, {}).0))[r] ==
      if r.folder.Some? && Under(l, target, r.folder.value) then multiset(l.requests)[r] else 0
  {
    PlanIsPreorder(l, target, prefix);
    var n := TreeOf(l, target);
    FlattenHolds(l, n, prefix, r);
    if r.folder.Some? {
      var x := r.folder.value;
      if x in NodeIds(n) {
        NodeIsUnder(l, target, n, x);
      }
      if Under(l, target, x) {
        var k: nat :| Climb(l, x, k) == Some(target);
        UnderIsIn(l, target, n, x, k);
      }
    }
  }

  /** walkRoot: the loose requests, then each root folder's own walk. */
  ghost function WalkRoots(l: Listing, roots: seq<Folder>): seq<Planned>
  {
    if roots == [] then [] else Walk(l, roots[0].id, [], {}).0 + WalkRoots(l, roots[1..])
  }

  ghost function WalkRoot(l: Listing): seq<Planned>
  {
    Planning(LooseRequests(l), []) + WalkRoots(l, Children(l, ""))
  }

  ghost predicate UnderSome(l: Listing, roots: seq<Folder>, r: Request)
  {
    r.folder.Some? && exists f :: f in roots && Under(l, f.id, r.folder.value)
  }

  /** What the listing holds of the request, once for each of these roots that it is under. */
  ghost function ListedUnder(l: Listing, roots: seq<Folder>, r: Request): nat
  {
    if roots == [] then 0
    else
      (if r.folder.Some? && Under(l, roots[0].id, r.folder.value) then multiset(l.requests)[r] else 0) +
      ListedUnder(l, roots[1..], r)
  }

  /** How often a root's own walk plans the request, and how often the walks of all these roots do. */
  ghost function PlannedBy(l: Listing, root: Folder, r: Request): nat
  {
    multiset(Requests(Walk(l, root.id, [], {}).0))[r]
  }

  ghost function PlannedByAll(l: Listing, roots: seq<Folder>, r: Request): nat
  {
    if roots == [] then 0 else PlannedBy(l, roots[0], r) + PlannedByAll(l, roots[1..], r)
  }

  lemma {:induction false} WalksAddUp(l: Listing, roots: seq<Folder>, r: Request)
    ensures multiset(Requests(WalkRoots(l, roots)))[r] == PlannedByAll(l, roots, r)
    decreases |roots|
  {
    if roots != [] {
      var first, rest := Walk(l, roots[0].id, [], {}).0, WalkRoots(l, roots[1..]);
      assert WalkRoots(l, roots) == first + rest;
      RequestsAppend(first, rest);
      WalksAddUp(l, roots[1..], r);
    }
  }

  lemma RootHolds(l: Listing, f: Folder, r: Request)
    requires l.Distinct() && f in l.folders
    ensures PlannedBy(l, f, r) ==
      if r.folder.Some? && Under(l, f.id, r.folder.value) then multiset(l.requests)[r] else 0
  {
    FolderAtIs(l, f);
    FolderPlanIsExact(l, f.id, [], r);
  }

  lemma {:induction false} RootsHold(l: Listing, roots: seq<Folder>, r: Request)
    requires l.Distinct() && forall f :: f in roots ==> f in l.folders
    ensures PlannedByAll(l, roots, r) == ListedUnder(l, roots, r)
    decreases |roots|
  {
    if roots != [] {
      RootHolds(l, roots[0], r);
      RootsHold(l, roots[1..], r);
    }
  }

  lemma LooseHold(l: Listing, r: Request)
    ensures multiset(Requests(Planning(LooseRequests(l), [])))[r] ==
      if r.folder.None? then multiset(l.requests)[r] else 0
  {
    var p := InFolder(None);
    KeepIs(l.requests, p, r);
    SortBySorts(Keep(l.requests, p), RequestKey);
    assert Requests(Planning(LooseRequests(l), [])) == LooseRequests(l);
  }

  /** A workspace plan holds a loose request as listed, and any other once for each root folder it is under. */
  lemma WorkspacePlanIs(l: Listing, r: Request)
    requires l.Distinct()
    ensures multiset(Requests(WalkRoot(l)))[r] ==
      (if r.folder.None? then multiset(l.requests)[r] else 0) + ListedUnder(l, Children(l, ""), r)
  {
    var roots := Children(l, "");
    forall f | f in roots ensures f in l.folders {
      ChildrenAre(l, "", f);
    }
    RootsHold(l, roots, r);
    WalksAddUp(l, roots, r);
    LooseHold(l, r);
    RequestsAppend(Planning(LooseRequests(l), []), WalkRoots(l, roots));
  }

  /** The request is planned exactly as often as it is listed, if it is loose or under a root folder. */
  ghost predicate PlannedExactly(l: Listing, r: Request)
  {
    multiset(Requests(WalkRoot(l)))[r] ==
      if r.folder.None? || UnderSome(l, Children(l, ""), r) then multiset(l.requests)[r] else 0
  }

  /** No root folder is under another one. */
  ghost predicate RootsApart(l: Listing)
  {
    forall f, g :: f in Children(l, "") && g in Children(l, "") && f != g ==> !Under(l, f.id, g.id)
  }

  lemma RootsAre(l: Listing)
    requires l.Distinct()
    ensures DistinctIds(Children(l, ""))
    ensures forall f :: f in Children(l, "") ==>
      f in l.folders && ParentKey(f) == "" && f.id in l.Ids() && FolderAt(l, f.id) == f
  {
    var roots, p := Children(l, ""), FiledUnder("");
    forall f | f in roots
      ensures f in l.folders && ParentKey(f) == "" && f.id in l.Ids() && FolderAt(l, f.id) == f
    {
      ChildrenAre(l, "", f);
      FolderAtIs(l, f);
    }
    SortBySorts(Keep(l.folders, p), FolderKey);
    KeptDistinct(l, p, roots);
  }

  /** Of two folders above x one is above the other. */
  lemma OneAboveTheOther(l: Listing, a: Id, b: Id, x: Id)
    requires Under(l, a, x) && Under(l, b, x)
    ensures Under(l, a, b) || Under(l, b, a)
  {
    var i: nat :| Climb(l, x, i) == Some(a);
    var j: nat :| Climb(l, x, j) == Some(b);
    if i < j {
      ClimbSplit(l, x, i, j - i);
    } else {
      ClimbSplit(l, x, j, i - j);
    }
  }

  /** With roots apart a request is under one of them at most. */
  lemma {:induction false} ApartListsOnce(l: Listing, roots: seq<Folder>, r: Request)
    requires DistinctIds(roots) && forall f, g :: f in roots && g in roots && f != g ==> !Under(l, f.id, g.id)
    ensures ListedUnder(l, roots, r) == if UnderSome(l, roots, r) then multiset(l.requests)[r] else 0
    decreases |roots|
  {
    if roots != [] {
      var f, rest := roots[0], roots[1..];
      assert roots == [f] + rest;
      ApartListsOnce(l, rest, r);
      if r.folder.Some? && Under(l, f.id, r.folder.value) {
        NotUnderOthers(l, roots, r);
      }
    }
  }

  lemma NotUnderOthers(l: Listing, roots: seq<Folder>, r: Request)
    requires DistinctIds(roots) && forall f, g :: f in roots && g in roots && f != g ==> !Under(l, f.id, g.id)
    requires roots != [] && r.folder.Some? && Under(l, roots[0].id, r.folder.value)
    ensures !UnderSome(l, roots[1..], r)
  {
    var x := r.folder.value;
    forall j | 0 < j < |roots| ensures !Under(l, roots[j].id, x) {
      if Under(l, roots[j].id, x) {
        OneAboveTheOther(l, roots[0].id, roots[j].id, x);
      }
    }
  }

  lemma {:induction false} OneListsOnce(l: Listing, roots: seq<Folder>, f: Folder, r: Request)
    requires f in roots && r.folder.Some? && Under(l, f.id, r.folder.value)
    ensures ListedUnder(l, roots, r) >= multiset(l.requests)[r]
    decreases |roots|
  {
    if f != roots[0] {
      assert roots == [roots[0]] + roots[1..];
      OneListsOnce(l, roots[1..], f, r);
    }
  }

  lemma {:induction false} TwoListTwice(l: Listing, roots: seq<Folder>, f: Folder, g: Folder, r: Request)
    requires f in roots && g in roots && f != g && r.folder.Some?
    requires Under(l, f.id, r.folder.value) && Under(l, g.id, r.folder.value)
    ensures ListedUnder(l, roots, r) >= multiset(l.requests)[r] + multiset(l.requests)[r]
    decreases |roots|
  {
    assert roots == [roots[0]] + roots[1..];
    if f == roots[0] {
      OneListsOnce(l, roots[1..], g, r);
    } else if g == roots[0] {
      OneListsOnce(l, roots[1..], f, r);
    } else {
      TwoListTwice(l, roots[1..], f, g, r);
    }
  }

  lemma {:induction false} SameClimb(l: Listing, l': Listing, x: Id, k: nat)
    requires l.Distinct() && l'.folders == l.folders
    ensures Climb(l', x, k) == Climb(l, x, k)
    decreases k
  {
    if x in l.Ids() && k > 0 {
      var f :| f in l.folders && f.id == x;
      FolderAtIs(l, f);
      FolderAtIs(l', f);
      SameClimb(l, l', ParentKey(f), k - 1);
    }
  }

  lemma SameUnder(l: Listing, l': Listing, target: Id, x: Id)
    requires l.Distinct() && l'.folders == l.folders
    ensures Under(l', target, x) <==> Under(l, target, x)
  {
    forall k: nat ensures Climb(l', x, k) == Climb(l, x, k) {
      SameClimb(l, l', x, k);
    }
  }

  /** A workspace plan is exact, whatever requests are listed, exactly when no root folder is under another. */
  lemma WorkspacePlanIsExactIff(l: Listing)
    requires l.Distinct()
    ensures (forall rs, r :: PlannedExactly(l.(requests := rs), r)) <==> RootsApart(l)
  {
    RootsAre(l);
    if RootsApart(l) {
      forall rs, r ensures PlannedExactly(l.(requests := rs), r) {
        ApartIsExact(l, rs, r);
      }
    } else {
      var f, g :| f in Children(l, "") && g in Children(l, "") && f != g && Under(l, f.id, g.id);
      var r := Request("", Some(g.id), "", "");
      UnderAnotherIsTwice(l, f, g, r);
      assert !PlannedExactly(l.(requests := [r]), r);
    }
  }

  lemma ApartIsExact(l: Listing, rs: seq<Request>, r: Request)
    requires l.Distinct() && RootsApart(l)
    ensures PlannedExactly(l.(requests := rs), r)
  {
    var l' := l.(requests := rs);
    var roots := Children(l', "");
    WorkspacePlanIs(l', r);
    RootsAre(l');
    forall f, g | f in roots && g in roots && f != g ensures !Under(l', f.id, g.id) {
      SameUnder(l, l', f.id, g.id);
    }
    ApartListsOnce(l', roots, r);
  }

  /** A request in a root folder that is under another root is planned more often than it is listed. */
  lemma UnderAnotherIsTwice(l: Listing, f: Folder, g: Folder, r: Request)
    requires l.Distinct() && f in Children(l, "") && g in Children(l, "") && f != g && Under(l, f.id, g.id)
    requires r.folder == Some(g.id)
    ensures var l' := l.(requests := [r]); multiset(Requests(WalkRoot(l')))[r] >= 2 && !PlannedExactly(l', r)
  {
    var l' := l.(requests := [r]);
    RootsAre(l');
    SameUnder(l, l', f.id, g.id);
    assert Climb(l', g.id, 0) == Some(g.id);
    TwoListTwice(l', Children(l', ""), f, g, r);
    WorkspacePlanIs(l', r);
    assert multiset(l'.requests)[r] == 1;
  }

  /** So is any request in a root folder beside a root folder with the empty id. */
  lemma EmptyIdPlansTwice(root: Folder, other: Folder, r: Request)
    requires root.id == "" && other.id != "" && root.parent.None? && other.parent.None? && r.folder == Some(other.id)
    ensures multiset(Requests(WalkRoot(Listing([root, other], [r]))))[r] >= 2
  {
    var l := Listing([root, other], []);
    FolderAtIs(l, root);
    FolderAtIs(l, other);
    ChildrenAre(l, "", root);
    ChildrenAre(l, "", other);
    assert Climb(l, "", 0) == Some("") && Climb(l, other.id, 1) == Climb(l, "", 0);
    UnderAnotherIsTwice(l, root, other, r);
    assert l.(requests := [r]) == Listing([root, other], [r]);
  }

  /** In particular it is exact when no folder has the empty id that root folders are filed under. */
  lemma WorkspacePlanIsExact(l: Listing, r: Request)
    requires l.Distinct() && "" !in l.Ids()
    ensures PlannedExactly(l, r)
  {
    RootsAre(l);
    forall f, g | f in Children(l, "") && g in Children(l, "") && f != g ensures !Under(l, f.id, g.id) {
      forall k: nat ensures Climb(l, g.id, k) != Some(f.id) {
        assert k > 0 ==> Climb(l, g.id, k) == Climb(l, "", k - 1) == None;
      }
    }
    ApartIsExact(l, l.requests, r);
    assert l.(requests := l.requests) == l;
  }

  /** Distinct ids: each request listed is planned exactly once when it is planned at all. */
  lemma {:induction false} ListedRequestOnce(rs: seq<Request>, r: Request)
    requires forall i, j :: 0 <= i < j < |rs| ==> rs[i].id != rs[j].id
    ensures multiset(rs)[r] == if r in rs then 1 else 0
    decreases |rs|
  {
    if rs != [] {
      ListedRequestOnce(rs[1..], r);
      assert rs == [rs[0]] + rs[1..];
      assert r in rs[1..] ==> r != rs[0];
    }
  }

  // ---- The index and the walk that marks a shared set -----------------------

  class Seen {
    var ids: set<Id>

    constructor ()
      ensures ids == {}
    {
      ids := {};
    }
  }

  function At<T>(m: map<Id, seq<T>>, id: Id): seq<T>
  {
    if id in m then m[id] else []
  }

  class Tree {
    var folders: map<Id, Folder>
    var children: map<Id, seq<Folder>>
    var requests: map<Id, seq<Request>>
    var rootReqs: seq<Request>

    ghost predicate Indexes(l: Listing)
      reads this
    {
      l.Distinct() && folders.Keys == l.Ids() && rootReqs == LooseRequests(l) &&
      (forall id :: id in folders ==> folders[id] == FolderAt(l, id)) &&
      (forall id :: At(children, id) == Children(l, id)) &&
      forall id :: At(requests, id) == RequestsIn(l, id)
    }

    constructor (l: Listing)
      requires l.Distinct()
      ensures Indexes(l)
    {
      folders, children, requests, rootReqs := map[], map[], map[], [];
      new;
      AddFolders(l);
      AddRequests(l);
      SortAll(l);
    }

    method AddFolders(l: Listing)
      requires l.Distinct() && folders == map[] && children == map[]
      modifies this`folders, this`children
      ensures folders.Keys == l.Ids() && forall id :: id in folders ==> folders[id] == FolderAt(l, id)
      ensures forall id :: At(children, id) == Keep(l.folders, FiledUnder(id))
    {
      for i := 0 to |l.folders|
        invariant folders.Keys == IdsOf(l.folders[..i])
        invariant forall id :: id in folders ==> folders[id] in l.folders && folders[id].id == id
        invariant forall id :: At(children, id) == Keep(l.folders[..i], FiledUnder(id))
      {
        var f := l.folders[i];
        IdsOfNext(l.folders, i);
        forall id ensures Keep(l.folders[..i + 1], FiledUnder(id)) ==
          Keep(l.folders[..i], FiledUnder(id)) + if ParentKey(f) == id then [f] else []
        {
          KeepNext(l.folders, i, FiledUnder(id));
        }
        folders := folders[f.id := f];
        children := children[ParentKey(f) := At(children, ParentKey(f)) + [f]];
      }
      assert l.folders[..|l.folders|] == l.folders;
      forall id | id in folders ensures folders[id] == FolderAt(l, id) {
        FolderAtIs(l, folders[id]);
      }
    }

    method AddRequests(l: Listing)
      requires requests == map[] && rootReqs == []
      modifies this`requests, this`rootReqs
      ensures rootReqs == Keep(l.requests, InFolder(None))
      ensures forall id :: At(requests, id) == Keep(l.requests, InFolder(Some(id)))
    {
      for i := 0 to |l.requests|
        invariant rootReqs == Keep(l.requests[..i], InFolder(None))
        invariant forall id :: At(requests, id) == Keep(l.requests[..i], InFolder(Some(id)))
      {
        var r := l.requests[i];
        forall folder ensures Keep(l.requests[..i + 1], InFolder(folder)) ==
          Keep(l.requests[..i], InFolder(folder)) + if r.folder == folder then [r] else []
        {
          KeepNext(l.requests, i, InFolder(folder));
        }
        if r.folder.None? {
          rootReqs := rootReqs + [r];
        } else {
          requests := requests[r.folder.value := At(requests, r.folder.value) + [r]];
        }
      }
      assert l.requests[..|l.requests|] == l.requests;
    }

    method SortAll(l: Listing)
      requires l.Distinct() && folders.Keys == l.Ids() && forall id :: id in folders ==> folders[id] == FolderAt(l, id)
      requires forall id :: At(children, id) == Keep(l.folders, FiledUnder(id))
      requires forall id :: At(requests, id) == Keep(l.requests, InFolder(Some(id)))
      requires rootReqs == Keep(l.requests, InFolder(None))
      modifies this`children, this`requests, this`rootReqs
      ensures Indexes(l)
    {
      children := SortEntries(children, FolderKey);
      requests := SortEntries(requests, RequestKey);
      rootReqs := SortBy(rootReqs, RequestKey);
    }

    static method SortEntries<T>(m: map<Id, seq<T>>, key: T -> SortKey) returns (sorted: map<Id, seq<T>>)
      ensures forall id :: At(sorted, id) == SortBy(At(m, id), key)
    {
      sorted := m;
      var left := m.Keys;
      while left != {}
        invariant left <= m.Keys == sorted.Keys
        invariant forall id :: id in m ==> sorted[id] == if id in left then m[id] else SortBy(m[id], key)
        decreases left
      {
        var id :| id in left;
        sorted := sorted[id := SortBy(sorted[id], key)];
        left := left - {id};
      }
    }

    method WalkFrom(ghost l: Listing, id: Id, prefix: seq<string>, seen: Seen) returns (out: seq<Planned>)
      requires Indexes(l)
      modifies seen
      ensures (out, seen.ids) == Walk(l, id, prefix, old(seen.ids))
      decreases l.Ids() - seen.ids, 0
    {
      if id in seen.ids {
        return [];
      }
      seen.ids := seen.ids + {id};
      if id !in folders {
        return [];
      }
      assert id in l.Ids() - old(seen.ids);
      var path := prefix + [folders[id].name];
      var below := WalkKids(l, At(children, id), path, seen);
      out := Planning(At(requests, id), path) + below;
    }

    method WalkKids(ghost l: Listing, kids: seq<Folder>, path: seq<string>, seen: Seen) returns (out: seq<Planned>)
      requires Indexes(l)
      modifies seen
      ensures (out, seen.ids) == WalkAll(l, kids, path, old(seen.ids))
      decreases l.Ids() - seen.ids, 1
    {
      out := [];
      ghost var before := seen.ids;
      ghost var whole := WalkAll(l, kids, path, before);
      assert kids[0..] == kids && [] + whole.0 == whole.0;
      for i := 0 to |kids|
        invariant before <= seen.ids
        invariant Resumes(whole, out, WalkAll(l, kids[i..], path, seen.ids))
      {
        assert kids[i..][0] == kids[i] && kids[i..][1..] == kids[i + 1..];
        assert l.Ids() - seen.ids <= l.Ids() - before;
        var first := WalkFrom(l, kids[i].id, path, seen);
        ResumesNext(whole, out, first, WalkAll(l, kids[i + 1..], path, seen.ids));
        out := out + first;
      }
      assert kids[|kids|..] == [] && out + [] == out;
    }
  }

  /** A walk that has produced `out` so far and continues with `rest`. */
  ghost predicate Resumes(whole: (seq<Planned>, set<Id>), out: seq<Planned>, rest: (seq<Planned>, set<Id>))
  {
    whole == (out + rest.0, rest.1)
  }

  lemma ResumesNext(whole: (seq<Planned>, set<Id>), out: seq<Planned>, first: seq<Planned>, rest: (seq<Planned>, set<Id>))
    requires Resumes(whole, out, (first + rest.0, rest.1))
    ensures Resumes(whole, out + first, rest)
  {
    assert out + (first + rest.0) == (out + first) + rest.0;
  }
}
