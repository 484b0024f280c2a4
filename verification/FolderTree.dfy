/** The store's folder tree, and the cascading delete of a folder. */
module FolderTree {
  import opened Common

  type Id = string

  datatype Folder = Folder(name: string, parent: Option<Id>)

  datatype Request = Request(name: string, folder: Option<Id>)

  /** The in-memory maps a delete touches. */
  datatype Files = Files(folders: map<Id, Folder>, requests: map<Id, Request>, lastResponses: map<Id, string>)

  /** The folder n parent links above x. */
  function Climb(folders: map<Id, Folder>, x: Id, n: nat): Option<Id>
    decreases n
  {
    if n == 0 then Some(x)
    else if x in folders && folders[x].parent.Some? then Climb(folders, folders[x].parent.value, n - 1)
    else None
  }

  ghost predicate Reaches(folders: map<Id, Folder>, x: Id, id: Id)
  {
    exists n: nat :: Climb(folders, x, n) == Some(id)
  }

  /** The folder and every folder nested in it. */
  ghost function Subtree(folders: map<Id, Folder>, id: Id): set<Id>
  {
    set x | x in folders && Reaches(folders, x, id)
  }

  function Children(folders: map<Id, Folder>, id: Id): set<Id>
  {
    set x | x in folders && folders[x].parent == Some(id)
  }

  function HeldBy(requests: map<Id, Request>, id: Id): set<Id>
  {
    set r | r in requests && requests[r].folder == Some(id)
  }

  ghost function RequestsUnder(f: Files, id: Id): set<Id>
  {
    set r | r in f.requests && f.requests[r].folder.Some? && f.requests[r].folder.value in Subtree(f.folders, id)
  }

  /** Parent links lead from the folder back to itself. */
  ghost predicate OnCycle(folders: map<Id, Folder>, id: Id)
  {
    exists n: nat :: n > 0 && Climb(folders, id, n) == Some(id)
  }

  function Gone(b: Files, a: Files): set<Id>
  {
    b.folders.Keys - a.folders.Keys
  }

  function GoneRequests(b: Files, a: Files): set<Id>
  {
    b.requests.Keys - a.requests.Keys
  }

  /**
   * a is b with some folders and requests taken out: the rest is unchanged, the cached responses of
   * exactly the requests taken out are gone, and nothing left points at a folder taken out.
   */
  ghost predicate Pruned(b: Files, a: Files)
  {
    a.folders == b.folders - Gone(b, a) && a.requests == b.requests - GoneRequests(b, a) &&
    a.lastResponses == b.lastResponses - GoneRequests(b, a) &&
    (forall x :: x in a.folders && a.folders[x].parent.Some? ==> a.folders[x].parent.value !in Gone(b, a)) &&
    forall r :: r in a.requests && a.requests[r].folder.Some? ==> a.requests[r].folder.value !in Gone(b, a)
  }

  /** The files the operating system will not remove. */
  datatype Stuck = Stuck(folders: set<Id>, requests: set<Id>)

  ghost predicate Removable(f: Files, id: Id, stuck: Stuck)
  {
    Subtree(f.folders, id) !! stuck.folders && RequestsUnder(f, id) !! stuck.requests
  }

  /** What a cascading delete may leave behind, and what it does leave when it succeeds. */
  ghost predicate Deleted(b: Files, a: Files, id: Id, stuck: Stuck, ok: bool)
  {
    Pruned(b, a) && Gone(b, a) <= Subtree(b.folders, id) && GoneRequests(b, a) <= RequestsUnder(b, id) &&
    (ok <==> Removable(b, id, stuck)) &&
    (ok ==> Gone(b, a) == Subtree(b.folders, id) && GoneRequests(b, a) == RequestsUnder(b, id)) &&
    (!ok ==> id in a.folders)
  }

  // ---- Climbing -------------------------------------------------------------

  lemma {:induction false} ClimbAdds(folders: map<Id, Folder>, x: Id, n: nat, y: Id, m: nat)
    requires Climb(folders, x, n) == Some(y)
    ensures Climb(folders, x, n + m) == Climb(folders, y, m)
    decreases n
  {
    if n > 0 {
      ClimbAdds(folders, folders[x].parent.value, n - 1, y, m);
    }
  }

  /** The last link of a climb, seen from its end. */
  lemma {:induction false} LastStep(folders: map<Id, Folder>, x: Id, n: nat, id: Id) returns (c: Id)
    requires n > 0 && Climb(folders, x, n) == Some(id)
    ensures c in Children(folders, id) && Climb(folders, x, n - 1) == Some(c)
    decreases n
  {
    if n == 1 {
      c := x;
    } else {
      c := LastStep(folders, folders[x].parent.value, n - 1, id);
    }
  }

  lemma ChildReaches(folders: map<Id, Folder>, id: Id, c: Id, x: Id)
    requires c in Children(folders, id) && Reaches(folders, x, c)
    ensures Reaches(folders, x, id)
  {
    var n: nat :| Climb(folders, x, n) == Some(c);
    ClimbAdds(folders, x, n, c, 1);
    assert Climb(folders, c, 1) == Climb(folders, id, 0);
  }

  /** A subtree is its folder and its children's subtrees. */
  lemma SubtreeIs(folders: map<Id, Folder>, id: Id, x: Id)
    requires id in folders && x in folders
    ensures x in Subtree(folders, id) <==>
      x == id || exists c :: c in Children(folders, id) && x in Subtree(folders, c)
  {
    assert Climb(folders, id, 0) == Some(id);
    if x != id && Reaches(folders, x, id) {
      var n: nat :| Climb(folders, x, n) == Some(id);
      var c := LastStep(folders, x, n, id);
      assert x in Subtree(folders, c);
    }
    forall c | c in Children(folders, id) && x in Subtree(folders, c) ensures Reaches(folders, x, id) {
      ChildReaches(folders, id, c, x);
    }
  }

  lemma BackToItself(folders: map<Id, Folder>, id: Id, c: Id, n: nat)
    requires c in Children(folders, id) && Climb(folders, id, n) == Some(c)
    ensures OnCycle(folders, id)
  {
    ClimbAdds(folders, id, n, c, 1);
    assert Climb(folders, c, 1) == Climb(folders, id, 0);
    assert Climb(folders, id, n + 1) == Some(id);
  }

  /** Off a cycle, no child's subtree holds the folder itself, and no child is on a cycle. */
  lemma ChildIsBelow(folders: map<Id, Folder>, id: Id, c: Id)
    requires c in Children(folders, id) && id in folders && !OnCycle(folders, id)
    ensures id !in Subtree(folders, c) && Subtree(folders, c) < Subtree(folders, id) && !OnCycle(folders, c)
  {
    forall n: nat ensures Climb(folders, id, n) != Some(c) {
      if Climb(folders, id, n) == Some(c) {
        BackToItself(folders, id, c, n);
      }
    }
    forall n: nat | n > 0 ensures Climb(folders, c, n) != Some(c) {
      assert Climb(folders, c, n) == Climb(folders, id, n - 1);
    }
    forall x | x in Subtree(folders, c) ensures x in Subtree(folders, id) {
      ChildReaches(folders, id, c, x);
    }
    SubtreeIs(folders, id, id);
  }

  /** Off a cycle, the subtrees of two children share no folder. */
  lemma ChildrenShareNothing(folders: map<Id, Folder>, id: Id, c: Id, d: Id, x: Id)
    requires c in Children(folders, id) && d in Children(folders, id) && c != d && !OnCycle(folders, id)
    ensures !(Reaches(folders, x, c) && Reaches(folders, x, d))
  {
    if Reaches(folders, x, c) && Reaches(folders, x, d) {
      var n: nat :| Climb(folders, x, n) == Some(c);
      var m: nat :| Climb(folders, x, m) == Some(d);
      if n < m {
        ClimbAdds(folders, x, n, c, m - n);
        BackToItself(folders, id, d, m - n - 1);
      } else {
        ClimbAdds(folders, x, m, d, n - m);
        assert n == m ==> c == d;
        BackToItself(folders, id, c, n - m - 1);
      }
    }
  }

  /** On a cycle the recursion would come back to the same subtree: nothing gets smaller. */
  lemma CycleNeverShrinks(folders: map<Id, Folder>, id: Id) returns (c: Id)
    requires OnCycle(folders, id)
    ensures c in Children(folders, id) && OnCycle(folders, c) && Subtree(folders, c) == Subtree(folders, id)
  {
    var n: nat :| n > 0 && Climb(folders, id, n) == Some(id);
    c := LastStep(folders, id, n, id);
    ClimbAdds(folders, c, 1, id, n - 1);
    assert Climb(folders, c, 1) == Climb(folders, id, 0);
    assert Climb(folders, c, n) == Some(c);
    forall x | x in folders ensures Reaches(folders, x, c) <==> Reaches(folders, x, id) {
      if Reaches(folders, x, id) {
        var m: nat :| Climb(folders, x, m) == Some(id);
        ClimbAdds(folders, x, m, id, n - 1);
        assert Climb(folders, x, m + (n - 1)) == Some(c);
      } else if Reaches(folders, x, c) {
        ChildReaches(folders, id, c, x);
      }
    }
  }

  /** A delete of the folder can be n calls deep: each call on a stored folder calls itself on a child. */
  ghost predicate Descends(folders: map<Id, Folder>, id: Id, n: nat)
    decreases n
  {
    n == 0 || (id in folders && exists c :: c in Children(folders, id) && Descends(folders, c, n - 1))
  }

  lemma {:induction false} CycleDescends(folders: map<Id, Folder>, id: Id, n: nat)
    requires OnCycle(folders, id)
    ensures Descends(folders, id, n)
    decreases n
  {
    if n > 0 {
      var m: nat :| m > 0 && Climb(folders, id, m) == Some(id);
      var c := CycleNeverShrinks(folders, id);
      CycleDescends(folders, c, n - 1);
    }
  }

  /** Off a cycle no chain of calls is longer than the subtree is large. */
  lemma {:induction false} DepthIsBounded(folders: map<Id, Folder>, id: Id, n: nat)
    requires !OnCycle(folders, id) && Descends(folders, id, n)
    ensures n <= |Subtree(folders, id)|
    decreases n
  {
    if n > 0 {
      var c :| c in Children(folders, id) && Descends(folders, c, n - 1);
      ChildIsBelow(folders, id, c);
      DepthIsBounded(folders, c, n - 1);
      SubsetSize(Subtree(folders, c), Subtree(folders, id));
    }
  }

  /** The recursion of a delete has no bound on its depth exactly when the folder is its own ancestor. */
  lemma EndlessIffOnCycle(folders: map<Id, Folder>, id: Id)
    ensures (forall n: nat :: Descends(folders, id, n)) <==> OnCycle(folders, id)
  {
    if OnCycle(folders, id) {
      forall n: nat ensures Descends(folders, id, n) {
        CycleDescends(folders, id, n);
      }
    } else {
      var n: nat := |Subtree(folders, id)| + 1;
      assert !Descends(folders, id, n) by {
        if Descends(folders, id, n) {
          DepthIsBounded(folders, id, n);
        }
      }
    }
  }

  // ---- Pruning --------------------------------------------------------------

  lemma PrunedTwice(b: Files, a: Files, c: Files)
    requires Pruned(b, a) && Pruned(a, c)
    ensures Pruned(b, c) && Gone(b, c) == Gone(b, a) + Gone(a, c)
    ensures GoneRequests(b, c) == GoneRequests(b, a) + GoneRequests(a, c)
  {
  }

  /** Climbs from a surviving folder are the climbs there were. */
  lemma {:induction false} SameClimb(b: Files, a: Files, x: Id, n: nat)
    requires Pruned(b, a) && x !in Gone(b, a)
    ensures Climb(a.folders, x, n) == Climb(b.folders, x, n)
    decreases n
  {
    if n > 0 && x in b.folders && b.folders[x].parent.Some? {
      SameClimb(b, a, b.folders[x].parent.value, n - 1);
    }
  }

  /** A subtree after pruning is what is left of it. */
  lemma SubtreeLeft(b: Files, a: Files, id: Id)
    requires Pruned(b, a)
    ensures Subtree(a.folders, id) == Subtree(b.folders, id) - Gone(b, a)
  {
    forall x | x in a.folders ensures Reaches(a.folders, x, id) <==> Reaches(b.folders, x, id) {
      forall n: nat ensures Climb(a.folders, x, n) == Climb(b.folders, x, n) {
        SameClimb(b, a, x, n);
      }
    }
  }

  lemma StillOffCycle(b: Files, a: Files, id: Id)
    requires Pruned(b, a) && id !in Gone(b, a) && !OnCycle(b.folders, id)
    ensures !OnCycle(a.folders, id)
  {
    forall n: nat ensures Climb(a.folders, id, n) == Climb(b.folders, id, n) {
      SameClimb(b, a, id, n);
    }
  }

  ghost predicate Linked(f: Files)
  {
    (forall x :: x in f.folders && f.folders[x].parent.Some? ==> f.folders[x].parent.value in f.folders) &&
    forall r :: r in f.requests && f.requests[r].folder.Some? ==> f.requests[r].folder.value in f.folders
  }

  /** A delete, finished or broken off, never leaves a dangling link where there was none. */
  lemma DeleteKeepsLinks(b: Files, a: Files, id: Id, stuck: Stuck, ok: bool)
    requires Linked(b) && Deleted(b, a, id, stuck, ok)
    ensures Linked(a)
  {
  }

  /** A delete broken off can be taken up again: what is left to remove is what was not removed. */
  lemma RetryFinishes(b: Files, a: Files, c: Files, id: Id, stuck: Stuck, later: Stuck)
    requires Deleted(b, a, id, stuck, false) && Deleted(a, c, id, later, true)
    ensures Pruned(b, c) && Gone(b, c) == Subtree(b.folders, id) && GoneRequests(b, c) == RequestsUnder(b, id)
  {
    PrunedTwice(b, a, c);
    SubtreeLeft(b, a, id);
    assert forall r :: r in a.requests ==> (r in RequestsUnder(a, id) <==> r in RequestsUnder(b, id));
  }

  // ---- The delete -----------------------------------------------------------

  /** The children deleted so far, and nothing else. */
  ghost predicate Clearing(b: Files, a: Files, kids: set<Id>, stuck: Stuck)
  {
    Pruned(b, a) && Gone(b, a) !! stuck.folders && GoneRequests(b, a) !! stuck.requests &&
    (forall x :: x in Gone(b, a) <==> exists c :: c in kids && x in Subtree(b.folders, c)) &&
    forall r :: r in GoneRequests(b, a) <==>
      r in b.requests && b.requests[r].folder.Some? && b.requests[r].folder.value in Gone(b, a)
  }

  lemma KidWhole(b: Files, a: Files, id: Id, done: set<Id>, c: Id, stuck: Stuck)
    requires id in b.folders && !OnCycle(b.folders, id)
    requires Clearing(b, a, done, stuck) && done <= Children(b.folders, id) && c in Children(b.folders, id) - done
    ensures c in a.folders && !OnCycle(a.folders, c) && Subtree(a.folders, c) == Subtree(b.folders, c)
    ensures RequestsUnder(a, c) == RequestsUnder(b, c) && id in a.folders
  {
    forall x | x in Subtree(b.folders, c) ensures x !in Gone(b, a) {
      forall d | d in done ensures x !in Subtree(b.folders, d) {
        ChildrenShareNothing(b.folders, id, c, d, x);
      }
    }
    forall d | d in done ensures id !in Subtree(b.folders, d) {
      ChildIsBelow(b.folders, id, d);
    }
    assert Climb(b.folders, c, 0) == Some(c);
    ChildIsBelow(b.folders, id, c);
    SubtreeLeft(b, a, c);
    StillOffCycle(b, a, c);
  }

  lemma ClearingNext(b: Files, a: Files, a': Files, id: Id, done: set<Id>, c: Id, stuck: Stuck)
    requires id in b.folders && !OnCycle(b.folders, id)
    requires Clearing(b, a, done, stuck) && done <= Children(b.folders, id) && c in Children(b.folders, id) - done
    requires Deleted(a, a', c, stuck, true)
    ensures Clearing(b, a', done + {c}, stuck)
  {
    KidWhole(b, a, id, done, c, stuck);
    PrunedTwice(b, a, a');
  }

  /** A child that cannot be deleted breaks the delete off. */
  lemma BrokenOff(b: Files, a: Files, a': Files, id: Id, done: set<Id>, c: Id, stuck: Stuck)
    requires id in b.folders && !OnCycle(b.folders, id)
    requires Clearing(b, a, done, stuck) && done <= Children(b.folders, id) && c in Children(b.folders, id) - done
    requires Deleted(a, a', c, stuck, false)
    ensures Deleted(b, a', id, stuck, false)
  {
    KidWhole(b, a, id, done, c, stuck);
    PrunedTwice(b, a, a');
    forall d | d in done + {c} ensures Subtree(b.folders, d) < Subtree(b.folders, id) && id !in Subtree(b.folders, d) {
      ChildIsBelow(b.folders, id, d);
    }
  }

  lemma KidsCleared(b: Files, a: Files, id: Id, stuck: Stuck)
    requires id in b.folders && !OnCycle(b.folders, id) && Clearing(b, a, Children(b.folders, id), stuck)
    ensures id in a.folders && Gone(b, a) == Subtree(b.folders, id) - {id}
    ensures RequestsUnder(b, id) == GoneRequests(b, a) + HeldBy(a.requests, id)
  {
    forall c | c in Children(b.folders, id) ensures id !in Subtree(b.folders, c) {
      ChildIsBelow(b.folders, id, c);
    }
    forall x | x in b.folders
      ensures x in Subtree(b.folders, id) <==>
        x == id || exists c :: c in Children(b.folders, id) && x in Subtree(b.folders, c)
    {
      SubtreeIs(b.folders, id, x);
    }
  }

  /** Requests of one folder deleted so far. */
  ghost predicate Emptied(a: Files, c: Files, id: Id, done: set<Id>, stuck: Stuck)
  {
    done <= HeldBy(a.requests, id) && done !! stuck.requests &&
    c == Files(a.folders, a.requests - done, a.lastResponses - done)
  }

  lemma EmptiedPrunes(a: Files, c: Files, id: Id, done: set<Id>, stuck: Stuck)
    requires Emptied(a, c, id, done, stuck)
    ensures c.folders == a.folders && Gone(a, c) == {} && GoneRequests(a, c) == done && Pruned(a, c)
  {
  }

  lemma StuckInFolder(b: Files, a: Files, c: Files, id: Id, done: set<Id>, stuck: Stuck)
    requires id in b.folders && !OnCycle(b.folders, id)
    requires Clearing(b, a, Children(b.folders, id), stuck) && Emptied(a, c, id, done, stuck)
    requires id in stuck.folders || exists r :: r in HeldBy(a.requests, id) && r in stuck.requests
    ensures Deleted(b, c, id, stuck, false)
  {
    KidsCleared(b, a, id, stuck);
    assert Climb(b.folders, id, 0) == Some(id);
    PrunedTwice(b, a, c);
  }

  /** With the children cleared and the held requests gone, the folder itself can go. */
  lemma FolderIsEmpty(b: Files, a: Files, c: Files, id: Id, stuck: Stuck)
    requires id in b.folders && Clearing(b, a, Children(b.folders, id), stuck)
    requires Emptied(a, c, id, HeldBy(a.requests, id), stuck)
    ensures Pruned(c, c.(folders := c.folders - {id}))
  {
    var d := c.(folders := c.folders - {id});
    forall x | x in d.folders && d.folders[x].parent.Some? ensures d.folders[x].parent.value !in Gone(c, d) {
      assert Climb(b.folders, x, 0) == Some(x);
      assert x in Subtree(b.folders, x) && x !in Children(b.folders, id);
    }
  }

  lemma AllDeleted(b: Files, a: Files, c: Files, id: Id, stuck: Stuck)
    requires id in b.folders && !OnCycle(b.folders, id) && id !in stuck.folders
    requires Clearing(b, a, Children(b.folders, id), stuck)
    requires Emptied(a, c, id, HeldBy(a.requests, id), stuck)
    ensures Deleted(b, c.(folders := c.folders - {id}), id, stuck, true)
  {
    var d := c.(folders := c.folders - {id});
    assert id in a.folders && Gone(b, d) == Subtree(b.folders, id) && GoneRequests(b, d) == RequestsUnder(b, id)
      && Pruned(b, d) by {
      KidsCleared(b, a, id, stuck);
      assert Climb(b.folders, id, 0) == Some(id);
      FolderIsEmpty(b, a, c, id, stuck);
      EmptiedPrunes(a, c, id, HeldBy(a.requests, id), stuck);
      PrunedTwice(b, a, c);
      PrunedTwice(b, c, d);
    }
    KidsCleared(b, a, id, stuck);
  }

  function Among(ids: seq<Id>): set<Id>
  {
    set x | x in ids
  }

  class FileStore {
    var folders: map<Id, Folder>
    var requests: map<Id, Request>
    var lastResponses: map<Id, string>

    function Contents(): Files
      reads this
    {
      Files(folders, requests, lastResponses)
    }

    /** removeRequestLocked: an unknown id is no error. */
    method RemoveRequest(id: Id, stuck: Stuck) returns (ok: bool)
      modifies this
      ensures ok <==> id !in old(requests) || id !in stuck.requests
      ensures ok ==> Contents() == Files(old(folders), old(requests) - {id},
        if id in old(requests) then old(lastResponses) - {id} else old(lastResponses))
      ensures !ok ==> Contents() == old(Contents())
    {
      if id !in requests {
        return true;
      }
      if id in stuck.requests {
        return false;
      }
      requests := requests - {id};
      lastResponses := lastResponses - {id};
      return true;
    }

    /** The children, in whatever order the map gives them. */
    method ChildFolders(id: Id) returns (kids: seq<Id>)
      ensures forall c :: c in kids <==> c in Children(folders, id)
      ensures forall i, j :: 0 <= i < j < |kids| ==> kids[i] != kids[j]
    {
      kids := [];
      var left := folders.Keys;
      while left != {}
        invariant left <= folders.Keys && (forall c :: c in kids <==> c in Children(folders, id) - left)
        invariant forall i, j :: 0 <= i < j < |kids| ==> kids[i] != kids[j]
        decreases left
      {
        var f :| f in left;
        assert forall j :: 0 <= j < |kids| ==> kids[j] in kids;
        left := left - {f};
        if folders[f].parent == Some(id) {
          kids := kids + [f];
        }
      }
    }

    method ChildRequests(id: Id) returns (held: seq<Id>)
      ensures forall r :: r in held <==> r in HeldBy(requests, id)
      ensures forall i, j :: 0 <= i < j < |held| ==> held[i] != held[j]
    {
      held := [];
      var left := requests.Keys;
      while left != {}
        invariant left <= requests.Keys && (forall r :: r in held <==> r in HeldBy(requests, id) - left)
        invariant forall i, j :: 0 <= i < j < |held| ==> held[i] != held[j]
        decreases left
      {
        var r :| r in left;
        assert forall j :: 0 <= j < |held| ==> held[j] in held;
        left := left - {r};
        if requests[r].folder == Some(id) {
          held := held + [r];
        }
      }
    }

    /** removeFolderLocked. */
    method RemoveFolder(id: Id, stuck: Stuck) returns (ok: bool)
      requires !OnCycle(folders, id)
      modifies this
      ensures id in old(folders) ==> Deleted(old(Contents()), Contents(), id, stuck, ok)
      ensures id !in old(folders) ==> ok && Contents() == old(Contents())
      decreases Subtree(folders, id), 2
    {
      if id !in folders {
        return true;
      }
      ghost var b := Contents();
      ok := RemoveChildren(id, stuck);
      if !ok {
        return;
      }
      ghost var a := Contents();
      KidsCleared(b, a, id, stuck);
      ok := RemoveHeld(id, stuck);
      ghost var c := Contents();
      if !ok || id in stuck.folders {
        ghost var done := a.requests.Keys - c.requests.Keys;
        StuckInFolder(b, a, c, id, done, stuck);
        return false;
      }
      AllDeleted(b, a, c, id, stuck);
      folders := folders - {id};
    }

    method RemoveChildren(id: Id, stuck: Stuck) returns (ok: bool)
      requires id in folders && !OnCycle(folders, id)
      modifies this
      ensures ok ==> Clearing(old(Contents()), Contents(), Children(old(folders), id), stuck)
      ensures !ok ==> Deleted(old(Contents()), Contents(), id, stuck, false)
      decreases Subtree(folders, id), 1
    {
      ghost var b := Contents();
      var kids := ChildFolders(id);
      for i := 0 to |kids|
        invariant b == old(Contents())
        invariant Clearing(b, Contents(), Among(kids[..i]), stuck)
      {
        ghost var a, done := Contents(), Among(kids[..i]);
        KidWhole(b, a, id, done, kids[i], stuck);
        ChildIsBelow(b.folders, id, kids[i]);
        ok := RemoveFolder(kids[i], stuck);
        if !ok {
          BrokenOff(b, a, Contents(), id, done, kids[i], stuck);
          return;
        }
        ClearingNext(b, a, Contents(), id, done, kids[i], stuck);
        assert Among(kids[..i + 1]) == done + {kids[i]};
      }
      assert Among(kids[..|kids|]) == Children(b.folders, id);
      ok := true;
    }

    method RemoveHeld(id: Id, stuck: Stuck) returns (ok: bool)
      modifies this
      ensures var done := old(requests).Keys - requests.Keys;
        Emptied(old(Contents()), Contents(), id, done, stuck) &&
        (if ok then done == HeldBy(old(requests), id)
         else exists r :: r in HeldBy(old(requests), id) && r in stuck.requests)
    {
      ghost var a := Contents();
      var held := ChildRequests(id);
      for i := 0 to |held|
        invariant a == old(Contents()) && Emptied(a, Contents(), id, Among(held[..i]), stuck)
      {
        ghost var done := Among(held[..i]);
        ok := RemoveRequest(held[i], stuck);
        if !ok {
          assert a.requests.Keys - requests.Keys == done;
          return;
        }
        assert Among(held[..i + 1]) == done + {held[i]};
      }
      assert Among(held[..|held|]) == HeldBy(a.requests, id);
      assert a.requests.Keys - requests.Keys == HeldBy(a.requests, id);
      ok := true;
    }
  }
}
