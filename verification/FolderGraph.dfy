/** The parent pointers of the folder table as a graph. The three upward walks of the service
    visit the same trail of folders; the trail, reachability by parent steps and the
    descendant fixpoint are shown to agree on every graph, cyclic or not. */
module FolderGraph {
  import opened Prelude
  import opened Entities

  type Folders = map<string, Folder>

  function Parent(folders: Folders, id: string): (p: Option<string>) {
    if id in folders then folders[id].parentID else None
  }

  /** The folder `n` parent steps above `id`. */
  ghost function Up(folders: Folders, id: string, n: nat): (r: Option<string>)
    decreases n
  {
    if n == 0 then Some(id)
    else match Parent(folders, id)
      case None => None
      case Some(p) => Up(folders, p, n - 1)
  }

  ghost predicate Reaches(folders: Folders, source: string, target: string) {
    exists n: nat :: Up(folders, source, n) == Some(target)
  }

  /** The identifiers an upward walk visits before it stops: at a root, at a missing folder, at
      an empty identifier, or at a folder it has seen. */
  function Trail(folders: Folders, id: string, seen: set<string>): (t: seq<string>)
    decreases folders.Keys - seen
  {
    if id == "" || id in seen then []
    else match Parent(folders, id)
      case None => [id]
      case Some(p) => [id] + Trail(folders, p, seen + {id})
  }

  /** `folderHasAncestor`: a folder counts as its own ancestor. */
  predicate HasAncestor(folders: Folders, id: string, ancestor: string) {
    ancestor in Trail(folders, id, {})
  }

  /** `folderHasSystemRoleAncestor`. */
  predicate HasRoleAncestor(folders: Folders, id: string, role: string) {
    exists g | g in Trail(folders, id, {}) :: g in folders && folders[g].systemRole == Some(role)
  }

  // ----- Reachability and the trail -----

  lemma {:induction false} UpCompose(folders: Folders, id: string, m: nat, n: nat)
    ensures Up(folders, id, m + n) ==
            match Up(folders, id, m) { case None => None case Some(g) => Up(folders, g, n) }
    decreases m
  {
    if m > 0 {
      match Parent(folders, id) {
        case None =>
        case Some(p) => UpCompose(folders, p, m - 1, n);
      }
    }
  }

  ghost predicate SimplePath(folders: Folders, id: string, n: nat, seen: set<string>) {
    && (forall i: nat | i <= n :: Up(folders, id, i).Some? && Up(folders, id, i).value !in seen)
    && (forall i: nat, j: nat | i < j <= n :: Up(folders, id, i) != Up(folders, id, j))
  }

  /** No empty identifier within `n` steps. */
  ghost predicate Clear(folders: Folders, id: string, n: nat) {
    forall i: nat | i <= n :: Up(folders, id, i) != Some("")
  }

  ghost predicate ReachesClear(folders: Folders, source: string, target: string) {
    exists n: nat :: Up(folders, source, n) == Some(target) && Clear(folders, source, n)
  }

  lemma {:induction false} TrailFollowsPath(folders: Folders, id: string, n: nat, seen: set<string>, x: string)
    requires Up(folders, id, n) == Some(x) && SimplePath(folders, id, n, seen) && Clear(folders, id, n)
    ensures x in Trail(folders, id, seen)
    decreases n
  {
    assert Up(folders, id, 0) == Some(id);
    if n > 0 {
      var p := Parent(folders, id).value;
      forall i: nat | i <= n - 1 ensures Up(folders, p, i).Some? && Up(folders, p, i).value !in seen + {id} {
        assert Up(folders, p, i) == Up(folders, id, i + 1);
        assert Up(folders, id, 0) != Up(folders, id, i + 1);
      }
      forall i: nat, j: nat | i < j <= n - 1 ensures Up(folders, p, i) != Up(folders, p, j) {
        assert Up(folders, p, i) == Up(folders, id, i + 1) && Up(folders, p, j) == Up(folders, id, j + 1);
      }
      forall i: nat | i <= n - 1 ensures Up(folders, p, i) != Some("") {
        assert Up(folders, p, i) == Up(folders, id, i + 1);
      }
      TrailFollowsPath(folders, p, n - 1, seen + {id}, x);
    }
  }

  lemma {:induction false} Shortest(folders: Folders, id: string, n: nat, x: string) returns (m: nat)
    requires Up(folders, id, n) == Some(x)
    ensures Up(folders, id, m) == Some(x) && forall i: nat | i < m :: Up(folders, id, i) != Some(x)
  {
    if i: nat :| i < n && Up(folders, id, i) == Some(x) {
      m := Shortest(folders, id, i, x);
    } else {
      m := n;
    }
  }

  lemma ShortestIsSimple(folders: Folders, id: string, n: nat, x: string)
    requires Up(folders, id, n) == Some(x) && forall i: nat | i < n :: Up(folders, id, i) != Some(x)
    ensures SimplePath(folders, id, n, {})
  {
    forall i: nat | i <= n ensures Up(folders, id, i).Some? {
      UpCompose(folders, id, i, n - i);
    }
    forall i: nat, j: nat | i < j <= n ensures Up(folders, id, i) != Up(folders, id, j) {
      UpCompose(folders, id, i, n - j);
      UpCompose(folders, id, j, n - j);
    }
  }

  lemma {:induction false} TrailIsClear(folders: Folders, id: string, seen: set<string>, x: string) returns (n: nat)
    requires x in Trail(folders, id, seen)
    ensures Up(folders, id, n) == Some(x) && Clear(folders, id, n)
    decreases folders.Keys - seen
  {
    if x == id {
      n := 0;
    } else {
      var p := Parent(folders, id).value;
      var m := TrailIsClear(folders, p, seen + {id}, x);
      n := m + 1;
      forall i: nat | i <= n ensures Up(folders, id, i) != Some("") {
        if i > 0 {
          assert Up(folders, id, i) == Up(folders, p, i - 1);
        }
      }
    }
  }

  /** What the walk with its cycle break finds, on every graph, even a cyclic one: what can be
      reached by parent steps without passing the empty identifier. */
  lemma WalkIsClearReach(folders: Folders, id: string, x: string)
    ensures HasAncestor(folders, id, x) <==> ReachesClear(folders, id, x)
  {
    if HasAncestor(folders, id, x) {
      var n := TrailIsClear(folders, id, {}, x);
    }
    if ReachesClear(folders, id, x) {
      var n: nat :| Up(folders, id, n) == Some(x) && Clear(folders, id, n);
      var m := Shortest(folders, id, n, x);
      ShortestIsSimple(folders, id, m, x);
      TrailFollowsPath(folders, id, m, {}, x);
    }
  }

  /** No stored folder has the empty identifier, or that folder leads nowhere else. */
  predicate EmptyIdLeadsNowhere(folders: Folders) {
    "" in folders ==> folders[""].parentID.None? || folders[""].parentID == Some("")
  }

  lemma {:induction false} NowhereFromEmpty(folders: Folders, n: nat)
    requires EmptyIdLeadsNowhere(folders)
    ensures Up(folders, "", n).Some? ==> Up(folders, "", n) == Some("")
    decreases n
  {
    if n > 0 {
      NowhereFromEmpty(folders, n - 1);
    }
  }

  lemma PathIsClear(folders: Folders, id: string, n: nat, x: string)
    requires EmptyIdLeadsNowhere(folders) && x != "" && Up(folders, id, n) == Some(x)
    ensures Clear(folders, id, n)
  {
    forall i: nat | i <= n ensures Up(folders, id, i) != Some("") {
      UpCompose(folders, id, i, n - i);
      NowhereFromEmpty(folders, n - i);
    }
  }

  lemma WalkFindsAncestors(folders: Folders, id: string, x: string)
    requires EmptyIdLeadsNowhere(folders) && x != ""
    ensures HasAncestor(folders, id, x) <==> Reaches(folders, id, x)
  {
    WalkIsClearReach(folders, id, x);
    if Reaches(folders, id, x) {
      var n: nat :| Up(folders, id, n) == Some(x);
      PathIsClear(folders, id, n, x);
    }
  }

  /** The walk finds exactly what is reachable by parent steps, from every folder to every other,
      exactly if an empty identifier leads nowhere else. */
  lemma WalkIsReachability(folders: Folders)
    ensures (forall id, x | x != "" :: HasAncestor(folders, id, x) <==> Reaches(folders, id, x))
            <==> EmptyIdLeadsNowhere(folders)
  {
    if EmptyIdLeadsNowhere(folders) {
      forall id, x | x != "" ensures HasAncestor(folders, id, x) <==> Reaches(folders, id, x) {
        WalkFindsAncestors(folders, id, x);
      }
    } else {
      var p := folders[""].parentID.value;
      assert Up(folders, p, 0) == Some(p);
      assert Up(folders, "", 1) == Some(p);
      assert Reaches(folders, "", p) && !HasAncestor(folders, "", p);
    }
  }

  /** Some folder at or above `id` carries the role. */
  ghost predicate RoleAbove(folders: Folders, id: string, role: string) {
    exists g | g in folders && folders[g].systemRole == Some(role) :: Reaches(folders, id, g)
  }

  ghost predicate NoRoleAboveEmpty(folders: Folders) {
    forall g | g in folders && Reaches(folders, "", g) :: folders[g].systemRole.None?
  }

  lemma RoleWalkFindsRoles(folders: Folders, id: string, role: string)
    requires NoRoleAboveEmpty(folders)
    ensures HasRoleAncestor(folders, id, role) <==> RoleAbove(folders, id, role)
  {
    if HasRoleAncestor(folders, id, role) {
      var g :| g in Trail(folders, id, {}) && g in folders && folders[g].systemRole == Some(role);
      var n := TrailIsClear(folders, id, {}, g);
    }
    if RoleAbove(folders, id, role) {
      var g :| g in folders && folders[g].systemRole == Some(role) && Reaches(folders, id, g);
      var n: nat :| Up(folders, id, n) == Some(g);
      forall i: nat | i <= n ensures Up(folders, id, i) != Some("") {
        UpCompose(folders, id, i, n - i);
      }
      WalkIsClearReach(folders, id, g);
    }
  }

  /** The role walk answers for every folder and role whether some folder at or above it carries the
      role, exactly if no folder at or above the empty identifier carries one. */
  lemma RoleWalkIsExact(folders: Folders)
    ensures (forall id, role :: HasRoleAncestor(folders, id, role) <==> RoleAbove(folders, id, role))
            <==> NoRoleAboveEmpty(folders)
  {
    if NoRoleAboveEmpty(folders) {
      forall id, role ensures HasRoleAncestor(folders, id, role) <==> RoleAbove(folders, id, role) {
        RoleWalkFindsRoles(folders, id, role);
      }
    } else {
      var g :| g in folders && Reaches(folders, "", g) && folders[g].systemRole.Some?;
      var role := folders[g].systemRole.value;
      assert RoleAbove(folders, "", role) && !HasRoleAncestor(folders, "", role);
    }
  }

  // ----- The descendant fixpoint -----

  /** The filter folder with every stored folder below it. */
  ghost function Descendants(folders: Folders, root: string): (d: set<string>)
    ensures forall x :: x in d <==> x == root || (x in folders && Reaches(folders, x, root))
  {
    {root} + set x | x in folders && Reaches(folders, x, root)
  }

  ghost predicate ClosedDownward(folders: Folders, ids: set<string>) {
    forall x | x in folders && Parent(folders, x).Some? && Parent(folders, x).value in ids :: x in ids
  }

  lemma {:induction false} ClosedHoldsDescendants(folders: Folders, root: string, ids: set<string>, x: string, n: nat)
    requires root in ids && ClosedDownward(folders, ids)
    requires Up(folders, x, n) == Some(root)
    ensures x in ids
    decreases n
  {
    if n > 0 {
      ClosedHoldsDescendants(folders, root, ids, Parent(folders, x).value, n - 1);
    }
  }

  lemma ChildReaches(folders: Folders, x: string, root: string)
    requires x in folders && folders[x].parentID.Some? && Reaches(folders, folders[x].parentID.value, root)
    ensures Reaches(folders, x, root)
  {
    var n: nat :| Up(folders, folders[x].parentID.value, n) == Some(root);
    assert Up(folders, x, n + 1) == Some(root);
  }

  lemma SelfReaches(folders: Folders, x: string)
    ensures Reaches(folders, x, x)
  {
    assert Up(folders, x, 0) == Some(x);
  }

  /** `documentFolderFilterIDs` with descendants: rounds over the folders, in whatever order the
      map yields them, until a round adds nothing. */
  method FolderFilterIDs(folders: Folders, root: string, order: seq<string>) returns (ids: set<string>)
    requires forall x :: x in folders <==> x in order
    ensures ids == Descendants(folders, root)
  {
    ids := {root};
    SelfReaches(folders, root);
    var changed := true;
    while changed
      invariant root in ids && ids <= Descendants(folders, root)
      invariant !changed ==> ClosedDownward(folders, ids)
      decreases Descendants(folders, root) - ids, changed
    {
      changed := false;
      ghost var before := ids;
      for i := 0 to |order|
        invariant before <= ids <= Descendants(folders, root)
        invariant changed <==> before < ids
        invariant !changed ==> forall k | 0 <= k < i && Parent(folders, order[k]).Some? ::
                      Parent(folders, order[k]).value in ids ==> order[k] in ids
      {
        var x := order[i];
        assert x in folders;
        if folders[x].parentID.Some? && folders[x].parentID.value in ids && x !in ids {
          if folders[x].parentID.value == root {
            SelfReaches(folders, root);
          }
          ChildReaches(folders, x, root);
          ids := ids + {x};
          changed := true;
        }
      }
      if !changed {
        forall x | x in folders && Parent(folders, x).Some? && Parent(folders, x).value in ids ensures x in ids {
          var k :| 0 <= k < |order| && order[k] == x;
        }
      }
    }
    forall x | x in Descendants(folders, root) ensures x in ids {
      if x != root {
        var n: nat :| Up(folders, x, n) == Some(root);
        ClosedHoldsDescendants(folders, root, ids, x, n);
      }
    }
  }

  lemma FixpointAgreesWithWalk(folders: Folders, root: string, x: string)
    requires EmptyIdLeadsNowhere(folders) && root != "" && x in folders
    ensures x in Descendants(folders, root) <==> HasAncestor(folders, x, root)
  {
    WalkFindsAncestors(folders, x, root);
    SelfReaches(folders, x);
  }

  /** On every graph, even a cyclic one: the search filter and the ancestor walk agree on all stored
      folders and all filters exactly if an empty identifier leads nowhere else. The walk stops at an
      empty identifier, the fixpoint does not. */
  lemma FixpointIsWalk(folders: Folders)
    ensures (forall x, root | x in folders
             && root != "" :: x in Descendants(folders, root) <==> HasAncestor(folders, x, root))
            <==> EmptyIdLeadsNowhere(folders)
  {
    if EmptyIdLeadsNowhere(folders) {
      forall x, root | x in folders && root != ""
        ensures x in Descendants(folders, root) <==> HasAncestor(folders, x, root)
      {
        FixpointAgreesWithWalk(folders, root, x);
      }
    } else {
      var p := folders[""].parentID.value;
      assert Up(folders, p, 0) == Some(p);
      assert Up(folders, "", 1) == Some(p);
      assert "" in Descendants(folders, p) && !HasAncestor(folders, "", p);
    }
  }
}
