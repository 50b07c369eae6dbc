/** When the folder table is a forest: every parent is stored and parent steps always climb.
    The loops that walk the table, and the recursion that builds the folder trees. */
module FolderForest {
  import opened Prelude
  import opened Entities
  import opened FolderGraph

  /** The folder is stored, and so is its parent if it has one, at a lesser height. */
  ghost predicate RankedAt(folders: Folders, rank: map<string, nat>, f: string) {
    f in folders && folders[f].parentID.Some? ==>
      && f in rank
      && folders[f].parentID.value in folders
      && folders[f].parentID.value in rank
      && rank[folders[f].parentID.value] < rank[f]
  }

  /** A height for every folder that strictly drops from a folder to its parent. */
  ghost predicate Ranks(folders: Folders, rank: map<string, nat>) {
    && rank.Keys == folders.Keys
    && forall f :: RankedAt(folders, rank, f)
  }

  ghost predicate Forest(folders: Folders) {
    exists rank :: Ranks(folders, rank)
  }

  lemma {:induction false} RankDrops(folders: Folders, rank: map<string, nat>, f: string, n: nat, g: string)
    requires Ranks(folders, rank) && f in folders && Up(folders, f, n) == Some(g)
    ensures g in folders && rank[g] + n <= rank[f]
    decreases n
  {
    if n > 0 {
      assert RankedAt(folders, rank, f);
      RankDrops(folders, rank, folders[f].parentID.value, n - 1, g);
    }
  }

  /** A forest has no cycle of parent pointers. */
  lemma ForestHasNoCycle(folders: Folders, f: string, n: nat)
    requires Forest(folders) && f in folders && n > 0
    ensures Up(folders, f, n) != Some(f)
  {
    var rank :| Ranks(folders, rank);
    if Up(folders, f, n) == Some(f) {
      RankDrops(folders, rank, f, n, f);
    }
  }

  // ----- What keeps a forest a forest -----

  lemma EmptyForest()
    ensures Forest(map[])
  {
    var rank: map<string, nat> := map[];
    assert Ranks(map[], rank);
  }

  /** Adding a folder under a stored parent, or as a root. */
  lemma AddLeaf(folders: Folders, folder: Folder)
    requires Forest(folders) && folder.id !in folders
    requires folder.parentID.Some? ==> folder.parentID.value in folders
    ensures Forest(folders[folder.id := folder])
  {
    var rank :| Ranks(folders, rank);
    var height := if folder.parentID.Some? then rank[folder.parentID.value] + 1 else 0;
    var folders', rank' := folders[folder.id := folder], rank[folder.id := height];
    forall f ensures RankedAt(folders', rank', f) {
      assert RankedAt(folders, rank, f);
    }
    assert Ranks(folders', rank');
  }

  /** Replacing a folder by one with the same parent, or by a root. */
  lemma KeepOrDropParent(folders: Folders, folder: Folder)
    requires Forest(folders) && folder.id in folders
    requires folder.parentID == folders[folder.id].parentID || folder.parentID.None?
    ensures Forest(folders[folder.id := folder])
  {
    var rank :| Ranks(folders, rank);
    var folders' := folders[folder.id := folder];
    forall f ensures RankedAt(folders', rank, f) {
      assert RankedAt(folders, rank, f);
    }
    assert Ranks(folders', rank);
  }

  lemma StepReaches(folders: Folders, x: string, root: string)
    requires x in folders && folders[x].parentID.Some? && x != root && Reaches(folders, x, root)
    ensures Reaches(folders, folders[x].parentID.value, root)
  {
    var n: nat :| Up(folders, x, n) == Some(root);
    assert Up(folders, folders[x].parentID.value, n - 1) == Some(root);
  }

  /** Moving a folder, with everything below it, under a folder that is not below it. */
  lemma Reparent(folders: Folders, folder: Folder, parent: string)
    requires Forest(folders) && folder.id in folders && folder.parentID == Some(parent)
    requires parent in folders && !Reaches(folders, parent, folder.id)
    ensures Forest(folders[folder.id := folder])
  {
    var rank :| Ranks(folders, rank);
    var moved := Descendants(folders, folder.id);
    var shift := rank[parent] + 1;
    var rank' := map f | f in folders :: if f in moved then rank[f] + shift else rank[f];
    var folders' := folders[folder.id := folder];
    SelfReaches(folders, folder.id);
    forall f ensures RankedAt(folders', rank', f) {
      assert RankedAt(folders, rank, f);
      if f in folders && f != folder.id && folders[f].parentID.Some? {
        var q := folders[f].parentID.value;
        if f in moved {
          StepReaches(folders, f, folder.id);
        }
        if Reaches(folders, q, folder.id) {
          ChildReaches(folders, f, folder.id);
        }
      }
    }
    assert Ranks(folders', rank');
  }

  /** Removing a folder that has no children. */
  lemma RemoveLeaf(folders: Folders, id: string)
    requires Forest(folders) && forall f | f in folders :: folders[f].parentID != Some(id)
    ensures Forest(folders - {id})
  {
    var rank :| Ranks(folders, rank);
    forall f ensures RankedAt(folders - {id}, rank - {id}, f) {
      assert RankedAt(folders, rank, f);
    }
    assert Ranks(folders - {id}, rank - {id});
  }

  // ----- The upward walks -----

  ghost predicate LinkedUpward(folders: Folders, t: seq<string>) {
    forall i | 0 <= i < |t| - 1 :: Parent(folders, t[i]) == Some(t[i + 1])
  }

  /** In a forest a trail climbs by parent steps all the way to a root: no walk ever meets its
      cycle break or a missing folder. */
  lemma {:induction false} TrailReachesRoot(folders: Folders, rank: map<string, nat>, id: string, seen: set<string>)
    requires Ranks(folders, rank) && "" !in folders && id in folders
    requires forall x | x in seen :: x in folders && rank[x] > rank[id]
    ensures var t := Trail(folders, id, seen);
            t != [] && t[0] == id && LinkedUpward(folders, t) && (forall x | x in t :: x in folders)
            && folders[t[|t| - 1]].parentID.None?
    decreases folders.Keys - seen
  {
    assert RankedAt(folders, rank, id);
    match folders[id].parentID {
      case None =>
      case Some(p) => TrailReachesRoot(folders, rank, p, seen + {id});
    }
  }

  /** The loop of `folderHasAncestor`. */
  method WalkToAncestor(folders: Folders, folderID: string, ancestorID: string) returns (found: bool)
    ensures found == HasAncestor(folders, folderID, ancestorID)
  {
    var id, seen := folderID, {};
    while id != ""
      invariant ancestorID !in seen
      invariant HasAncestor(folders, folderID, ancestorID) <==> ancestorID in Trail(folders, id, seen)
      decreases folders.Keys - seen
    {
      if id == ancestorID {
        return true;
      }
      if id in seen {
        return false;
      }
      if id !in folders || folders[id].parentID.None? {
        return false;
      }
      seen := seen + {id};
      id := folders[id].parentID.value;
    }
    return false;
  }

  /** The loop of `folderHasSystemRoleAncestor`. */
  method WalkToRole(folders: Folders, folderID: string, role: string) returns (found: bool)
    ensures found == HasRoleAncestor(folders, folderID, role)
  {
    var id, seen := folderID, {};
    while id != ""
      invariant HasRoleAncestor(folders, folderID, role) <==>
                exists g | g in Trail(folders, id, seen) :: g in folders && folders[g].systemRole == Some(role)
      decreases folders.Keys - seen
    {
      if id in seen {
        return false;
      }
      assert id in Trail(folders, id, seen);
      if id !in folders {
        return false;
      }
      if folders[id].systemRole == Some(role) {
        return true;
      }
      if folders[id].parentID.None? {
        return false;
      }
      seen := seen + {id};
      id := folders[id].parentID.value;
    }
    return false;
  }

  datatype Breadcrumb = Breadcrumb(id: string, name: string)

  /** The climbing loop of `documentFolderPath`: the stored folders of the trail. */
  method ClimbFolders(folders: Folders, folderID: string) returns (climbed: seq<string>)
    ensures forall x | x in climbed :: x in folders
    ensures Forest(folders) && "" !in folders && folderID in folders ==> climbed == Trail(folders, folderID, {})
  {
    var id, seen := folderID, {};
    climbed := [];
    while id != ""
      invariant forall x | x in climbed :: x in folders
      invariant Trail(folders, folderID, {}) == climbed + Trail(folders, id, seen)
      decreases folders.Keys - seen
    {
      if id in seen {
        return;
      }
      if id !in folders {
        MissingEndsTrail(folders, folderID, climbed, id);
        return;
      }
      var parent := folders[id].parentID;
      if parent.None? {
        climbed := climbed + [id];
        return;
      }
      Regroup(climbed, id, Trail(folders, parent.value, seen + {id}));
      climbed := climbed + [id];
      seen := seen + {id};
      id := parent.value;
    }
  }

  lemma Regroup<T>(before: seq<T>, x: T, after: seq<T>)
    ensures before + ([x] + after) == (before + [x]) + after
  {
  }

  lemma MissingEndsTrail(folders: Folders, folderID: string, climbed: seq<string>, id: string)
    requires Trail(folders, folderID, {}) == climbed + [id] && id !in folders
    ensures !(Forest(folders) && "" !in folders && folderID in folders)
  {
    assert (climbed + [id])[|climbed|] == id;
    assert id in Trail(folders, folderID, {});
    if Forest(folders) && "" !in folders && folderID in folders {
      var rank :| Ranks(folders, rank);
      TrailReachesRoot(folders, rank, folderID, {});
    }
  }

  /** `documentFolderPath`: climb from the document's folder, then turn the list around. On a
      forest the path runs from a root to the folder, each segment the parent of the next. */
  method DocumentFolderPath(folders: Folders, folderID: Option<string>) returns (path: seq<Breadcrumb>)
    requires forall f | f in folders :: folders[f].id == f
    ensures forall i | 0 <= i < |path| :: path[i].id in folders && path[i].name == folders[path[i].id].name
    ensures folderID.None? ==> path == []
    ensures Forest(folders) && "" !in folders && folderID.Some? && folderID.value in folders ==>
              && path != [] && path[|path| - 1].id == folderID.value
              && folders[path[0].id].parentID.None?
              && forall i | 0 < i < |path| :: folders[path[i].id].parentID == Some(path[i - 1].id)
  {
    path := [];
    if folderID.None? {
      return;
    }
    var climbed := ClimbFolders(folders, folderID.value);
    var index := |climbed|;
    while index > 0
      invariant 0 <= index <= |climbed|
      invariant |path| == |climbed| - index
      invariant forall k | 0 <= k < |path| ::
        path[k] == Breadcrumb(climbed[|climbed| - 1 - k], folders[climbed[|climbed| - 1 - k]].name)
    {
      index := index - 1;
      path := path + [Breadcrumb(folders[climbed[index]].id, folders[climbed[index]].name)];
    }
    if Forest(folders) && "" !in folders && folderID.value in folders {
      ghost var rank :| Ranks(folders, rank);
      TrailReachesRoot(folders, rank, folderID.value, {});
      forall i | 0 < i < |path| ensures folders[path[i].id].parentID == Some(path[i - 1].id) {
        assert Parent(folders, climbed[|climbed| - 1 - i]) == Some(climbed[|climbed| - 1 - i + 1]);
      }
    }
  }
}
