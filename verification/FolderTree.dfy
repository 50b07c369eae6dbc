/** The folder trees of `ListFolders`: an index of children built in one pass over the folders in
    map order, and a recursion that ends because the folders form a forest. */
module FolderTree {
  import opened Prelude
  import opened Entities
  import opened FolderGraph
  import opened FolderForest
  import Sorting
  import Text

  /** A folder with its `Children` field filled. */
  datatype Tree = Tree(folder: Folder, children: seq<Tree>)

  /** The folders of the table in some order of the map, each once. */
  ghost predicate Lists(folders: Folders, list: seq<Folder>) {
    && (forall f | f in folders :: folders[f].id == f)
    && (forall x :: x in list <==> x.id in folders && folders[x.id] == x)
    && Sorting.Distinct(list)
  }

  /** The folders with the given parent, in the order of the list; `None` gives the roots. */
  function ChildrenIn(list: seq<Folder>, parent: Option<string>): (kids: seq<Folder>)
    ensures forall x :: x in kids <==> x in list && x.parentID == parent
    ensures |kids| <= |list|
  {
    if list == [] then []
    else
      var last := list[|list| - 1];
      ChildrenIn(list[..|list| - 1], parent) + if last.parentID == parent then [last] else []
  }

  lemma {:induction false} ChildrenDistinct(list: seq<Folder>, parent: Option<string>)
    requires Sorting.Distinct(list)
    ensures Sorting.Distinct(ChildrenIn(list, parent))
  {
    if list != [] {
      ChildrenDistinct(list[..|list| - 1], parent);
      assert list[|list| - 1] !in list[..|list| - 1];
    }
  }

  // ----- Sibling order -----

  /** The comparison of `sortFolders`. */
  predicate FolderBefore(a: Folder, b: Folder) {
    if a.sortOrder != b.sortOrder then a.sortOrder < b.sortOrder
    else if a.name != b.name then Text.Before(a.name, b.name)
    else Text.Before(a.id, b.id)
  }

  predicate TreeBefore(a: Tree, b: Tree) {
    FolderBefore(a.folder, b.folder)
  }

  lemma FolderBeforeTransitive(a: Folder, b: Folder, c: Folder)
    requires FolderBefore(a, b) && FolderBefore(b, c)
    ensures FolderBefore(a, c)
  {
    if Text.Before(a.name, b.name) && Text.Before(b.name, c.name) {
      Text.BeforeTransitive(a.name, b.name, c.name);
    }
    if Text.Before(a.id, b.id) && Text.Before(b.id, c.id) {
      Text.BeforeTransitive(a.id, b.id, c.id);
    }
    Text.BeforeTotal(a.name, b.name);
    Text.BeforeTotal(b.name, c.name);
  }

  ghost predicate ApartByID(trees: set<Tree>) {
    forall a, b | a in trees && b in trees && a.folder.id == b.folder.id :: a == b
  }

  lemma TreeOrderIsTotal(trees: set<Tree>)
    requires ApartByID(trees)
    ensures Sorting.StrictTotal(TreeBefore, trees)
  {
    forall a, b | a in trees && b in trees
      ensures !TreeBefore(a, a) && (a != b ==> TreeBefore(a, b) || TreeBefore(b, a))
    {
      Text.BeforeTotal(a.folder.id, a.folder.id);
      Text.BeforeTotal(a.folder.name, b.folder.name);
      Text.BeforeTotal(a.folder.id, b.folder.id);
    }
    forall a, b, c | a in trees && b in trees && c in trees && TreeBefore(a, b) && TreeBefore(b, c)
      ensures TreeBefore(a, c)
    {
      FolderBeforeTransitive(a.folder, b.folder, c.folder);
    }
  }

  // ----- The recursion -----

  /** What can lie below a folder: the folders of greater height; without a parent, any folder. */
  ghost function Higher(folders: Folders, rank: map<string, nat>, parent: Option<string>): (h: set<string>)
    requires Ranks(folders, rank) && (parent.Some? ==> parent.value in folders)
  {
    match parent
    case None => folders.Keys
    case Some(id) => set g | g in folders && rank[g] > rank[id]
  }

  lemma ChildIsHigher(folders: Folders, rank: map<string, nat>, parent: Option<string>, child: string)
    requires Ranks(folders, rank) && (parent.Some? ==> parent.value in folders)
    requires child in folders && folders[child].parentID == parent
    ensures Higher(folders, rank, Some(child)) < Higher(folders, rank, parent)
  {
    assert RankedAt(folders, rank, child);
    assert child in Higher(folders, rank, parent) && child !in Higher(folders, rank, Some(child));
  }

  /** `folderTree`. */
  ghost function TreeOf(folders: Folders, rank: map<string, nat>, list: seq<Folder>, id: string): (t: Tree)
    requires Ranks(folders, rank) && Lists(folders, list) && id in folders
    decreases Higher(folders, rank, Some(id)), 1
  {
    Tree(folders[id], Sorting.Sort(TreeBefore, TreesOf(folders, rank, list, Some(id))))
  }

  /** The trees of the children of a folder, or of the roots, in the order of the list. */
  ghost function TreesOf(folders: Folders, rank: map<string, nat>, list: seq<Folder>,
                         parent: Option<string>): (ts: seq<Tree>)
    requires Ranks(folders, rank) && Lists(folders, list) && (parent.Some? ==> parent.value in folders)
    ensures |ts| == |ChildrenIn(list, parent)|
    decreases Higher(folders, rank, parent), 0
  {
    var kids := ChildrenIn(list, parent);
    seq(|kids|, k requires 0 <= k < |kids| =>
      assert kids[k] in kids;
      ChildIsHigher(folders, rank, parent, kids[k].id);
      TreeOf(folders, rank, list, kids[k].id))
  }

  lemma TreeAt(folders: Folders, rank: map<string, nat>, list: seq<Folder>, parent: Option<string>, k: nat)
    requires Ranks(folders, rank) && Lists(folders, list) && (parent.Some? ==> parent.value in folders)
    requires k < |ChildrenIn(list, parent)|
    ensures var kid := ChildrenIn(list, parent)[k];
            kid.id in folders && TreesOf(folders, rank, list, parent)[k] == TreeOf(folders, rank, list, kid.id)
  {
    assert ChildrenIn(list, parent)[k] in ChildrenIn(list, parent);
  }

  /** `folderTrees`. */
  ghost function Forests(folders: Folders, rank: map<string, nat>, list: seq<Folder>): (ts: seq<Tree>)
    requires Ranks(folders, rank) && Lists(folders, list)
  {
    Sorting.Sort(TreeBefore, TreesOf(folders, rank, list, None))
  }

  // ----- Every folder exactly once -----

  /** The identifiers of a tree, a folder before its children. */
  function Nodes(t: Tree): (ids: seq<string>)
    decreases t, 0
  {
    [t.folder.id] + AllNodes(t.children)
  }

  function AllNodes(ts: seq<Tree>): (ids: seq<string>)
    decreases ts, 0
  {
    if ts == [] then [] else Nodes(ts[0]) + AllNodes(ts[1..])
  }

  lemma {:induction false} AllNodesAre(ts: seq<Tree>, x: string)
    ensures x in AllNodes(ts) <==> exists t :: t in ts && x in Nodes(t)
  {
    if ts != [] {
      AllNodesAre(ts[1..], x);
      assert ts == [ts[0]] + ts[1..];
      if t :| t in ts && x in Nodes(t) {
        assert t == ts[0] || t in ts[1..];
      }
      if t :| t in ts[1..] && x in Nodes(t) {
        assert t in ts;
      }
    }
  }

  ghost predicate DisjointNodes(a: Tree, b: Tree) {
    forall x :: !(x in Nodes(a) && x in Nodes(b))
  }

  lemma {:induction false} AllNodesDistinct(ts: seq<Tree>)
    requires forall t | t in ts :: Sorting.Distinct(Nodes(t))
    requires forall i, j | 0 <= i < j < |ts| :: DisjointNodes(ts[i], ts[j])
    ensures Sorting.Distinct(AllNodes(ts))
  {
    if ts != [] {
      var rest := ts[1..];
      assert forall t | t in rest :: t in ts;
      AllNodesDistinct(rest);
      assert ts[0] in ts;
      forall t | t in rest ensures DisjointNodes(ts[0], t) {
        var j :| 0 <= j < |rest| && rest[j] == t;
        assert DisjointNodes(ts[0], ts[j + 1]);
      }
      forall x | x in Nodes(ts[0]) ensures x !in AllNodes(rest) {
        AllNodesAre(rest, x);
      }
      ConcatDistinct(Nodes(ts[0]), AllNodes(rest));
    }
  }

  lemma ConcatDistinct(a: seq<string>, b: seq<string>)
    requires Sorting.Distinct(a) && Sorting.Distinct(b) && forall x | x in a :: x !in b
    ensures Sorting.Distinct(a + b)
  {
    var c := a + b;
    forall i, j | 0 <= i < j < |c| ensures c[i] != c[j] {
      if i < |a| <= j {
        assert a[i] in a && b[j - |a|] in b;
      }
    }
  }

  /** Two parents' worth of the same folder: in a forest a folder lies below one sibling only. */
  lemma BelowOneSibling(folders: Folders, x: string, a: string, b: string)
    requires Forest(folders) && x in folders && a in folders && b in folders
    requires folders[a].parentID == folders[b].parentID && Reaches(folders, x, a) && Reaches(folders, x, b)
    ensures a == b
  {
    var m: nat :| Up(folders, x, m) == Some(a);
    var n: nat :| Up(folders, x, n) == Some(b);
    if m <= n {
      SameLevel(folders, x, a, b, m, n);
    } else {
      SameLevel(folders, x, b, a, n, m);
    }
  }

  lemma SameLevel(folders: Folders, x: string, a: string, b: string, m: nat, n: nat)
    requires Forest(folders) && a in folders && b in folders && m <= n
    requires folders[a].parentID == folders[b].parentID && Up(folders, x, m) == Some(a) && Up(folders, x, n) == Some(b)
    ensures a == b
  {
    UpCompose(folders, x, m, n - m);
    if n > m {
      var p := folders[a].parentID.value;
      assert Up(folders, p, n - m - 1) == Some(b);
      UpCompose(folders, p, n - m - 1, 1);
      assert Up(folders, b, 1) == Some(p);
      assert Up(folders, a, n - m) == Some(b);
      UpCompose(folders, b, 1, n - m - 1);
      ForestHasNoCycle(folders, b, n - m);
    }
  }

  /** The trees of a sorted list of siblings are those of its members, each once. */
  ghost predicate TreesFor(folders: Folders, rank: map<string, nat>, list: seq<Folder>, parent: Option<string>,
                           ts: seq<Tree>)
    requires Ranks(folders, rank) && Lists(folders, list)
  {
    && (forall t :: t in ts <==>
          && t.folder.id in folders && folders[t.folder.id].parentID == parent
          && t == TreeOf(folders, rank, list, t.folder.id))
    && Sorting.Distinct(ts)
  }

  /** A list that has, for each sibling in turn, its tree. */
  lemma SiblingTrees(folders: Folders, rank: map<string, nat>, list: seq<Folder>, parent: Option<string>, ts: seq<Tree>)
    requires Ranks(folders, rank) && Lists(folders, list) && |ts| == |ChildrenIn(list, parent)|
    requires forall k | 0 <= k < |ts| ::
               var kid := ChildrenIn(list, parent)[k]; kid.id in folders && ts[k] == TreeOf(folders, rank, list, kid.id)
    ensures TreesFor(folders, rank, list, parent, ts)
  {
    var kids := ChildrenIn(list, parent);
    ChildrenDistinct(list, parent);
    forall k | 0 <= k < |ts| ensures kids[k] in kids && ts[k].folder == kids[k] {
    }
    forall t
      ensures t in ts <==>
        && t.folder.id in folders && folders[t.folder.id].parentID == parent
        && t == TreeOf(folders, rank, list, t.folder.id)
    {
      if t.folder.id in folders && folders[t.folder.id].parentID == parent
         && t == TreeOf(folders, rank, list, t.folder.id) {
        assert folders[t.folder.id] in list;
        assert folders[t.folder.id] in kids;
        var k :| 0 <= k < |kids| && kids[k] == folders[t.folder.id];
        assert ts[k] == t;
      }
    }
    forall i, j | 0 <= i < j < |ts| ensures ts[i] != ts[j] {
      assert kids[i] != kids[j] && ts[i].folder == kids[i] && ts[j].folder == kids[j];
    }
  }

  lemma TreesAreSiblings(folders: Folders, rank: map<string, nat>, list: seq<Folder>, parent: Option<string>)
    requires Ranks(folders, rank) && Lists(folders, list) && (parent.Some? ==> parent.value in folders)
    ensures TreesFor(folders, rank, list, parent, TreesOf(folders, rank, list, parent))
  {
    forall k | 0 <= k < |ChildrenIn(list, parent)|
      ensures var kid := ChildrenIn(list, parent)[k];
              kid.id in folders && TreesOf(folders, rank, list, parent)[k] == TreeOf(folders, rank, list, kid.id)
    {
      TreeAt(folders, rank, list, parent, k);
    }
    SiblingTrees(folders, rank, list, parent, TreesOf(folders, rank, list, parent));
  }

  /** Sorting siblings keeps them, each once, and puts them in order. */
  lemma SortedTreesFor(folders: Folders, rank: map<string, nat>, list: seq<Folder>, parent: Option<string>,
                       ts: seq<Tree>)
    requires Ranks(folders, rank) && Lists(folders, list) && TreesFor(folders, rank, list, parent, ts)
    ensures TreesFor(folders, rank, list, parent, Sorting.Sort(TreeBefore, ts))
    ensures Sorting.Sorted(TreeBefore, Sorting.Sort(TreeBefore, ts))
    ensures Sorting.StrictTotal(TreeBefore, Sorting.Elements(ts))
    ensures Sorting.Elements(Sorting.Sort(TreeBefore, ts)) == Sorting.Elements(ts)
  {
    var sorted := Sorting.Sort(TreeBefore, ts);
    TreeOrderIsTotal(Sorting.Elements(ts));
    Sorting.SortSorted(TreeBefore, ts, Sorting.Elements(ts));
    Sorting.SameMembers(sorted, ts);
    Sorting.SortedDistinct(TreeBefore, sorted, Sorting.Elements(ts));
  }

  /** Siblings in order, at every level. */
  ghost predicate InOrder(t: Tree)
    decreases t
  {
    Sorting.Sorted(TreeBefore, t.children) && forall c | c in t.children :: InOrder(c)
  }

  lemma ReachesThroughChild(folders: Folders, x: string, child: string, id: string)
    requires Forest(folders) && id in folders && child in folders && folders[child].parentID == Some(id)
             && Reaches(folders, x, child)
    ensures Reaches(folders, x, id)
    ensures x in folders ==> x != id
  {
    var n: nat :| Up(folders, x, n) == Some(child);
    UpCompose(folders, x, n, 1);
    assert Up(folders, child, 1) == Some(id);
    assert Up(folders, x, n + 1) == Some(id);
    ForestHasNoCycle(folders, id, n + 1);
  }

  lemma LastStep(folders: Folders, x: string, id: string) returns (child: string)
    requires Reaches(folders, x, id) && x != id
    ensures child in folders && folders[child].parentID == Some(id) && Reaches(folders, x, child)
  {
    var n: nat :| Up(folders, x, n) == Some(id);
    UpCompose(folders, x, n - 1, 1);
    child := Up(folders, x, n - 1).value;
    assert Up(folders, child, 1) == Parent(folders, child);
  }

  /** The folder lies at or below some folder with the given parent. */
  ghost predicate LiesBelow(folders: Folders, parent: Option<string>, x: string) {
    exists c | c in folders :: folders[c].parentID == parent && x in folders && Reaches(folders, x, c)
  }

  ghost predicate HoldsBelow(folders: Folders, parent: Option<string>, ids: seq<string>) {
    forall x :: x in ids <==> LiesBelow(folders, parent, x)
  }

  /** What a list of sibling trees holds, once each tree is known to hold what lies below its root. */
  lemma SiblingNodes(folders: Folders, rank: map<string, nat>, list: seq<Folder>, parent: Option<string>, ts: seq<Tree>)
    requires Ranks(folders, rank) && Lists(folders, list) && TreesFor(folders, rank, list, parent, ts)
    requires forall t | t in ts :: Exact(folders, t)
    ensures Sorting.Distinct(AllNodes(ts)) && HoldsBelow(folders, parent, AllNodes(ts))
  {
    forall i, j | 0 <= i < j < |ts| ensures DisjointNodes(ts[i], ts[j]) {
      assert ts[i] in ts && ts[j] in ts;
      forall x ensures !(x in Nodes(ts[i]) && x in Nodes(ts[j])) {
        if x in Nodes(ts[i]) && x in Nodes(ts[j]) {
          BelowOneSibling(folders, x, ts[i].folder.id, ts[j].folder.id);
        }
      }
    }
    AllNodesDistinct(ts);
    forall x ensures x in AllNodes(ts) <==> LiesBelow(folders, parent, x) {
      AllNodesAre(ts, x);
      if c :| c in folders && folders[c].parentID == parent && x in folders && Reaches(folders, x, c) {
        var t := TreeOf(folders, rank, list, c);
        assert t.folder.id == c && t in ts;
      }
    }
  }

  /** A tree holds exactly the folders at or below its root, each once. */
  ghost predicate Exact(folders: Folders, t: Tree) {
    && Sorting.Distinct(Nodes(t))
    && forall x :: x in Nodes(t) <==> x in folders && Reaches(folders, x, t.folder.id)
  }

  lemma {:induction false} TreeIsExact(folders: Folders, rank: map<string, nat>, list: seq<Folder>, id: string)
    requires Ranks(folders, rank) && Lists(folders, list) && id in folders
    ensures Exact(folders, TreeOf(folders, rank, list, id)) && InOrder(TreeOf(folders, rank, list, id))
    decreases Higher(folders, rank, Some(id))
  {
    var t := TreeOf(folders, rank, list, id);
    TreesAreSiblings(folders, rank, list, Some(id));
    SortedTreesFor(folders, rank, list, Some(id), TreesOf(folders, rank, list, Some(id)));
    forall c | c in t.children ensures Exact(folders, c) && InOrder(c) {
      ChildIsHigher(folders, rank, Some(id), c.folder.id);
      TreeIsExact(folders, rank, list, c.folder.id);
    }
    SiblingNodes(folders, rank, list, Some(id), t.children);
    RootAndBelow(folders, t, id);
  }

  lemma RootAndBelow(folders: Folders, t: Tree, id: string)
    requires Forest(folders) && id in folders && t.folder.id == id && Sorting.Distinct(AllNodes(t.children))
    requires HoldsBelow(folders, Some(id), AllNodes(t.children))
    ensures Exact(folders, t)
  {
    forall x | x in AllNodes(t.children) ensures x in folders && x != id && Reaches(folders, x, id) {
      assert LiesBelow(folders, Some(id), x);
      var c :| c in folders && folders[c].parentID == Some(id) && x in folders && Reaches(folders, x, c);
      ReachesThroughChild(folders, x, c, id);
    }
    forall x | x in folders && Reaches(folders, x, id) && x != id ensures x in AllNodes(t.children) {
      var c := LastStep(folders, x, id);
      assert LiesBelow(folders, Some(id), x);
    }
    SelfReaches(folders, id);
    ConcatDistinct([id], AllNodes(t.children));
  }

  lemma ReachesRoot(folders: Folders, rank: map<string, nat>, x: string) returns (root: string)
    requires Ranks(folders, rank) && x in folders
    ensures root in folders && folders[root].parentID.None? && Reaches(folders, x, root)
    decreases rank[x]
  {
    assert RankedAt(folders, rank, x);
    match folders[x].parentID {
      case None =>
        SelfReaches(folders, x);
        root := x;
      case Some(p) =>
        root := ReachesRoot(folders, rank, p);
        ChildReaches(folders, x, root);
    }
  }

  lemma SiblingsAreExact(folders: Folders, rank: map<string, nat>, list: seq<Folder>, parent: Option<string>,
                         ts: seq<Tree>)
    requires Ranks(folders, rank) && Lists(folders, list) && TreesFor(folders, rank, list, parent, ts)
    ensures forall t | t in ts :: InOrder(t) && Exact(folders, t)
  {
    forall t | t in ts ensures InOrder(t) && Exact(folders, t) {
      TreeIsExact(folders, rank, list, t.folder.id);
    }
  }

  /** Every folder of the table exactly once, siblings in order at every level. */
  ghost predicate Complete(folders: Folders, ts: seq<Tree>) {
    && Sorting.Distinct(AllNodes(ts)) && (forall x :: x in AllNodes(ts) <==> x in folders)
    && Sorting.Sorted(TreeBefore, ts) && (forall t | t in ts :: InOrder(t) && Exact(folders, t))
  }

  /** `folderTrees` lists every folder exactly once, siblings in order at every level. */
  lemma TreesListEveryFolderOnce(folders: Folders, rank: map<string, nat>, list: seq<Folder>)
    requires Ranks(folders, rank) && Lists(folders, list)
    ensures Complete(folders, Forests(folders, rank, list))
  {
    TreesAreSiblings(folders, rank, list, None);
    var unsorted := TreesOf(folders, rank, list, None);
    SortedTreesFor(folders, rank, list, None, unsorted);
    SortedRootsComplete(folders, rank, list, Sorting.Sort(TreeBefore, unsorted));
  }

  lemma SortedRootsComplete(folders: Folders, rank: map<string, nat>, list: seq<Folder>, ts: seq<Tree>)
    requires Ranks(folders, rank) && Lists(folders, list) && TreesFor(folders, rank, list, None, ts)
             && Sorting.Sorted(TreeBefore, ts)
    ensures Complete(folders, ts)
  {
    SiblingsAreExact(folders, rank, list, None, ts);
    SiblingNodes(folders, rank, list, None, ts);
    RootsCoverAll(folders, rank, AllNodes(ts));
  }

  lemma RootsCoverAll(folders: Folders, rank: map<string, nat>, ids: seq<string>)
    requires Ranks(folders, rank)
    requires HoldsBelow(folders, None, ids)
    ensures forall x :: x in ids <==> x in folders
  {
    forall x | x in folders ensures x in ids {
      var root := ReachesRoot(folders, rank, x);
      assert LiesBelow(folders, None, x);
    }
  }

  /** By sort order, then by name, then by identifier. */
  predicate StandsBefore(a: Folder, b: Folder) {
    || a.sortOrder < b.sortOrder
    || (a.sortOrder == b.sortOrder && Text.Before(a.name, b.name))
    || (a.sortOrder == b.sortOrder && a.name == b.name && Text.Before(a.id, b.id))
  }

  /** In complete trees siblings stand by sort order, name and identifier: the roots, and the children of
      any folder of a tree in order, whose subtrees are in order again. */
  lemma SiblingsStandInOrder(folders: Folders, ts: seq<Tree>, t: Tree)
    requires Complete(folders, ts) && InOrder(t)
    ensures forall i, j | 0 <= i < j < |ts| :: StandsBefore(ts[i].folder, ts[j].folder)
    ensures forall i, j | 0 <= i < j < |t.children| :: StandsBefore(t.children[i].folder, t.children[j].folder)
    ensures (forall c | c in t.children :: InOrder(c)) && forall root | root in ts :: InOrder(root)
  {
    forall i, j | 0 <= i < j < |ts| ensures StandsBefore(ts[i].folder, ts[j].folder) {
      assert TreeBefore(ts[i], ts[j]);
    }
    forall i, j | 0 <= i < j < |t.children| ensures StandsBefore(t.children[i].folder, t.children[j].folder) {
      assert TreeBefore(t.children[i], t.children[j]);
    }
  }

  // ----- The order of the map does not matter -----

  lemma {:induction false} TreeIgnoresMapOrder(folders: Folders, rankA: map<string, nat>, a: seq<Folder>,
                                               rankB: map<string, nat>, b: seq<Folder>, id: string)
    requires Ranks(folders, rankA) && Ranks(folders, rankB) && Lists(folders, a) && Lists(folders, b) && id in folders
    ensures TreeOf(folders, rankA, a, id) == TreeOf(folders, rankB, b, id)
    decreases Higher(folders, rankA, Some(id))
  {
    var ta, tb := TreesOf(folders, rankA, a, Some(id)), TreesOf(folders, rankB, b, Some(id));
    TreesAreSiblings(folders, rankA, a, Some(id));
    TreesAreSiblings(folders, rankB, b, Some(id));
    forall c | c in folders && folders[c].parentID == Some(id)
      ensures TreeOf(folders, rankA, a, c) == TreeOf(folders, rankB, b, c)
    {
      ChildIsHigher(folders, rankA, Some(id), c);
      TreeIgnoresMapOrder(folders, rankA, a, rankB, b, c);
    }
    SameSiblings(folders, rankA, a, rankB, b, Some(id), ta, tb);
  }

  lemma SiblingsWithin(folders: Folders, rankA: map<string, nat>, a: seq<Folder>, rankB: map<string, nat>,
                       b: seq<Folder>,
                       parent: Option<string>, ta: seq<Tree>, tb: seq<Tree>)
    requires Ranks(folders, rankA) && Ranks(folders, rankB) && Lists(folders, a) && Lists(folders, b)
    requires TreesFor(folders, rankA, a, parent, ta) && TreesFor(folders, rankB, b, parent, tb)
    requires forall c | c in folders && folders[c].parentID == parent ::
             TreeOf(folders, rankA, a, c) == TreeOf(folders, rankB, b, c)
    ensures forall t | t in ta :: t in tb
  {
    forall t | t in ta ensures t in tb {
      assert t.folder.id in folders && folders[t.folder.id].parentID == parent;
    }
  }

  lemma SameSiblings(folders: Folders, rankA: map<string, nat>, a: seq<Folder>, rankB: map<string, nat>, b: seq<Folder>,
                     parent: Option<string>, ta: seq<Tree>, tb: seq<Tree>)
    requires Ranks(folders, rankA) && Ranks(folders, rankB) && Lists(folders, a) && Lists(folders, b)
    requires TreesFor(folders, rankA, a, parent, ta) && TreesFor(folders, rankB, b, parent, tb)
    requires forall c | c in folders && folders[c].parentID == parent ::
             TreeOf(folders, rankA, a, c) == TreeOf(folders, rankB, b, c)
    ensures Sorting.Sort(TreeBefore, ta) == Sorting.Sort(TreeBefore, tb)
  {
    SortedTreesFor(folders, rankA, a, parent, ta);
    SortedTreesFor(folders, rankB, b, parent, tb);
    SiblingsWithin(folders, rankA, a, rankB, b, parent, ta, tb);
    SiblingsWithin(folders, rankB, b, rankA, a, parent, tb, ta);
    SameSort(ta, tb);
  }

  lemma SameSort(ta: seq<Tree>, tb: seq<Tree>)
    requires forall t :: t in ta <==> t in tb
    requires Sorting.StrictTotal(TreeBefore, Sorting.Elements(ta))
    requires Sorting.Sorted(TreeBefore, Sorting.Sort(TreeBefore, ta))
             && Sorting.Sorted(TreeBefore, Sorting.Sort(TreeBefore, tb))
    ensures Sorting.Sort(TreeBefore, ta) == Sorting.Sort(TreeBefore, tb)
  {
    Sorting.SameMembers(Sorting.Sort(TreeBefore, ta), ta);
    Sorting.SameMembers(Sorting.Sort(TreeBefore, tb), tb);
    assert Sorting.Elements(ta) == Sorting.Elements(tb);
    Sorting.SortedUnique(TreeBefore, Sorting.Sort(TreeBefore, ta), Sorting.Sort(TreeBefore, tb), Sorting.Elements(ta));
  }

  lemma TreesIgnoreMapOrder(folders: Folders, rankA: map<string, nat>, a: seq<Folder>, rankB: map<string, nat>,
                            b: seq<Folder>)
    requires Ranks(folders, rankA) && Ranks(folders, rankB) && Lists(folders, a) && Lists(folders, b)
    ensures Forests(folders, rankA, a) == Forests(folders, rankB, b)
  {
    TreesAreSiblings(folders, rankA, a, None);
    TreesAreSiblings(folders, rankB, b, None);
    forall c | c in folders && folders[c].parentID == None
      ensures TreeOf(folders, rankA, a, c) == TreeOf(folders, rankB, b, c)
    {
      TreeIgnoresMapOrder(folders, rankA, a, rankB, b, c);
    }
    SameSiblings(folders, rankA, a, rankB, b, None,
                 TreesOf(folders, rankA, a, None), TreesOf(folders, rankB, b, None));
  }

  // ----- The code -----

  datatype Index = Index(byID: Folders, children: map<string, seq<Folder>>, roots: seq<Folder>)

  function KidsOf(index: Index, id: string): (kids: seq<Folder>) {
    if id in index.children then index.children[id] else []
  }

  /** The index after one more folder. */
  function Indexed(index: Index, folder: Folder): (r: Index) {
    var known := index.(byID := index.byID[folder.id := folder]);
    match folder.parentID
    case None => known.(roots := known.roots + [folder])
    case Some(p) => known.(children := known.children[p := KidsOf(known, p) + [folder]])
  }

  function IndexOf(list: seq<Folder>): (index: Index) {
    if list == [] then Index(map[], map[], [])
    else Indexed(IndexOf(list[..|list| - 1]), list[|list| - 1])
  }

  /** `newFolderTreeIndex`. */
  method NewIndex(list: seq<Folder>) returns (index: Index)
    ensures index == IndexOf(list)
  {
    index := Index(map[], map[], []);
    for i := 0 to |list|
      invariant index == IndexOf(list[..i])
    {
      assert list[..i + 1][..i] == list[..i];
      var folder := list[i];
      index := index.(byID := index.byID[folder.id := folder]);
      if folder.parentID.None? {
        index := index.(roots := index.roots + [folder]);
      } else {
        index := index.(children := index.children[folder.parentID.value := KidsOf(index, folder.parentID.value)
                                                   + [folder]]);
      }
    }
    assert list[..|list|] == list;
  }

  /** The index answers with the children in list order, and with the roots. */
  lemma {:induction false} IndexAnswers(list: seq<Folder>, parent: Option<string>)
    ensures ChildrenIn(list, parent) == if parent.None?
            then IndexOf(list).roots else KidsOf(IndexOf(list), parent.value)
  {
    if list != [] {
      IndexAnswers(list[..|list| - 1], parent);
    }
  }

  lemma {:induction false} IndexHolds(folders: Folders, list: seq<Folder>)
    requires forall x | x in list :: x.id in folders && folders[x.id] == x
    ensures forall id :: id in IndexOf(list).byID ==> id in folders && IndexOf(list).byID[id] == folders[id]
    ensures forall x | x in list :: x.id in IndexOf(list).byID
  {
    if list != [] {
      IndexHolds(folders, list[..|list| - 1]);
      assert list == list[..|list| - 1] + [list[|list| - 1]];
    }
  }

  lemma IndexIsTable(folders: Folders, list: seq<Folder>)
    requires Lists(folders, list)
    ensures IndexOf(list).byID == folders
  {
    IndexHolds(folders, list);
    forall f | f in folders ensures f in IndexOf(list).byID {
      assert folders[f] in list;
    }
  }

  /** The trees built so far are those of the first children. */
  ghost predicate Built(folders: Folders, rank: map<string, nat>, list: seq<Folder>, parent: Option<string>,
                        trees: seq<Tree>)
    requires Ranks(folders, rank) && Lists(folders, list) && (parent.Some? ==> parent.value in folders)
  {
    trees <= TreesOf(folders, rank, list, parent)
  }

  lemma BuiltOneMore(folders: Folders, rank: map<string, nat>, list: seq<Folder>, parent: Option<string>,
                     trees: seq<Tree>, tree: Tree)
    requires Ranks(folders, rank) && Lists(folders, list) && (parent.Some? ==> parent.value in folders)
    requires Built(folders, rank, list, parent, trees) && |trees| < |ChildrenIn(list, parent)|
    requires var kid := ChildrenIn(list, parent)[|trees|];
             kid.id in folders ==> tree == TreeOf(folders, rank, list, kid.id)
    ensures Built(folders, rank, list, parent, trees + [tree])
  {
    TreeAt(folders, rank, list, parent, |trees|);
    PrefixGrows(trees, TreesOf(folders, rank, list, parent), tree);
  }

  lemma PrefixGrows(front: seq<Tree>, whole: seq<Tree>, next: Tree)
    requires front <= whole && |front| < |whole| && whole[|front|] == next
    ensures front + [next] <= whole
  {
  }

  /** A child as the loops below meet it: it is stored, and what lies below it is less. */
  lemma NextChild(folders: Folders, rank: map<string, nat>, list: seq<Folder>, parent: Option<string>, k: nat)
    requires Ranks(folders, rank) && Lists(folders, list) && (parent.Some? ==> parent.value in folders)
    requires k < |ChildrenIn(list, parent)|
    ensures var kid := ChildrenIn(list, parent)[k];
            kid.id in folders && Higher(folders, rank, Some(kid.id)) < Higher(folders, rank, parent)
  {
    assert ChildrenIn(list, parent)[k] in ChildrenIn(list, parent);
    ChildIsHigher(folders, rank, parent, ChildrenIn(list, parent)[k].id);
  }

  lemma AllBuilt(folders: Folders, rank: map<string, nat>, list: seq<Folder>, parent: Option<string>, trees: seq<Tree>)
    requires Ranks(folders, rank) && Lists(folders, list) && (parent.Some? ==> parent.value in folders)
    requires Built(folders, rank, list, parent, trees) && |trees| == |ChildrenIn(list, parent)|
    ensures trees == TreesOf(folders, rank, list, parent)
    ensures parent.Some? ==>
              TreeOf(folders, rank, list, parent.value) == Tree(folders[parent.value], Sorting.Sort(TreeBefore, trees))
    ensures parent.None? ==> Forests(folders, rank, list) == Sorting.Sort(TreeBefore, trees)
  {
  }

  /** `folderTree`: a loop over the children, a call for each, and a sort at the end. */
  method BuildTree(index: Index, ghost folders: Folders, ghost rank: map<string, nat>, ghost list: seq<Folder>,
                   id: string)
      returns (t: Tree)
    requires Ranks(folders, rank) && Lists(folders, list) && id in folders && index == IndexOf(list)
    ensures t == TreeOf(folders, rank, list, id)
    decreases Higher(folders, rank, Some(id))
  {
    IndexIsTable(folders, list);
    IndexAnswers(list, Some(id));
    var kids, children := KidsOf(index, id), [];
    for i := 0 to |kids|
      invariant |children| == i && Built(folders, rank, list, Some(id), children)
    {
      NextChild(folders, rank, list, Some(id), i);
      var child := BuildTree(index, folders, rank, list, kids[i].id);
      BuiltOneMore(folders, rank, list, Some(id), children, child);
      children := children + [child];
    }
    AllBuilt(folders, rank, list, Some(id), children);
    t := Tree(index.byID[id], Sorting.Sort(TreeBefore, children));
  }

  /** `folderTrees`. */
  method BuildTrees(ghost folders: Folders, ghost rank: map<string, nat>, list: seq<Folder>) returns (ts: seq<Tree>)
    requires Ranks(folders, rank) && Lists(folders, list)
    ensures ts == Forests(folders, rank, list)
  {
    var index := NewIndex(list);
    IndexAnswers(list, None);
    var trees := [];
    for i := 0 to |index.roots|
      invariant |trees| == i && Built(folders, rank, list, None, trees)
    {
      NextChild(folders, rank, list, None, i);
      var tree := BuildTree(index, folders, rank, list, index.roots[i].id);
      BuiltOneMore(folders, rank, list, None, trees, tree);
      trees := trees + [tree];
    }
    AllBuilt(folders, rank, list, None, trees);
    ts := Sorting.Sort(TreeBefore, trees);
  }

  /** `folderTrees` on a forest. */
  method ListTrees(ghost folders: Folders, list: seq<Folder>) returns (ts: seq<Tree>)
    requires Forest(folders) && Lists(folders, list)
    ensures Complete(folders, ts)
  {
    ghost var rank :| Ranks(folders, rank);
    ts := BuildTrees(folders, rank, list);
    TreesListEveryFolderOnce(folders, rank, list);
  }

  /** `folderTree` of one folder: it and all folders below it. */
  method ListTree(ghost folders: Folders, list: seq<Folder>, id: string) returns (t: Tree)
    requires Forest(folders) && Lists(folders, list) && id in folders
    ensures t.folder == folders[id] && Exact(folders, t) && InOrder(t)
  {
    ghost var rank :| Ranks(folders, rank);
    var index := NewIndex(list);
    t := BuildTree(index, folders, rank, list, id);
    TreeIsExact(folders, rank, list, id);
  }
}
