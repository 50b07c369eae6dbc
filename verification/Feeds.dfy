/** Feeds, the folder each new feed is given, and the search for a free folder name. */
module FeedOps {
  import opened Prelude
  import opened Entities
  import opened FolderGraph
  import opened FolderForest
  import opened Library
  import opened SystemFolders
  import opened FolderOps
  import Sorting
  import Text

  // ----- A free name among siblings -----

  function UsedNames(folders: Folders, parent: string): (used: set<string>) {
    set f | f in folders && folders[f].parentID == Some(parent) :: folders[f].name
  }

  function Candidate(base: string, suffix: nat): (name: string) {
    base + " (" + Text.Decimal(suffix) + ")"
  }

  lemma CandidatesDiffer(base: string, i: nat, j: nat)
    requires Candidate(base, i) == Candidate(base, j)
    ensures i == j
  {
    Text.DecimalInjective(base + " (", ")", i, j);
  }

  ghost predicate FirstFree(used: set<string>, base: string, k: nat) {
    k >= 2 && Candidate(base, k) !in used && forall i | 2 <= i < k :: Candidate(base, i) in used
  }

  lemma FirstFreeUnique(used: set<string>, base: string, j: nat, k: nat)
    requires FirstFree(used, base, j) && FirstFree(used, base, k)
    ensures j == k
  {
  }

  /** The unbounded search of `uniqueFeedFolderName`. Distinct suffixes give distinct names, so
      by pigeonhole it looks at no more names than are used, plus one. */
  method SearchFree(used: set<string>, base: string) returns (k: nat, tries: nat)
    requires base in used
    ensures FirstFree(used, base, k)
    ensures tries == k - 1 <= |used|
  {
    k, tries := 2, 1;
    ghost var taken: set<string> := {};
    while Candidate(base, k) in used
      invariant k >= 2 && tries == k - 1
      invariant taken <= used - {base} && |taken| == k - 2
      invariant forall n | n in taken :: exists i | 2 <= i < k :: n == Candidate(base, i)
      invariant forall i | 2 <= i < k :: Candidate(base, i) in used
      decreases |used - {base}| - |taken|
    {
      forall n | n in taken ensures n != Candidate(base, k) {
        var i :| 2 <= i < k && n == Candidate(base, i);
        if n == Candidate(base, k) {
          CandidatesDiffer(base, i, k);
        }
      }
      assert |Candidate(base, k)| > |base|;
      ghost var taken' := taken + {Candidate(base, k)};
      CardinalityBound(taken', used - {base});
      taken := taken';
      k, tries := k + 1, tries + 1;
    }
    CardinalityBound(taken, used - {base});
  }

  lemma {:induction false} CardinalityBound(a: set<string>, b: set<string>)
    requires a <= b
    ensures |a| <= |b|
  {
    if a != {} {
      var x :| x in a;
      CardinalityBound(a - {x}, b - {x});
    }
  }

  ghost function FirstFreeOf(used: set<string>, base: string): (k: nat)
    requires base in used
    ensures FirstFree(used, base, k)
  {
    FirstFreeExists(used, base);
    var k :| FirstFree(used, base, k);
    k
  }

  lemma FirstFreeExists(used: set<string>, base: string)
    requires base in used
    ensures exists k :: FirstFree(used, base, k)
  {
    if forall k | k >= 2 :: Candidate(base, k) in used {
      var taken := CandidatesUpTo(base, |used| + 1);
      CardinalityBound(taken, used);
    } else {
      var k: nat :| k >= 2 && Candidate(base, k) !in used;
      var least := LeastFree(used, base, k);
    }
  }

  lemma {:induction false} CandidatesUpTo(base: string, count: nat) returns (names: set<string>)
    ensures |names| == count
    ensures forall n | n in names :: exists i | 2 <= i < count + 2 :: n == Candidate(base, i)
  {
    if count == 0 {
      names := {};
    } else {
      var fewer := CandidatesUpTo(base, count - 1);
      forall n | n in fewer ensures n != Candidate(base, count + 1) {
        var i :| 2 <= i < count + 1 && n == Candidate(base, i);
        if n == Candidate(base, count + 1) {
          CandidatesDiffer(base, i, count + 1);
        }
      }
      names := fewer + {Candidate(base, count + 1)};
    }
  }

  lemma {:induction false} LeastFree(used: set<string>, base: string, k: nat) returns (least: nat)
    requires k >= 2 && Candidate(base, k) !in used
    ensures FirstFree(used, base, least)
  {
    if i: nat :| 2 <= i < k && Candidate(base, i) !in used {
      least := LeastFree(used, base, i);
    } else {
      least := k;
    }
  }

  ghost function UniqueName(env: Env, used: set<string>, wanted: string): (name: string)
    ensures name !in used
  {
    var trimmed := env.trim(wanted);
    var base := if trimmed == "" then "Feed" else trimmed;
    if base !in used then base else Candidate(base, FirstFreeOf(used, base))
  }

  /** `uniqueFeedFolderName`. */
  method UniqueFeedFolderName(env: Env, folders: Folders, parent: string, wanted: string) returns (name: string)
    ensures name == UniqueName(env, UsedNames(folders, parent), wanted)
    ensures forall f | f in folders && folders[f].parentID == Some(parent) :: folders[f].name != name
  {
    var base := env.trim(wanted);
    if base == "" {
      base := "Feed";
    }
    var used := UsedNames(folders, parent);
    if base !in used {
      return base;
    }
    var k, tries := SearchFree(used, base);
    FirstFreeUnique(used, base, k, FirstFreeOf(used, base));
    return Candidate(base, k);
  }

  // ----- The sort order of a new feed folder -----

  /** The loop of `nextChildFolderSortOrder` over the sort orders of the children, in the order
      the map yields them. */
  function NextSortOrder(orders: seq<int>): (next: int)
    ensures next >= 10
  {
    if orders == [] then 10
    else
      var next := NextSortOrder(orders[..|orders| - 1]);
      var last := orders[|orders| - 1];
      if last >= next then last + 10 else next
  }

  /** The new folder sorts after every child. */
  lemma {:induction false} SortsAfterChildren(orders: seq<int>, k: int)
    requires k in orders
    ensures k < NextSortOrder(orders)
  {
    if k in orders[..|orders| - 1] {
      SortsAfterChildren(orders[..|orders| - 1], k);
    }
  }

  /** The children of a folder, each once, in some order of the map. */
  ghost predicate ListsChildren(folders: Folders, parent: string, children: seq<string>) {
    && (forall f :: f in children <==> f in folders && folders[f].parentID == Some(parent))
    && Sorting.Distinct(children)
  }

  /** Their sort orders. */
  function OrdersOf(folders: Folders, children: seq<string>): (orders: seq<int>)
    requires forall f | f in children :: f in folders
  {
    seq(|children|, k requires 0 <= k < |children| => assert children[k] in children; folders[children[k]].sortOrder)
  }

  /** The number that the loop finds when the map yields the children in this order. */
  function NextAfter(folders: Folders, children: seq<string>): (next: int)
    requires forall f | f in children :: f in folders
  {
    NextSortOrder(OrdersOf(folders, children))
  }

  /** The loop ends ten above some child, unless no child reaches 10. */
  lemma {:induction false} TenAboveSome(orders: seq<int>)
    ensures NextSortOrder(orders) == 10 || exists y | y in orders :: y >= 10 && NextSortOrder(orders) == y + 10
  {
    if orders != [] {
      var front, last := orders[..|orders| - 1], orders[|orders| - 1];
      TenAboveSome(front);
      assert last in orders;
      assert forall y | y in front :: y in orders;
    }
  }

  /** No child of the folder sorts behind child `m`. */
  ghost predicate LastChild(folders: Folders, parent: string, m: string) {
    && m in folders && folders[m].parentID == Some(parent)
    && forall f | f in folders && folders[f].parentID == Some(parent) :: folders[f].sortOrder <= folders[m].sortOrder
  }

  /** Child `y` reaches 10 and comes less than ten before the last child `m`. */
  ghost predicate Clash(folders: Folders, parent: string, m: string, y: string) {
    && LastChild(folders, parent, m) && y in folders && folders[y].parentID == Some(parent)
    && 10 <= folders[y].sortOrder < folders[m].sortOrder < folders[y].sortOrder + 10
  }

  ghost predicate Clashes(folders: Folders, parent: string) {
    exists m, y :: Clash(folders, parent, m, y)
  }

  lemma OrderIn(folders: Folders, parent: string, children: seq<string>, k: int) returns (f: string)
    requires ListsChildren(folders, parent, children) && k in OrdersOf(folders, children)
    ensures f in folders && folders[f].parentID == Some(parent) && folders[f].sortOrder == k
  {
    var i :| 0 <= i < |children| && OrdersOf(folders, children)[i] == k;
    f := children[i];
    assert f in children;
  }

  lemma ChildOrderIn(folders: Folders, parent: string, children: seq<string>, f: string)
    requires ListsChildren(folders, parent, children) && f in folders && folders[f].parentID == Some(parent)
    ensures folders[f].sortOrder in OrdersOf(folders, children)
  {
    var i :| 0 <= i < |children| && children[i] == f;
    assert OrdersOf(folders, children)[i] == folders[f].sortOrder;
  }

  /** Without a clash the number is ten above the last child, and 10 when no child reaches 10, in
      whatever order the children are met. */
  lemma NumberWithoutClash(folders: Folders, parent: string, children: seq<string>)
    requires ListsChildren(folders, parent, children) && !Clashes(folders, parent)
    ensures forall m | LastChild(folders, parent, m) ::
              NextAfter(folders, children) == if folders[m].sortOrder >= 10 then folders[m].sortOrder + 10 else 10
    ensures NextAfter(folders, children) == 10 || exists f | f in folders :: folders[f].parentID == Some(parent)
  {
    var orders := OrdersOf(folders, children);
    TenAboveSome(orders);
    if NextSortOrder(orders) != 10 {
      var k :| k in orders && k >= 10 && NextSortOrder(orders) == k + 10;
      var y := OrderIn(folders, parent, children, k);
    }
    forall m | LastChild(folders, parent, m)
      ensures NextAfter(folders, children) == if folders[m].sortOrder >= 10 then folders[m].sortOrder + 10 else 10
    {
      ChildOrderIn(folders, parent, children, m);
      SortsAfterChildren(orders, folders[m].sortOrder);
      if NextSortOrder(orders) != 10 {
        var k :| k in orders && k >= 10 && NextSortOrder(orders) == k + 10;
        var y := OrderIn(folders, parent, children, k);
        assert !Clash(folders, parent, m, y);
      }
    }
  }

  lemma {:induction false} SomeLastChild(folders: Folders, parent: string, children: seq<string>) returns (m: string)
    requires children != [] && forall f | f in children :: f in folders && folders[f].parentID == Some(parent)
    ensures m in children && forall f | f in children :: folders[f].sortOrder <= folders[m].sortOrder
  {
    var front, last := children[..|children| - 1], children[|children| - 1];
    assert children == front + [last];
    m := last;
    if front != [] {
      var before := SomeLastChild(folders, parent, front);
      if folders[before].sortOrder > folders[last].sortOrder {
        m := before;
      }
    }
  }

  /** A first child that reaches 10, with none more than nine behind it, fixes the number. */
  lemma {:induction false} FirstChildFixes(orders: seq<int>)
    requires orders != [] && orders[0] >= 10 && forall k | k in orders :: k < orders[0] + 10
    ensures NextSortOrder(orders) == orders[0] + 10
  {
    var front, last := orders[..|orders| - 1], orders[|orders| - 1];
    assert last in orders;
    if |orders| > 1 {
      assert forall k | k in front :: k in orders;
      FirstChildFixes(front);
    } else {
      assert NextSortOrder(front) == 10;
    }
  }

  lemma {:induction false} Enumerated(names: set<string>) returns (list: seq<string>)
    ensures Sorting.Distinct(list) && forall n :: n in list <==> n in names
  {
    if names == {} {
      list := [];
    } else {
      var n :| n in names;
      var rest := Enumerated(names - {n});
      list := [n] + rest;
    }
  }

  lemma ListedFirst(folders: Folders, parent: string, f: string) returns (children: seq<string>)
    requires f in folders && folders[f].parentID == Some(parent)
    ensures ListsChildren(folders, parent, children) && children[0] == f
  {
    var rest := Enumerated((set g | g in folders && folders[g].parentID == Some(parent)) - {f});
    children := [f] + rest;
  }

  lemma NumberWhenFirst(folders: Folders, parent: string, children: seq<string>)
    requires ListsChildren(folders, parent, children) && children != [] && children[0] in folders
    requires folders[children[0]].sortOrder >= 10
    requires forall f | f in folders && folders[f].parentID == Some(parent) ::
               folders[f].sortOrder < folders[children[0]].sortOrder + 10
    ensures NextAfter(folders, children) == folders[children[0]].sortOrder + 10
  {
    var orders := OrdersOf(folders, children);
    forall k | k in orders ensures k < orders[0] + 10 {
      var f := OrderIn(folders, parent, children, k);
    }
    FirstChildFixes(orders);
  }

  /** The number is the same for every order in which the map can yield the children exactly if no
      child clashes with the last one. So it is an input of the feed specification below. */
  lemma SortOrderDependsOnMapOrder(folders: Folders, parent: string)
    ensures (forall a, b | ListsChildren(folders, parent, a) && ListsChildren(folders, parent, b) ::
               NextAfter(folders, a) == NextAfter(folders, b))
            <==> !Clashes(folders, parent)
  {
    if m, y :| Clash(folders, parent, m, y) {
      var a := ListedFirst(folders, parent, m);
      var b := ListedFirst(folders, parent, y);
      NumberWhenFirst(folders, parent, a);
      NumberWhenFirst(folders, parent, b);
    } else {
      forall a, b | ListsChildren(folders, parent, a) && ListsChildren(folders, parent, b)
        ensures NextAfter(folders, a) == NextAfter(folders, b)
      {
        NumberWithoutClash(folders, parent, a);
        NumberWithoutClash(folders, parent, b);
        if f :| f in folders && folders[f].parentID == Some(parent) {
          var children := ListedFirst(folders, parent, f);
          var m := SomeLastChild(folders, parent, children);
          assert LastChild(folders, parent, m);
        }
      }
    }
  }

  /** A number that the loop can come to over the children in some order of the map. */
  ghost predicate Yields(folders: Folders, parent: string, next: int) {
    exists children :: ListsChildren(folders, parent, children) && NextAfter(folders, children) == next
  }

  /** The sort order that the folder of a new feed can get. */
  ghost predicate YieldsForFeed(env: Env, s: State, next: int) {
    var (s1, parent) := Ensured(env, s, ROLE_FEEDS);
    Yields(s1.folders, parent, next)
  }

  /** A folder table with a clash: children at 15 and 20. Met in this order they give 25, in the
      other order 30. */
  lemma ClashExample()
    ensures var folders: Folders := map[
              "a" := Folder("a", Some("p"), "a", None, 15, 0, 0),
              "b" := Folder("b", Some("p"), "b", None, 20, 0, 0)];
            && Clashes(folders, "p") && ListsChildren(folders, "p", ["a", "b"])
               && ListsChildren(folders, "p", ["b", "a"])
            && NextAfter(folders, ["a", "b"]) == 25 && NextAfter(folders, ["b", "a"]) == 30
  {
    var folders: Folders := map[
      "a" := Folder("a", Some("p"), "a", None, 15, 0, 0),
      "b" := Folder("b", Some("p"), "b", None, 20, 0, 0)];
    assert Clash(folders, "p", "b", "a");
    NumberWhenFirst(folders, "p", ["a", "b"]);
    NumberWhenFirst(folders, "p", ["b", "a"]);
  }

  // ----- Feed operations -----

  datatype CreateFeedInput = CreateFeedInput(url: string, title: Option<string>, folderID: Option<string>,
                                             enabled: Option<bool>)

  datatype UpdateFeedInput = UpdateFeedInput(
    url: Option<string>, title: Option<Option<string>>, folderID: Option<string>, enabled: Option<bool>)

  function ValidateFeedURL(env: Env, value: string): (r: Result<string>)
    ensures r.Ok? ==> r.value != ""
  {
    var trimmed := env.trim(value);
    if trimmed == "" then Err(Validation("feed url is required"))
    else if !env.hasHost(trimmed) then Err(Validation("feed url is invalid"))
    else if !env.webScheme(trimmed) then Err(Validation("feed url must use http or https"))
    else Ok(trimmed)
  }

  function OptionalText(env: Env, value: Option<string>): (r: Option<string>) {
    match value case None => None case Some(v) => OptionalString(env, v)
  }

  /** `FeedByURL`: through the index, then the table. */
  function FeedByURL(s: State, url: string): (f: Option<string>) {
    if url in s.feedURLs && s.feedURLs[url] in s.feeds then Some(s.feedURLs[url]) else None
  }

  /** `feedFolderBaseName`; the part computed from the URL is the environment's. */
  function FolderBaseName(env: Env, title: Option<string>, url: string): (name: string) {
    match OptionalText(env, title) case Some(t) => t case None => env.feedHostName(url)
  }

  /** `createFeedDocumentFolder`: a folder of a fresh name under Feeds. */
  ghost function FeedFolderCreated(env: Env, s: State, title: Option<string>, url: string,
                                   sortOrder: int): (r: (State, string)) {
    var (s1, parent) := Ensured(env, s, ROLE_FEEDS);
    var name := UniqueName(env, UsedNames(s1.folders, parent), FolderBaseName(env, title, url));
    var now := Now(env, s1);
    var id := NewID(env, s1.next, "folder");
    (WithFolder(Drawn(s1), Folder(id, Some(parent), name, None, sortOrder, now, now)), id)
  }

  ghost function CreateFeedSpec(env: Env, s: State, input: CreateFeedInput,
                                sortOrder: int): (r: Result<(State, string)>) {
    var url :- ValidateFeedURL(env, input.url);
    if FeedByURL(s, url).Some? then Err(Conflict("feed url already exists"))
    else if input.folderID.Some? && env.trim(input.folderID.value) != "" then
      Err(Validation("feed folder is assigned automatically"))
    else
      Ok(FeedAdded(env, s, url, OptionalText(env, input.title), input.enabled.None? || input.enabled.value, sortOrder))
  }

  /** The new feed with the folder it is given. */
  ghost function FeedAdded(env: Env, s: State, url: string, title: Option<string>, enabled: bool, sortOrder: int)
    : (r: (State, string))
  {
    var now := Now(env, s);
    var (s1, folderID) := FeedFolderCreated(env, s, title, url, sortOrder);
    var id := NewID(env, s1.next, "feed");
    (WithFeed(Drawn(s1), Feed(id, url, title, Some(folderID), enabled, None, now, now)), id)
  }

  /** `normalizeFeedFolder`. */
  function FeedFolder(env: Env, s: State, value: string): (r: Result<Option<string>>)
    ensures r.Ok? && r.value.Some? ==> r.value.value in s.folders
  {
    var id := env.trim(value);
    if id == "" then Ok(None)
    else if id !in s.folders then Err(NotFound("folder"))
    else if HasRoleAncestor(s.folders, id, ROLE_TRASH) then Err(Validation("folder cannot be trash"))
    else Ok(Some(id))
  }

  function UpdateFeedSpec(env: Env, s: State, id: string, input: UpdateFeedInput): (r: Result<State>) {
    if id !in s.feeds then Err(NotFound("feed"))
    else
      var feed := s.feeds[id];
      var url :- if input.url.None? then Ok(feed.url) else ValidateFeedURL(env, input.url.value);
      if input.url.Some? && FeedByURL(s, url).Some? && FeedByURL(s, url) != Some(id) then
        Err(Conflict("feed url already exists"))
      else
        var folderID :- if input.folderID.None? then Ok(feed.folderID) else FeedFolder(env, s, input.folderID.value);
        Ok(WithFeed(s, feed.(
          url := url,
          title := if input.title.Some? then OptionalText(env, input.title.value) else feed.title,
          folderID := folderID,
          enabled := if input.enabled.Some? then input.enabled.value else feed.enabled,
          updatedAt := Now(env, s))))
  }

  function DeleteFeedSpec(s: State, id: string): (r: Result<State>) {
    if id !in s.feeds then Err(NotFound("feed")) else Ok(WithoutFeed(s, id))
  }

  // ----- Invariants -----

  /** Storing a feed whose URL no other feed has keeps the URL index an exact inverse. */
  lemma FeedKeepsInv(s: State, feed: Feed)
    requires Inv(s) && Known(s.next, feed.id)
    requires feed.folderID.Some? ==> feed.folderID.value in s.folders
    requires feed.url in s.feedURLs ==> s.feedURLs[feed.url] == feed.id
    ensures Inv(WithFeed(s, feed))
  {
    var s' := WithFeed(s, feed);
    FeedsSound(s);
    forall f | f in s'.feeds ensures s'.feeds[f].url in s'.feedURLs && s'.feedURLs[s'.feeds[f].url] == f {
      if f != feed.id {
        assert s.feeds[f].url in s.feedURLs;
      }
    }
    assert FeedsInv(s.next, s'.feeds, s'.feedURLs, s.folders.Keys);
    FeedsReplaced(s, s'.feeds, s'.feedURLs);
  }

  lemma FeedFolderCreatedKeepsInv(env: Env, s: State, title: Option<string>, url: string, sortOrder: int)
    requires Inv(s)
    ensures var (s', id) := FeedFolderCreated(env, s, title, url, sortOrder);
            && Inv(s') && id in s'.folders && id !in s.folders
            && s' == s.(next := s.next + 1, folders := s'.folders)
            && s.folders.Keys <= s'.folders.Keys
            && s'.folders[id].parentID.Some?
            && s'.folders[s'.folders[id].parentID.value].systemRole == Some(ROLE_FEEDS)
  {
    var (s1, parent) := Ensured(env, s, ROLE_FEEDS);
    FoldersSound(s);
    EnsuredKeepsInv(env, s, ROLE_FEEDS);
    FoldersSound(s1);
    EnsuredInKeepsInv(s.next, s.folders, Now(env, s), ROLE_FEEDS);
    var (s', id) := FeedFolderCreated(env, s, title, url, sortOrder);
    NewIDFresh(env, s1.next, "folder");
    var folder := s'.folders[id];
    forall f | f in s1.folders ensures s1.folders[f].name != folder.name || s1.folders[f].parentID != folder.parentID {
      if s1.folders[f].parentID == Some(parent) {
        assert s1.folders[f].name in UsedNames(s1.folders, parent);
      }
    }
    NewFolderKeepsInv(s1, folder);
    assert s' == WithFolder(Drawn(s1), folder);
  }

  /** The lookup by URL finds a feed exactly when some feed has the URL. */
  lemma FeedByURLExact(s: State, url: string)
    requires Inv(s)
    ensures FeedByURL(s, url) == if url in s.feedURLs then Some(s.feedURLs[url]) else None
    ensures FeedByURL(s, url).None? <==> forall f | f in s.feeds :: s.feeds[f].url != url
  {
    FeedsSound(s);
  }

  lemma NewFeedKeepsInv(env: Env, s: State, feed: Feed)
    requires Inv(s) && feed.id == NewID(env, s.next, "feed")
    requires feed.folderID.Some? ==> feed.folderID.value in s.folders
    requires feed.url !in s.feedURLs
    ensures Inv(WithFeed(Drawn(s), feed)) && feed.id !in s.feeds
  {
    FeedsSound(s);
    NewIDFresh(env, s.next, "feed");
    DrawKeepsInv(s);
    FeedKeepsInv(Drawn(s), feed);
  }

  lemma CreateFeedKeepsInv(env: Env, s: State, input: CreateFeedInput, sortOrder: int, s': State, id: string)
    requires Inv(s) && CreateFeedSpec(env, s, input, sortOrder) == Ok((s', id))
    ensures Inv(s') && id in s'.feeds && id !in s.feeds
  {
    var url, title := ValidateFeedURL(env, input.url).value, OptionalText(env, input.title);
    var s1 := FeedFolderCreated(env, s, title, url, sortOrder).0;
    FeedFolderCreatedKeepsInv(env, s, title, url, sortOrder);
    FeedByURLExact(s, url);
    var feed := s'.feeds[id];
    assert s' == WithFeed(Drawn(s1), feed);
    NewFeedKeepsInv(env, s1, feed);
  }

  /** Creating a feed adds the feed and its folder, and touches no document, item or tag. */
  lemma CreateFeedOutcome(env: Env, s: State, input: CreateFeedInput, sortOrder: int, s': State, id: string)
    requires Inv(s) && CreateFeedSpec(env, s, input, sortOrder) == Ok((s', id))
    ensures s' == s.(next := s'.next, folders := s'.folders, feeds := s.feeds[id := s'.feeds[id]],
                     feedURLs := s'.feedURLs)
    ensures s'.feeds[id].enabled == (input.enabled.None? || input.enabled.value)
            && s'.feeds[id].url == env.trim(input.url)
    ensures s'.feeds[id].folderID.Some? && s'.feeds[id].folderID.value in s'.folders
            && s'.feeds[id].folderID.value !in s.folders
  {
    var url, title := ValidateFeedURL(env, input.url).value, OptionalText(env, input.title);
    FeedFolderCreatedKeepsInv(env, s, title, url, sortOrder);
  }

  lemma UpdateFeedKeepsInv(env: Env, s: State, id: string, input: UpdateFeedInput, s': State)
    requires Inv(s) && UpdateFeedSpec(env, s, id, input) == Ok(s')
    ensures Inv(s')
  {
    var feed := s'.feeds[id];
    FeedByURLExact(s, feed.url);
    FeedsSound(s);
    assert s' == WithFeed(s, feed);
    assert feed.url in s.feedURLs ==> s.feedURLs[feed.url] == id;
    FeedKeepsInv(s, feed);
  }

  /** Deleting a feed takes its URL and its items along; documents stay. */
  lemma DeleteFeedKeepsInv(s: State, id: string)
    requires Inv(s) && id in s.feeds
    ensures Inv(WithoutFeed(s, id)) && WithoutFeed(s, id).docs == s.docs
  {
    var s' := WithoutFeed(s, id);
    forall part: Part ensures Sound(s', part) {
      assert Sound(s, part);
      if part.ItemsPart? {
        RemoveItems(s.next, s.items, s.feeds.Keys, s.docs.Keys, id);
      }
    }
  }

  lemma RemoveItems(next: nat, items: Items, feedIDs: set<string>, docIDs: set<string>, id: string)
    requires ItemsInv(next, items, feedIDs, docIDs)
    ensures ItemsInv(next, items - {id}, feedIDs - {id}, docIDs)
  {
    var items' := items - {id};
    forall f, i | HasItem(items', f, i) ensures HasItem(items, f, i) && items'[f][i] == items[f][i] {
    }
    forall f, i, j ensures Apart(items', f, i, j) {
      assert Apart(items, f, i, j);
    }
    forall f, i, g, j ensures LinkedApart(items', f, i, g, j) {
      assert LinkedApart(items, f, i, g, j);
    }
  }
}
