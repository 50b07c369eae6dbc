/** The feed operations of the service, and the import loop, as they run on a transaction's state
    object. */
module FeedService {
  import opened Prelude
  import opened Entities
  import opened FolderGraph
  import opened FolderForest
  import opened Library
  import opened SystemFolders
  import opened FeedOps
  import opened DocumentOps
  import opened FeedItems
  import opened FeedImport
  import opened ImportProofs
  import opened Store
  import opened FolderService
  import opened DocumentService
  import Sorting

  // ----- Feeds -----

  /** `nextChildFolderSortOrder`: `children` is the order in which the map yielded the children. */
  method NextChildSortOrder(folders: Folders, parent: string) returns (next: int, ghost children: seq<string>)
    ensures ListsChildren(folders, parent, children) && next == NextAfter(folders, children)
    ensures next >= 10 && forall f | f in folders && folders[f].parentID == Some(parent) :: folders[f].sortOrder < next
  {
    next, children := 10, [];
    var rest := folders.Keys;
    while rest != {}
      invariant rest <= folders.Keys && Sorting.Distinct(children)
      invariant forall f :: f in children <==> f in folders && f !in rest && folders[f].parentID == Some(parent)
      invariant next == NextAfter(folders, children)
      decreases rest
    {
      var f :| f in rest;
      if folders[f].parentID == Some(parent) {
        NextAfterOneMore(folders, children, f);
        if folders[f].sortOrder >= next {
          next := folders[f].sortOrder + 10;
        }
        children := children + [f];
      }
      rest := rest - {f};
    }
    forall f | f in folders && folders[f].parentID == Some(parent) ensures folders[f].sortOrder < next {
      ChildOrderIn(folders, parent, children, f);
      SortsAfterChildren(OrdersOf(folders, children), folders[f].sortOrder);
    }
  }

  lemma NextAfterOneMore(folders: Folders, children: seq<string>, f: string)
    requires f in folders && forall g | g in children :: g in folders
    ensures NextAfter(folders, children + [f])
         == if folders[f].sortOrder >= NextAfter(folders, children)
             then folders[f].sortOrder + 10 else NextAfter(folders, children)
  {
    var more := OrdersOf(folders, children + [f]);
    assert more[..|more| - 1] == OrdersOf(folders, children);
  }

  /** `createFeedDocumentFolder`. */
  method CreateFeedFolder(tx: Store, env: Env, title: Option<string>, url: string) returns (id: string, sortOrder: int)
    requires tx.Valid() && Inv(tx.view)
    modifies tx`next, tx`view, tx.folders
    ensures tx.Valid() && tx.Grown()
    ensures (tx.view, id) == FeedFolderCreated(env, old(tx.view), title, url, sortOrder)
    ensures YieldsForFeed(env, old(tx.view), sortOrder)
  {
    InvIsSearchable(tx.view, ROLE_FEEDS);
    var parent := EnsureRole(tx, env, ROLE_FEEDS);
    var name := UniqueFeedFolderName(env, tx.FolderMap(), parent, FolderBaseName(env, title, url));
    var now := env.clock(tx.Counter());
    id := tx.NextID(env, "folder");
    ghost var children;
    sortOrder, children := NextChildSortOrder(tx.FolderMap(), parent);
    tx.PutFolder(Folder(id, Some(parent), name, None, sortOrder, now, now));
  }

  /** `FeedByURL`. */
  method FindFeedByURL(tx: Store, url: string) returns (f: Option<string>)
    requires tx.Valid()
    ensures f == FeedByURL(tx.view, url)
  {
    if url !in tx.URLMap() || tx.URLMap()[url] !in tx.FeedMap() {
      return None;
    }
    return Some(tx.URLMap()[url]);
  }

  /** The writes of `CreateFeed`. */
  method AddFeed(tx: Store, env: Env, url: string, title: Option<string>, enabled: bool)
      returns (feed: Feed, sortOrder: int)
    requires tx.Valid() && Inv(tx.view)
    modifies tx`next, tx`view, tx.folders, tx.feeds, tx.feedURLs
    ensures tx.Valid() && tx.Grown()
    ensures (tx.view, feed.id) == FeedAdded(env, old(tx.view), url, title, enabled, sortOrder)
    ensures feed.id in tx.view.feeds && feed == tx.view.feeds[feed.id]
    ensures YieldsForFeed(env, old(tx.view), sortOrder)
  {
    var now := env.clock(tx.Counter());
    var folderID;
    folderID, sortOrder := CreateFeedFolder(tx, env, title, url);
    var id := tx.NextID(env, "feed");
    feed := Feed(id, url, title, Some(folderID), enabled, None, now, now);
    tx.PutFeed(feed);
  }

  method CreateFeed(tx: Store, env: Env, input: CreateFeedInput) returns (r: Result<Feed>, sortOrder: int)
    requires tx.Valid() && Inv(tx.view)
    modifies tx`next, tx`view, tx.folders, tx.feeds, tx.feedURLs
    ensures tx.Valid() && tx.Grown()
    ensures match CreateFeedSpec(env, old(tx.view), input, sortOrder)
            case Ok(v) => tx.view == v.0 && v.1 in v.0.feeds && r == Ok(v.0.feeds[v.1])
            case Err(e) => r == Err(e)
    ensures r.Ok? ==> YieldsForFeed(env, old(tx.view), sortOrder)
  {
    sortOrder := 0;
    var url := ValidateFeedURL(env, input.url);
    if url.Err? {
      return Err(url.error), sortOrder;
    }
    var existing := FindFeedByURL(tx, url.value);
    if existing.Some? {
      return Err(Conflict("feed url already exists")), sortOrder;
    }
    if input.folderID.Some? && env.trim(input.folderID.value) != "" {
      return Err(Validation("feed folder is assigned automatically")), sortOrder;
    }
    var enabled := true;
    if input.enabled.Some? {
      enabled := input.enabled.value;
    }
    var feed;
    feed, sortOrder := AddFeed(tx, env, url.value, OptionalText(env, input.title), enabled);
    return Ok(feed), sortOrder;
  }

  /** `normalizeFeedFolder`. */
  method PlaceFeed(tx: Store, env: Env, value: string) returns (r: Result<Option<string>>)
    requires tx.Valid()
    ensures r == FeedFolder(env, tx.view, value)
  {
    var id := env.trim(value);
    if id == "" {
      return Ok(None);
    }
    if id !in tx.FolderMap() {
      return Err(NotFound("folder"));
    }
    var inTrash := WalkToRole(tx.FolderMap(), id, ROLE_TRASH);
    if inTrash {
      return Err(Validation("folder cannot be trash"));
    }
    return Ok(Some(id));
  }

  /** The URL part of `UpdateFeed`. */
  method CheckNewURL(tx: Store, env: Env, id: string, value: string) returns (r: Result<string>)
    requires tx.Valid()
    ensures r == match ValidateFeedURL(env, value)
                 case Err(e) => Err(e)
                 case Ok(url) =>
                   if FeedByURL(tx.view, url).Some? && FeedByURL(tx.view, url) != Some(id)
                      then Err(Conflict("feed url already exists"))
                   else Ok(url)
  {
    r := ValidateFeedURL(env, value);
    if r.Ok? {
      var existing := FindFeedByURL(tx, r.value);
      if existing.Some? && existing.value != id {
        return Err(Conflict("feed url already exists"));
      }
    }
  }

  /** The other parts of `UpdateFeed`, on a feed whose URL is settled. */
  method ChangeFeed(tx: Store, env: Env, feed: Feed, input: UpdateFeedInput) returns (r: Result<Feed>)
    requires tx.Valid()
    ensures r == match (if input.folderID.None?
                        then Ok(feed.folderID) else FeedFolder(env, tx.view, input.folderID.value))
                 case Err(e) => Err(e)
                 case Ok(folderID) => Ok(feed.(
                   title := if input.title.Some? then OptionalText(env, input.title.value) else feed.title,
                   folderID := folderID,
                   enabled := if input.enabled.Some? then input.enabled.value else feed.enabled,
                   updatedAt := Now(env, tx.view)))
  {
    var changed := feed;
    if input.title.Some? {
      changed := changed.(title := OptionalText(env, input.title.value));
    }
    if input.folderID.Some? {
      var folderID := PlaceFeed(tx, env, input.folderID.value);
      if folderID.Err? {
        return Err(folderID.error);
      }
      changed := changed.(folderID := folderID.value);
    }
    if input.enabled.Some? {
      changed := changed.(enabled := input.enabled.value);
    }
    return Ok(changed.(updatedAt := env.clock(tx.Counter())));
  }

  method UpdateFeed(tx: Store, env: Env, id: string, input: UpdateFeedInput) returns (r: Result<Feed>)
    requires tx.Valid() && Inv(tx.view)
    modifies tx`view, tx.feeds, tx.feedURLs
    ensures tx.Valid() && tx.Grown()
    ensures match UpdateFeedSpec(env, old(tx.view), id, input)
            case Ok(s) => tx.view == s && id in s.feeds && r == Ok(s.feeds[id])
            case Err(e) => r == Err(e)
  {
    if id !in tx.FeedMap() {
      return Err(NotFound("feed"));
    }
    FeedIsKeyed(tx.view, id);
    var feed := tx.FeedMap()[id];
    if input.url.Some? {
      var url := CheckNewURL(tx, env, id, input.url.value);
      if url.Err? {
        return Err(url.error);
      }
      feed := feed.(url := url.value);
    }
    var changed := ChangeFeed(tx, env, feed, input);
    if changed.Err? {
      return Err(changed.error);
    }
    tx.PutFeed(changed.value);
    return Ok(changed.value);
  }

  method DeleteFeed(tx: Store, id: string) returns (r: Result<()>)
    requires tx.Valid()
    modifies tx`view, tx.feeds, tx.feedURLs, tx.items
    ensures tx.Valid() && tx.Grown()
    ensures Leaves(r, tx.view, DeleteFeedSpec(old(tx.view), id))
  {
    if id !in tx.FeedMap() {
      return Err(NotFound("feed"));
    }
    tx.DeleteFeed(id);
    return Ok(());
  }

  // ----- Import -----

  /** `linkedFeedDocumentIDs`. */
  method LinkedFeedDocuments(tx: Store) returns (ids: set<string>)
    requires tx.Valid()
    ensures ids == LinkedDocuments(tx.view)
  {
    ids := {};
    var feeds := tx.FeedMap().Keys;
    ghost var s := tx.view;
    while feeds != {}
      invariant feeds <= s.feeds.Keys
      invariant forall d :: d in ids <==> LinkedFrom(s, s.feeds.Keys - feeds, d)
      decreases feeds
    {
      var f :| f in feeds;
      var own := tx.ItemMap(f);
      assert own == ItemsOf(s.items, f);
      var more := ItemDocuments(own);
      LinkedFromOneMore(s, s.feeds.Keys - feeds, f);
      assert s.feeds.Keys - (feeds - {f}) == s.feeds.Keys - feeds + {f};
      ids, feeds := ids + more, feeds - {f};
    }
    assert s.feeds.Keys - {} == s.feeds.Keys;
  }

  ghost predicate LinkedFrom(s: State, feeds: set<string>, d: string) {
    exists f, i :: f in feeds && i in ItemsOf(s.items, f) && ItemsOf(s.items, f)[i].documentID == d
  }

  lemma LinkedFromOneMore(s: State, feeds: set<string>, f: string)
    ensures forall d :: LinkedFrom(s, feeds + {f}, d) <==>
              LinkedFrom(s, feeds, d) || exists i :: i in ItemsOf(s.items, f) && ItemsOf(s.items, f)[i].documentID == d
  {
    forall d | LinkedFrom(s, feeds, d) ensures LinkedFrom(s, feeds + {f}, d) {
      var g, i :| g in feeds && i in ItemsOf(s.items, g) && ItemsOf(s.items, g)[i].documentID == d;
      assert g in feeds + {f};
    }
    forall d | exists i :: i in ItemsOf(s.items, f) && ItemsOf(s.items, f)[i].documentID == d
      ensures LinkedFrom(s, feeds + {f}, d)
    {
      assert f in feeds + {f};
    }
  }

  method ItemDocuments(own: map<string, FeedItem>) returns (ids: set<string>)
    ensures forall d :: d in ids <==> exists i :: i in own && own[i].documentID == d
  {
    ids := {};
    var rest := own.Keys;
    while rest != {}
      invariant rest <= own.Keys
      invariant forall d :: d in ids <==> exists i :: i in own && i !in rest && own[i].documentID == d
      decreases rest
    {
      var i :| i in rest;
      ids, rest := ids + {own[i].documentID}, rest - {i};
    }
  }

  /** `FeedItems`: the items of a feed, in map order. */
  method ItemsOfFeed(tx: Store, feedID: string) returns (items: seq<FeedItem>)
    requires tx.Valid() && Inv(tx.view)
    ensures var own := ItemsOf(tx.view.items, feedID);
            && (forall i | i in own :: own[i] in items && own[i].id == i)
            && (forall k | 0 <= k < |items| :: items[k].id in own && own[items[k].id] == items[k])
  {
    var own := tx.ItemMap(feedID);
    assert own == ItemsOf(tx.view.items, feedID);
    ItemsSound(tx.view);
    forall i | i in own ensures own[i].id == i {
      assert HasItem(tx.view.items, feedID, i);
    }
    items := [];
    var rest := own.Keys;
    while rest != {}
      invariant rest <= own.Keys
      invariant forall i | i in own && i !in rest :: own[i] in items
      invariant forall k | 0 <= k < |items| :: items[k].id in own && own[items[k].id] == items[k]
      decreases rest
    {
      var i :| i in rest;
      items, rest := items + [own[i]], rest - {i};
    }
  }

  /** `orphanFeedDocumentIndex`. */
  class OrphanDocuments {
    var records: seq<Document>
    var linked: set<string>

    /** `newOrphanFeedDocumentIndex`. */
    constructor (documents: seq<Document>, linked: set<string>)
      ensures records == Sorting.Sort(Older, documents) && this.linked == linked
    {
      records := Sorting.Sort(Older, documents);
      this.linked := linked;
    }

    /** The search of `adopt`. */
    method Find(item: NormalItem) returns (k: nat)
      ensures k == FirstOrphan(records, linked, item)
    {
      for i := 0 to |records|
        invariant forall j | 0 <= j < i :: !MatchesOrphan(records[j], item) || records[j].meta.id in linked
      {
        if MatchesOrphan(records[i], item) && records[i].meta.id !in linked {
          FirstOrphanIs(records, linked, item, i);
          return i;
        }
      }
      FirstOrphanIs(records, linked, item, |records|);
      return |records|;
    }

    /** What `adopt` does with the document it found. */
    method AdoptAt(tx: Store, env: Env, feed: Feed, i: nat, ghost im: Import)
      requires tx.Valid() && tx.view == im.s && records == im.records && linked == im.linked
      requires i < |records| && this !in tx.docs.Repr && this !in tx.items.Repr
      modifies tx`view, this, tx.docs
      ensures tx.Valid() && tx.Grown()
      ensures var im' := Adopted(env, feed, im, i); tx.view == im'.s && records == im'.records && linked == im'.linked
    {
      var record := records[i];
      linked := linked + {record.meta.id};
      var move := Moves(tx.FolderMap(), record, feed);
      if move {
        record := record.(meta := record.meta.(folderID := feed.folderID, updatedAt := env.clock(tx.Counter())));
        records := records[i := record];
        var stored := new DocumentRecord(record);
        tx.PutDocument(stored);
      }
    }

    /** `adopt`. */
    method Adopt(tx: Store, env: Env, feed: Feed, item: NormalItem, ghost im: Import) returns (id: Option<string>)
      requires tx.Valid() && tx.view == im.s && records == im.records && linked == im.linked
      requires this !in tx.docs.Repr && this !in tx.items.Repr
      modifies tx`view, this, tx.docs
      ensures tx.Valid() && tx.Grown()
      ensures var k := FirstOrphan(im.records, im.linked, item);
              if k < |im.records| then
                var im' := Adopted(env, feed, im, k);
                id == Some(im.records[k].meta.id) && tx.view == im'.s && records == im'.records && linked == im'.linked
              else id.None? && unchanged(this) && tx.view == im.s
    {
      var i := Find(item);
      if i == |records| {
        return None;
      }
      id := Some(records[i].meta.id);
      AdoptAt(tx, env, feed, i, im);
    }
  }

  lemma FirstOrphanIs(records: seq<Document>, linked: set<string>, item: NormalItem, k: nat)
    requires k <= |records| && forall j | 0 <= j < k :: !MatchesOrphan(records[j], item) || records[j].meta.id in linked
    requires k < |records| ==> MatchesOrphan(records[k], item) && records[k].meta.id !in linked
    ensures FirstOrphan(records, linked, item) == k
  {
    var f := FirstOrphan(records, linked, item);
    assert f >= k;
  }

  /** `shouldMoveAdoptedFeedDocument`. */
  method Moves(folders: Folders, record: Document, feed: Feed) returns (move: bool)
    ensures move == ShouldMove(folders, record, feed)
  {
    if feed.folderID.None? {
      return false;
    }
    if record.meta.folderID.None? {
      return true;
    }
    if record.meta.folderID == feed.folderID {
      return false;
    }
    var inTrash := WalkToRole(folders, record.meta.folderID.value, ROLE_TRASH);
    return !inTrash;
  }

  /** `createFeedItemDocument`. */
  method CreateItemDocument(tx: Store, env: Env, feed: Feed, item: NormalItem) returns (r: Result<string>)
    requires tx.Valid() && Inv(tx.view)
    modifies tx`next, tx`view, tx.folders, tx.docs
    ensures tx.Valid() && tx.Grown()
    ensures Meets(r, tx.view, ItemDocumentCreated(env, old(tx.view), feed, item))
  {
    var folder := PlaceDocument(tx, env, WantedFolder(feed), true);
    if folder.Err? {
      return Err(folder.error);
    }
    var contents := [];
    if item.content != "" {
      var content := ContentRecord(tx, env, item.content, item.format);
      contents := [content];
    }
    var id := CreateIngested(tx, env, KIND_RSS, item.title, item.canonicalURL, item.sourceURL, folder.value, [],
                             contents);
    return Ok(id);
  }

  /** The loop's objects show the variables of the import. */
  ghost predicate Shows(tx: Store, index: OrphanDocuments, seen: FeedItemSet, im: Import)
    reads tx, index, seen
  {
    tx.view == im.s && index.records == im.records && index.linked == im.linked && seen.View() == im.seen
  }

  ghost predicate Separate(tx: Store, index: OrphanDocuments, seen: FeedItemSet)
    reads tx, tx.docs, tx.items
  {
    index !in tx.docs.Repr && index !in tx.items.Repr && seen !in tx.docs.Repr && seen !in tx.items.Repr
  }

  /** `adopt`, and `createFeedItemDocument` when there is nothing to adopt. */
  method DocumentForItem(tx: Store, env: Env, feed: Feed, item: NormalItem, index: OrphanDocuments, seen: FeedItemSet,
                         ghost im: Import) returns (r: Result<string>)
    requires tx.Valid() && Inv(tx.view) && Shows(tx, index, seen, im) && Separate(tx, index, seen)
    modifies tx`next, tx`view, tx.folders, tx.docs, index
    ensures tx.Valid() && tx.Grown()
    ensures match DocumentFor(env, feed, im, item)
            case Ok(v) => r == Ok(v.1) && Shows(tx, index, seen, v.0)
            case Err(e) => r == Err(e)
  {
    var adopted := index.Adopt(tx, env, feed, item, im);
    if adopted.Some? {
      return Ok(adopted.value);
    }
    r := CreateItemDocument(tx, env, feed, item);
  }

  /** `feedItemRecord`, stored, and its keys remembered. */
  method LinkNewItem(tx: Store, env: Env, feed: Feed, item: NormalItem, documentID: string, index: OrphanDocuments,
                     seen: FeedItemSet,
                     ghost im: Import) returns (aborted: bool)
    requires tx.Valid() && Shows(tx, index, seen, im) && Separate(tx, index, seen)
    modifies tx`next, tx`view, tx.items.Repr, seen
    ensures tx.Valid() && tx.Grown()
    ensures match ItemLinked(env, feed, im, item, documentID)
            case Ok(im') => !aborted && Shows(tx, index, seen, im')
            case Err(_) => aborted
  {
    var id := tx.NextID(env, "feed_item");
    aborted := tx.PutFeedItem(ItemRecord(id, feed.id, documentID, item, env.clock(tx.Counter())));
    seen.Add(item.guid, item.canonicalURL, item.contentHash, item.url);
  }

  /** The rest of a round, for an item that is new. */
  method ImportNewItem(tx: Store, env: Env, feed: Feed, item: NormalItem, index: OrphanDocuments, seen: FeedItemSet,
                       ghost im: Import) returns (failed: Option<Error>)
    requires tx.Valid() && Inv(tx.view) && Shows(tx, index, seen, im) && Separate(tx, index, seen)
    modifies tx`next, tx`view, tx.folders, tx.docs, tx.items.Repr, index, seen
    ensures tx.Valid() && tx.Grown()
    ensures match DocumentFor(env, feed, im, item)
            case Err(e) => failed == Some(e)
            case Ok(v) =>
              match ItemLinked(env, feed, v.0, item, v.1)
              case Err(e) => failed == Some(e)
              case Ok(im') => failed.None? && Shows(tx, index, seen, im')
  {
    var document := DocumentForItem(tx, env, feed, item, index, seen, im);
    if document.Err? {
      return Some(document.error);
    }
    ghost var im1 := DocumentFor(env, feed, im, item).value.0;
    var aborted := LinkNewItem(tx, env, feed, item, document.value, index, seen, im1);
    if aborted {
      return Some(Conflict("feed item already exists"));
    }
    return None;
  }

  /** One round of the loop of `ImportFeedItems`: whether the item was imported. */
  method ImportItem(tx: Store, env: Env, feed: Feed, item: ImportItem, index: OrphanDocuments, seen: FeedItemSet,
                    ghost im: Import) returns (r: Result<bool>)
    requires tx.Valid() && Inv(tx.view) && Shows(tx, index, seen, im) && Separate(tx, index, seen)
    modifies tx`next, tx`view, tx.folders, tx.docs, tx.items.Repr, index, seen
    ensures tx.Valid() && tx.Grown()
    ensures match ImportStep(env, feed, im, item)
            case Ok(im') => && r == Ok(im'.imported != im.imported) && Shows(tx, index, seen, im')
                            && im'.imported + im'.skipped == im.imported + im.skipped + 1
            case Err(e) => r == Err(e)
  {
    var normal := Normalized(env, item);
    if normal.None? {
      return Ok(false);
    }
    var known := seen.Has(normal.value);
    if known {
      return Ok(false);
    }
    var failed := ImportNewItem(tx, env, feed, normal.value, index, seen, im);
    if failed.Some? {
      return Err(failed.value);
    }
    CountersMove(env, feed, im, normal.value);
    return Ok(true);
  }

  lemma CountersMove(env: Env, feed: Feed, im: Import, item: NormalItem)
    requires DocumentFor(env, feed, im, item).Ok?
    requires var v := DocumentFor(env, feed, im, item).value; ItemLinked(env, feed, v.0, item, v.1).Ok?
    ensures var v := DocumentFor(env, feed, im, item).value;
            var im' := ItemLinked(env, feed, v.0, item, v.1).value;
            im'.imported == im.imported + 1 && im'.skipped == im.skipped
  {
  }

  lemma StepInv(env: Env, base: State, feed: Feed, im: Import, items: seq<ImportItem>, i: nat)
    requires i < |items| && ImportAll(env, feed, im, items[..i]).Ok?
    ensures items[..i + 1][..i] == items[..i]
    ensures ImportAll(env, feed, im, items[..i + 1])
            == ImportStep(env, feed, ImportAll(env, feed, im, items[..i]).value, items[i])
  {
    assert items[..i + 1][..i] == items[..i];
  }

  lemma {:induction false} ImportFailureStays(env: Env, feed: Feed, im: Import, items: seq<ImportItem>, k: nat)
    requires k <= |items| && ImportAll(env, feed, im, items[..k]).Err?
    ensures ImportAll(env, feed, im, items) == Err(ImportAll(env, feed, im, items[..k]).error)
  {
    if k == |items| {
      assert items[..k] == items;
    } else {
      assert items[..|items| - 1][..k] == items[..k];
      ImportFailureStays(env, feed, im, items[..|items| - 1], k);
    }
  }

  /** The round of the loop that deals with item `i`, with what it keeps of the loop's invariant. */
  method ImportNext(tx: Store, env: Env, feed: Feed, items: seq<ImportItem>, i: nat, index: OrphanDocuments,
                    seen: FeedItemSet, ghost base: State, ghost start: Import, ghost im: Import)
      returns (done: Result<bool>, ghost im': Import)
    requires tx.Valid() && Shows(tx, index, seen, im) && Separate(tx, index, seen) && ImportInv(base, feed, im)
    requires i < |items| && ImportAll(env, feed, start, items[..i]) == Ok(im)
    modifies tx`next, tx`view, tx.folders, tx.docs, tx.items.Repr, index, seen
    ensures tx.Valid() && tx.Grown()
    ensures match done
            case Err(e) => ImportAll(env, feed, start, items) == Err(e)
            case Ok(isNew) =>
              && Shows(tx, index, seen, im') && ImportInv(base, feed, im')
              && ImportAll(env, feed, start, items[..i + 1]) == Ok(im')
              && im'.imported == im.imported + (if isNew then 1 else 0)
              && im'.skipped == im.skipped + (if isNew then 0 else 1)
  {
    im' := im;
    StoreStaysSound(base, feed, im);
    done := ImportItem(tx, env, feed, items[i], index, seen, im);
    if done.Err? {
      ItemFailed(env, feed, start, items, i, im, done.error);
    } else {
      im' := ItemPassed(env, base, feed, start, items, i, im);
    }
  }

  /** The loop of `ImportFeedItems`. */
  method ImportItems(tx: Store, env: Env, feed: Feed, items: seq<ImportItem>, index: OrphanDocuments, seen: FeedItemSet,
                     ghost base: State, ghost start: Import)
      returns (failed: Option<Error>, imported: nat, skipped: nat)
    requires tx.Valid() && Shows(tx, index, seen, start) && Separate(tx, index, seen) && ImportInv(base, feed, start)
    requires start.imported == 0 && start.skipped == 0
    modifies tx`next, tx`view, tx.folders, tx.docs, tx.items.Repr, index, seen
    ensures tx.Valid() && tx.Grown()
    ensures match ImportAll(env, feed, start, items)
            case Ok(im) => failed.None? && tx.view == im.s && imported == im.imported && skipped == im.skipped
            case Err(e) => failed == Some(e)
  {
    tx.Frames();
    failed, imported, skipped := None, 0, 0;
    ghost var im := start;
    for i := 0 to |items|
      invariant tx.Valid() && tx.Grown() && Separate(tx, index, seen)
      invariant failed.None? && Shows(tx, index, seen, im) && ImportInv(base, feed, im)
      invariant ImportAll(env, feed, start, items[..i]) == Ok(im)
      invariant imported == im.imported && skipped == im.skipped
    {
      var done;
      done, im := ImportNext(tx, env, feed, items, i, index, seen, base, start, im);
      if done.Err? {
        return Some(done.error), imported, skipped;
      }
      if done.value {
        imported := imported + 1;
      } else {
        skipped := skipped + 1;
      }
    }
    assert items[..|items|] == items;
  }

  /** What the loop knows after an item that it got past. */
  lemma ItemPassed(env: Env, base: State, feed: Feed, start: Import, items: seq<ImportItem>, i: nat, im: Import)
      returns (im': Import)
    requires i < |items| && ImportAll(env, feed, start, items[..i]) == Ok(im) && ImportInv(base, feed, im)
    requires ImportStep(env, feed, im, items[i]).Ok?
    ensures ImportStep(env, feed, im, items[i]) == Ok(im') && ImportInv(base, feed, im')
    ensures ImportAll(env, feed, start, items[..i + 1]) == Ok(im')
    ensures if im'.imported != im.imported then im'.imported == im.imported + 1 && im'.skipped == im.skipped
            else im'.skipped == im.skipped + 1
  {
    im' := ImportStep(env, feed, im, items[i]).value;
    StepInv(env, base, feed, start, items, i);
    StepKeepsInv(env, base, feed, im, items[i], im');
    CountersOfStep(env, feed, im, items[i], im');
  }

  lemma ItemFailed(env: Env, feed: Feed, start: Import, items: seq<ImportItem>, i: nat, im: Import, e: Error)
    requires i < |items| && ImportAll(env, feed, start, items[..i]) == Ok(im)
    requires ImportStep(env, feed, im, items[i]) == Err(e)
    ensures ImportAll(env, feed, start, items) == Err(e)
  {
    assert items[..i + 1][..i] == items[..i];
    ImportFailureStays(env, feed, start, items, i + 1);
  }

  lemma CountersOfStep(env: Env, feed: Feed, im: Import, item: ImportItem, im': Import)
    requires ImportStep(env, feed, im, item) == Ok(im')
    ensures if im'.imported != im.imported then im'.imported == im.imported + 1 && im'.skipped == im.skipped
            else im'.skipped == im.skipped + 1
  {
    var normal := Normalized(env, item);
    if normal.Some? && !HasKey(im.seen, normal.value) {
      CountersMove(env, feed, im, normal.value);
    }
  }

  /** `newFeedItemSet` and `newOrphanFeedDocumentIndex`: whatever the order of the maps, the loop
      starts in the same place. */
  method StartImport(tx: Store, feedID: string) returns (index: OrphanDocuments, seen: FeedItemSet)
    requires tx.Valid() && Inv(tx.view) && feedID in tx.view.feeds
    ensures fresh(index) && fresh(seen) && KeyedDocuments(tx.view.docs)
    ensures Shows(tx, index, seen, ImportStart(tx.view, feedID))
    ensures ImportInv(tx.view, tx.view.feeds[feedID], ImportStart(tx.view, feedID))
  {
    ghost var s := tx.view;
    DocumentsKeyed(s);
    StartKeepsInv(s, feedID);
    var stored := ItemsOfFeed(tx, feedID);
    seen := new FeedItemSet(stored, ItemsOf(s.items, feedID));
    var documents := tx.Documents();
    var linked := LinkedFeedDocuments(tx);
    index := new OrphanDocuments(documents, linked);
    SortGivesIndex(s.docs, documents);
    OrphanIndexUnique(s.docs, index.records, OrphanIndex(s.docs));
  }

  /** `ImportFeedItems`. */
  method ImportFeedItems(tx: Store, env: Env, feedID: string, items: seq<ImportItem>) returns (r: Result<ImportResult>)
    requires tx.Valid() && Inv(tx.view)
    modifies tx`next, tx`view, tx.folders, tx.feeds, tx.feedURLs, tx.docs, tx.items.Repr
    ensures tx.Valid() && tx.Grown()
    ensures KeyedDocuments(old(tx.view).docs)
    ensures Meets(r, tx.view, ImportFeedItemsSpec(env, old(tx.view), feedID, items))
  {
    tx.Frames();
    ghost var s := tx.view;
    DocumentsKeyed(s);
    if feedID !in tx.FeedMap() {
      return Err(NotFound("feed"));
    }
    var feed := tx.FeedMap()[feedID];
    if !feed.enabled {
      return Err(Conflict("feed is disabled"));
    }
    var checkedAt := env.clock(tx.Counter());
    var failed, imported, skipped := RunImport(tx, env, feedID, feed, items);
    if failed.Some? {
      return Err(failed.value);
    }
    tx.PutFeed(feed.(lastCheckedAt := Some(checkedAt), updatedAt := checkedAt));
    return Ok(ImportResult(feedID, imported, skipped, checkedAt));
  }

  /** The loop with what it starts from. */
  method RunImport(tx: Store, env: Env, feedID: string, feed: Feed, items: seq<ImportItem>)
      returns (failed: Option<Error>, imported: nat, skipped: nat)
    requires tx.Valid() && Inv(tx.view) && KeyedDocuments(tx.view.docs) && feedID in tx.view.feeds
             && feed == tx.view.feeds[feedID]
    modifies tx`next, tx`view, tx.folders, tx.docs, tx.items.Repr
    ensures tx.Valid() && tx.Grown()
    ensures match ImportAll(env, feed, ImportStart(old(tx.view), feedID), items)
            case Ok(im) => failed.None? && tx.view == im.s && imported == im.imported && skipped == im.skipped
            case Err(e) => failed == Some(e)
  {
    ghost var s := tx.view;
    var index, seen := StartImport(tx, feedID);
    failed, imported, skipped := ImportItems(tx, env, feed, items, index, seen, s, ImportStart(s, feedID));
  }

  /** `FeedItemByDocumentID` scans the tables in map order; in a reachable state there is only one
      answer to find. */
  method FeedItemByDocumentID(tx: Store, documentID: string) returns (found: Option<FeedItem>)
    requires tx.Valid() && Inv(tx.view)
    ensures found.None? ==> forall f, i | HasItem(tx.view.items, f, i) :: tx.view.items[f][i].documentID != documentID
    ensures found.Some? ==>
              var item := found.value;
              item.documentID == documentID && HasItem(tx.view.items, item.feedID, item.id)
                  && tx.view.items[item.feedID][item.id] == item
    ensures found.Some? ==> forall f, i | HasItem(tx.view.items, f, i)
            && tx.view.items[f][i].documentID == documentID ::
                              tx.view.items[f][i] == found.value
  {
    ghost var s := tx.view;
    tx.Parts();
    tx.items.Parts();
    ItemsSound(s);
    var feeds := tx.items.tables.Keys;
    while feeds != {}
      invariant feeds <= tx.items.tables.Keys
      invariant forall f, i | HasItem(s.items, f, i) && f !in feeds :: s.items[f][i].documentID != documentID
      decreases feeds
    {
      var f :| f in feeds;
      var own := tx.items.tables[f].entries;
      assert own == s.items[f];
      var id := ItemFor(own, documentID);
      if id.Some? {
        assert HasItem(s.items, f, id.value);
        forall g, j | HasItem(s.items, g, j) && s.items[g][j].documentID == documentID
          ensures s.items[g][j] == own[id.value]
        {
          ItemByDocumentUnique(s, documentID, f, id.value, g, j);
        }
        assert s.items[f][id.value] == own[id.value];
        return Some(own[id.value]);
      }
      feeds := feeds - {f};
    }
    return None;
  }

  method ItemFor(own: map<string, FeedItem>, documentID: string) returns (id: Option<string>)
    ensures id.None? ==> forall i | i in own :: own[i].documentID != documentID
    ensures id.Some? ==> id.value in own && own[id.value].documentID == documentID
  {
    var rest := own.Keys;
    while rest != {}
      invariant rest <= own.Keys
      invariant forall i | i in own && i !in rest :: own[i].documentID != documentID
      decreases rest
    {
      var i :| i in rest;
      if own[i].documentID == documentID {
        return Some(i);
      }
      rest := rest - {i};
    }
    return None;
  }
}
