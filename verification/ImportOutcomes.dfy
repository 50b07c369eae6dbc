/** What an import leaves behind, item by item and document by document: which item made which entry,
    which document it was given, and in which folder that document lies. */
module ImportOutcomes {
  import opened Prelude
  import opened Entities
  import opened FolderGraph
  import opened FolderForest
  import opened Library
  import opened SystemFolders
  import opened DocumentOps
  import opened FeedItems
  import opened FeedImport
  import opened ImportProofs
  import ImportTrash
  import FolderOutcomes
  import DocumentOutcomes
  import Sorting
  import Text

  // ----- Where documents lie -----

  /** An entry of the feed that was not there before. */
  ghost predicate IsNewItem(base: State, s: State, feedID: string, i: string) {
    HasItem(s.items, feedID, i) && !HasItem(base.items, feedID, i)
  }

  ghost predicate NewlyLinks(base: State, s: State, feedID: string, d: string) {
    exists i :: IsNewItem(base, s, feedID, i) && s.items[feedID][i].documentID == d
  }

  /** A document that a new entry links lies in the feed's folder, unless it lies in Trash or the feed has
      no folder; every other document lies where it did. */
  ghost predicate PlacedRight(base: State, s: State, feed: Feed, d: string) {
    d in base.docs ==>
      && d in s.docs
      && s.docs[d].meta.folderID ==
           if NewlyLinks(base, s, feed.id, d) && feed.folderID.Some? && !ImportTrash.LiesInTrash(base, d)
           then feed.folderID else base.docs[d].meta.folderID
  }

  // ----- One new entry -----

  /** What a round does when it stores an entry. */
  ghost predicate Linked(base: State, feed: Feed, im: Import, item: NormalItem, im': Import, record: FeedItem) {
    && record == ItemRecord(record.id, feed.id, record.documentID, item, record.createdAt)
    && record.id !in ItemsOf(im.s.items, feed.id) && !HasItem(base.items, feed.id, record.id)
    && im'.s.items == im.s.items[feed.id := ItemsOf(im.s.items, feed.id)[record.id := record]]
    && Unlinked(im.s.items, record.documentID) && record.documentID in im'.s.docs
    && (forall d | d in im.s.docs && d != record.documentID :: d in im'.s.docs && im'.s.docs[d] == im.s.docs[d])
    && im'.linked <= im.linked + {record.documentID}
  }

  lemma NewEntryIsNew(env: Env, base: State, feedID: string, next: nat)
    requires Inv(base) && base.next <= next
    ensures !HasItem(base.items, feedID, NewID(env, next, "feed_item"))
  {
    ItemsSound(base);
    NewIDFresh(env, next, "feed_item");
  }

  lemma StepLinks(env: Env, base: State, feed: Feed, im: Import, item: NormalItem, im1: Import, documentID: string,
                  im': Import) returns (record: FeedItem)
    requires Inv(base) && ImportInv(base, feed, im) && CleanKeys(item) && !HasKey(im.seen, item)
    requires DocumentFor(env, feed, im, item) == Ok((im1, documentID))
    requires ItemLinked(env, feed, im1, item, documentID) == Ok(im')
    requires im1.linked <= im.linked + {documentID}
    requires forall d | d in im.s.docs && d != documentID :: d in im1.s.docs && im1.s.docs[d] == im.s.docs[d]
    ensures Linked(base, feed, im, item, im', record) && record.documentID == documentID
    ensures im'.s.docs == im1.s.docs && im'.s.folders == im1.s.folders && im'.records == im1.records
    ensures im'.linked == im1.linked
  {
    Unpacked(base, feed, im);
    DocumentForKeepsInv(env, base, feed, im, item, im1, documentID);
    FeedIsKeyed(im1.s, feed.id);
    record := ItemRecord(NewID(env, im1.s.next, "feed_item"), feed.id, documentID, item, Now(env, Drawn(im1.s)));
    LinkItem(env, im1.s, feed.id, documentID, item, record);
    NewEntryIsNew(env, base, feed.id, im1.s.next);
  }

  // ----- Adopted or created -----

  /** Being moved or not, a document comes to lie in the feed's folder unless it lay in Trash. */
  lemma MovedWhere(base: State, s: State, feed: Feed, d: Document)
    requires Inv(base) && ImportTrash.WalksKept(base, s) && d.meta.id in base.docs
    requires d.meta.folderID == base.docs[d.meta.id].meta.folderID
    ensures (if ShouldMove(s.folders, d, feed) then feed.folderID else d.meta.folderID)
         == if feed.folderID.Some? && !ImportTrash.LiesInTrash(base, d.meta.id) then feed.folderID else d.meta.folderID
  {
    StoredDocument(base, d.meta.id);
  }

  /** How adopting record `k` changes that document. */
  lemma AdoptionMoves(env: Env, base: State, feed: Feed, im: Import, k: nat, im1: Import)
    requires Inv(base) && ImportInv(base, feed, im) && ImportTrash.WalksKept(base, im.s)
    requires k < |im.records| && im1 == Adopted(env, feed, im, k)
    requires var d := im.records[k].meta.id;
             d in base.docs && d in im.s.docs && im.s.docs[d].meta.folderID == base.docs[d].meta.folderID
    ensures var d := im.records[k].meta.id;
            && d in im1.s.docs
            && im1.s.docs[d].meta.folderID ==
                 if feed.folderID.Some? && !ImportTrash.LiesInTrash(base, d) then feed.folderID
                 else base.docs[d].meta.folderID
  {
    ImportTrash.RecordIsStored(base, feed, im, k);
    MovedWhere(base, im.s, feed, im.records[k]);
  }

  lemma AdoptionFrame(env: Env, base: State, feed: Feed, im: Import, item: NormalItem, k: nat, im1: Import)
    requires ImportInv(base, feed, im)
    requires k == FirstOrphan(im.records, im.linked, item) < |im.records| && im1 == Adopted(env, feed, im, k)
    ensures var d := im.records[k].meta.id;
            && d in base.docs && im1.linked == im.linked + {d} && im1.s.folders == im.s.folders
            && forall e | e in im.s.docs && e != d :: e in im1.s.docs && im1.s.docs[e] == im.s.docs[e]
  {
    ImportTrash.RecordIsStored(base, feed, im, k);
  }

  lemma CreationFrame(env: Env, base: State, feed: Feed, im: Import, item: NormalItem, im1: Import, documentID: string)
    requires ImportInv(base, feed, im) && FirstOrphan(im.records, im.linked, item) == |im.records|
    requires DocumentFor(env, feed, im, item) == Ok((im1, documentID))
    ensures documentID !in im.s.docs && documentID !in base.docs && documentID in im1.s.docs
    ensures im1.linked == im.linked && im1.records == im.records
    ensures forall d | d in im.s.docs :: d in im1.s.docs && im1.s.docs[d] == im.s.docs[d]
  {
    Unpacked(base, feed, im);
    ItemDocumentKeepsInv(env, im.s, feed, item, im1.s, documentID);
  }

  // ----- The folders, over the whole loop -----

  ghost predicate AllPlacedRight(base: State, feed: Feed, im: Import) {
    ImportTrash.WalksKept(base, im.s) && forall d :: PlacedRight(base, im.s, feed, d)
  }

  lemma LinksAfter(base: State, feed: Feed, im: Import, item: NormalItem, im': Import, record: FeedItem, d: string)
    requires Linked(base, feed, im, item, im', record)
    ensures NewlyLinks(base, im'.s, feed.id, d) <==> NewlyLinks(base, im.s, feed.id, d) || d == record.documentID
    ensures !NewlyLinks(base, im.s, feed.id, record.documentID)
  {
    if i :| IsNewItem(base, im.s, feed.id, i) && im.s.items[feed.id][i].documentID == d {
      assert IsNewItem(base, im'.s, feed.id, i) && im'.s.items[feed.id][i] == im.s.items[feed.id][i];
    }
    assert IsNewItem(base, im'.s, feed.id, record.id) && im'.s.items[feed.id][record.id] == record;
    if i :| IsNewItem(base, im'.s, feed.id, i) && im'.s.items[feed.id][i].documentID == d && i != record.id {
      assert IsNewItem(base, im.s, feed.id, i) && im'.s.items[feed.id][i] == im.s.items[feed.id][i];
    }
  }

  lemma PlacedAfterAdoption(env: Env, base: State, feed: Feed, im: Import, item: NormalItem, k: nat, im1: Import,
                            im': Import, d: string)
    requires Inv(base) && ImportInv(base, feed, im) && AllPlacedRight(base, feed, im)
    requires k == FirstOrphan(im.records, im.linked, item) < |im.records| && im1 == Adopted(env, feed, im, k)
    requires CleanKeys(item) && !HasKey(im.seen, item)
    requires ItemLinked(env, feed, im1, item, im.records[k].meta.id) == Ok(im')
    ensures PlacedRight(base, im'.s, feed, d)
  {
    AdoptionFrame(env, base, feed, im, item, k, im1);
    var record := StepLinks(env, base, feed, im, item, im1, im.records[k].meta.id, im');
    LinksAfter(base, feed, im, item, im', record, d);
    assert PlacedRight(base, im.s, feed, record.documentID) && PlacedRight(base, im.s, feed, d);
    AdoptionMoves(env, base, feed, im, k, im1);
  }

  lemma PlacedAfterCreation(env: Env, base: State, feed: Feed, im: Import, item: NormalItem, im1: Import,
                            documentID: string, im': Import, d: string)
    requires Inv(base) && ImportInv(base, feed, im) && AllPlacedRight(base, feed, im)
    requires CleanKeys(item) && !HasKey(im.seen, item) && FirstOrphan(im.records, im.linked, item) == |im.records|
    requires DocumentFor(env, feed, im, item) == Ok((im1, documentID))
    requires ItemLinked(env, feed, im1, item, documentID) == Ok(im')
    ensures PlacedRight(base, im'.s, feed, d)
  {
    CreationFrame(env, base, feed, im, item, im1, documentID);
    var record := StepLinks(env, base, feed, im, item, im1, documentID, im');
    LinksAfter(base, feed, im, item, im', record, d);
    assert PlacedRight(base, im.s, feed, d);
  }

  lemma StepPlaces(env: Env, base: State, feed: Feed, im: Import, x: ImportItem, im': Import)
    requires Inv(base) && ImportInv(base, feed, im) && AllPlacedRight(base, feed, im)
             && ImportTrash.PlacesKept(base, im.s)
    requires ImportStep(env, feed, im, x) == Ok(im')
    ensures AllPlacedRight(base, feed, im') && ImportTrash.PlacesKept(base, im'.s)
  {
    ImportTrash.StepLeavesTrash(env, base, feed, im, x, im');
    var normal := Normalized(env, x);
    if normal.Some? && !HasKey(im.seen, normal.value) {
      var (im1, documentID) := DocumentFor(env, feed, im, normal.value).value;
      var k := FirstOrphan(im.records, im.linked, normal.value);
      forall d ensures PlacedRight(base, im'.s, feed, d) {
        if k < |im.records| {
          PlacedAfterAdoption(env, base, feed, im, normal.value, k, im1, im', d);
        } else {
          PlacedAfterCreation(env, base, feed, im, normal.value, im1, documentID, im', d);
        }
      }
    } else {
      forall d ensures PlacedRight(base, im'.s, feed, d) {
        assert PlacedRight(base, im.s, feed, d);
      }
    }
  }

  lemma {:induction false} AllPlace(env: Env, base: State, feed: Feed, im: Import, items: seq<ImportItem>, im': Import)
    requires Inv(base) && ImportInv(base, feed, im) && AllPlacedRight(base, feed, im)
             && ImportTrash.PlacesKept(base, im.s)
    requires ImportAll(env, feed, im, items) == Ok(im')
    ensures AllPlacedRight(base, feed, im') && ImportTrash.PlacesKept(base, im'.s)
  {
    if items != [] {
      var front, last := items[..|items| - 1], items[|items| - 1];
      var before := ImportAll(env, feed, im, front).value;
      AllPlace(env, base, feed, im, front, before);
      ImportAllKeepsInv(env, base, feed, im, front);
      StepPlaces(env, base, feed, before, last, im');
    }
  }

  /** Where an import leaves the documents that were there: one that a new entry of this import links lies
      in the feed's folder, if the feed has one, unless it lay in Trash, where it stays; every other document
      lies where it did. */
  lemma ImportPlacesDocuments(env: Env, s: State, feedID: string, items: seq<ImportItem>, s': State,
                              result: ImportResult, d: string)
    requires Inv(s) && KeyedDocuments(s.docs) && ImportFeedItemsSpec(env, s, feedID, items) == Ok((s', result))
    requires d in s.docs
    ensures feedID in s.feeds && d in s'.docs
    ensures var linked := exists i :: IsNewItem(s, s', feedID, i) && s'.items[feedID][i].documentID == d;
            s'.docs[d].meta.folderID ==
              if linked && s.feeds[feedID].folderID.Some? && !ImportTrash.LiesInTrash(s, d)
              then s.feeds[feedID].folderID else s.docs[d].meta.folderID
  {
    var feed, start := s.feeds[feedID], ImportStart(s, feedID);
    FeedIsKeyed(s, feedID);
    StartKeepsInv(s, feedID);
    forall e ensures PlacedRight(s, start.s, feed, e) {
    }
    var im := ImportAll(env, feed, start, items).value;
    AllPlace(env, s, feed, start, items, im);
    assert PlacedRight(s, im.s, feed, d);
    assert NewlyLinks(s, s', feedID, d) <==> NewlyLinks(s, im.s, feedID, d);
  }

  // ----- Which entry comes from which item -----

  /** A value that falls back on the item's URL when it is blank. */
  function OrURL(env: Env, value: string, url: string): (r: Option<string>) {
    if env.trim(value) != "" then Some(env.trim(value))
    else if env.trim(env.trim(url)) != "" then Some(env.trim(env.trim(url))) else None
  }

  /** The entry carries the item's keys. */
  predicate CarriesKeys(env: Env, x: ImportItem, entry: FeedItem) {
    && env.trim(x.title) != "" && env.trim(x.url) != "" && entry.url == env.trim(x.url)
    && entry.canonicalURL == OrURL(env, x.canonicalURL, x.url)
    && DocumentOutcomes.IsOptional(env, x.guid, entry.guid)
    && DocumentOutcomes.IsOptional(env, x.contentHash, entry.contentHash)
    && entry.publishedAt == x.publishedAt
  }

  /** The document is known under one of the item's URLs. */
  predicate SharesURL(env: Env, d: Document, x: ImportItem) {
    var urls := {Some(env.trim(x.url)), OrURL(env, x.canonicalURL, x.url), OrURL(env, x.sourceURL, x.url)};
    || (d.meta.canonicalURL.Some? && d.meta.canonicalURL != Some("") && d.meta.canonicalURL in urls)
    || (d.meta.sourceURL.Some? && d.meta.sourceURL != Some("") && d.meta.sourceURL in urls)
  }

  /** A document that was there before and that the item could take over: from a feed, not deleted, linked
      by no entry, known under one of the item's URLs. */
  ghost predicate Orphan(env: Env, base: State, s: State, x: ImportItem, d: string) {
    && d in base.docs && base.docs[d].meta.kind == "rss_item" && base.docs[d].meta.deletedAt.None?
    && Unlinked(s.items, d) && SharesURL(env, base.docs[d], x)
  }

  /** A document made for the item: unread, called and addressed as the item says, with its content, placed in
      the feed's folder, or in Inbox when the feed has none. */
  ghost predicate MadeFor(env: Env, s: State, feed: Feed, x: ImportItem, id: string, d: Document) {
    && d.meta.folderID.Some?
    && DocumentOutcomes.IsNewDocument(d, id, "rss_item", env.trim(x.title), d.meta.folderID.value, d.meta.createdAt)
    && d.meta.canonicalURL == OrURL(env, x.canonicalURL, x.url) && d.meta.sourceURL == OrURL(env, x.sourceURL, x.url)
    && d.tagIDs == []
    && (if env.trim(x.content) == "" then d.contents == []
        else DocumentOutcomes.IsScrape(env, d.contents, env.trim(x.content), x.format))
    && IsFeedPlace(env, s, feed, d.meta.folderID.value)
  }

  /** The feed's folder, or Inbox when the feed has none. */
  ghost predicate IsFeedPlace(env: Env, s: State, feed: Feed, folderID: string) {
    var wanted := env.trim(if feed.folderID.Some? then feed.folderID.value else "");
    if wanted != "" then folderID == wanted
    else folderID in s.folders && s.folders[folderID].systemRole == Some("inbox")
  }

  predicate ComesBefore(a: Document, b: Document) {
    a.meta.createdAt < b.meta.createdAt || (a.meta.createdAt == b.meta.createdAt && Text.Before(a.meta.id, b.meta.id))
  }

  /** The entry comes from the item: it carries the item's keys, and its document is the oldest orphan that
      the item could take over, or was made for the item, there being no orphan to take over. */
  ghost predicate ComesFrom(env: Env, base: State, s: State, feed: Feed, x: ImportItem, entry: FeedItem) {
    && entry.feedID == feed.id && CarriesKeys(env, x, entry) && entry.documentID in s.docs
    && if entry.documentID in base.docs then
         && Orphan(env, base, base, x, entry.documentID)
         && forall d | Orphan(env, base, s, x, d) :: ComesBefore(base.docs[entry.documentID], base.docs[d])
       else
         && MadeFor(env, s, feed, x, entry.documentID, s.docs[entry.documentID])
         && forall d :: !Orphan(env, base, s, x, d)
  }

  lemma SharedURLMatches(env: Env, d: Document, x: ImportItem)
    requires Normalized(env, x).Some?
    ensures MatchesOrphan(d, Normalized(env, x).value) <==>
              d.meta.kind == "rss_item" && d.meta.deletedAt.None? && SharesURL(env, d, x)
  {
  }

  lemma KeysAreCarried(env: Env, x: ImportItem, id: string, feedID: string, documentID: string, now: int)
    requires Normalized(env, x).Some?
    ensures CarriesKeys(env, x, ItemRecord(id, feedID, documentID, Normalized(env, x).value, now))
  {
  }

  /** What the loop keeps besides: entries stay, the linked identifiers are those that entries link, and the
      snapshot is in order of age. */
  ghost predicate Tidy(base: State, im: Import) {
    && (forall f, i | HasItem(base.items, f, i) :: HasItem(im.s.items, f, i) && im.s.items[f][i] == base.items[f][i])
    && (forall d | d in im.linked :: !Unlinked(im.s.items, d))
    && (forall j, k | 0 <= j < k < |im.records| :: ComesBefore(im.records[j], im.records[k]))
  }

  lemma StartIsTidy(s: State, feedID: string)
    requires Inv(s) && KeyedDocuments(s.docs)
    ensures Tidy(s, ImportStart(s, feedID))
  {
    var im := ImportStart(s, feedID);
    forall d | d in im.linked ensures !Unlinked(s.items, d) {
      var f, i :| f in s.feeds && i in ItemsOf(s.items, f) && ItemsOf(s.items, f)[i].documentID == d;
      assert HasItem(s.items, f, i);
    }
    forall j, k | 0 <= j < k < |im.records| ensures ComesBefore(im.records[j], im.records[k]) {
      assert Older(im.records[j], im.records[k]);
    }
  }

  // ----- One round -----

  lemma PlacementRolesStay(env: Env, s: State, folderID: string, s': State, id: string)
    requires Inv(s) && DocumentFolderFor(env, s, folderID, true) == Ok((s', id))
    ensures FolderOutcomes.RolesStay(s.folders, s'.folders)
    ensures env.trim(folderID) != "" ==> id == env.trim(folderID)
    ensures env.trim(folderID) == "" ==> id in s'.folders && s'.folders[id].systemRole == Some("inbox")
  {
    if env.trim(folderID) == "" {
      FolderOutcomes.EnsuredRolesStay(env, s, "inbox", s', id);
    }
  }

  lemma ContentsOfItem(env: Env, s: State, x: ImportItem, s': State, contents: seq<Content>)
    requires Normalized(env, x).Some? && ItemContents(env, s, Normalized(env, x).value) == (s', contents)
    ensures s'.folders == s.folders
    ensures if env.trim(x.content) == "" then contents == []
            else DocumentOutcomes.IsScrape(env, contents, env.trim(x.content), x.format)
  {
  }

  lemma IngestedForItem(env: Env, s: State, feed: Feed, x: ImportItem, folderID: string, contents: seq<Content>,
                        s': State, id: string)
    requires Normalized(env, x).Some? && IsFeedPlace(env, s, feed, folderID)
    requires var n := Normalized(env, x).value;
             (s', id) == Ingested(env, s, KIND_RSS, n.title, n.canonicalURL, n.sourceURL, folderID, [], contents)
    requires if env.trim(x.content) == "" then contents == []
             else DocumentOutcomes.IsScrape(env, contents, env.trim(x.content), x.format)
    ensures id in s'.docs && MadeFor(env, s', feed, x, id, s'.docs[id]) && s'.folders == s.folders
  {
  }

  /** A document created for an item is made for it. */
  lemma CreatedIsMadeFor(env: Env, s: State, feed: Feed, x: ImportItem, s': State, id: string)
    requires Inv(s) && Normalized(env, x).Some?
    requires ItemDocumentCreated(env, s, feed, Normalized(env, x).value) == Ok((s', id))
    ensures id in s'.docs && MadeFor(env, s', feed, x, id, s'.docs[id])
    ensures FolderOutcomes.RolesStay(s.folders, s'.folders)
  {
    var n, wanted := Normalized(env, x).value, WantedFolder(feed);
    var (s1, folderID) := DocumentFolderFor(env, s, wanted, true).value;
    PlacementRolesStay(env, s, wanted, s1, folderID);
    var (s2, contents) := ItemContents(env, s1, n);
    ContentsOfItem(env, s1, x, s2, contents);
    IngestedForItem(env, s2, feed, x, folderID, contents, s', id);
  }

  /** Position `k` of the snapshot holds an orphan, and every other one stands behind it. */
  ghost predicate OldestOrphan(env: Env, base: State, im: Import, x: ImportItem, k: nat) {
    && k < |im.records| && Orphan(env, base, base, x, im.records[k].meta.id)
    && forall d | Orphan(env, base, im.s, x, d) && d != im.records[k].meta.id ::
         ComesBefore(base.docs[im.records[k].meta.id], base.docs[d])
  }

  /** A record of the snapshot and the document it stands for agree but for folder and time. */
  lemma RecordShows(base: State, feed: Feed, im: Import, k: nat)
    requires ImportInv(base, feed, im) && k < |im.records|
    ensures im.records[k].meta.id in base.docs && OnlyMoved(base.docs[im.records[k].meta.id], im.records[k])
  {
    ImportTrash.RecordIsStored(base, feed, im, k);
    assert ImportSound(base, feed, im, FramePart);
  }

  lemma OrphanHasRecord(env: Env, base: State, feed: Feed, im: Import, x: ImportItem, d: string) returns (j: nat)
    requires ImportInv(base, feed, im) && Tidy(base, im) && Normalized(env, x).Some? && Orphan(env, base, im.s, x, d)
    ensures j < |im.records| && im.records[j].meta.id == d && d !in im.linked
    ensures MatchesOrphan(im.records[j], Normalized(env, x).value)
    ensures FirstOrphan(im.records, im.linked, Normalized(env, x).value) <= j
  {
    assert ImportSound(base, feed, im, SnapshotPart);
    assert InSnapshot(im, d);
    j :| 0 <= j < |im.records| && im.records[j].meta.id == d;
    RecordShows(base, feed, im, j);
    SharedURLMatches(env, im.records[j], x);
  }

  lemma AdoptsTheOldest(env: Env, base: State, feed: Feed, im: Import, x: ImportItem, k: nat)
    requires ImportInv(base, feed, im) && Tidy(base, im) && Normalized(env, x).Some?
    requires k == FirstOrphan(im.records, im.linked, Normalized(env, x).value) < |im.records|
    requires Unlinked(im.s.items, im.records[k].meta.id)
    ensures OldestOrphan(env, base, im, x, k)
  {
    RecordShows(base, feed, im, k);
    SharedURLMatches(env, im.records[k], x);
    forall d | Orphan(env, base, im.s, x, d) && d != im.records[k].meta.id
      ensures ComesBefore(base.docs[im.records[k].meta.id], base.docs[d])
    {
      var j := OrphanHasRecord(env, base, feed, im, x, d);
      RecordShows(base, feed, im, j);
      assert ComesBefore(im.records[k], im.records[j]);
    }
  }

  /** What is unlinked after the round was unlinked before it, and is not the round's document. */
  lemma UnlinkedBefore(base: State, feed: Feed, im: Import, item: NormalItem, im': Import, record: FeedItem, d: string)
    requires Linked(base, feed, im, item, im', record) && Unlinked(im'.s.items, d)
    ensures Unlinked(im.s.items, d) && d != record.documentID
  {
    assert HasItem(im'.s.items, feed.id, record.id) && im'.s.items[feed.id][record.id] == record;
    forall f, i | HasItem(im.s.items, f, i) ensures im.s.items[f][i].documentID != d {
      assert HasItem(im'.s.items, f, i) && im'.s.items[f][i] == im.s.items[f][i];
    }
  }

  lemma EntryAdopts(env: Env, base: State, feed: Feed, im: Import, x: ImportItem, k: nat, im': Import,
                    record: FeedItem)
    requires Normalized(env, x).Some? && OldestOrphan(env, base, im, x, k)
    requires Linked(base, feed, im, Normalized(env, x).value, im', record)
    requires record.documentID == im.records[k].meta.id
    ensures ComesFrom(env, base, im'.s, feed, x, record)
  {
    KeysAreCarried(env, x, record.id, feed.id, record.documentID, record.createdAt);
    forall d | Orphan(env, base, im'.s, x, d)
      ensures ComesBefore(base.docs[record.documentID], base.docs[d])
    {
      UnlinkedBefore(base, feed, im, Normalized(env, x).value, im', record, d);
      assert Orphan(env, base, im.s, x, d);
    }
  }

  lemma EntryCreates(env: Env, base: State, feed: Feed, im: Import, x: ImportItem, im': Import, record: FeedItem)
    requires ImportInv(base, feed, im) && Tidy(base, im) && Normalized(env, x).Some?
    requires FirstOrphan(im.records, im.linked, Normalized(env, x).value) == |im.records|
    requires Linked(base, feed, im, Normalized(env, x).value, im', record) && record.documentID !in base.docs
    requires MadeFor(env, im'.s, feed, x, record.documentID, im'.s.docs[record.documentID])
    ensures ComesFrom(env, base, im'.s, feed, x, record)
  {
    KeysAreCarried(env, x, record.id, feed.id, record.documentID, record.createdAt);
    forall d ensures !Orphan(env, base, im'.s, x, d) {
      if Orphan(env, base, im'.s, x, d) {
        UnlinkedBefore(base, feed, im, Normalized(env, x).value, im', record, d);
        assert Orphan(env, base, im.s, x, d);
        var j := OrphanHasRecord(env, base, feed, im, x, d);
      }
    }
  }

  /** An entry made before goes on coming from its item. */
  lemma EntryStays(env: Env, base: State, feed: Feed, im: Import, item: NormalItem, im': Import, record: FeedItem,
                   x: ImportItem, i: string)
    requires Linked(base, feed, im, item, im', record) && FolderOutcomes.RolesStay(im.s.folders, im'.s.folders)
    requires HasItem(im.s.items, feed.id, i) && ComesFrom(env, base, im.s, feed, x, im.s.items[feed.id][i])
    ensures HasItem(im'.s.items, feed.id, i) && im'.s.items[feed.id][i] == im.s.items[feed.id][i]
    ensures ComesFrom(env, base, im'.s, feed, x, im.s.items[feed.id][i])
  {
    var entry := im.s.items[feed.id][i];
    assert entry.documentID != record.documentID;
    forall d | Orphan(env, base, im'.s, x, d) ensures Orphan(env, base, im.s, x, d) {
      UnlinkedBefore(base, feed, im, item, im', record, d);
    }
  }

  // ----- The entries, over the whole loop -----

  lemma TidyAfter(base: State, feed: Feed, im: Import, item: NormalItem, im': Import, record: FeedItem)
    requires Tidy(base, im) && Linked(base, feed, im, item, im', record) && |im'.records| == |im.records|
    requires forall j | 0 <= j < |im.records| ::
               im'.records[j].meta.id == im.records[j].meta.id
                   && im'.records[j].meta.createdAt == im.records[j].meta.createdAt
    ensures Tidy(base, im')
  {
    forall f, i | HasItem(base.items, f, i)
      ensures HasItem(im'.s.items, f, i) && im'.s.items[f][i] == base.items[f][i]
    {
      assert HasItem(im.s.items, f, i);
    }
    forall d | d in im'.linked ensures !Unlinked(im'.s.items, d) {
      if Unlinked(im'.s.items, d) {
        UnlinkedBefore(base, feed, im, item, im', record, d);
      }
    }
    forall j, k | 0 <= j < k < |im'.records| ensures ComesBefore(im'.records[j], im'.records[k]) {
      assert ComesBefore(im.records[j], im.records[k]);
    }
  }

  ghost predicate FromSome(env: Env, base: State, s: State, feed: Feed, items: seq<ImportItem>, entry: FeedItem) {
    exists x :: x in items && ComesFrom(env, base, s, feed, x, entry)
  }

  ghost predicate EntryOK(env: Env, base: State, s: State, feed: Feed, items: seq<ImportItem>, i: string) {
    IsNewItem(base, s, feed.id, i) ==> FromSome(env, base, s, feed, items, s.items[feed.id][i])
  }

  lemma EntriesAfter(env: Env, base: State, feed: Feed, im: Import, front: seq<ImportItem>, x: ImportItem, im': Import,
                     record: FeedItem, i: string)
    requires Normalized(env, x).Some? && Linked(base, feed, im, Normalized(env, x).value, im', record)
    requires FolderOutcomes.RolesStay(im.s.folders, im'.s.folders) && ComesFrom(env, base, im'.s, feed, x, record)
    requires EntryOK(env, base, im.s, feed, front, i)
    ensures EntryOK(env, base, im'.s, feed, front + [x], i)
  {
    if IsNewItem(base, im'.s, feed.id, i) {
      if i == record.id {
        assert x in front + [x];
      } else {
        assert IsNewItem(base, im.s, feed.id, i);
        var y :| y in front && ComesFrom(env, base, im.s, feed, y, im.s.items[feed.id][i]);
        EntryStays(env, base, feed, im, Normalized(env, x).value, im', record, y, i);
        assert y in front + [x];
      }
    }
  }

  lemma MadeForStays(env: Env, base: State, feed: Feed, im: Import, x: ImportItem, im1: Import, documentID: string,
                     im': Import)
    requires ImportInv(base, feed, im) && Normalized(env, x).Some?
    requires ItemDocumentCreated(env, im.s, feed, Normalized(env, x).value) == Ok((im1.s, documentID))
    requires im'.s.docs == im1.s.docs && im'.s.folders == im1.s.folders
    ensures documentID in im'.s.docs && MadeFor(env, im'.s, feed, x, documentID, im'.s.docs[documentID])
    ensures FolderOutcomes.RolesStay(im.s.folders, im'.s.folders)
  {
    StoreStaysSound(base, feed, im);
    CreatedIsMadeFor(env, im.s, feed, x, im1.s, documentID);
  }

  /** The entry, what it comes from, and what goes on holding. */
  ghost predicate StoresEntry(env: Env, base: State, feed: Feed, im: Import, x: ImportItem, im': Import,
                              record: FeedItem) {
    && Normalized(env, x).Some? && Linked(base, feed, im, Normalized(env, x).value, im', record)
    && FolderOutcomes.RolesStay(im.s.folders, im'.s.folders) && ComesFrom(env, base, im'.s, feed, x, record)
    && Tidy(base, im')
  }

  lemma AdoptionEntry(env: Env, base: State, feed: Feed, im: Import, x: ImportItem, k: nat, im1: Import, im': Import)
      returns (record: FeedItem)
    requires Inv(base) && ImportInv(base, feed, im) && Tidy(base, im) && Normalized(env, x).Some?
    requires var item := Normalized(env, x).value;
             && !HasKey(im.seen, item) && k == FirstOrphan(im.records, im.linked, item) < |im.records|
             && im1 == Adopted(env, feed, im, k) && ItemLinked(env, feed, im1, item, im.records[k].meta.id) == Ok(im')
    ensures StoresEntry(env, base, feed, im, x, im', record)
  {
    var item := Normalized(env, x).value;
    AdoptionFrame(env, base, feed, im, item, k, im1);
    record := StepLinks(env, base, feed, im, item, im1, im.records[k].meta.id, im');
    AdoptsTheOldest(env, base, feed, im, x, k);
    EntryAdopts(env, base, feed, im, x, k, im', record);
    TidyAfter(base, feed, im, item, im', record);
  }

  lemma CreationEntry(env: Env, base: State, feed: Feed, im: Import, x: ImportItem, im1: Import, documentID: string,
                      im': Import) returns (record: FeedItem)
    requires Inv(base) && ImportInv(base, feed, im) && Tidy(base, im) && Normalized(env, x).Some?
    requires var item := Normalized(env, x).value;
             && !HasKey(im.seen, item) && FirstOrphan(im.records, im.linked, item) == |im.records|
             && DocumentFor(env, feed, im, item) == Ok((im1, documentID))
             && ItemLinked(env, feed, im1, item, documentID) == Ok(im')
    ensures StoresEntry(env, base, feed, im, x, im', record)
  {
    var item := Normalized(env, x).value;
    CreationFrame(env, base, feed, im, item, im1, documentID);
    record := StepLinks(env, base, feed, im, item, im1, documentID, im');
    MadeForStays(env, base, feed, im, x, im1, documentID, im');
    EntryCreates(env, base, feed, im, x, im', record);
    TidyAfter(base, feed, im, item, im', record);
  }

  /** A round that stores an entry. */
  lemma StepEntry(env: Env, base: State, feed: Feed, im: Import, x: ImportItem, im': Import) returns (record: FeedItem)
    requires Inv(base) && ImportInv(base, feed, im) && Tidy(base, im) && ImportStep(env, feed, im, x) == Ok(im')
    requires Normalized(env, x).Some? && !HasKey(im.seen, Normalized(env, x).value)
    ensures StoresEntry(env, base, feed, im, x, im', record)
  {
    var item := Normalized(env, x).value;
    var (im1, documentID) := DocumentFor(env, feed, im, item).value;
    var k := FirstOrphan(im.records, im.linked, item);
    if k < |im.records| {
      record := AdoptionEntry(env, base, feed, im, x, k, im1, im');
    } else {
      record := CreationEntry(env, base, feed, im, x, im1, documentID, im');
    }
  }

  ghost predicate EntriesOK(env: Env, base: State, feed: Feed, im: Import, items: seq<ImportItem>) {
    Tidy(base, im) && forall i :: EntryOK(env, base, im.s, feed, items, i)
  }

  lemma StepKeepsEntries(env: Env, base: State, feed: Feed, im: Import, front: seq<ImportItem>, x: ImportItem,
                         im': Import)
    requires Inv(base) && ImportInv(base, feed, im) && EntriesOK(env, base, feed, im, front)
    requires ImportStep(env, feed, im, x) == Ok(im')
    ensures EntriesOK(env, base, feed, im', front + [x])
  {
    if Normalized(env, x).Some? && !HasKey(im.seen, Normalized(env, x).value) {
      var record := StepEntry(env, base, feed, im, x, im');
      forall i ensures EntryOK(env, base, im'.s, feed, front + [x], i) {
        EntriesAfter(env, base, feed, im, front, x, im', record, i);
      }
    } else {
      SkippedKeepsEntries(env, base, feed, im, front, x, im');
    }
  }

  lemma {:induction false} AllEntries(env: Env, base: State, feed: Feed, im: Import, items: seq<ImportItem>,
                                      im': Import)
    requires Inv(base) && ImportInv(base, feed, im) && ImportAll(env, feed, im, items) == Ok(im')
    requires EntriesOK(env, base, feed, im, [])
    ensures EntriesOK(env, base, feed, im', items)
  {
    if items != [] {
      var front, x := items[..|items| - 1], items[|items| - 1];
      assert items == front + [x];
      var before := ImportAll(env, feed, im, front).value;
      AllEntries(env, base, feed, im, front, before);
      ImportAllKeepsInv(env, base, feed, im, front);
      StepKeepsEntries(env, base, feed, before, front, x, im');
    }
  }

  lemma SkippedKeepsEntries(env: Env, base: State, feed: Feed, im: Import, front: seq<ImportItem>, x: ImportItem,
                            im': Import)
    requires EntriesOK(env, base, feed, im, front) && im' == im.(skipped := im.skipped + 1)
    ensures EntriesOK(env, base, feed, im', front + [x])
  {
    forall i ensures EntryOK(env, base, im'.s, feed, front + [x], i) {
      assert EntryOK(env, base, im.s, feed, front, i);
      if IsNewItem(base, im.s, feed.id, i) {
        var y :| y in front && ComesFrom(env, base, im.s, feed, y, im.s.items[feed.id][i]);
        assert y in front + [x];
      }
    }
  }

  /** After an import every entry that was there is as before, every new one comes from one of the items,
      and the feed was checked now. */
  lemma ImportMakesEntries(env: Env, s: State, feedID: string, items: seq<ImportItem>, s': State, result: ImportResult)
    requires Inv(s) && KeyedDocuments(s.docs) && ImportFeedItemsSpec(env, s, feedID, items) == Ok((s', result))
    ensures feedID in s.feeds
    ensures forall f, i | HasItem(s.items, f, i) :: HasItem(s'.items, f, i) && s'.items[f][i] == s.items[f][i]
    ensures forall i | IsNewItem(s, s', feedID, i) ::
              FromSome(env, s, s', s.feeds[feedID], items, s'.items[feedID][i])
    ensures var now := env.clock(s.next);
            && s'.feeds == s.feeds[feedID := s.feeds[feedID].(lastCheckedAt := Some(now), updatedAt := now)]
            && s'.feedURLs == s.feedURLs && result.feedID == feedID && result.checkedAt == now
  {
    var feed, start := s.feeds[feedID], ImportStart(s, feedID);
    FeedIsKeyed(s, feedID);
    StartKeepsInv(s, feedID);
    StartIsTidy(s, feedID);
    var im := ImportAll(env, feed, start, items).value;
    AllEntries(env, s, feed, start, items, im);
    ImportAllKeepsInv(env, s, feed, start, items);
    Unpacked(s, feed, im);
    CheckedNow(s, im, feed, s', env.clock(s.next));
    forall i | IsNewItem(s, s', feedID, i) ensures FromSome(env, s, s', feed, items, s'.items[feedID][i]) {
      assert EntryOK(env, s, im.s, feed, items, i);
      EntryPublished(env, s, im.s, feed, items, s', i);
    }
  }

  lemma EntryPublished(env: Env, base: State, s: State, feed: Feed, items: seq<ImportItem>, s': State, i: string)
    requires EntryOK(env, base, s, feed, items, i)
    requires s'.docs == s.docs && s'.items == s.items && s'.folders == s.folders
    ensures EntryOK(env, base, s', feed, items, i)
  {
    if IsNewItem(base, s', feed.id, i) {
      assert IsNewItem(base, s, feed.id, i);
      var x :| x in items && ComesFrom(env, base, s, feed, x, s.items[feed.id][i]);
      OrphansPublished(env, base, s, feed, x, s.items[feed.id][i], s');
    }
  }

  lemma OrphansPublished(env: Env, base: State, s: State, feed: Feed, x: ImportItem, entry: FeedItem, s': State)
    requires ComesFrom(env, base, s, feed, x, entry)
    requires s'.docs == s.docs && s'.items == s.items && s'.folders == s.folders
    ensures ComesFrom(env, base, s', feed, x, entry)
  {
    assert forall d :: Orphan(env, base, s', x, d) <==> Orphan(env, base, s, x, d);
  }

  lemma CheckedNow(s: State, im: Import, feed: Feed, s': State, now: int)
    requires Inv(s) && feed.id in s.feeds && feed == s.feeds[feed.id]
    requires im.s.feeds == s.feeds && im.s.feedURLs == s.feedURLs
    requires s' == WithFeed(im.s, feed.(lastCheckedAt := Some(now), updatedAt := now))
    ensures s'.feeds == s.feeds[feed.id := feed.(lastCheckedAt := Some(now), updatedAt := now)]
    ensures s'.feedURLs == s.feedURLs && s'.docs == im.s.docs && s'.items == im.s.items && s'.folders == im.s.folders
  {
    FeedsSound(s);
  }
}
