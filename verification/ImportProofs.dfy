/** What an import keeps and what it computes. */
module ImportProofs {
  import opened Prelude
  import opened Entities
  import opened FolderGraph
  import opened Library
  import opened SystemFolders
  import opened FeedOps
  import opened DocumentOps
  import opened FeedItems
  import opened FeedImport
  import Sorting

  lemma DocumentsKeyed(s: State)
    requires Inv(s)
    ensures KeyedDocuments(s.docs)
  {
    DocumentsSound(s);
    forall d | d in s.docs ensures s.docs[d].meta.id == d {
      assert DocumentInv(s.next, d, s.docs[d], s.folders.Keys, s.tags.Keys);
    }
  }

  ghost predicate Unlinked(items: Items, documentID: string) {
    forall f, i | HasItem(items, f, i) :: items[f][i].documentID != documentID
  }

  // ----- One new item -----

  /** Storing a new item whose keys are unseen and whose document is unlinked never aborts. */
  lemma LinkItem(env: Env, s: State, feedID: string, documentID: string, item: NormalItem, record: FeedItem)
    requires Inv(s) && feedID in s.feeds && documentID in s.docs && Unlinked(s.items, documentID)
    requires CleanKeys(item) && !HasKey(KeysOf(ItemsOf(s.items, feedID)), item)
    requires record == ItemRecord(NewID(env, s.next, "feed_item"), feedID, documentID, item, record.createdAt)
    ensures var own := ItemsOf(s.items, feedID);
            && record.id !in own
            && WithItem(Drawn(s), record) == Ok(Drawn(s).(items := s.items[feedID := own[record.id := record]]))
            && Inv(Drawn(s).(items := s.items[feedID := own[record.id := record]]))
  {
    var own := ItemsOf(s.items, feedID);
    var items' := s.items[feedID := own[record.id := record]];
    ItemsSound(s);
    NewIDFresh(env, s.next, "feed_item");
    forall i | i in own ensures HasItem(s.items, feedID, i) {
    }
    IndexAgreesWithScan(own, item, record);
    DrawKeepsInv(s);
    forall f, i | HasItem(items', f, i) && !(f == feedID && i == record.id)
      ensures HasItem(s.items, f, i) && items'[f][i] == s.items[f][i]
    {
    }
    forall f, i, j ensures Apart(items', f, i, j) {
      assert Apart(s.items, f, i, j);
      if f == feedID && i in own && HasItem(items', f, i) {
        assert !DuplicateItem(own[i], record);
      }
      if f == feedID && j in own && HasItem(items', f, j) {
        assert !DuplicateItem(own[j], record);
      }
    }
    forall f, i, g, j ensures LinkedApart(items', f, i, g, j) {
      assert LinkedApart(s.items, f, i, g, j);
    }
    assert ItemsKeyed(s.next + 1, items', s.feeds.Keys, s.docs.Keys);
    ItemsReplaced(Drawn(s), items');
  }

  // ----- The document of a new item -----

  lemma ItemContentsSound(env: Env, s: State, item: NormalItem)
    requires Inv(s)
    ensures var (s1, contents) := ItemContents(env, s, item);
            Inv(s1) && ContentsInv(s1.next, contents) && s1 == s.(next := s1.next) && s.next <= s1.next
  {
    if item.content != "" {
      var (s1, content) := Extracted(env, s, item.content, item.format);
      DrawKeepsInv(s);
      NewIDFresh(env, s.next, "content");
      assert [] + [content] == [content];
      ContentAppended(s.next, [], content);
    }
  }

  /** A created document is new, of RSS kind, and bears the item's URLs. */
  lemma ItemDocumentKeepsInv(env: Env, s: State, feed: Feed, item: NormalItem, s': State, id: string)
    requires Inv(s) && ItemDocumentCreated(env, s, feed, item) == Ok((s', id))
    ensures Inv(s') && id !in s.docs && s'.docs == s.docs[id := s'.docs[id]] && id in s'.docs
    ensures s' == s.(next := s'.next, docs := s'.docs, folders := s'.folders)
    ensures s.next <= s'.next && s.folders.Keys <= s'.folders.Keys
    ensures var m := s'.docs[id].meta;
            && m.id == id && m.kind == KIND_RSS && m.deletedAt.None?
            && m.canonicalURL == item.canonicalURL && m.sourceURL == item.sourceURL
  {
    var wanted := WantedFolder(feed);
    DocumentFolderKeepsInv(env, s, wanted, true);
    var s1 := DocumentFolderFor(env, s, wanted, true).value.0;
    var folderID := DocumentFolderFor(env, s, wanted, true).value.1;
    ItemContentsSound(env, s1, item);
    var s2 := ItemContents(env, s1, item).0;
    var contents := ItemContents(env, s1, item).1;
    IngestedKeepsInv(env, s2, KIND_RSS, item.title, item.canonicalURL, item.sourceURL, folderID, [], contents);
    assert (s', id) == Ingested(env, s2, KIND_RSS, item.title, item.canonicalURL, item.sourceURL, folderID, [],
                                contents);
  }

  // ----- The loop invariant -----

  /** A document as the import may leave it: only its folder and its timestamp can change. */
  predicate OnlyMoved(before: Document, after: Document) {
    after == before.(meta := before.meta.(folderID := after.meta.folderID, updatedAt := after.meta.updatedAt))
  }

  /** Position `k` of the snapshot shows a stored document as it is. */
  ghost predicate Current(base: State, im: Import, k: int) {
    0 <= k < |im.records| ==>
      var id := im.records[k].meta.id; id in base.docs && id in im.s.docs && im.s.docs[id] == im.records[k]
  }

  ghost predicate OtherRecords(im: Import, j: int, k: int) {
    0 <= j < k < |im.records| ==> im.records[j].meta.id != im.records[k].meta.id
  }

  ghost predicate InSnapshot(im: Import, d: string) {
    exists k | 0 <= k < |im.records| :: im.records[k].meta.id == d
  }

  /** The snapshot shows the stored documents as they are, each once. */
  ghost predicate SnapshotCurrent(base: State, im: Import) {
    && (forall k :: Current(base, im, k))
    && (forall j, k :: OtherRecords(im, j, k))
    && (forall d | d in base.docs :: InSnapshot(im, d))
  }

  /** Every document of the snapshot that some item links is marked as linked. */
  ghost predicate LinksMarked(base: State, im: Import) {
    forall f, i | HasItem(im.s.items, f, i) && im.s.items[f][i].documentID in base.docs ::
      im.s.items[f][i].documentID in im.linked
  }

  ghost predicate FrameKept(base: State, s: State, feedID: string) {
    && s.versions == base.versions && s.tags == base.tags && s.tagSlugs == base.tagSlugs
    && s.feeds == base.feeds && s.feedURLs == base.feedURLs
    && base.next <= s.next && base.folders.Keys <= s.folders.Keys
    && (forall f | f != feedID :: ItemsOf(s.items, f) == ItemsOf(base.items, f))
  }

  ghost predicate DocumentsKept(base: State, s: State) {
    forall d | d in base.docs :: d in s.docs && OnlyMoved(base.docs[d], s.docs[d])
  }

  ghost predicate Counted(base: State, im: Import, feedID: string) {
    && |ItemsOf(im.s.items, feedID)| == |ItemsOf(base.items, feedID)| + im.imported
    && |im.s.docs| + im.adopted == |base.docs| + im.imported
  }

  ghost predicate ImportFacts(base: State, feed: Feed, im: Import) {
    && feed.id in base.feeds && feed == base.feeds[feed.id]
    && Inv(im.s)
    && SnapshotCurrent(base, im) && LinksMarked(base, im)
    && FrameKept(base, im.s, feed.id) && DocumentsKept(base, im.s) && Counted(base, im, feed.id)
    && im.seen == KeysOf(ItemsOf(im.s.items, feed.id))
  }

  datatype ImportPart = StorePart | SnapshotPart | FramePart | CountPart | KeysPart

  ghost predicate ImportSound(base: State, feed: Feed, im: Import, part: ImportPart) {
    match part
    case StorePart => Inv(im.s)
    case SnapshotPart => SnapshotCurrent(base, im) && LinksMarked(base, im)
    case FramePart => FrameKept(base, im.s, feed.id) && DocumentsKept(base, im.s)
    case CountPart => Counted(base, im, feed.id)
    case KeysPart =>
      && feed.id in base.feeds && feed == base.feeds[feed.id]
      && im.seen == KeysOf(ItemsOf(im.s.items, feed.id))
  }

  /** What holds after every round of the loop. */
  ghost predicate ImportInv(base: State, feed: Feed, im: Import) {
    forall part: ImportPart :: ImportSound(base, feed, im, part)
  }

  lemma StoreStaysSound(base: State, feed: Feed, im: Import)
    requires ImportInv(base, feed, im)
    ensures Inv(im.s)
  {
    assert ImportSound(base, feed, im, StorePart);
  }

  lemma Unpacked(base: State, feed: Feed, im: Import)
    requires ImportInv(base, feed, im)
    ensures ImportFacts(base, feed, im)
  {
    assert ImportSound(base, feed, im, StorePart);
    assert ImportSound(base, feed, im, SnapshotPart);
    assert ImportSound(base, feed, im, FramePart);
    assert ImportSound(base, feed, im, CountPart);
    assert ImportSound(base, feed, im, KeysPart);
  }

  lemma Packed(base: State, feed: Feed, im: Import)
    requires ImportFacts(base, feed, im)
    ensures ImportInv(base, feed, im)
  {
    forall part: ImportPart ensures ImportSound(base, feed, im, part) {
    }
  }

  lemma StartKeepsInv(s: State, feedID: string)
    requires Inv(s) && feedID in s.feeds
    ensures KeyedDocuments(s.docs) && ImportInv(s, s.feeds[feedID], ImportStart(s, feedID))
  {
    DocumentsKeyed(s);
    FeedsSound(s);
    ItemsSound(s);
    var im := ImportStart(s, feedID);
    OlderIsTotal(s.docs);
    IndexElements(s.docs, im.records);
    forall k ensures Current(s, im, k) {
      if 0 <= k < |im.records| {
        assert im.records[k] in im.records;
      }
    }
    Sorting.SortedDistinct(Older, im.records, s.docs.Values);
    forall j, k ensures OtherRecords(im, j, k) {
      assert Current(s, im, j) && Current(s, im, k);
    }
    forall d | d in s.docs ensures InSnapshot(im, d) {
      assert s.docs[d] in im.records;
      var k :| 0 <= k < |im.records| && im.records[k] == s.docs[d];
      assert im.records[k].meta.id == d;
    }
    forall f, i | HasItem(s.items, f, i) ensures s.items[f][i].documentID in im.linked {
      assert i in ItemsOf(s.items, f);
    }
    Packed(s, s.feeds[feedID], im);
  }

  lemma MovedKeepsInv(s: State, d: Document, folderID: Option<string>, now: int)
    requires Inv(s) && d.meta.id in s.docs && s.docs[d.meta.id] == d
    requires folderID.Some? ==> folderID.value in s.folders
    ensures Inv(WithDocument(s, d.(meta := d.meta.(folderID := folderID, updatedAt := now))))
  {
    StoredDocument(s, d.meta.id);
    DocumentKeepsInv(s, d.(meta := d.meta.(folderID := folderID, updatedAt := now)));
  }

  lemma FeedFolderStored(s: State, feedID: string)
    requires Inv(s) && feedID in s.feeds && s.feeds[feedID].folderID.Some?
    ensures s.feeds[feedID].folderID.value in s.folders
  {
    FeedsSound(s);
  }

  /** What adopting the document at `k` does to the store and the snapshot. */
  lemma AdoptedAt(env: Env, base: State, feed: Feed, im: Import, k: nat, im1: Import)
    requires k < |im.records| && im1 == Adopted(env, feed, im, k)
    requires Current(base, im, k)
    ensures |im1.records| == |im.records| && forall j | 0 <= j < |im.records|
            && j != k :: im1.records[j] == im.records[j]
    ensures im1.records[k].meta.id == im.records[k].meta.id
    ensures im1.s.docs == im.s.docs[im.records[k].meta.id := im1.records[k]]
    ensures OnlyMoved(im.records[k], im1.records[k]) && Current(base, im1, k)
  {
  }

  lemma AdoptKeepsRecords(base: State, im: Import, k: nat, im1: Import)
    requires SnapshotCurrent(base, im) && k < |im.records| && |im1.records| == |im.records|
    requires forall j | 0 <= j < |im.records| && j != k :: im1.records[j] == im.records[j]
    requires im1.records[k].meta.id == im.records[k].meta.id && Current(base, im1, k)
    requires im1.s.docs == im.s.docs[im.records[k].meta.id := im1.records[k]]
    ensures SnapshotCurrent(base, im1)
  {
    forall j ensures Current(base, im1, j) {
      if j != k {
        assert Current(base, im, j);
        assert OtherRecords(im, j, k) && OtherRecords(im, k, j);
      }
    }
    forall i, j ensures OtherRecords(im1, i, j) {
      assert OtherRecords(im, i, j);
    }
    forall d | d in base.docs ensures InSnapshot(im1, d) {
      assert InSnapshot(im, d);
      var j :| 0 <= j < |im.records| && im.records[j].meta.id == d;
      assert im1.records[j].meta.id == d;
    }
  }

  lemma AdoptKeepsSnapshot(env: Env, base: State, feed: Feed, im: Import, k: nat, im1: Import)
    requires SnapshotCurrent(base, im) && k < |im.records| && im1 == Adopted(env, feed, im, k)
    ensures SnapshotCurrent(base, im1) && im1.s.docs.Keys == im.s.docs.Keys
    ensures forall d | d in im.s.docs :: OnlyMoved(im.s.docs[d], im1.s.docs[d])
  {
    assert Current(base, im, k);
    AdoptedAt(env, base, feed, im, k, im1);
    AdoptKeepsRecords(base, im, k, im1);
  }

  lemma KeptTwice(base: State, s: State, s': State)
    requires DocumentsKept(base, s) && forall d | d in s.docs :: d in s'.docs && OnlyMoved(s.docs[d], s'.docs[d])
    ensures DocumentsKept(base, s')
  {
  }

  lemma AdoptKeepsInv(env: Env, base: State, feed: Feed, im: Import, item: NormalItem, k: nat, im1: Import)
    requires ImportInv(base, feed, im) && k == FirstOrphan(im.records, im.linked, item) < |im.records|
    requires im1 == Adopted(env, feed, im, k)
    ensures Inv(im1.s) && FrameKept(base, im1.s, feed.id)
    ensures im1.s.items == im.s.items
    ensures im.records[k].meta.id in base.docs && Unlinked(im1.s.items, im.records[k].meta.id)
    ensures im1 == im.(s := im1.s, records := im1.records, linked := im.linked + {im.records[k].meta.id},
                       adopted := im.adopted + 1)
  {
    Unpacked(base, feed, im);
    assert Current(base, im, k);
    if ShouldMove(im.s.folders, im.records[k], feed) {
      FeedFolderStored(im.s, feed.id);
      MovedKeepsInv(im.s, im.records[k], feed.folderID, Now(env, im.s));
    }
  }

  ghost predicate OkStep(base: State, feed: Feed, im: Import, normal: NormalItem, im1: Import, documentID: string) {
    && Inv(im1.s) && SnapshotCurrent(base, im1) && DocumentsKept(base, im1.s) && FrameKept(base, im1.s, feed.id)
    && im1.s.items == im.s.items && documentID in im1.s.docs && Unlinked(im1.s.items, documentID)
    && im1.seen == im.seen && im1.imported == im.imported && im1.skipped == im.skipped
    && im.linked <= im1.linked && (documentID in base.docs ==> documentID in im1.linked)
    && |im1.s.docs| + im1.adopted == |base.docs| + im.imported + 1
  }

  lemma NewDocumentUnlinked(s: State, s1: State, id: string)
    requires Inv(s) && s1.items == s.items && id !in s.docs
    ensures Unlinked(s1.items, id)
  {
    ItemsSound(s);
  }

  lemma OneDocumentMore(docs: map<string, Document>, id: string, d: Document)
    requires id !in docs
    ensures |docs[id := d]| == |docs| + 1
  {
  }

  lemma CreatedKeepsFrame(env: Env, base: State, feed: Feed, s: State, normal: NormalItem, s1: State, id: string)
    requires Inv(s) && FrameKept(base, s, feed.id) && DocumentsKept(base, s)
    requires ItemDocumentCreated(env, s, feed, normal) == Ok((s1, id))
    ensures FrameKept(base, s1, feed.id) && DocumentsKept(base, s1)
  {
    ItemDocumentKeepsInv(env, s, feed, normal, s1, id);
  }

  lemma CreateStepKeepsInv(env: Env, base: State, feed: Feed, im: Import, normal: NormalItem, s1: State, id: string)
    requires ImportInv(base, feed, im) && ItemDocumentCreated(env, im.s, feed, normal) == Ok((s1, id))
    ensures OkStep(base, feed, im, normal, im.(s := s1), id)
  {
    Unpacked(base, feed, im);
    ItemDocumentKeepsInv(env, im.s, feed, normal, s1, id);
    CreatedKeepsFrame(env, base, feed, im.s, normal, s1, id);
    NewDocumentUnlinked(im.s, s1, id);
    OneDocumentMore(im.s.docs, id, s1.docs[id]);
    SnapshotStays(base, im, im.(s := s1));
  }

  lemma DocumentForKeepsInv(env: Env, base: State, feed: Feed, im: Import, normal: NormalItem, im1: Import,
                            documentID: string)
    requires ImportInv(base, feed, im) && DocumentFor(env, feed, im, normal) == Ok((im1, documentID))
    ensures OkStep(base, feed, im, normal, im1, documentID)
  {
    var k := FirstOrphan(im.records, im.linked, normal);
    Unpacked(base, feed, im);
    if k < |im.records| {
      AdoptKeepsInv(env, base, feed, im, normal, k, im1);
      AdoptKeepsSnapshot(env, base, feed, im, k, im1);
      KeptTwice(base, im.s, im1.s);
      assert |im1.s.docs.Keys| == |im.s.docs.Keys|;
    } else {
      CreateStepKeepsInv(env, base, feed, im, normal, im1.s, documentID);
    }
  }

  lemma SkipKeepsInv(base: State, feed: Feed, im: Import)
    requires ImportInv(base, feed, im)
    ensures ImportInv(base, feed, im.(skipped := im.skipped + 1))
  {
    Unpacked(base, feed, im);
    SnapshotStays(base, im, im.(skipped := im.skipped + 1));
    Packed(base, feed, im.(skipped := im.skipped + 1));
  }

  /** One round of the loop: the loop invariant goes on and one more item is accounted for. */
  lemma StepKeepsInv(env: Env, base: State, feed: Feed, im: Import, item: ImportItem, im': Import)
    requires ImportInv(base, feed, im) && ImportStep(env, feed, im, item) == Ok(im')
    ensures ImportInv(base, feed, im') && im'.imported + im'.skipped == im.imported + im.skipped + 1
  {
    var normal := Normalized(env, item);
    if normal.None? || HasKey(im.seen, normal.value) {
      SkipKeepsInv(base, feed, im);
    } else {
      var (im1, documentID) := DocumentFor(env, feed, im, normal.value).value;
      DocumentForKeepsInv(env, base, feed, im, normal.value, im1, documentID);
      NewItemKeepsInv(env, base, feed, im, normal.value, im1, documentID);
    }
  }

  /** A round fails only because no document could be created for a new item; the abort for
      duplicate items in `PutFeedItem` never fires. */
  lemma StepFailsOnlyForFolder(env: Env, base: State, feed: Feed, im: Import, item: ImportItem)
    requires ImportInv(base, feed, im) && ImportStep(env, feed, im, item).Err?
    ensures var normal := Normalized(env, item);
            && normal.Some? && !HasKey(im.seen, normal.value)
            && FirstOrphan(im.records, im.linked, normal.value) == |im.records|
            && ItemDocumentCreated(env, im.s, feed, normal.value) == Err(ImportStep(env, feed, im, item).error)
  {
    var normal := Normalized(env, item);
    if DocumentFor(env, feed, im, normal.value).Ok? {
      var (im1, documentID) := DocumentFor(env, feed, im, normal.value).value;
      DocumentForKeepsInv(env, base, feed, im, normal.value, im1, documentID);
      NewItemKeepsInv(env, base, feed, im, normal.value, im1, documentID);
    }
  }

  lemma CreatedKeepsFolders(env: Env, feed: Feed, s: State, item: NormalItem, s': State, id: string)
    requires ItemDocumentCreated(env, s, feed, item) == Ok((s', id)) && env.trim(WantedFolder(feed)) != ""
    ensures s'.folders == s.folders
  {
  }

  lemma StepKeepsFolders(env: Env, feed: Feed, im: Import, item: ImportItem, im': Import)
    requires ImportStep(env, feed, im, item) == Ok(im') && env.trim(WantedFolder(feed)) != ""
    ensures im'.s.folders == im.s.folders
  {
    var normal := Normalized(env, item);
    if normal.Some? && !HasKey(im.seen, normal.value)
       && FirstOrphan(im.records, im.linked, normal.value) == |im.records| {
      var (s1, id) := ItemDocumentCreated(env, im.s, feed, normal.value).value;
      CreatedKeepsFolders(env, feed, im.s, normal.value, s1, id);
    }
  }

  lemma {:induction false} AllKeepFolders(env: Env, feed: Feed, im: Import, items: seq<ImportItem>, im': Import)
    requires ImportAll(env, feed, im, items) == Ok(im') && env.trim(WantedFolder(feed)) != ""
    ensures im'.s.folders == im.s.folders
  {
    if items != [] {
      var front, last := items[..|items| - 1], items[|items| - 1];
      var before := ImportAll(env, feed, im, front).value;
      AllKeepFolders(env, feed, im, front, before);
      StepKeepsFolders(env, feed, before, last, im');
    }
  }

  lemma {:induction false} AllFailOnlyForFolder(env: Env, base: State, feed: Feed, im: Import, items: seq<ImportItem>)
    requires ImportInv(base, feed, im) && ImportAll(env, feed, im, items).Err?
    ensures DocumentFolderFor(env, im.s, WantedFolder(feed), true) == Err(ImportAll(env, feed, im, items).error)
  {
    var front, last := items[..|items| - 1], items[|items| - 1];
    if ImportAll(env, feed, im, front).Err? {
      AllFailOnlyForFolder(env, base, feed, im, front);
    } else {
      var before := ImportAll(env, feed, im, front).value;
      ImportAllKeepsInv(env, base, feed, im, front);
      StepFailsOnlyForFolder(env, base, feed, before, last);
      AllKeepFolders(env, feed, im, front, before);
    }
  }

  /** An import fails only because the feed is missing or disabled, or because new documents cannot be
      placed in its folder. In particular the abort for duplicate items in `PutFeedItem` never fires. */
  lemma ImportFailsOnlyForFolder(env: Env, s: State, feedID: string, items: seq<ImportItem>)
    requires Inv(s) && KeyedDocuments(s.docs) && ImportFeedItemsSpec(env, s, feedID, items).Err?
    ensures var e := ImportFeedItemsSpec(env, s, feedID, items).error;
            && e != Conflict("feed item already exists")
            && if feedID !in s.feeds then e == NotFound("feed")
               else if !s.feeds[feedID].enabled then e == Conflict("feed is disabled")
               else DocumentFolderFor(env, s, WantedFolder(s.feeds[feedID]), true) == Err(e)
  {
    assert "feed item already exists"[5] == 'i' && "feed is disabled"[6] == 's' && "feed item already exists"[6] == 't';
    if feedID in s.feeds && s.feeds[feedID].enabled {
      StartKeepsInv(s, feedID);
      AllFailOnlyForFolder(env, s, s.feeds[feedID], ImportStart(s, feedID), items);
    }
  }

  lemma ItemAdded(items: Items, feedID: string, record: FeedItem)
    requires record.id !in ItemsOf(items, feedID)
    ensures var items' := items[feedID := ItemsOf(items, feedID)[record.id := record]];
            && ItemsOf(items', feedID) == ItemsOf(items, feedID)[record.id := record]
            && |ItemsOf(items', feedID)| == |ItemsOf(items, feedID)| + 1
            && (forall f | f != feedID :: ItemsOf(items', f) == ItemsOf(items, f))
            && forall f, i | HasItem(items', f, i) ::
                 if f == feedID && i == record.id then items'[f][i] == record
                 else HasItem(items, f, i) && items'[f][i] == items[f][i]
  {
  }

  lemma NewItemKeepsInv(env: Env, base: State, feed: Feed, im: Import, normal: NormalItem, im1: Import,
                        documentID: string)
    requires ImportInv(base, feed, im) && OkStep(base, feed, im, normal, im1, documentID)
    requires CleanKeys(normal) && !HasKey(im.seen, normal)
    ensures var r := ItemLinked(env, feed, im1, normal, documentID);
            r.Ok? && ImportInv(base, feed, r.value) && r.value.imported == im1.imported + 1
                && r.value.skipped == im1.skipped
  {
    Unpacked(base, feed, im);
    FeedIsKeyed(im1.s, feed.id);
    var record := ItemRecord(NewID(env, im1.s.next, "feed_item"), feed.id, documentID, normal, Now(env, Drawn(im1.s)));
    LinkItem(env, im1.s, feed.id, documentID, normal, record);
    KeysGrow(ItemsOf(im1.s.items, feed.id), record.id, record);
    ItemAdded(im1.s.items, feed.id, record);
    var im' := ItemLinked(env, feed, im1, normal, documentID).value;
    SnapshotStays(base, im1, im');
    LinksStayMarked(base, im, im1, im', feed.id, record);
    Packed(base, feed, im');
  }

  lemma SnapshotStays(base: State, im: Import, im': Import)
    requires SnapshotCurrent(base, im) && im'.records == im.records
    requires forall d | d in base.docs && d in im.s.docs :: d in im'.s.docs && im'.s.docs[d] == im.s.docs[d]
    ensures SnapshotCurrent(base, im')
  {
    forall k ensures Current(base, im', k) {
      assert Current(base, im, k);
    }
    forall j, k ensures OtherRecords(im', j, k) {
      assert OtherRecords(im, j, k);
    }
    forall d | d in base.docs ensures InSnapshot(im', d) {
      assert InSnapshot(im, d);
      var k :| 0 <= k < |im.records| && im.records[k].meta.id == d;
      assert im'.records[k].meta.id == d;
    }
  }

  lemma LinksStayMarked(base: State, im: Import, im1: Import, im': Import, feedID: string, record: FeedItem)
    requires LinksMarked(base, im) && im1.s.items == im.s.items && record.id !in ItemsOf(im1.s.items, feedID)
    requires im'.s.items == im1.s.items[feedID := ItemsOf(im1.s.items, feedID)[record.id := record]]
    requires im.linked <= im1.linked == im'.linked
    requires record.documentID in base.docs ==> record.documentID in im1.linked
    ensures LinksMarked(base, im')
  {
    ItemAdded(im1.s.items, feedID, record);
  }

  lemma FeedIsKeyed(s: State, feedID: string)
    requires Inv(s) && feedID in s.feeds
    ensures s.feeds[feedID].id == feedID
  {
    FeedsSound(s);
  }

  lemma {:induction false} ImportAllKeepsInv(env: Env, base: State, feed: Feed, im: Import, items: seq<ImportItem>)
    requires ImportInv(base, feed, im)
    ensures var r := ImportAll(env, feed, im, items);
            r.Ok? ==> ImportInv(base, feed, r.value)
                      && r.value.imported + r.value.skipped == im.imported + im.skipped + |items|
  {
    if items != [] {
      var front := items[..|items| - 1];
      ImportAllKeepsInv(env, base, feed, im, front);
      if ImportAll(env, feed, im, front).Ok? {
        var before := ImportAll(env, feed, im, front).value;
        if ImportStep(env, feed, before, items[|items| - 1]).Ok? {
          StepKeepsInv(env, base, feed, before, items[|items| - 1],
                       ImportStep(env, feed, before, items[|items| - 1]).value);
        }
      }
    }
  }

  /** The state an import leaves satisfies the invariant; every item was either imported or
      skipped; the feed gained one item for each import; documents grew by the imports that
      adopted nothing; a document that was there changed at most its folder and timestamp. */
  lemma ImportOutcome(env: Env, s: State, feedID: string, items: seq<ImportItem>, s': State, result: ImportResult)
      returns (adopted: nat)
    requires Inv(s) && KeyedDocuments(s.docs) && ImportFeedItemsSpec(env, s, feedID, items) == Ok((s', result))
    ensures Inv(s')
    ensures result.imported + result.skipped == |items|
    ensures adopted <= result.imported && |s'.docs| + adopted == |s.docs| + result.imported
    ensures |ItemsOf(s'.items, feedID)| == |ItemsOf(s.items, feedID)| + result.imported
    ensures forall f | f != feedID :: ItemsOf(s'.items, f) == ItemsOf(s.items, f)
    ensures forall d | d in s.docs :: d in s'.docs && OnlyMoved(s.docs[d], s'.docs[d])
    ensures s'.versions == s.versions
  {
    StartKeepsInv(s, feedID);
    var feed, start := s.feeds[feedID], ImportStart(s, feedID);
    ImportAllKeepsInv(env, s, feed, start, items);
    var im := ImportAll(env, feed, start, items).value;
    Unpacked(s, feed, im);
    adopted := im.adopted;
    FeedsSound(im.s);
    FeedKeepsInv(im.s, s'.feeds[feedID]);
    DocumentsOnlyGrow(s, im.s);
  }

  lemma DocumentsOnlyGrow(base: State, s: State)
    requires DocumentsKept(base, s)
    ensures |base.docs| <= |s.docs|
  {
    assert base.docs.Keys <= s.docs.Keys;
    FeedOps.CardinalityBound(base.docs.Keys, s.docs.Keys);
  }
}
