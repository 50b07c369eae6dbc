/** Importing feed items: a fold that skips unusable items and duplicates, adopts orphaned
    documents, and creates documents for the rest. */
module FeedImport {
  import opened Prelude
  import opened Entities
  import opened FolderGraph
  import opened Library
  import opened SystemFolders
  import opened FeedOps
  import opened DocumentOps
  import opened FeedItems
  import Sorting
  import Text

  // ----- The index of documents that can be adopted -----

  predicate Older(a: Document, b: Document) {
    a.meta.createdAt < b.meta.createdAt || (a.meta.createdAt == b.meta.createdAt && Text.Before(a.meta.id, b.meta.id))
  }

  ghost predicate DocumentsOf(docs: map<string, Document>, records: seq<Document>) {
    forall d :: d in records <==> d.meta.id in docs && docs[d.meta.id] == d
  }

  /** `newOrphanFeedDocumentIndex`: all documents, oldest first. */
  ghost predicate IsOrphanIndex(docs: map<string, Document>, records: seq<Document>) {
    DocumentsOf(docs, records) && Sorting.Sorted(Older, records)
  }

  ghost predicate KeyedDocuments(docs: map<string, Document>) {
    forall d | d in docs :: docs[d].meta.id == d
  }

  lemma OlderIsTotal(docs: map<string, Document>)
    requires KeyedDocuments(docs)
    ensures Sorting.StrictTotal(Older, docs.Values)
  {
    forall a, b | a in docs.Values && b in docs.Values ensures !Older(a, a) && (a != b ==> Older(a, b) || Older(b, a)) {
      Text.BeforeTotal(a.meta.id, b.meta.id);
      Text.BeforeTotal(a.meta.id, a.meta.id);
    }
    forall a, b, c | a in docs.Values && b in docs.Values && c in docs.Values && Older(a, b) && Older(b, c)
      ensures Older(a, c)
    {
      if Text.Before(a.meta.id, b.meta.id) && Text.Before(b.meta.id, c.meta.id) {
        Text.BeforeTransitive(a.meta.id, b.meta.id, c.meta.id);
      }
    }
  }

  lemma IndexElements(docs: map<string, Document>, records: seq<Document>)
    requires KeyedDocuments(docs) && DocumentsOf(docs, records)
    ensures Sorting.Elements(records) == docs.Values
  {
    forall d ensures d in Sorting.Elements(records) <==> d in docs.Values {
      if d in docs.Values {
        assert d in records;
      }
    }
  }

  /** The index does not depend on the order in which the map yields the documents. */
  lemma OrphanIndexUnique(docs: map<string, Document>, a: seq<Document>, b: seq<Document>)
    requires KeyedDocuments(docs) && IsOrphanIndex(docs, a) && IsOrphanIndex(docs, b)
    ensures a == b
  {
    OlderIsTotal(docs);
    IndexElements(docs, a);
    IndexElements(docs, b);
    Sorting.SortedUnique(Older, a, b, docs.Values);
  }

  /** Sorting any enumeration of the documents gives the index. */
  lemma SortGivesIndex(docs: map<string, Document>, records: seq<Document>)
    requires KeyedDocuments(docs) && DocumentsOf(docs, records) && Sorting.Distinct(records)
    ensures IsOrphanIndex(docs, Sorting.Sort(Older, records))
  {
    OlderIsTotal(docs);
    IndexElements(docs, records);
    Sorting.SortSorted(Older, records, docs.Values);
    Sorting.SameMembers(Sorting.Sort(Older, records), records);
  }

  lemma {:induction false} Enumeration(docs: map<string, Document>) returns (records: seq<Document>)
    requires KeyedDocuments(docs)
    ensures DocumentsOf(docs, records) && Sorting.Distinct(records)
    decreases |docs|
  {
    if docs == map[] {
      records := [];
    } else {
      var d :| d in docs;
      var rest := Enumeration(docs - {d});
      records := [docs[d]] + rest;
      forall x ensures x in records <==> x.meta.id in docs && docs[x.meta.id] == x {
        assert x in rest <==> x.meta.id in docs - {d} && (docs - {d})[x.meta.id] == x;
      }
      forall k | 0 <= k < |rest| ensures rest[k] != docs[d] {
        assert rest[k] in rest;
      }
    }
  }

  ghost function OrphanIndex(docs: map<string, Document>): (records: seq<Document>)
    requires KeyedDocuments(docs)
    ensures IsOrphanIndex(docs, records)
  {
    OrphanIndexExists(docs);
    var records :| IsOrphanIndex(docs, records);
    records
  }

  lemma OrphanIndexExists(docs: map<string, Document>)
    requires KeyedDocuments(docs)
    ensures exists records :: IsOrphanIndex(docs, records)
  {
    var records := Enumeration(docs);
    SortGivesIndex(docs, records);
  }

  /** `linkedFeedDocumentIDs`: what the items of the stored feeds point to. */
  function LinkedDocuments(s: State): (ids: set<string>) {
    set f, i | f in s.feeds && i in ItemsOf(s.items, f) :: ItemsOf(s.items, f)[i].documentID
  }

  // ----- Adoption -----

  predicate URLMatches(value: Option<string>, item: NormalItem) {
    && value.Some? && value.value != ""
    && (value == item.canonicalURL || value == item.sourceURL || value.value == item.url)
  }

  /** `matchesOrphanFeedDocument`. */
  predicate MatchesOrphan(d: Document, item: NormalItem) {
    && d.meta.kind == KIND_RSS && d.meta.deletedAt.None?
    && (URLMatches(d.meta.canonicalURL, item) || URLMatches(d.meta.sourceURL, item))
  }

  /** The position of the first matching document that no item links, or the length. */
  function FirstOrphan(records: seq<Document>, linked: set<string>, item: NormalItem): (k: nat)
    ensures k <= |records|
    ensures k < |records| ==> MatchesOrphan(records[k], item) && records[k].meta.id !in linked
    ensures forall i | 0 <= i < k :: !MatchesOrphan(records[i], item) || records[i].meta.id in linked
  {
    if records == [] || (MatchesOrphan(records[0], item) && records[0].meta.id !in linked) then 0
    else 1 + FirstOrphan(records[1..], linked, item)
  }

  /** `shouldMoveAdoptedFeedDocument`: not out of Trash. */
  predicate ShouldMove(folders: Folders, d: Document, feed: Feed) {
    && feed.folderID.Some?
    && (d.meta.folderID.None?
        || (d.meta.folderID != feed.folderID && !HasRoleAncestor(folders, d.meta.folderID.value, ROLE_TRASH)))
  }

  /** The folder a feed's new documents are asked to go to. */
  function WantedFolder(feed: Feed): (id: string) {
    if feed.folderID.Some? then feed.folderID.value else ""
  }

  /** `createFeedItemDocument`. */
  ghost function ItemDocumentCreated(env: Env, s: State, feed: Feed, item: NormalItem): (r: Result<(State, string)>) {
    var (s1, folderID) :- DocumentFolderFor(env, s, WantedFolder(feed), true);
    var (s2, contents) := ItemContents(env, s1, item);
    Ok(Ingested(env, s2, KIND_RSS, item.title, item.canonicalURL, item.sourceURL, folderID, [], contents))
  }

  function ItemContents(env: Env, s: State, item: NormalItem): (r: (State, seq<Content>)) {
    if item.content == "" then (s, [])
    else
      var (s1, content) := Extracted(env, s, item.content, item.format);
      (s1, [content])
  }

  // ----- The import loop -----

  /** The loop's variables: the store, the snapshot of documents, the linked identifiers, the keys
      seen, and the counters. */
  datatype Import = Import(
    s: State, records: seq<Document>, linked: set<string>, seen: Keys, imported: nat, skipped: nat, adopted: nat)

  /** `adopt`: the document found, moved to the feed's folder unless it lies in Trash. */
  function Adopted(env: Env, feed: Feed, im: Import, k: nat): (r: Import)
    requires k < |im.records|
  {
    var d := im.records[k];
    var linked := im.linked + {d.meta.id};
    if ShouldMove(im.s.folders, d, feed) then
      var d' := d.(meta := d.meta.(folderID := feed.folderID, updatedAt := Now(env, im.s)));
      im.(s := WithDocument(im.s, d'), records := im.records[k := d'], linked := linked, adopted := im.adopted + 1)
    else im.(linked := linked, adopted := im.adopted + 1)
  }

  /** The document for a new item: adopted or created. */
  ghost function DocumentFor(env: Env, feed: Feed, im: Import, item: NormalItem): (r: Result<(Import, string)>) {
    var k := FirstOrphan(im.records, im.linked, item);
    if k < |im.records| then Ok((Adopted(env, feed, im, k), im.records[k].meta.id))
    else
      var (s1, id) :- ItemDocumentCreated(env, im.s, feed, item);
      Ok((im.(s := s1), id))
  }

  /** The new item, linked to its document; its keys are seen from now on. */
  function ItemLinked(env: Env, feed: Feed, im: Import, item: NormalItem, documentID: string): (r: Result<Import>) {
    var s1 := Drawn(im.s);
    var record := ItemRecord(NewID(env, im.s.next, "feed_item"), feed.id, documentID, item, Now(env, s1));
    var s2 :- WithItem(s1, record);
    Ok(im.(s := s2, seen := AddKeys(im.seen, item.guid, item.canonicalURL, item.contentHash, item.url),
           imported := im.imported + 1))
  }

  ghost function ImportStep(env: Env, feed: Feed, im: Import, item: ImportItem): (r: Result<Import>) {
    var normal := Normalized(env, item);
    if normal.None? || HasKey(im.seen, normal.value) then Ok(im.(skipped := im.skipped + 1))
    else
      var (im1, documentID) :- DocumentFor(env, feed, im, normal.value);
      ItemLinked(env, feed, im1, normal.value, documentID)
  }

  ghost function ImportAll(env: Env, feed: Feed, im: Import, items: seq<ImportItem>): (r: Result<Import>) {
    if items == [] then Ok(im)
    else
      var before :- ImportAll(env, feed, im, items[..|items| - 1]);
      ImportStep(env, feed, before, items[|items| - 1])
  }

  ghost function ImportStart(s: State, feedID: string): (im: Import)
    requires KeyedDocuments(s.docs)
  {
    Import(s, OrphanIndex(s.docs), LinkedDocuments(s), KeysOf(ItemsOf(s.items, feedID)), 0, 0, 0)
  }

  datatype ImportResult = ImportResult(feedID: string, imported: nat, skipped: nat, checkedAt: int)

  ghost function ImportFeedItemsSpec(env: Env, s: State, feedID: string,
                                     items: seq<ImportItem>): (r: Result<(State, ImportResult)>)
    requires KeyedDocuments(s.docs)
  {
    if feedID !in s.feeds then Err(NotFound("feed"))
    else if !s.feeds[feedID].enabled then Err(Conflict("feed is disabled"))
    else
      var feed, now := s.feeds[feedID], Now(env, s);
      var im :- ImportAll(env, feed, ImportStart(s, feedID), items);
      Ok((WithFeed(im.s, feed.(lastCheckedAt := Some(now), updatedAt := now)),
          ImportResult(feedID, im.imported, im.skipped, now)))
  }
}
