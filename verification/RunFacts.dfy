/** What holds of the states that runs reach, besides the invariant: the keys that cursors encode
    are byte strings; and a run after which a plain folder cannot be deleted. */
module RunFacts {
  import opened Prelude
  import opened Entities
  import opened FolderGraph
  import opened Library
  import opened SystemFolders
  import opened FolderOps
  import opened FeedOps
  import opened TagOps
  import opened DocumentOps
  import opened FeedItems
  import opened FeedImport
  import opened ImportProofs
  import opened ImportAgain
  import opened Runs
  import opened Paging
  import DocumentSearch
  import Base64
  import Text

  // ----- Document identifiers are byte strings -----

  ghost predicate StampInBytes(env: Env, time: int) {
    Base64.IsBytes(env.stamp(time))
  }

  /** Timestamps are written in bytes, as all Go strings are. */
  ghost predicate StampsBytes(env: Env) {
    forall time :: StampInBytes(env, time)
  }

  lemma NewIDIsBytes(env: Env, next: nat, prefix: string)
    requires StampsBytes(env) && Base64.IsBytes(prefix)
    ensures Base64.IsBytes(NewID(env, next, prefix))
  {
    var number := Text.Decimal(next + 1);
    assert StampInBytes(env, env.clock(next + 1));
    forall i | 0 <= i < |number| ensures number[i] as int < 256 {
      assert Text.IsDigit(number[i]);
    }
  }

  /** An identifier that was drawn for a document. */
  ghost predicate ForDocument(env: Env, id: string) {
    exists n: nat :: id == NewID(env, n, "doc")
  }

  /** The documents are the old ones and some whose identifiers were drawn for them. */
  ghost predicate OnlyDrawn(env: Env, s: State, s': State) {
    forall d | d in s'.docs :: d in s.docs || ForDocument(env, d)
  }

  lemma IngestedIsDrawn(env: Env, s: State, kind: string, title: string, url: Option<string>, sourceURL: Option<string>,
                        folderID: string, tagIDs: seq<string>, contents: seq<Content>)
    ensures var s' := Ingested(env, s, kind, title, url, sourceURL, folderID, tagIDs, contents).0;
            s'.docs.Keys == s.docs.Keys + {NewID(env, s.next, "doc")} && OnlyDrawn(env, s, s')
  {
  }

  lemma CreateDraws(env: Env, s: State, title: string, kind: string, s': State, id: string)
    requires CreateDocumentSpec(env, s, title, kind) == Ok((s', id))
    ensures OnlyDrawn(env, s, s') && s'.items == s.items
  {
    var (s1, folderID) := Ensured(env, s, ROLE_INBOX);
    IngestedIsDrawn(env, s1, if kind == "" then KIND_BOOKMARK else kind, env.trim(title), None, None, folderID, [], []);
  }

  lemma IngestDraws(env: Env, s: State, scraped: bool, input: IngestInput, s': State, id: string)
    requires IngestSpec(env, s, scraped, input) == Ok((s', id))
    ensures OnlyDrawn(env, s, s') && s'.items == s.items
  {
    var (s1, folderID) := DocumentFolderFor(env, s, input.folderID, false).value;
    var tags := NormalizedTags(env, s1.tags, input.tagIDs).value;
    var title, url, sourceURL := env.trim(input.title), OptionalString(env, input.url),
        OptionalString(env, input.sourceURL);
    if scraped {
      var (s2, content) := Extracted(env, s1, env.trim(input.content), FormatOf(env, input.format));
      IngestedIsDrawn(env, s2, KIND_SCRAPED, title, url, sourceURL, folderID, tags, [content]);
    } else {
      IngestedIsDrawn(env, s1, KIND_BOOKMARK, title, url, sourceURL, folderID, tags, []);
    }
  }

  lemma ItemDraws(env: Env, s: State, feed: Feed, item: NormalItem, s': State, id: string)
    requires ItemDocumentCreated(env, s, feed, item) == Ok((s', id))
    ensures OnlyDrawn(env, s, s')
  {
    var (s1, folderID) := DocumentFolderFor(env, s, WantedFolder(feed), true).value;
    var (s2, contents) := ItemContents(env, s1, item);
    IngestedIsDrawn(env, s2, KIND_RSS, item.title, item.canonicalURL, item.sourceURL, folderID, [], contents);
  }

  lemma StepDraws(env: Env, base: State, feed: Feed, im: Import, item: ImportItem, im': Import)
    requires ImportInv(base, feed, im) && ImportStep(env, feed, im, item) == Ok(im')
    ensures OnlyDrawn(env, im.s, im'.s)
  {
    var normal := Normalized(env, item);
    if normal.Some? && !HasKey(im.seen, normal.value) {
      var (im1, documentID) := DocumentFor(env, feed, im, normal.value).value;
      DocumentDraws(env, base, feed, im, normal.value, im1, documentID);
      assert im'.s.docs == im1.s.docs;
    }
  }

  lemma DocumentDraws(env: Env, base: State, feed: Feed, im: Import, item: NormalItem, im1: Import, documentID: string)
    requires ImportInv(base, feed, im) && DocumentFor(env, feed, im, item) == Ok((im1, documentID))
    ensures OnlyDrawn(env, im.s, im1.s)
  {
    var k := FirstOrphan(im.records, im.linked, item);
    if k < |im.records| {
      Unpacked(base, feed, im);
      AdoptKeepsSnapshot(env, base, feed, im, k, im1);
    } else {
      ItemDraws(env, im.s, feed, item, im1.s, documentID);
    }
  }

  lemma {:induction false} ImportDraws(env: Env, base: State, feed: Feed, im: Import, items: seq<ImportItem>,
                                       im': Import)
    requires ImportInv(base, feed, im) && ImportAll(env, feed, im, items) == Ok(im')
    ensures OnlyDrawn(env, im.s, im'.s)
  {
    if items != [] {
      var front, last := items[..|items| - 1], items[|items| - 1];
      var before := ImportAll(env, feed, im, front).value;
      ImportDraws(env, base, feed, im, front, before);
      ImportAllKeepsInv(env, base, feed, im, front);
      StepDraws(env, base, feed, before, last, im');
    }
  }

  /** The feed keeps the keys of its items. */
  ghost predicate KeepsKeys(s: State, s': State, feedID: string) {
    Within(KeysOf(ItemsOf(s.items, feedID)), KeysOf(ItemsOf(s'.items, feedID)))
  }

  lemma ImportCallKeepsKeys(env: Env, s: State, feedID: string, items: seq<ImportItem>, s': State, result: ImportResult)
    requires Inv(s) && KeyedDocuments(s.docs) && ImportFeedItemsSpec(env, s, feedID, items) == Ok((s', result))
    ensures forall f :: KeepsKeys(s, s', f)
  {
    var feed, start := s.feeds[feedID], ImportStart(s, feedID);
    var im := ImportAll(env, feed, start, items).value;
    FeedIsKeyed(s, feedID);
    StartKeepsInv(s, feedID);
    ImportAllKeepsInv(env, s, feed, start, items);
    AllSettle(env, feed, start, items, im);
    Unpacked(s, feed, im);
    var adopted := ImportOutcome(env, s, feedID, items, s', result);
    forall f ensures KeepsKeys(s, s', f) {
      if f != feedID {
        assert ItemsOf(s'.items, f) == ItemsOf(s.items, f);
      }
    }
  }

  lemma ImportCallDraws(env: Env, s: State, feedID: string, items: seq<ImportItem>, s': State, result: ImportResult)
    requires Inv(s) && KeyedDocuments(s.docs) && ImportFeedItemsSpec(env, s, feedID, items) == Ok((s', result))
    ensures OnlyDrawn(env, s, s')
  {
    StartKeepsInv(s, feedID);
    var feed, start := s.feeds[feedID], ImportStart(s, feedID);
    ImportDraws(env, s, feed, start, items, ImportAll(env, feed, start, items).value);
  }

  lemma EditedInPlace(env: Env, s: State, s1: State, id: string, titled: bool, doc: Document, s': State)
    requires id in s.docs && s1.docs == s.docs && s1.items == s.items && doc.meta.id == id
    requires s' == WithDocument(if titled
                                then VersionRecorded(env, s1, s.docs[id], MUTATION_TITLE, Now(env, s1)) else s1, doc)
    ensures s'.docs.Keys == s.docs.Keys && s'.items == s.items
  {
  }

  lemma UpdateInPlaceDrawsNone(env: Env, s: State, id: string, input: UpdateDocumentInput, s': State)
    requires Inv(s) && UpdateDocumentSpec(env, s, id, input) == Ok(s') && input.folderID.None?
    ensures s'.docs.Keys == s.docs.Keys && s'.items == s.items
  {
    StoredDocument(s, id);
    EditedInPlace(env, s, s, id, Retitled(env, s, id, input), s'.docs[id], s');
  }

  lemma UpdateAndMoveDrawsNone(env: Env, s: State, id: string, input: UpdateDocumentInput, s': State)
    requires Inv(s) && UpdateDocumentSpec(env, s, id, input) == Ok(s') && input.folderID.Some?
    ensures s'.docs.Keys == s.docs.Keys && s'.items == s.items
  {
    StoredDocument(s, id);
    var s1 := DocumentFolderFor(env, s, input.folderID.value, false).value.0;
    EditedInPlace(env, s, s1, id, Retitled(env, s, id, input), s'.docs[id], s');
  }

  lemma RescrapeDrawsNone(env: Env, s: State, id: string, input: RescrapeInput, s': State)
    requires Inv(s) && RescrapeSpec(env, s, id, input) == Ok(s')
    ensures s'.docs.Keys == s.docs.Keys && s'.items == s.items
  {
    StoredDocument(s, id);
    var s1 := ExtractedReplaced(env, s, s.docs[id].contents, env.trim(input.content), FormatOf(env, input.format)).0;
    assert s1 == s.(next := s1.next);
    assert s'.docs == s1.docs[id := s'.docs[id]];
  }

  lemma TranslationDrawsNone(env: Env, s: State, id: string, input: TranslationInput, s': State)
    requires Inv(s) && AppendTranslationSpec(env, s, id, input) == Ok(s')
    ensures s'.docs.Keys == s.docs.Keys && s'.items == s.items
  {
    StoredDocument(s, id);
  }

  lemma MetadataDrawsNone(call: Call, s: State, s': State)
    requires Inv(s) && KeyedDocuments(s.docs) && Apply(call, s) == Ok(s')
    requires call.op.DeleteDocument? || call.op.TrashDocument? || call.op.ReplaceDocumentTags?
    ensures s'.docs.Keys == s.docs.Keys && s'.items == s.items
  {
    if call.op.id in s.docs {
      StoredDocument(s, call.op.id);
    }
  }

  lemma DocumentCallDraws(call: Call, s: State, s': State)
    requires Inv(s) && KeyedDocuments(s.docs) && Apply(call, s) == Ok(s') && IsDocumentOp(call.op)
    ensures OnlyDrawn(call.env, s, s') && s'.items == s.items
  {
    var env := call.env;
    match call.op {
      case CreateDocument(title, kind) =>
        CreateDraws(env, s, title, kind, s', CreateDocumentSpec(env, s, title, kind).value.1);
      case IngestDocument(scraped, input) =>
        IngestDraws(env, s, scraped, input, s', IngestSpec(env, s, scraped, input).value.1);
      case UpdateDocument(id, input) =>
        if input.folderID.None? {
          UpdateInPlaceDrawsNone(env, s, id, input, s');
        } else {
          UpdateAndMoveDrawsNone(env, s, id, input, s');
        }
      case ReplaceRescrapedContent(id, input) => RescrapeDrawsNone(env, s, id, input, s');
      case AppendTranslatedContent(id, input) => TranslationDrawsNone(env, s, id, input, s');
      case _ => MetadataDrawsNone(call, s, s');
    }
  }

  lemma DeleteFeedKeepsOthers(s: State, id: string, s': State)
    requires DeleteFeedSpec(s, id) == Ok(s')
    ensures s'.docs == s.docs && forall f | f != id :: KeepsKeys(s, s', f)
  {
    forall f | f != id ensures KeepsKeys(s, s', f) {
      assert ItemsOf(s'.items, f) == ItemsOf(s.items, f);
    }
  }

  lemma SameItemsSameKeys(s: State, s': State)
    requires s'.items == s.items
    ensures forall f :: KeepsKeys(s, s', f)
  {
  }

  lemma CreateFeedDraws(env: Env, s: State, input: CreateFeedInput, sortOrder: int, s': State, id: string)
    requires Inv(s) && CreateFeedSpec(env, s, input, sortOrder) == Ok((s', id))
    ensures s'.docs == s.docs && forall f :: KeepsKeys(s, s', f)
  {
    CreateFeedOutcome(env, s, input, sortOrder, s', id);
    SameItemsSameKeys(s, s');
  }

  lemma UpdateFeedDraws(env: Env, s: State, id: string, input: UpdateFeedInput, s': State)
    requires Inv(s) && UpdateFeedSpec(env, s, id, input) == Ok(s')
    ensures s'.docs == s.docs && forall f :: KeepsKeys(s, s', f)
  {
    FeedIsKeyed(s, id);
    FeedStoredKeepsItems(s, s'.feeds[id], s');
    SameItemsSameKeys(s, s');
  }

  lemma FeedStoredKeepsItems(s: State, feed: Feed, s': State)
    requires s' == WithFeed(s, feed)
    ensures s'.docs == s.docs && s'.items == s.items
  {
  }

  lemma FeedCallDraws(call: Call, s: State, s': State)
    requires Inv(s) && KeyedDocuments(s.docs) && Apply(call, s) == Ok(s')
    requires call.op.CreateFeed? || call.op.UpdateFeed? || call.op.DeleteFeed? || call.op.ImportFeedItems?
    ensures OnlyDrawn(call.env, s, s')
    ensures forall f | call.op != Op.DeleteFeed(f) :: KeepsKeys(s, s', f)
  {
    var env := call.env;
    match call.op {
      case CreateFeed(input, sortOrder) =>
        CreateFeedDraws(env, s, input, sortOrder, s', CreateFeedSpec(env, s, input, sortOrder).value.1);
      case ImportFeedItems(id, items) =>
        ImportCallDraws(env, s, id, items, s', ImportFeedItemsSpec(env, s, id, items).value.1);
        ImportCallKeepsKeys(env, s, id, items, s', ImportFeedItemsSpec(env, s, id, items).value.1);
      case DeleteFeed(id) => DeleteFeedKeepsOthers(s, id, s');
      case UpdateFeed(id, input) => UpdateFeedDraws(env, s, id, input, s');
    }
  }

  lemma FolderCallDraws(call: Call, s: State, s': State)
    requires Inv(s) && KeyedDocuments(s.docs) && Apply(call, s) == Ok(s')
    requires call.op.ListFolders? || call.op.CreateFolder? || call.op.UpdateFolder? || call.op.DeleteFolder?
             || call.op.CreateTag?
    ensures OnlyDrawn(call.env, s, s') && s'.items == s.items
  {
    match call.op {
      case DeleteFolder(id, action) => var target := DeleteFolderOutcome(call.env, s, id, action, s');
      case _ =>
    }
  }

  lemma CallDraws(call: Call, s: State)
    requires Inv(s) && KeyedDocuments(s.docs)
    ensures OnlyDrawn(call.env, s, After(call, s))
    ensures forall f | call.op != Op.DeleteFeed(f) :: KeepsKeys(s, After(call, s), f)
  {
    if Apply(call, s).Ok? {
      if IsDocumentOp(call.op) {
        DocumentCallDraws(call, s, After(call, s));
      } else if call.op.CreateFeed? || call.op.UpdateFeed? || call.op.DeleteFeed? || call.op.ImportFeedItems? {
        FeedCallDraws(call, s, After(call, s));
      } else {
        FolderCallDraws(call, s, After(call, s));
      }
    }
  }

  /** After every run whose clocks write their timestamps in bytes the identifiers of all documents are
      non-empty byte strings, so that a cursor leads back to its document. */
  lemma {:induction false} RunsHaveByteKeys(calls: seq<Call>)
    requires forall call | call in calls :: StampsBytes(call.env)
    ensures ByteKeys(Run(calls))
  {
    if calls != [] {
      var front, last := calls[..|calls| - 1], calls[|calls| - 1];
      assert calls == front + [last];
      RunsHaveByteKeys(front);
      CallDraws(last, Run(front));
      assert Run(calls) == After(last, Run(front));
      forall d | d in Run(calls).docs ensures d != "" && Base64.IsBytes(d) {
        if d !in Run(front).docs {
          var n: nat :| d == NewID(last.env, n, "doc");
          NewIDIsBytes(last.env, n, "doc");
        }
      }
    }
  }

  /** So in every reachable library the pages tile the listing: a client that follows the cursors, with
      at least one request for each listed document, ends with the whole listing. */
  lemma RunsCanBePaged(calls: seq<Call>, env: Env, f: DocumentSearch.Filters, orders: seq<seq<Document>>,
                       records: seq<Document>)
    requires forall call | call in calls :: StampsBytes(call.env)
    requires DocumentSearch.NormalizedFilters(env, f).Ok? && DocumentSearch.Enumerates(Run(calls), records)
    requires forall k | 0 <= k < |orders| :: DocumentSearch.Enumerates(Run(calls), orders[k])
    requires |orders| >= 1
    requires |orders| >= |DocumentSearch.Listing(env, Run(calls), DocumentSearch.NormalizedFilters(env, f).value,
                                                 records)|
    ensures ByteKeys(Run(calls))
    ensures var normal := DocumentSearch.NormalizedFilters(env, f).value;
            Followed(env, Run(calls), f, orders)
            == Ok(Progress(DocumentSearch.IDs(DocumentSearch.Listing(env, Run(calls), normal, records)), None))
  {
    RunsHaveByteKeys(calls);
    FollowingEnds(env, Run(calls), f, orders, records);
  }

  // ----- Importing again, later -----

  /** As long as it is not deleted, a feed keeps the keys of its items over any calls. */
  lemma {:induction false} RunsKeepKeys(front: seq<Call>, calls: seq<Call>, feedID: string)
    requires forall call | call in calls :: call.op != Op.DeleteFeed(feedID)
    ensures KeepsKeys(Run(front), Run(front + calls), feedID)
  {
    if calls == [] {
      assert front + calls == front;
    } else {
      var but, last := calls[..|calls| - 1], calls[|calls| - 1];
      assert calls == but + [last] && (front + calls)[..|front + calls| - 1] == front + but;
      RunsKeepKeys(front, but, feedID);
      CallDraws(last, Run(front + but));
      assert Run(front + calls) == After(last, Run(front + but));
    }
  }

  /** Whatever calls come between, as long as they do not delete the feed: importing again any list
      drawn from the items of an earlier import imports nothing. Only the feed's timestamps move. */
  lemma ReimportAnyTimeLater(front: seq<Call>, env: Env, feedID: string, items: seq<ImportItem>, calls: seq<Call>,
                             later: Env, again: seq<ImportItem>)
    requires ImportFeedItemsSpec(env, Run(front), feedID, items).Ok?
    requires forall call | call in calls :: call.op != Op.DeleteFeed(feedID)
    requires later.trim == env.trim && forall x | x in again :: x in items
    requires var s := Run(front + [Call(env, Op.ImportFeedItems(feedID, items))] + calls);
             feedID in s.feeds && s.feeds[feedID].enabled
    ensures var s := Run(front + [Call(env, Op.ImportFeedItems(feedID, items))] + calls);
            var r := ImportFeedItemsSpec(later, s, feedID, again);
            && r.Ok?
            && r.value.1 == ImportResult(feedID, 0, |again|, Now(later, s))
            && r.value.0 == s.(feeds := r.value.0.feeds)
  {
    var imported := front + [Call(env, Op.ImportFeedItems(feedID, items))];
    assert imported[..|imported| - 1] == front;
    var (s1, result) := ImportFeedItemsSpec(env, Run(front), feedID, items).value;
    assert Run(imported) == s1;
    ImportSettles(env, Run(front), feedID, items, s1, result);
    RunsKeepKeys(imported, calls, feedID);
    var s := Run(imported + calls);
    StillSettled(env, later, KeysOf(ItemsOf(s1.items, feedID)), items, again);
    forall x | x in again ensures Settled(later, KeysOf(ItemsOf(s.items, feedID)), x) {
      assert Settled(later, KeysOf(ItemsOf(s1.items, feedID)), x);
    }
    FeedIsKeyed(s, feedID);
    SettledListChangesNothing(later, s, feedID, again);
  }

  // ----- A plain folder that cannot be deleted -----

  /** Trimming leaves these alone. */
  predicate TrimsNothing(env: Env) {
    env.trim("Inbox") == "Inbox" && env.trim("t") == "t" && env.trim(NewID(env, 0, "folder")) == NewID(env, 0, "folder")
  }

  /** A folder at the root, and a document in it. */
  function InboxCalls(env: Env): (calls: seq<Call>) {
    [Call(env, Op.CreateFolder(FolderInput(None, "Inbox", 0))),
     Call(env, Op.IngestDocument(false, IngestInput("", "", "t", NewID(env, 0, "folder"), [], "", "")))]
  }

  lemma InboxCreated(env: Env) returns (s: State)
    requires TrimsNothing(env)
    ensures s == Run(InboxCalls(env)[..1]) && s.next == 1 && s.docs == map[]
    ensures var id := NewID(env, 0, "folder");
            s.folders == map[id := Folder(id, None, "Inbox", None, 0, env.clock(0), env.clock(0))]
  {
    var call := InboxCalls(env)[0];
    assert InboxCalls(env)[..1] == [call] && [call][..0] == [];
    assert Run([]) == EMPTY;
    assert InvalidInput(env, EMPTY.folders, "", call.op.folder).None?;
    s := After(call, EMPTY);
  }

  lemma InboxFilled(env: Env) returns (s: State)
    requires TrimsNothing(env)
    ensures s == Run(InboxCalls(env))
    ensures var id := NewID(env, 0, "folder");
            && s.folders == map[id := Folder(id, None, "Inbox", None, 0, env.clock(0), env.clock(0))]
            && InFolder(s, NewID(env, 1, "doc"), id)
  {
    var id := NewID(env, 0, "folder");
    var s1 := InboxCreated(env);
    var call := InboxCalls(env)[1];
    var placed := DocumentFolderFor(env, s1, id, false);
    assert placed == Ok((s1, id));
    s := After(call, s1);
    assert Run(InboxCalls(env)) == s;
    assert NewID(env, 1, "doc") in s.docs;
  }

  /** A run after which a folder without a role and without children cannot be deleted, although the
      request says where its documents are to go. */
  lemma InboxIsKept(env: Env)
    requires TrimsNothing(env)
    ensures var s, id := Run(InboxCalls(env)), NewID(env, 0, "folder");
            && id in s.folders && s.folders[id].systemRole.None?
            && (forall f | f in s.folders :: s.folders[f].parentID != Some(id))
            && DeleteFolderSpec(env, s, id, MOVE_TO_PARENT).Err?
            && DeleteFolderSpec(env, s, id, MOVE_TO_PARENT).error.Conflict?
  {
    var id := NewID(env, 0, "folder");
    var s := InboxFilled(env);
    DeleteFolderSucceeds(env, s, id, MOVE_TO_PARENT);
    assert InFolder(s, NewID(env, 1, "doc"), id);
    assert RoleName(ROLE_INBOX) == "Inbox";
  }
}
