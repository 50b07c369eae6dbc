/** Whole runs of the service: any list of calls, each with a clock of its own, from the empty
    library. A failed call leaves the state alone because its transaction is discarded. */
module Runs {
  import opened Prelude
  import opened Entities
  import opened Library
  import opened SystemFolders
  import opened FolderOps
  import opened FeedOps
  import opened TagOps
  import opened DocumentOps
  import opened FeedImport
  import opened ImportProofs

  datatype Op =
    | ListFolders
    | CreateFolder(folder: FolderInput)
    | UpdateFolder(id: string, folder: FolderInput)
    | DeleteFolder(id: string, action: string)
    | CreateFeed(feed: CreateFeedInput, sortOrder: int)
    | UpdateFeed(id: string, changes: UpdateFeedInput)
    | DeleteFeed(id: string)
    | ImportFeedItems(id: string, items: seq<FeedItems.ImportItem>)
    | CreateTag(name: string)
    | CreateDocument(title: string, kind: string)
    | IngestDocument(scraped: bool, document: IngestInput)
    | UpdateDocument(id: string, edit: UpdateDocumentInput)
    | DeleteDocument(id: string)
    | TrashDocument(id: string)
    | ReplaceDocumentTags(id: string, tagIDs: seq<string>)
    | ReplaceRescrapedContent(id: string, rescraped: RescrapeInput)
    | AppendTranslatedContent(id: string, translation: TranslationInput)

  datatype Call = Call(env: Env, op: Op)

  function StateOf(r: Result<(State, string)>): (s: Result<State>) {
    match r case Ok(v) => Ok(v.0) case Err(e) => Err(e)
  }

  ghost function Imported(r: Result<(State, ImportResult)>): (s: Result<State>) {
    match r case Ok(v) => Ok(v.0) case Err(e) => Err(e)
  }

  ghost function Apply(call: Call, s: State): (r: Result<State>)
    requires KeyedDocuments(s.docs)
  {
    var env := call.env;
    match call.op
    case ListFolders => Ok(SystemFoldersSpec(env, s))
    case CreateFolder(input) => StateOf(CreateFolderSpec(env, s, input))
    case UpdateFolder(id, input) => UpdateFolderSpec(env, s, id, input)
    case DeleteFolder(id, action) => DeleteFolderSpec(env, s, id, action)
    case CreateFeed(input, sortOrder) => StateOf(CreateFeedSpec(env, s, input, sortOrder))
    case UpdateFeed(id, input) => UpdateFeedSpec(env, s, id, input)
    case DeleteFeed(id) => DeleteFeedSpec(s, id)
    case ImportFeedItems(id, items) => Imported(ImportFeedItemsSpec(env, s, id, items))
    case CreateTag(name) => StateOf(CreateTagSpec(env, s, name))
    case CreateDocument(title, kind) => StateOf(CreateDocumentSpec(env, s, title, kind))
    case IngestDocument(scraped, input) => StateOf(IngestSpec(env, s, scraped, input))
    case UpdateDocument(id, input) => UpdateDocumentSpec(env, s, id, input)
    case DeleteDocument(id) => DeleteDocumentSpec(env, s, id)
    case TrashDocument(id) => TrashDocumentSpec(env, s, id)
    case ReplaceDocumentTags(id, tagIDs) => ReplaceTagsSpec(env, s, id, tagIDs)
    case ReplaceRescrapedContent(id, input) => RescrapeSpec(env, s, id, input)
    case AppendTranslatedContent(id, input) => AppendTranslationSpec(env, s, id, input)
  }

  ghost function After(call: Call, s: State): (s': State)
    requires KeyedDocuments(s.docs)
  {
    match Apply(call, s) case Ok(s') => s' case Err(_) => s
  }

  predicate IsDocumentOp(op: Op) {
    || op.CreateDocument? || op.IngestDocument? || op.UpdateDocument? || op.DeleteDocument?
    || op.TrashDocument? || op.ReplaceDocumentTags? || op.ReplaceRescrapedContent? || op.AppendTranslatedContent?
  }

  lemma CreateCallKeepsInv(call: Call, s: State, s': State)
    requires Inv(s) && KeyedDocuments(s.docs) && Apply(call, s) == Ok(s')
    requires call.op.CreateDocument? || call.op.IngestDocument?
    ensures Inv(s')
  {
    var env := call.env;
    match call.op {
      case CreateDocument(title, kind) =>
        CreateDocumentKeepsInv(env, s, title, kind, s', CreateDocumentSpec(env, s, title, kind).value.1);
      case IngestDocument(scraped, input) =>
        IngestKeepsInv(env, s, scraped, input, s', IngestSpec(env, s, scraped, input).value.1);
    }
  }

  lemma DocumentCallKeepsInv(call: Call, s: State, s': State)
    requires Inv(s) && KeyedDocuments(s.docs) && Apply(call, s) == Ok(s') && IsDocumentOp(call.op)
    ensures Inv(s')
  {
    var env := call.env;
    match call.op {
      case UpdateDocument(id, input) => UpdateDocumentKeepsInv(env, s, id, input, s');
      case DeleteDocument(id) => DeleteDocumentKeepsInv(env, s, id);
      case TrashDocument(id) => TrashDocumentKeepsInv(env, s, id, s');
      case ReplaceDocumentTags(id, tagIDs) => ReplaceTagsKeepsInv(env, s, id, tagIDs, s');
      case ReplaceRescrapedContent(id, input) => RescrapeKeepsInv(env, s, id, input, s');
      case AppendTranslatedContent(id, input) => AppendTranslationKeepsInv(env, s, id, input, s');
      case _ => CreateCallKeepsInv(call, s, s');
    }
  }

  /** Every operation keeps the invariant. */
  lemma CallKeepsInv(call: Call, s: State)
    requires Inv(s) && KeyedDocuments(s.docs)
    ensures Inv(After(call, s))
  {
    if Apply(call, s).Ok? {
      var env, s' := call.env, After(call, s);
      match call.op {
        case ListFolders => SystemFoldersKeepInv(env, s);
        case CreateFolder(input) => CreateFolderKeepsInv(env, s, input);
        case UpdateFolder(id, input) => UpdateFolderKeepsInv(env, s, id, input);
        case DeleteFolder(id, action) => DeleteFolderKeepsInv(env, s, id, action, s');
        case CreateFeed(input, sortOrder) =>
          CreateFeedKeepsInv(env, s, input, sortOrder, s', CreateFeedSpec(env, s, input, sortOrder).value.1);
        case UpdateFeed(id, input) => UpdateFeedKeepsInv(env, s, id, input, s');
        case DeleteFeed(id) => DeleteFeedKeepsInv(s, id);
        case ImportFeedItems(id, items) =>
          var adopted := ImportOutcome(env, s, id, items, s', ImportFeedItemsSpec(env, s, id, items).value.1);
        case CreateTag(name) => CreateTagKeepsInv(env, s, name, s', CreateTagSpec(env, s, name).value.1);
        case _ => DocumentCallKeepsInv(call, s, s');
      }
    }
  }

  /** The state after a run; every reachable state satisfies the invariant. */
  ghost function Run(calls: seq<Call>): (s: State)
    ensures Inv(s) && KeyedDocuments(s.docs)
  {
    if calls == [] then
      EmptyInv();
      EMPTY
    else
      var before := Run(calls[..|calls| - 1]);
      CallKeepsInv(calls[|calls| - 1], before);
      var s := After(calls[|calls| - 1], before);
      DocumentsKeyed(s);
      s
  }

  // ----- History -----

  datatype Image = Image(title: string, contents: seq<Content>)

  function ImageOf(d: Document): (i: Image) {
    Image(d.meta.title, d.contents)
  }

  function VersionImage(v: Version): (i: Image) {
    Image(v.title, v.contents)
  }

  /** The document whose title or contents the call replaces, if it does: a changed title, a
      rescrape, a translation. */
  ghost function Edits(call: Call, s: State): (d: Option<string>)
    requires KeyedDocuments(s.docs)
  {
    if Apply(call, s).Err? then None
    else match call.op
      case UpdateDocument(id, input) =>
        if id in s.docs && Retitled(call.env, s, id, input) then Some(id) else None
      case ReplaceRescrapedContent(id, _) => Some(id)
      case AppendTranslatedContent(id, _) => Some(id)
      case _ => None
  }

  /** History and image of a document as they were. */
  ghost predicate SameHistory(s: State, s': State, d: string) {
    && VersionsOf(s', d) == VersionsOf(s, d)
    && (d in s.docs ==> d in s'.docs && ImageOf(s'.docs[d]) == ImageOf(s.docs[d]))
  }

  /** One more version, holding the document as it was. */
  ghost predicate OneVersionMore(s: State, s': State, d: string) {
    && d in s.docs && d in s'.docs
    && |VersionsOf(s', d)| == |VersionsOf(s, d)| + 1
    && VersionsOf(s', d)[..|VersionsOf(s, d)|] == VersionsOf(s, d)
    && var v := VersionsOf(s', d)[|VersionsOf(s, d)|];
       VersionImage(v) == ImageOf(s.docs[d]) && v.meta == s.docs[d].meta
  }

  ghost predicate HistoryStep(s: State, s': State, edited: Option<string>, d: string) {
    if edited == Some(d) then OneVersionMore(s, s', d) else SameHistory(s, s', d)
  }

  lemma ImportHistory(env: Env, s: State, feedID: string, items: seq<FeedItems.ImportItem>, s': State,
                      result: ImportResult, d: string)
    requires Inv(s) && KeyedDocuments(s.docs) && ImportFeedItemsSpec(env, s, feedID, items) == Ok((s', result))
    ensures SameHistory(s, s', d)
  {
    var adopted := ImportOutcome(env, s, feedID, items, s', result);
    if d in s.docs {
      assert OnlyMoved(s.docs[d], s'.docs[d]);
    }
  }

  lemma DeleteFolderHistory(env: Env, s: State, id: string, action: string, s': State, d: string)
    requires Inv(s) && DeleteFolderSpec(env, s, id, action) == Ok(s')
    ensures SameHistory(s, s', d)
  {
    var target := DeleteFolderOutcome(env, s, id, action, s');
  }

  /** Storing another document under `id` after recording the one that stood there. */
  lemma EditRecorded(s: State, s': State, id: string, v: Version, d: string)
    requires id in s.docs && id in s'.docs && s'.docs == s.docs[id := s'.docs[id]]
    requires VersionImage(v) == ImageOf(s.docs[id]) && v.meta == s.docs[id].meta
    requires s'.versions == s.versions[id := VersionsOf(s, id) + [v]]
    ensures HistoryStep(s, s', Some(id), d)
  {
  }

  lemma TablesUntouched(s: State, s': State, d: string)
    requires s'.docs == s.docs && s'.versions == s.versions
    ensures SameHistory(s, s', d)
  {
  }

  lemma RecordedThenStored(env: Env, s: State, s1: State, id: string, mutation: string, now: int, s': State, d: string)
    requires Inv(s) && id in s.docs && s1.docs == s.docs && s1.versions == s.versions
    requires id in s'.docs && s'.docs == s.docs[id := s'.docs[id]]
    requires s'.versions == VersionRecorded(env, s1, s.docs[id], mutation, now).versions
    ensures HistoryStep(s, s', Some(id), d)
  {
    StoredDocument(s, id);
    EditRecorded(s, s', id, s'.versions[id][|VersionsOf(s, id)|], d);
  }

  /** A document edited on `s1`, which differs from `s` in other tables only. */
  lemma EditHistory(env: Env, s: State, s1: State, id: string, doc: Document, titled: bool, s': State, d: string)
    requires Inv(s) && id in s.docs && s1.docs == s.docs && s1.versions == s.versions && doc.meta.id == id
    requires s' == WithDocument(if titled
                                then VersionRecorded(env, s1, s.docs[id], MUTATION_TITLE, Now(env, s1)) else s1, doc)
    requires !titled ==> ImageOf(doc) == ImageOf(s.docs[id])
    ensures HistoryStep(s, s', if titled then Some(id) else None, d)
  {
    if titled {
      RecordedThenStored(env, s, s1, id, MUTATION_TITLE, Now(env, s1), s', d);
    }
  }

  predicate Retitled(env: Env, s: State, id: string, input: UpdateDocumentInput)
    requires id in s.docs
  {
    input.title.Some? && env.trim(input.title.value) != s.docs[id].meta.title
  }

  lemma UpdateInPlaceHistory(env: Env, s: State, id: string, input: UpdateDocumentInput, s': State, d: string)
    requires Inv(s) && UpdateDocumentSpec(env, s, id, input) == Ok(s') && input.folderID.None?
    ensures HistoryStep(s, s', if Retitled(env, s, id, input) then Some(id) else None, d)
  {
    StoredDocument(s, id);
    EditHistory(env, s, s, id, s'.docs[id], Retitled(env, s, id, input), s', d);
  }

  lemma UpdateAndMoveHistory(env: Env, s: State, id: string, input: UpdateDocumentInput, s': State, d: string)
    requires Inv(s) && UpdateDocumentSpec(env, s, id, input) == Ok(s') && input.folderID.Some?
    ensures HistoryStep(s, s', if Retitled(env, s, id, input) then Some(id) else None, d)
  {
    StoredDocument(s, id);
    var s1 := DocumentFolderFor(env, s, input.folderID.value, false).value.0;
    EditHistory(env, s, s1, id, s'.docs[id], Retitled(env, s, id, input), s', d);
  }

  lemma UpdateDocumentHistory(env: Env, s: State, id: string, input: UpdateDocumentInput, s': State, d: string)
    requires Inv(s) && UpdateDocumentSpec(env, s, id, input) == Ok(s')
    ensures HistoryStep(s, s', if Retitled(env, s, id, input) then Some(id) else None, d)
  {
    if input.folderID.None? {
      UpdateInPlaceHistory(env, s, id, input, s', d);
    } else {
      UpdateAndMoveHistory(env, s, id, input, s', d);
    }
  }

  lemma RescrapeHistory(env: Env, s: State, id: string, input: RescrapeInput, s': State, d: string)
    requires Inv(s) && RescrapeSpec(env, s, id, input) == Ok(s')
    ensures HistoryStep(s, s', Some(id), d)
  {
    StoredDocument(s, id);
    var s1 := ExtractedReplaced(env, s, s.docs[id].contents, env.trim(input.content), FormatOf(env, input.format)).0;
    assert s1 == s.(next := s1.next);
    RecordedThenStored(env, s, s1, id, MUTATION_CONTENT, Now(env, s1), s', d);
  }

  lemma TranslationHistory(env: Env, s: State, id: string, input: TranslationInput, s': State, d: string)
    requires Inv(s) && AppendTranslationSpec(env, s, id, input) == Ok(s')
    ensures HistoryStep(s, s', Some(id), d)
  {
    StoredDocument(s, id);
    EditRecorded(s, s', id, s'.versions[id][|VersionsOf(s, id)|], d);
  }

  /** A stored document whose title and contents stay, on tables that otherwise differ elsewhere only. */
  lemma SameImage(s: State, s': State, id: string, d: string)
    requires id in s.docs && id in s'.docs && ImageOf(s'.docs[id]) == ImageOf(s.docs[id])
    requires s'.docs == s.docs[id := s'.docs[id]] && s'.versions == s.versions
    ensures SameHistory(s, s', d)
  {
  }

  lemma DeleteHistory(env: Env, s: State, id: string, s': State, d: string)
    requires Inv(s) && DeleteDocumentSpec(env, s, id) == Ok(s')
    ensures SameHistory(s, s', d)
  {
    StoredDocument(s, id);
    SameImage(s, s', id, d);
  }

  lemma TrashHistory(env: Env, s: State, id: string, s': State, d: string)
    requires Inv(s) && TrashDocumentSpec(env, s, id) == Ok(s')
    ensures SameHistory(s, s', d)
  {
    if s' != s {
      StoredDocument(s, id);
      SameImage(s, s', id, d);
    }
  }

  lemma RetagHistory(env: Env, s: State, id: string, tagIDs: seq<string>, s': State, d: string)
    requires Inv(s) && ReplaceTagsSpec(env, s, id, tagIDs) == Ok(s')
    ensures SameHistory(s, s', d)
  {
    StoredDocument(s, id);
    SameImage(s, s', id, d);
  }

  lemma MetadataHistory(call: Call, s: State, s': State, d: string)
    requires Inv(s) && KeyedDocuments(s.docs) && Apply(call, s) == Ok(s')
    requires call.op.DeleteDocument? || call.op.TrashDocument? || call.op.ReplaceDocumentTags?
    ensures SameHistory(s, s', d)
  {
    match call.op {
      case DeleteDocument(id) => DeleteHistory(call.env, s, id, s', d);
      case TrashDocument(id) => TrashHistory(call.env, s, id, s', d);
      case ReplaceDocumentTags(id, tagIDs) => RetagHistory(call.env, s, id, tagIDs, s', d);
    }
  }

  lemma AddedHistory(s: State, s': State, id: string, d: string)
    requires id !in s.docs && id in s'.docs && s'.docs == s.docs[id := s'.docs[id]] && s'.versions == s.versions
    ensures SameHistory(s, s', d)
  {
  }

  lemma CreateHistory(env: Env, s: State, title: string, kind: string, s': State, id: string, d: string)
    requires Inv(s) && CreateDocumentSpec(env, s, title, kind) == Ok((s', id))
    ensures SameHistory(s, s', d)
  {
    CreateDocumentKeepsInv(env, s, title, kind, s', id);
    AddedHistory(s, s', id, d);
  }

  lemma IngestHistory(env: Env, s: State, scraped: bool, input: IngestInput, s': State, id: string, d: string)
    requires Inv(s) && IngestSpec(env, s, scraped, input) == Ok((s', id))
    ensures SameHistory(s, s', d)
  {
    IngestKeepsInv(env, s, scraped, input, s', id);
    AddedHistory(s, s', id, d);
  }

  lemma CreateCallHistory(call: Call, s: State, s': State, d: string)
    requires Inv(s) && KeyedDocuments(s.docs) && Apply(call, s) == Ok(s')
    requires call.op.CreateDocument? || call.op.IngestDocument?
    ensures SameHistory(s, s', d)
  {
    var env := call.env;
    match call.op {
      case CreateDocument(title, kind) =>
        CreateHistory(env, s, title, kind, s', CreateDocumentSpec(env, s, title, kind).value.1, d);
      case IngestDocument(scraped, input) =>
        IngestHistory(env, s, scraped, input, s', IngestSpec(env, s, scraped, input).value.1, d);
    }
  }

  lemma EditCallHistory(call: Call, s: State, s': State, d: string)
    requires Inv(s) && KeyedDocuments(s.docs) && Apply(call, s) == Ok(s')
    requires call.op.UpdateDocument? || call.op.ReplaceRescrapedContent? || call.op.AppendTranslatedContent?
    ensures HistoryStep(s, s', Edits(call, s), d)
  {
    match call.op {
      case UpdateDocument(id, input) => UpdateDocumentHistory(call.env, s, id, input, s', d);
      case ReplaceRescrapedContent(id, input) => RescrapeHistory(call.env, s, id, input, s', d);
      case AppendTranslatedContent(id, input) => TranslationHistory(call.env, s, id, input, s', d);
    }
  }

  lemma DocumentCallHistory(call: Call, s: State, s': State, d: string)
    requires Inv(s) && KeyedDocuments(s.docs) && Apply(call, s) == Ok(s') && IsDocumentOp(call.op)
    ensures HistoryStep(s, s', Edits(call, s), d)
  {
    if call.op.CreateDocument? || call.op.IngestDocument? {
      CreateCallHistory(call, s, s', d);
    } else if call.op.DeleteDocument? || call.op.TrashDocument? || call.op.ReplaceDocumentTags? {
      MetadataHistory(call, s, s', d);
    } else {
      EditCallHistory(call, s, s', d);
    }
  }

  lemma PlainFeedCallHistory(call: Call, s: State, s': State, d: string)
    requires KeyedDocuments(s.docs) && Apply(call, s) == Ok(s') && (call.op.UpdateFeed? || call.op.DeleteFeed?)
    ensures SameHistory(s, s', d)
  {
    TablesUntouched(s, s', d);
  }

  lemma CreateFeedHistory(env: Env, s: State, input: CreateFeedInput, sortOrder: int, s': State, id: string, d: string)
    requires Inv(s) && CreateFeedSpec(env, s, input, sortOrder) == Ok((s', id))
    ensures SameHistory(s, s', d)
  {
    CreateFeedOutcome(env, s, input, sortOrder, s', id);
    TablesUntouched(s, s', d);
  }

  lemma FeedCallHistory(call: Call, s: State, s': State, d: string)
    requires Inv(s) && KeyedDocuments(s.docs) && Apply(call, s) == Ok(s')
    requires call.op.CreateFeed? || call.op.UpdateFeed? || call.op.DeleteFeed? || call.op.ImportFeedItems?
    ensures SameHistory(s, s', d)
  {
    var env := call.env;
    match call.op {
      case CreateFeed(input, sortOrder) =>
        CreateFeedHistory(env, s, input, sortOrder, s', CreateFeedSpec(env, s, input, sortOrder).value.1, d);
      case ImportFeedItems(id, items) => ImportHistory(env, s, id, items, s',
                                                       ImportFeedItemsSpec(env, s, id, items).value.1, d);
      case _ => PlainFeedCallHistory(call, s, s', d);
    }
  }

  lemma FolderCallHistory(call: Call, s: State, s': State, d: string)
    requires Inv(s) && KeyedDocuments(s.docs) && Apply(call, s) == Ok(s')
    requires call.op.ListFolders? || call.op.CreateFolder? || call.op.UpdateFolder? || call.op.DeleteFolder?
             || call.op.CreateTag?
    ensures SameHistory(s, s', d)
  {
    match call.op {
      case DeleteFolder(id, action) => DeleteFolderHistory(call.env, s, id, action, s', d);
      case _ => TablesUntouched(s, s', d);
    }
  }

  /** What one call does to the history of any document. */
  lemma CallHistory(call: Call, s: State, d: string)
    requires Inv(s) && KeyedDocuments(s.docs)
    ensures HistoryStep(s, After(call, s), Edits(call, s), d)
  {
    if Apply(call, s).Ok? {
      var s' := After(call, s);
      if IsDocumentOp(call.op) {
        DocumentCallHistory(call, s, s', d);
      } else if call.op.CreateFeed? || call.op.UpdateFeed? || call.op.DeleteFeed? || call.op.ImportFeedItems? {
        FeedCallHistory(call, s, s', d);
      } else {
        FolderCallHistory(call, s, s', d);
      }
    }
  }

  /** The images a document had just before each call that edited it, in order. */
  ghost function Replaced(calls: seq<Call>, d: string): (images: seq<Image>) {
    if calls == [] then []
    else
      var front, last := calls[..|calls| - 1], calls[|calls| - 1];
      var s := Run(front);
      Replaced(front, d) + if Edits(last, s) == Some(d) && d in s.docs then [ImageOf(s.docs[d])] else []
  }

  function Images(versions: seq<Version>): (images: seq<Image>)
    ensures |images| == |versions|
  {
    seq(|versions|, k requires 0 <= k < |versions| => VersionImage(versions[k]))
  }

  lemma OneImageMore(s: State, s': State, d: string)
    requires OneVersionMore(s, s', d)
    ensures Images(VersionsOf(s', d)) == Images(VersionsOf(s, d)) + [ImageOf(s.docs[d])]
  {
    var n := |VersionsOf(s, d)|;
    forall k | 0 <= k < n ensures VersionsOf(s', d)[k] == VersionsOf(s, d)[k] {
      assert VersionsOf(s', d)[k] == VersionsOf(s', d)[..n][k];
    }
  }

  /** Over any run, version k of a document holds exactly the title and contents that the k-th
      edit replaced, and nothing else is among its versions. */
  lemma {:induction false} VersionsAreReplacedImages(calls: seq<Call>, d: string)
    ensures Images(VersionsOf(Run(calls), d)) == Replaced(calls, d)
    ensures forall k | 0 <= k < |VersionsOf(Run(calls), d)| :: VersionsOf(Run(calls), d)[k].sequence == k + 1
  {
    VersionsSound(Run(calls));
    if calls != [] {
      var front, last := calls[..|calls| - 1], calls[|calls| - 1];
      var s, s' := Run(front), Run(calls);
      VersionsAreReplacedImages(front, d);
      CallHistory(last, s, d);
      assert s' == After(last, s);
      if Edits(last, s) == Some(d) {
        OneImageMore(s, s', d);
      }
    }
  }

  /** The versions recorded so far, and the image that stands after them. */
  ghost predicate Preserved(s: State, s': State, d: string) {
    && d in s.docs && d in s'.docs
    && var n := |VersionsOf(s, d)|;
       && n <= |VersionsOf(s', d)| && VersionsOf(s', d)[..n] == VersionsOf(s, d)
       && ImageOf(s.docs[d]) == if n < |VersionsOf(s', d)|
          then VersionImage(VersionsOf(s', d)[n]) else ImageOf(s'.docs[d])
  }

  /** No document value is lost: whatever title and contents a document had at any point of a
      run, at the end they are still current, or are the very next version recorded after that
      point; versions recorded before stand unchanged. */
  lemma {:induction false} NothingLost(calls: seq<Call>, k: nat, d: string)
    requires k <= |calls| && d in Run(calls[..k]).docs
    ensures Preserved(Run(calls[..k]), Run(calls), d)
  {
    if k == |calls| {
      assert calls[..k] == calls;
    } else {
      var front, last := calls[..|calls| - 1], calls[|calls| - 1];
      assert front[..k] == calls[..k];
      NothingLost(front, k, d);
      CallHistory(last, Run(front), d);
      assert Run(calls) == After(last, Run(front));
    }
  }

  // ----- What holds after every run -----

  /** No two translations of a document share source and language, and each names a source that
      is among the contents, after any mix of edits, rescrapes and retried translations. */
  lemma TranslationsStayApart(calls: seq<Call>, d: string, i: nat, j: nat)
    requires var s := Run(calls); d in s.docs && i < j < |s.docs[d].contents|
    requires var contents := Run(calls).docs[d].contents; IsTranslation(contents[i]) && IsTranslation(contents[j])
    ensures var contents := Run(calls).docs[d].contents;
            && (contents[i].sourceID, contents[i].language) != (contents[j].sourceID, contents[j].language)
            && contents[i].sourceID.Some? && HasContent(contents, contents[i].sourceID.value)
  {
    StoredDocument(Run(calls), d);
    assert Grounded(Run(calls).docs[d].contents, i);
  }

  /** After any run siblings have different names, and a system role belongs to at most one folder, a root
      of the role's name. */
  lemma FoldersStayApart(calls: seq<Call>, f: string, g: string)
    requires var folders := Run(calls).folders; f in folders && g in folders
    ensures var (a, b) := (Run(calls).folders[f], Run(calls).folders[g]);
            && (f != g ==> a.name != b.name || a.parentID != b.parentID)
            && (a.systemRole.Some? && a.systemRole == b.systemRole ==> f == g)
            && (a.systemRole.Some? ==>
                  a.parentID.None?
                  && (a.systemRole.value, a.name) in {("inbox", "Inbox"), ("feeds", "Feeds"), ("trash", "Trash")})
  {
    FoldersSound(Run(calls));
    assert NotTwins(Run(calls).folders, f, g);
  }

  /** After any run two entries of one feed have no key in common, two entries of any feeds do not link the
      same document, and the document an entry links is stored. */
  lemma EntriesStayApart(calls: seq<Call>, f: string, i: string, g: string, j: string)
    requires var items := Run(calls).items; HasItem(items, f, i) && HasItem(items, g, j) && (f, i) != (g, j)
    ensures var (a, b) := (Run(calls).items[f][i], Run(calls).items[g][j]);
            && a.documentID != b.documentID && a.documentID in Run(calls).docs
            && (f == g ==>
                  && a.url != b.url && (a.guid.Some? ==> a.guid != b.guid)
                  && (a.canonicalURL.Some? ==> a.canonicalURL != b.canonicalURL)
                  && (a.contentHash.Some? ==> a.contentHash != b.contentHash))
  {
    var items := Run(calls).items;
    ItemsSound(Run(calls));
    assert LinkedApart(items, f, i, g, j) && Apart(items, f, i, j);
  }

  /** After any run the index of URLs and that of slugs are exact, and what documents and feeds refer to is
      stored. */
  lemma IndexesStayExact(calls: seq<Call>)
    ensures var s := Run(calls);
            && (forall url | url in s.feedURLs :: s.feedURLs[url] in s.feeds && s.feeds[s.feedURLs[url]].url == url)
            && (forall f | f in s.feeds :: s.feeds[f].url in s.feedURLs && s.feedURLs[s.feeds[f].url] == f)
            && (forall slug | slug in s.tagSlugs :: s.tagSlugs[slug] in s.tags && s.tags[s.tagSlugs[slug]].slug == slug)
            && (forall t | t in s.tags :: s.tags[t].slug in s.tagSlugs && s.tagSlugs[s.tags[t].slug] == t)
            && (forall f | f in s.feeds && s.feeds[f].folderID.Some? :: s.feeds[f].folderID.value in s.folders)
            && (forall d | d in s.docs && s.docs[d].meta.folderID.Some? :: s.docs[d].meta.folderID.value in s.folders)
            && (forall d, t | d in s.docs && t in s.docs[d].tagIDs :: t in s.tags)
  {
    var s := Run(calls);
    FeedsSound(s);
    TagsSound(s);
    forall d | d in s.docs ensures DocumentInv(s.next, d, s.docs[d], s.folders.Keys, s.tags.Keys) {
      StoredDocument(s, d);
    }
  }

  /** After any run a folder never reaches itself by parent steps. */
  lemma FoldersStayAcyclic(calls: seq<Call>)
    ensures forall f, n: nat | f in Run(calls).folders && n > 0 :: FolderGraph.Up(Run(calls).folders, f, n) != Some(f)
  {
    var folders := Run(calls).folders;
    FoldersSound(Run(calls));
    forall f, n: nat | f in folders && n > 0 ensures FolderGraph.Up(folders, f, n) != Some(f) {
      FolderForest.ForestHasNoCycle(folders, f, n);
    }
  }
}
