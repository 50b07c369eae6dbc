/** Document operations: creation, edits with before-images, rescraping and translations. */
module DocumentOps {
  import opened Prelude
  import opened Entities
  import opened FolderGraph
  import opened Library
  import opened SystemFolders
  import opened TagOps

  // ----- Creating documents -----

  /** `createIngestedDocument`. */
  function Ingested(env: Env, s: State, kind: string, title: string, url: Option<string>, sourceURL: Option<string>,
                    folderID: string, tagIDs: seq<string>, contents: seq<Content>): (r: (State, string))
  {
    var now := Now(env, s);
    var id := NewID(env, s.next, "doc");
    var meta := Metadata(id, title, kind, Some(folderID), url, sourceURL, None, STATUS_UNREAD, None,
                         now, now, None, None, None);
    (WithDocument(Drawn(s), Document(meta, contents, tagIDs)), id)
  }

  /** `contentRecord`. */
  function Extracted(env: Env, s: State, body: string, format: string): (r: (State, Content)) {
    (Drawn(s), Content(NewID(env, s.next, "content"), CONTENT_EXTRACTED, format, None, body, None))
  }

  ghost function CreateDocumentSpec(env: Env, s: State, title: string, kind: string): (r: Result<(State, string)>) {
    var trimmed := env.trim(title);
    if trimmed == "" then Err(Validation("title is required"))
    else
      var (s1, folderID) := Ensured(env, s, ROLE_INBOX);
      Ok(Ingested(env, s1, if kind == "" then KIND_BOOKMARK else kind, trimmed, None, None, folderID, [], []))
  }

  datatype IngestInput = IngestInput(
    url: string, sourceURL: string, title: string, folderID: string, tagIDs: seq<string>, content: string,
    format: string)

  function FormatOf(env: Env, format: string): (f: string) {
    var trimmed := env.trim(format);
    if trimmed == "" then FORMAT_TEXT else trimmed
  }

  /** `CreateBookmarkDocument` (without a body) and `CreateScrapedDocument` (with one). */
  ghost function IngestSpec(env: Env, s: State, scraped: bool, input: IngestInput): (r: Result<(State, string)>) {
    var title := env.trim(input.title);
    if title == "" then Err(Validation("title is required"))
    else
      var (s1, folderID) :- DocumentFolderFor(env, s, input.folderID, false);
      var tags :- NormalizedTags(env, s1.tags, input.tagIDs);
      var url, sourceURL := OptionalString(env, input.url), OptionalString(env, input.sourceURL);
      if !scraped then Ok(Ingested(env, s1, KIND_BOOKMARK, title, url, sourceURL, folderID, tags, []))
      else
        var body := env.trim(input.content);
        if body == "" then Err(Validation("content is required"))
        else
          var (s2, content) := Extracted(env, s1, body, FormatOf(env, input.format));
          Ok(Ingested(env, s2, KIND_SCRAPED, title, url, sourceURL, folderID, tags, [content]))
  }

  // ----- Editing documents -----

  /** `recordDocumentVersion`: the before-image becomes the next version. */
  function VersionRecorded(env: Env, s: State, d: Document, mutation: string, now: int): (r: State) {
    WithVersion(Drawn(s), Version(NewID(env, s.next, "docver"), d.meta.id, |VersionsOf(s, d.meta.id)| + 1,
                                  mutation, d.meta.title, d.contents, d.meta, now))
  }

  datatype UpdateDocumentInput = UpdateDocumentInput(title: Option<string>, folderID: Option<string>)

  ghost function UpdateDocumentSpec(env: Env, s: State, id: string, input: UpdateDocumentInput): (r: Result<State>) {
    if id !in s.docs then Err(NotFound("document"))
    else
      var before := s.docs[id];
      var title := if input.title.Some? then env.trim(input.title.value) else before.meta.title;
      if input.title.Some? && title == "" then Err(Validation("title is required"))
      else
        var (s1, folderID) :-
          if input.folderID.None? then Ok((s, before.meta.folderID))
          else
            var placed :- DocumentFolderFor(env, s, input.folderID.value, false);
            Ok((placed.0, Some(placed.1)));
        var now := Now(env, s1);
        var s2 := if title != before.meta.title then VersionRecorded(env, s1, before, MUTATION_TITLE, now) else s1;
        Ok(WithDocument(s2, before.(meta := before.meta.(title := title, folderID := folderID, updatedAt := now))))
  }

  function DeleteDocumentSpec(env: Env, s: State, id: string): (r: Result<State>) {
    if id !in s.docs then Err(NotFound("document"))
    else
      var d, now := s.docs[id], Now(env, s);
      Ok(WithDocument(s, d.(meta := d.meta.(deletedAt := Some(now), updatedAt := now))))
  }

  ghost function TrashDocumentSpec(env: Env, s: State, id: string): (r: Result<State>) {
    if id !in s.docs || s.docs[id].meta.deletedAt.Some? then Err(NotFound("document"))
    else
      var d := s.docs[id];
      if d.meta.folderID.Some? && HasRoleAncestor(s.folders, d.meta.folderID.value, ROLE_TRASH) then Ok(s)
      else
        var (s1, trash) := Ensured(env, s, ROLE_TRASH);
        Ok(WithDocument(s1, d.(meta := d.meta.(folderID := Some(trash), updatedAt := Now(env, s1)))))
  }

  function ReplaceTagsSpec(env: Env, s: State, id: string, tagIDs: seq<string>): (r: Result<State>) {
    if id !in s.docs then Err(NotFound("document"))
    else
      var tags :- NormalizedTags(env, s.tags, tagIDs);
      var d := s.docs[id];
      var s1 := WithDocument(s, d.(tagIDs := tags, meta := d.meta.(updatedAt := Now(env, s))));
      Ok(TagsPruned(s1, set t | t in d.tagIDs && t !in tags))
  }

  // ----- Rescraping -----

  predicate ValidFormat(format: string) {
    format == FORMAT_HTML || format == FORMAT_MARKDOWN || format == FORMAT_TEXT
  }

  function RescrapeURL(env: Env, meta: Metadata): (url: string) {
    if meta.sourceURL.Some? && env.trim(meta.sourceURL.value) != "" then env.trim(meta.sourceURL.value)
    else if meta.canonicalURL.Some? then env.trim(meta.canonicalURL.value)
    else ""
  }

  function FirstExtracted(contents: seq<Content>): (k: nat)
    ensures k <= |contents|
    ensures k < |contents| ==> contents[k].role == CONTENT_EXTRACTED
    ensures forall i | 0 <= i < k :: contents[i].role != CONTENT_EXTRACTED
  {
    if contents == [] || contents[0].role == CONTENT_EXTRACTED then 0 else 1 + FirstExtracted(contents[1..])
  }

  /** `updateExtractedContent`: the first extracted body is replaced in place, or one is added. */
  function ExtractedReplaced(env: Env, s: State, contents: seq<Content>, body: string,
                             format: string): (r: (State, seq<Content>)) {
    var k := FirstExtracted(contents);
    if k < |contents| then (s, contents[k := contents[k].(format := format, body := body, sourceID := None)])
    else
      var (s1, content) := Extracted(env, s, body, format);
      (s1, contents + [content])
  }

  datatype RescrapeInput = RescrapeInput(url: string, sourceURL: string, content: string, format: string)

  function RescrapeSpec(env: Env, s: State, id: string, input: RescrapeInput): (r: Result<State>) {
    if id !in s.docs || s.docs[id].meta.deletedAt.Some? then Err(NotFound("document"))
    else
      var before := s.docs[id];
      if before.meta.kind != KIND_SCRAPED && before.meta.kind != KIND_RSS
         then Err(Validation("document cannot be re-scraped"))
      else if RescrapeURL(env, before.meta) == "" then Err(Validation("document has no source URL"))
      else if env.trim(input.content) == "" then Err(Validation("content is required"))
      else if !ValidFormat(FormatOf(env, input.format)) then Err(Validation("content format is invalid"))
      else
        var (s1, contents) := ExtractedReplaced(env, s, before.contents, env.trim(input.content),
                                                FormatOf(env, input.format));
        var now := Now(env, s1);
        var source := OptionalString(env, input.sourceURL);
        var meta := before.meta.(canonicalURL := OptionalString(env, input.url),
                                 sourceURL := if source.Some? then source else before.meta.sourceURL,
                                 updatedAt := now);
        Ok(WithDocument(VersionRecorded(env, s1, before, MUTATION_CONTENT, now),
                        Document(meta, contents, before.tagIDs)))
  }

  // ----- Translations -----

  function ContentLanguage(env: Env, value: string): (r: Result<string>) {
    var language := env.lower(env.trim(value));
    if language == "" then Err(Validation("target language is required"))
    else if !env.languageTag(language) then Err(Validation("target language is invalid"))
    else Ok(language)
  }

  /** `hasTranslationContent`. */
  predicate HasTranslation(contents: seq<Content>, source: string, language: string) {
    exists k | 0 <= k < |contents| ::
      IsTranslation(contents[k]) && contents[k].sourceID == Some(source) && contents[k].language == Some(language)
  }

  /** `prepareTranslation`: the source content and the normalized language. */
  function PreparedTranslation(env: Env, s: State, id: string, sourceID: string,
                               language: string): (r: Result<(string, string)>) {
    if id !in s.docs || s.docs[id].meta.deletedAt.Some? then Err(NotFound("document"))
    else if env.trim(sourceID) == "" then Err(Validation("source content is required"))
    else if !HasContent(s.docs[id].contents, env.trim(sourceID)) then Err(NotFound("document content"))
    else
      var target :- ContentLanguage(env, language);
      if HasTranslation(s.docs[id].contents, env.trim(sourceID), target)
         then Err(Conflict("translation already exists"))
      else Ok((env.trim(sourceID), target))
  }

  datatype TranslationInput = TranslationInput(sourceID: string, language: string, content: string, format: string)

  function AppendTranslationSpec(env: Env, s: State, id: string, input: TranslationInput): (r: Result<State>) {
    var (source, target) :- PreparedTranslation(env, s, id, input.sourceID, input.language);
    if env.trim(input.content) == "" then Err(Validation("translated content is required"))
    else if !ValidFormat(FormatOf(env, input.format)) then Err(Validation("content format is invalid"))
    else
      var before, now := s.docs[id], Now(env, s);
      var s1 := VersionRecorded(env, s, before, MUTATION_CONTENT, now);
      var content := Content(NewID(env, s1.next, "content"), CONTENT_TRANSLATION, FormatOf(env, input.format),
                             Some(target), env.trim(input.content), Some(source));
      Ok(WithDocument(Drawn(s1), Document(before.meta.(updatedAt := now), before.contents + [content], before.tagIDs)))
  }

  // ----- Invariants: contents -----

  lemma HasContentStays(contents: seq<Content>, contents': seq<Content>, id: string)
    requires HasContent(contents, id)
    requires |contents| <= |contents'| && forall k | 0 <= k < |contents| :: contents'[k].id == contents[k].id
    ensures HasContent(contents', id)
  {
    var k :| 0 <= k < |contents| && contents[k].id == id;
    assert contents'[k].id == id;
  }

  lemma ContentAppended(next: nat, contents: seq<Content>, content: Content)
    requires ContentsInv(next, contents) && !Known(next, content.id) && Known(next + 1, content.id)
    requires IsTranslation(content) ==>
               && content.language.Some? && content.sourceID.Some?
               && HasContent(contents, content.sourceID.value)
               && !HasTranslation(contents, content.sourceID.value, content.language.value)
    ensures ContentsInv(next + 1, contents + [content])
  {
    var contents' := contents + [content];
    forall i: nat | i < |contents'| ensures Grounded(contents', i) {
      if i < |contents| {
        assert Grounded(contents, i);
        if IsTranslation(contents[i]) {
          HasContentStays(contents, contents', contents[i].sourceID.value);
        }
      } else if IsTranslation(content) {
        HasContentStays(contents, contents', content.sourceID.value);
      }
    }
  }

  lemma BodyReplaced(next: nat, contents: seq<Content>, k: nat, content: Content)
    requires ContentsInv(next, contents) && k < |contents| && content.id == contents[k].id
    requires !IsTranslation(contents[k]) && !IsTranslation(content)
    ensures ContentsInv(next, contents[k := content])
  {
    var contents' := contents[k := content];
    forall i: nat | i < |contents'| ensures Grounded(contents', i) {
      assert Grounded(contents, i);
      if IsTranslation(contents'[i]) {
        HasContentStays(contents, contents', contents[i].sourceID.value);
      }
    }
  }

  lemma ContentsLater(next: nat, contents: seq<Content>)
    requires ContentsInv(next, contents)
    ensures ContentsInv(next + 1, contents)
  {
  }

  // ----- Invariants: operations -----

  /** A new document, in a stored folder, with stored tags. */
  lemma IngestedKeepsInv(env: Env, s: State, kind: string, title: string, url: Option<string>,
                         sourceURL: Option<string>,
                         folderID: string, tagIDs: seq<string>, contents: seq<Content>)
    requires Inv(s) && folderID in s.folders && ContentsInv(s.next, contents)
    requires forall t | t in tagIDs :: t in s.tags
    ensures var (s', id) := Ingested(env, s, kind, title, url, sourceURL, folderID, tagIDs, contents);
            && Inv(s') && id !in s.docs && s' == s.(next := s.next + 1, docs := s.docs[id := s'.docs[id]])
            && s'.docs[id].meta.id == id
  {
    DrawKeepsInv(s);
    NewIDFresh(env, s.next, "doc");
    DocumentsSound(s);
    var (s', id) := Ingested(env, s, kind, title, url, sourceURL, folderID, tagIDs, contents);
    ContentsLater(s.next, contents);
    assert id in s.docs ==> DocumentInv(s.next, id, s.docs[id], s.folders.Keys, s.tags.Keys);
    DocumentKeepsInv(Drawn(s), s'.docs[id]);
  }

  lemma CreateDocumentKeepsInv(env: Env, s: State, title: string, kind: string, s': State, id: string)
    requires Inv(s) && CreateDocumentSpec(env, s, title, kind) == Ok((s', id))
    ensures Inv(s') && id !in s.docs && s'.docs == s.docs[id := s'.docs[id]] && s'.versions == s.versions
  {
    EnsuredKeepsInv(env, s, ROLE_INBOX);
    var (s1, folderID) := Ensured(env, s, ROLE_INBOX);
    var wanted := if kind == "" then KIND_BOOKMARK else kind;
    IngestedKeepsInv(env, s1, wanted, env.trim(title), None, None, folderID, [], []);
  }

  lemma IngestKeepsInv(env: Env, s: State, scraped: bool, input: IngestInput, s': State, id: string)
    requires Inv(s) && IngestSpec(env, s, scraped, input) == Ok((s', id))
    ensures Inv(s') && id !in s.docs && s'.docs == s.docs[id := s'.docs[id]] && s'.versions == s.versions
  {
    DocumentFolderKeepsInv(env, s, input.folderID, false);
    var (s1, folderID) := DocumentFolderFor(env, s, input.folderID, false).value;
    var tags := NormalizedTags(env, s1.tags, input.tagIDs).value;
    NormalizedTagsSound(env, s1.tags, input.tagIDs);
    var title, url, sourceURL := env.trim(input.title), OptionalString(env, input.url),
        OptionalString(env, input.sourceURL);
    if scraped {
      var (s2, content) := Extracted(env, s1, env.trim(input.content), FormatOf(env, input.format));
      DrawKeepsInv(s1);
      NewIDFresh(env, s1.next, "content");
      assert [] + [content] == [content];
      ContentAppended(s1.next, [], content);
      IngestedKeepsInv(env, s2, KIND_SCRAPED, title, url, sourceURL, folderID, tags, [content]);
    } else {
      IngestedKeepsInv(env, s1, KIND_BOOKMARK, title, url, sourceURL, folderID, tags, []);
    }
  }

  lemma VersionKeepsInv(env: Env, s: State, d: Document, mutation: string, now: int)
    requires Inv(s) && d.meta.id in s.docs
    ensures Inv(VersionRecorded(env, s, d, mutation, now))
  {
    var s1, s' := Drawn(s), VersionRecorded(env, s, d, mutation, now);
    DrawKeepsInv(s);
    VersionsSound(s);
    VersionsReplaced(s1, s'.versions);
    assert s' == s1.(versions := s'.versions);
  }

  lemma StoredDocument(s: State, id: string)
    requires Inv(s) && id in s.docs
    ensures DocumentInv(s.next, id, s.docs[id], s.folders.Keys, s.tags.Keys)
  {
    DocumentsSound(s);
  }

  /** New metadata for a stored document, with or without a version of the old. */
  lemma EditKeepsInv(env: Env, s: State, id: string, d: Document, now: int)
    requires Inv(s) && id in s.docs && d.meta.id == id
    requires d.contents == s.docs[id].contents && d.tagIDs == s.docs[id].tagIDs
    requires d.meta.folderID.Some? ==> d.meta.folderID.value in s.folders
    ensures Inv(WithDocument(s, d)) && Inv(WithDocument(VersionRecorded(env, s, s.docs[id], MUTATION_TITLE, now), d))
  {
    StoredDocument(s, id);
    DocumentKeepsInv(s, d);
    VersionKeepsInv(env, s, s.docs[id], MUTATION_TITLE, now);
    ContentsLater(s.next, d.contents);
    DocumentKeepsInv(VersionRecorded(env, s, s.docs[id], MUTATION_TITLE, now), d);
  }

  lemma UpdateDocumentKeepsInv(env: Env, s: State, id: string, input: UpdateDocumentInput, s': State)
    requires Inv(s) && UpdateDocumentSpec(env, s, id, input) == Ok(s')
    ensures Inv(s')
  {
    StoredDocument(s, id);
    if input.folderID.None? {
      EditKeepsInv(env, s, id, s'.docs[id], Now(env, s));
    } else {
      DocumentFolderKeepsInv(env, s, input.folderID.value, false);
      var s1 := DocumentFolderFor(env, s, input.folderID.value, false).value.0;
      EditKeepsInv(env, s1, id, s'.docs[id], Now(env, s1));
    }
  }

  lemma DeleteDocumentKeepsInv(env: Env, s: State, id: string)
    requires Inv(s) && id in s.docs
    ensures Inv(DeleteDocumentSpec(env, s, id).value)
  {
    StoredDocument(s, id);
    DocumentKeepsInv(s, DeleteDocumentSpec(env, s, id).value.docs[id]);
  }

  lemma TrashDocumentKeepsInv(env: Env, s: State, id: string, s': State)
    requires Inv(s) && TrashDocumentSpec(env, s, id) == Ok(s')
    ensures Inv(s')
  {
    if s' != s {
      EnsuredKeepsInv(env, s, ROLE_TRASH);
      var s1 := Ensured(env, s, ROLE_TRASH).0;
      StoredDocument(s1, id);
      DocumentKeepsInv(s1, s'.docs[id]);
    }
  }

  lemma ReplaceTagsKeepsInv(env: Env, s: State, id: string, tagIDs: seq<string>, s': State)
    requires Inv(s) && ReplaceTagsSpec(env, s, id, tagIDs) == Ok(s')
    ensures Inv(s')
  {
    NormalizedTagsSound(env, s.tags, tagIDs);
    var tags := NormalizedTags(env, s.tags, tagIDs).value;
    StoredDocument(s, id);
    var d := s.docs[id];
    var d' := d.(tagIDs := tags, meta := d.meta.(updatedAt := Now(env, s)));
    DocumentKeepsInv(s, d');
    PruneKeepsInv(WithDocument(s, d'), set t | t in d.tagIDs && t !in tags);
  }

  lemma ReplacedKeepsInv(env: Env, s: State, contents: seq<Content>, body: string, format: string)
      returns (s1: State, replaced: seq<Content>)
    requires Inv(s) && ContentsInv(s.next, contents)
    ensures (s1, replaced) == ExtractedReplaced(env, s, contents, body, format)
    ensures Inv(s1) && s1 == s.(next := s1.next) && s.next <= s1.next && ContentsInv(s1.next, replaced)
  {
    var r := ExtractedReplaced(env, s, contents, body, format);
    s1, replaced := r.0, r.1;
    var k := FirstExtracted(contents);
    if k < |contents| {
      BodyReplaced(s.next, contents, k, replaced[k]);
    } else {
      DrawKeepsInv(s);
      NewIDFresh(env, s.next, "content");
      ContentAppended(s.next, contents, replaced[k]);
    }
  }

  lemma RescrapeKeepsInv(env: Env, s: State, id: string, input: RescrapeInput, s': State)
    requires Inv(s) && RescrapeSpec(env, s, id, input) == Ok(s')
    ensures Inv(s')
  {
    var before := s.docs[id];
    StoredDocument(s, id);
    var body, format := env.trim(input.content), FormatOf(env, input.format);
    var s1, contents := ReplacedKeepsInv(env, s, before.contents, body, format);
    VersionKeepsInv(env, s1, before, MUTATION_CONTENT, Now(env, s1));
    ContentsLater(s1.next, contents);
    DocumentKeepsInv(VersionRecorded(env, s1, before, MUTATION_CONTENT, Now(env, s1)), s'.docs[id]);
  }

  lemma AppendTranslationKeepsInv(env: Env, s: State, id: string, input: TranslationInput, s': State)
    requires Inv(s) && AppendTranslationSpec(env, s, id, input) == Ok(s')
    ensures Inv(s')
  {
    var before, now := s.docs[id], Now(env, s);
    StoredDocument(s, id);
    var s1 := VersionRecorded(env, s, before, MUTATION_CONTENT, now);
    VersionKeepsInv(env, s, before, MUTATION_CONTENT, now);
    DrawKeepsInv(s1);
    NewIDFresh(env, s1.next, "content");
    ContentsLater(s.next, before.contents);
    ContentAppended(s1.next, before.contents, s'.docs[id].contents[|before.contents|]);
    DocumentKeepsInv(Drawn(s1), s'.docs[id]);
  }

  // ----- What a rescrape leaves alone -----

  /** Position `k` holds the first extracted content, or is the end; only it differs, and it keeps
      its identifier. */
  predicate OneBodyReplaced(before: seq<Content>, after: seq<Content>, k: nat, body: string) {
    && k <= |before| && k < |after| && |after| == (if k < |before| then |before| else |before| + 1)
    && (forall i | 0 <= i < |before| && i != k :: after[i] == before[i])
    && (forall i | 0 <= i < k :: before[i].role != CONTENT_EXTRACTED)
    && (k < |before| ==> before[k].role == CONTENT_EXTRACTED && after[k].id == before[k].id)
    && after[k].role == CONTENT_EXTRACTED && after[k].body == body && after[k].sourceID.None?
  }

  /** A rescrape rewrites one extracted body, the first, or adds one at the end; every other content,
      translations of the old body included, keeps its place and value. */
  lemma RescrapeTouchesOneBody(env: Env, s: State, id: string, input: RescrapeInput, s': State)
    requires Inv(s) && RescrapeSpec(env, s, id, input) == Ok(s')
    ensures id in s'.docs
    ensures exists k :: OneBodyReplaced(s.docs[id].contents, s'.docs[id].contents, k, env.trim(input.content))
    ensures s'.docs[id].meta.title == s.docs[id].meta.title && s'.docs[id].tagIDs == s.docs[id].tagIDs
  {
    StoredDocument(s, id);
    var k := FirstExtracted(s.docs[id].contents);
    assert OneBodyReplaced(s.docs[id].contents, s'.docs[id].contents, k, env.trim(input.content));
  }

  // ----- Trash -----

  /** After moving to Trash the document lies in Trash, wherever it was before. */
  lemma TrashedIsInTrash(env: Env, s: State, id: string, s': State)
    requires Inv(s) && TrashDocumentSpec(env, s, id) == Ok(s')
    ensures id in s'.docs && s'.docs[id].meta.folderID.Some?
            && HasRoleAncestor(s'.folders, s'.docs[id].meta.folderID.value, ROLE_TRASH)
  {
    StoredDocument(s, id);
    var folderID := s.docs[id].meta.folderID;
    if folderID.None? || !HasRoleAncestor(s.folders, folderID.value, ROLE_TRASH) {
      HolderIsWithin(env, s, ROLE_TRASH);
      assert s'.folders == Ensured(env, s, ROLE_TRASH).0.folders;
    }
  }

  /** No other document changes, and of this one only folder and timestamp do. */
  lemma TrashOnlyMoves(env: Env, s: State, id: string, s': State)
    requires Inv(s) && TrashDocumentSpec(env, s, id) == Ok(s')
    ensures s'.docs.Keys == s.docs.Keys && forall d | d in s.docs && d != id :: s'.docs[d] == s.docs[d]
    ensures var m := s'.docs[id].meta;
            s'.docs[id] == s.docs[id].(meta := s.docs[id].meta.(folderID := m.folderID, updatedAt := m.updatedAt))
    ensures s' == s.(docs := s'.docs, folders := s'.folders)
  {
    StoredDocument(s, id);
  }

  // ----- A translation is appended once -----

  /** After a translation was appended, appending one for the same source and language is refused,
      however often a job is retried; the refusal leaves the state alone because errors do. */
  lemma RepeatedTranslationRefused(env: Env, s: State, id: string, input: TranslationInput, s': State,
                                   again: TranslationInput)
    requires Inv(s) && AppendTranslationSpec(env, s, id, input) == Ok(s')
    requires env.trim(again.sourceID) == env.trim(input.sourceID)
    requires env.lower(env.trim(again.language)) == env.lower(env.trim(input.language))
    ensures AppendTranslationSpec(env, s', id, again) == Err(Conflict("translation already exists"))
  {
    StoredDocument(s, id);
    var contents, contents' := s.docs[id].contents, s'.docs[id].contents;
    HasContentStays(contents, contents', env.trim(input.sourceID));
    var content := contents'[|contents|];
    assert IsTranslation(content) && content.sourceID == Some(env.trim(again.sourceID));
    assert HasTranslation(contents', env.trim(again.sourceID), ContentLanguage(env, again.language).value);
  }
}
