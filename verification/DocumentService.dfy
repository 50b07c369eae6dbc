/** The document and tag operations of the service as they run on a transaction's state object.
    The records they edit are copies with cells of their own, so a before-image taken as a copy
    survives edits in place. */
module DocumentService {
  import opened Prelude
  import opened Entities
  import opened FolderGraph
  import opened FolderForest
  import opened Library
  import opened SystemFolders
  import opened TagOps
  import opened DocumentOps
  import opened FeedImport
  import opened ImportProofs
  import opened Store
  import opened FolderService
  import Sorting

  // ----- Creating documents -----

  /** `createIngestedDocument`. */
  method CreateIngested(tx: Store, env: Env, kind: string, title: string, url: Option<string>,
                        sourceURL: Option<string>,
                        folderID: string, tagIDs: seq<string>, contents: seq<Content>) returns (id: string)
    requires tx.Valid()
    modifies tx`next, tx`view, tx.docs
    ensures tx.Valid() && tx.Grown()
    ensures (tx.view, id) == Ingested(env, old(tx.view), kind, title, url, sourceURL, folderID, tagIDs, contents)
  {
    var now := env.clock(tx.Counter());
    id := tx.NextID(env, "doc");
    var meta := Metadata(id, title, kind, Some(folderID), url, sourceURL, None, STATUS_UNREAD, None, now, now, None,
                         None, None);
    var record := new DocumentRecord(Document(meta, contents, tagIDs));
    tx.PutDocument(record);
  }

  /** `contentRecord`. */
  method ContentRecord(tx: Store, env: Env, body: string, format: string) returns (content: Content)
    requires tx.Valid()
    modifies tx`next, tx`view
    ensures tx.Valid() && tx.Grown()
    ensures (tx.view, content) == Extracted(env, old(tx.view), body, format)
  {
    var id := tx.NextID(env, "content");
    content := Content(id, CONTENT_EXTRACTED, format, None, body, None);
  }

  method CreateDocument(tx: Store, env: Env, title: string, kind: string) returns (r: Result<string>)
    requires tx.Valid() && Inv(tx.view)
    modifies tx`next, tx`view, tx.folders, tx.docs
    ensures tx.Valid() && tx.Grown()
    ensures Meets(r, tx.view, CreateDocumentSpec(env, old(tx.view), title, kind))
  {
    var trimmed := env.trim(title);
    if trimmed == "" {
      return Err(Validation("title is required"));
    }
    InvIsSearchable(tx.view, ROLE_INBOX);
    var folderID := EnsureRole(tx, env, ROLE_INBOX);
    var wanted := if kind == "" then KIND_BOOKMARK else kind;
    var id := CreateIngested(tx, env, wanted, trimmed, None, None, folderID, [], []);
    return Ok(id);
  }

  /** `CreateBookmarkDocument` and `CreateScrapedDocument`. */
  method IngestDocument(tx: Store, env: Env, scraped: bool, input: IngestInput) returns (r: Result<string>)
    requires tx.Valid() && Inv(tx.view)
    modifies tx`next, tx`view, tx.folders, tx.docs
    ensures tx.Valid() && tx.Grown()
    ensures Meets(r, tx.view, IngestSpec(env, old(tx.view), scraped, input))
  {
    var title := env.trim(input.title);
    if title == "" {
      return Err(Validation("title is required"));
    }
    var folder := PlaceDocument(tx, env, input.folderID, false);
    if folder.Err? {
      return Err(folder.error);
    }
    var tags := NormalizeTagIDs(env, tx.TagMap(), input.tagIDs);
    if tags.Err? {
      return Err(tags.error);
    }
    var url, sourceURL := OptionalString(env, input.url), OptionalString(env, input.sourceURL);
    var id;
    if !scraped {
      id := CreateIngested(tx, env, KIND_BOOKMARK, title, url, sourceURL, folder.value, tags.value, []);
    } else {
      var body := env.trim(input.content);
      if body == "" {
        return Err(Validation("content is required"));
      }
      var content := ContentRecord(tx, env, body, FormatOf(env, input.format));
      id := CreateIngested(tx, env, KIND_SCRAPED, title, url, sourceURL, folder.value, tags.value, [content]);
    }
    return Ok(id);
  }

  // ----- History -----

  /** `recordDocumentVersion`, given the before-image as a record of its own. */
  method RecordVersion(tx: Store, env: Env, before: DocumentRecord, mutation: string, now: int)
    requires tx.Valid() && before.Valid()
    modifies tx`next, tx`view, tx.versions
    ensures tx.Valid() && tx.Grown()
    ensures tx.view == VersionRecorded(env, old(tx.view), old(before.Value()), mutation, now)
  {
    var image := before.Value();
    var versions := if image.meta.id in tx.VersionMap() then tx.VersionMap()[image.meta.id] else [];
    var id := tx.NextID(env, "docver");
    tx.PutDocumentVersion(Version(id, image.meta.id, |versions| + 1, mutation, image.meta.title, image.contents,
                                  image.meta, now));
  }

  // ----- Editing documents -----

  /** The title and the folder that `UpdateDocument` was asked for. */
  method EditMetadata(tx: Store, env: Env, meta: Metadata, input: UpdateDocumentInput) returns (r: Result<Metadata>)
    requires tx.Valid() && Inv(tx.view)
    modifies tx`view, tx.folders
    ensures tx.Valid() && tx.Grown()
    ensures var title := if input.title.Some? then env.trim(input.title.value) else meta.title;
            if input.title.Some? && title == "" then r == Err(Validation("title is required"))
            else if input.folderID.None? then r == Ok(meta.(title := title)) && tx.view == old(tx.view)
            else
              match DocumentFolderFor(env, old(tx.view), input.folderID.value, false)
              case Err(e) => r == Err(e)
              case Ok(v) => r == Ok(meta.(title := title, folderID := Some(v.1))) && tx.view == v.0
  {
    var edited := meta;
    if input.title.Some? {
      var title := env.trim(input.title.value);
      if title == "" {
        return Err(Validation("title is required"));
      }
      edited := edited.(title := title);
    }
    if input.folderID.Some? {
      var folder := PlaceDocument(tx, env, input.folderID.value, false);
      if folder.Err? {
        return Err(folder.error);
      }
      edited := edited.(folderID := Some(folder.value));
    }
    return Ok(edited);
  }

  method UpdateDocument(tx: Store, env: Env, id: string, input: UpdateDocumentInput) returns (r: Result<()>)
    requires tx.Valid() && Inv(tx.view)
    modifies tx`next, tx`view, tx.folders, tx.versions, tx.docs
    ensures tx.Valid() && tx.Grown()
    ensures Leaves(r, tx.view, UpdateDocumentSpec(env, old(tx.view), id, input))
  {
    StoredOrNot(tx.view, id);
    var doc := tx.Document(id);
    if doc == null {
      return Err(NotFound("document"));
    }
    var edited := EditMetadata(tx, env, doc.meta, input);
    if edited.Err? {
      return Err(edited.error);
    }
    var before := doc.Clone();
    FinishUpdate(tx, env, doc, before, edited.value, edited.value.title != doc.meta.title);
    return Ok(());
  }

  /** The end of `UpdateDocument`: the before-image is recorded if the title changed. */
  method FinishUpdate(tx: Store, env: Env, doc: DocumentRecord, before: DocumentRecord, meta: Metadata,
                      titleChanged: bool)
    requires tx.Valid() && doc.Valid() && before.Valid() && before != doc && doc !in tx.docs.Repr
             && doc !in tx.items.Repr
    modifies tx`next, tx`view, tx.versions, tx.docs, doc
    ensures tx.Valid() && tx.Grown()
    ensures var s, now, image := old(tx.view), Now(env, old(tx.view)), old(before.Value());
            tx.view == WithDocument(if titleChanged then VersionRecorded(env, s, image, MUTATION_TITLE, now) else s,
                                      old(doc.Value()).(meta := meta.(updatedAt := now)))
  {
    var now := env.clock(tx.Counter());
    if titleChanged {
      RecordVersion(tx, env, before, MUTATION_TITLE, now);
    }
    doc.meta := meta.(updatedAt := now);
    tx.PutDocument(doc);
  }

  lemma StoredOrNot(s: State, id: string)
    requires Inv(s)
    ensures id in s.docs ==> s.docs[id].meta.id == id
  {
    DocumentsKeyed(s);
  }

  /** The answer is the time of the deletion. */
  method DeleteDocument(tx: Store, env: Env, id: string) returns (r: Result<int>)
    requires tx.Valid()
    modifies tx`view, tx.docs
    ensures tx.Valid() && tx.Grown()
    ensures match DeleteDocumentSpec(env, old(tx.view), id)
            case Ok(s) => r == Ok(Now(env, old(tx.view))) && tx.view == s
            case Err(e) => r == Err(e)
  {
    var doc := tx.Document(id);
    if doc == null {
      return Err(NotFound("document"));
    }
    var now := env.clock(tx.Counter());
    doc.meta := doc.meta.(deletedAt := Some(now), updatedAt := now);
    tx.PutDocument(doc);
    return Ok(now);
  }

  /** `MoveDocumentToTrash`. */
  method TrashDocument(tx: Store, env: Env, id: string) returns (r: Result<()>)
    requires tx.Valid() && Inv(tx.view)
    modifies tx`view, tx.folders, tx.docs
    ensures tx.Valid() && tx.Grown()
    ensures Leaves(r, tx.view, TrashDocumentSpec(env, old(tx.view), id))
  {
    var doc := tx.Document(id);
    if doc == null || doc.meta.deletedAt.Some? {
      return Err(NotFound("document"));
    }
    if doc.meta.folderID.Some? {
      var inTrash := WalkToRole(tx.FolderMap(), doc.meta.folderID.value, ROLE_TRASH);
      if inTrash {
        return Ok(());
      }
    }
    StoredOrNot(tx.view, id);
    PutInTrash(tx, env, doc.Value());
    return Ok(());
  }

  method PutInTrash(tx: Store, env: Env, doc: Document)
    requires tx.Valid() && Inv(tx.view)
    modifies tx`view, tx.folders, tx.docs
    ensures tx.Valid() && tx.Grown()
    ensures var (s, trash) := Ensured(env, old(tx.view), ROLE_TRASH);
            tx.view == WithDocument(s, doc.(meta := doc.meta.(folderID := Some(trash), updatedAt := Now(env, s))))
  {
    InvIsSearchable(tx.view, ROLE_TRASH);
    var trash := EnsureRole(tx, env, ROLE_TRASH);
    var changed := new DocumentRecord(doc.(meta := doc.meta.(folderID := Some(trash),
                                                             updatedAt := env.clock(tx.Counter()))));
    tx.PutDocument(changed);
  }

  // ----- Tags -----

  method CreateTag(tx: Store, env: Env, name: string) returns (r: Result<string>)
    requires tx.Valid()
    modifies tx`next, tx`view, tx.tags, tx.tagSlugs
    ensures tx.Valid() && tx.Grown()
    ensures Meets(r, tx.view, CreateTagSpec(env, old(tx.view), name))
  {
    var trimmed := env.trim(name);
    if trimmed == "" {
      return Err(Validation("tag name is required"));
    }
    var slug := env.slugify(trimmed);
    if slug == "" {
      return Err(Validation("tag slug is required"));
    }
    if slug in tx.SlugMap() && tx.SlugMap()[slug] in tx.TagMap() {
      return Err(Conflict("tag slug already exists"));
    }
    var id := tx.NextID(env, "tag");
    tx.PutTag(Tag(id, trimmed, slug, env.clock(tx.Counter())));
    return Ok(id);
  }

  lemma PrunedOneMore(s: State, ids: seq<string>, i: nat)
    requires Inv(s) && i < |ids|
    ensures var at := TagsPruned(s, Sorting.Elements(ids[..i]));
            && Inv(at)
            && TagsPruned(s, Sorting.Elements(ids[..i + 1]))
               == if ids[i] in at.tags && !TagInUse(at, ids[i]) then WithoutTag(at, ids[i]) else at
  {
    var a := Sorting.Elements(ids[..i]);
    var at := TagsPruned(s, a);
    PruneKeepsInv(s, a);
    PruneTwice(s, a, {ids[i]});
    assert ids[..i + 1] == ids[..i] + [ids[i]];
    assert Sorting.Elements(ids[..i + 1]) == a + {ids[i]};
    if ids[i] in at.tags && !TagInUse(at, ids[i]) {
      WithoutUnusedTag(at, ids[i]);
    } else {
      assert UnusedTags(at, {ids[i]}) == {};
      assert TagsPruned(at, {ids[i]}).tagSlugs == at.tagSlugs;
    }
  }

  /** One tag of the loop below. */
  method DeleteIfUnused(tx: Store, id: string) returns (deleted: bool)
    requires tx.Valid()
    modifies tx`view, tx.tags, tx.tagSlugs, tx.docs.Repr
    ensures tx.Valid() && tx.Grown()
    ensures tx.view == if id in old(tx.view).tags && !TagInUse(old(tx.view), id)
            then WithoutTag(old(tx.view), id) else old(tx.view)
    ensures |old(tx.view).tags| == |tx.view.tags| + if deleted then 1 else 0
  {
    deleted := false;
    if id in tx.TagMap() {
      var used := tx.TagHasDocuments(id);
      if !used {
        OneEntryLess(tx.view.tags, id);
        tx.DeleteTag(id);
        deleted := true;
      }
    }
  }

  lemma OneEntryLess(tags: map<string, Tag>, id: string)
    requires id in tags
    ensures |tags| == |tags - {id}| + 1
  {
    assert tags.Keys == (tags - {id}).Keys + {id};
  }

  lemma NothingPruned(s: State)
    ensures TagsPruned(s, {}) == s
  {
    assert UnusedTags(s, {}) == {} && TagsPruned(s, {}).tagSlugs == s.tagSlugs;
  }

  /** One round of the loop below. */
  method PruneOne(tx: Store, ids: seq<string>, i: nat, ghost s: State) returns (deleted: bool)
    requires tx.Valid() && Inv(s) && i < |ids| && tx.view == TagsPruned(s, Sorting.Elements(ids[..i]))
    modifies tx`view, tx.tags, tx.tagSlugs, tx.docs.Repr
    ensures tx.Valid() && tx.Grown()
    ensures tx.view == TagsPruned(s, Sorting.Elements(ids[..i + 1]))
    ensures |old(tx.view).tags| == |tx.view.tags| + if deleted then 1 else 0
  {
    PrunedOneMore(s, ids, i);
    deleted := DeleteIfUnused(tx, ids[i]);
  }

  /** `deleteUnusedTags`, with the number of tags deleted. */
  method DeleteUnusedTags(tx: Store, ids: seq<string>) returns (deleted: nat)
    requires tx.Valid() && Inv(tx.view)
    modifies tx`view, tx.tags, tx.tagSlugs, tx.docs.Repr
    ensures tx.Valid() && tx.Grown()
    ensures tx.view == TagsPruned(old(tx.view), Sorting.Elements(ids))
    ensures |old(tx.view).tags| == |tx.view.tags| + deleted
  {
    tx.Frames();
    deleted := 0;
    ghost var s := tx.view;
    NothingPruned(s);
    for i := 0 to |ids|
      invariant tx.Valid() && tx.Grown()
      invariant tx.view == TagsPruned(s, Sorting.Elements(ids[..i]))
      invariant |s.tags| == |tx.view.tags| + deleted
    {
      var gone := PruneOne(tx, ids, i, s);
      if gone {
        deleted := deleted + 1;
      }
    }
    assert ids[..|ids|] == ids;
  }

  method ReplaceDocumentTags(tx: Store, env: Env, id: string, tagIDs: seq<string>) returns (r: Result<()>)
    requires tx.Valid() && Inv(tx.view)
    modifies tx`view, tx.tags, tx.tagSlugs, tx.docs.Repr
    ensures tx.Valid() && tx.Grown()
    ensures Leaves(r, tx.view, ReplaceTagsSpec(env, old(tx.view), id, tagIDs))
  {
    tx.Frames();
    ghost var s := tx.view;
    if !tx.HasDocument(id) {
      return Err(NotFound("document"));
    }
    var tags := NormalizeTagIDs(env, tx.TagMap(), tagIDs);
    if tags.Err? {
      return Err(tags.error);
    }
    var removed := RetagDocument(tx, env, id, tags.value);
    RetagKeepsInv(env, s, id, tagIDs, tx.view);
    var deleted := DeleteUnusedTags(tx, removed);
    assert Sorting.Elements(removed) == set t | t in s.docs[id].tagIDs && t !in tags.value;
    return Ok(());
  }

  ghost function Retagged(env: Env, s: State, id: string, tags: seq<string>): (r: State)
    requires id in s.docs
  {
    var d := s.docs[id];
    WithDocument(s, d.(tagIDs := tags, meta := d.meta.(updatedAt := Now(env, s))))
  }

  lemma RetagKeepsInv(env: Env, s: State, id: string, tagIDs: seq<string>, s': State)
    requires Inv(s) && id in s.docs && NormalizedTags(env, s.tags, tagIDs).Ok?
    requires s' == Retagged(env, s, id, NormalizedTags(env, s.tags, tagIDs).value)
    ensures Inv(s')
  {
    NormalizedTagsSound(env, s.tags, tagIDs);
    StoredDocument(s, id);
    DocumentKeepsInv(s, s'.docs[id]);
  }

  /** The document under its new tags; what it lost. */
  method RetagDocument(tx: Store, env: Env, id: string, tags: seq<string>) returns (removed: seq<string>)
    requires tx.Valid() && Inv(tx.view) && id in tx.view.docs
    modifies tx`view, tx.docs
    ensures tx.Valid() && tx.Grown()
    ensures tx.view == Retagged(env, old(tx.view), id, tags)
    ensures forall t :: t in removed <==> t in old(tx.view).docs[id].tagIDs && t !in tags
  {
    StoredOrNot(tx.view, id);
    var doc := tx.Document(id);
    var value := doc.Value();
    removed := RemovedTagIDs(value.tagIDs, tags);
    var changed := new DocumentRecord(value.(tagIDs := tags,
                                             meta := value.meta.(updatedAt := env.clock(tx.Counter()))));
    tx.PutDocument(changed);
  }

  // ----- Rescraping -----

  /** `updateExtractedContent`: the record's contents change in place. */
  method UpdateExtracted(tx: Store, env: Env, doc: DocumentRecord, body: string, format: string)
    requires tx.Valid() && doc.Valid() && doc !in tx.docs.Repr && doc !in tx.items.Repr
    requires doc.contents !in tx.docs.Repr && doc.contents !in tx.items.Repr
    modifies tx`next, tx`view, doc`contents, doc.contents
    ensures tx.Valid() && tx.Grown() && doc.Valid()
    ensures (tx.view, doc.contents[..]) == ExtractedReplaced(env, old(tx.view), old(doc.contents[..]), body, format)
    ensures doc.contents == old(doc.contents) || fresh(doc.contents)
  {
    ghost var contents := doc.contents[..];
    var i := 0;
    while i < doc.contents.Length
      invariant i <= doc.contents.Length && forall k | 0 <= k < i :: doc.contents[k].role != CONTENT_EXTRACTED
    {
      if doc.contents[i].role == CONTENT_EXTRACTED {
        FirstExtractedIs(contents, i);
        doc.contents[i] := doc.contents[i].(format := format, body := body, sourceID := None);
        assert doc.contents[..] == contents[i := doc.contents[i]];
        return;
      }
      i := i + 1;
    }
    FirstExtractedIs(contents, i);
    var content := ContentRecord(tx, env, body, format);
    var longer := Appended(doc.contents, content);
    doc.contents := longer;
  }

  lemma {:induction false} FirstExtractedIs(contents: seq<Content>, k: nat)
    requires k <= |contents| && forall i | 0 <= i < k :: contents[i].role != CONTENT_EXTRACTED
    requires k < |contents| ==> contents[k].role == CONTENT_EXTRACTED
    ensures FirstExtracted(contents) == k
  {
    var f := FirstExtracted(contents);
    assert f >= k;
  }

  /** `append` to a full slice. */
  method Appended(contents: array<Content>, content: Content) returns (longer: array<Content>)
    ensures fresh(longer) && longer[..] == contents[..] + [content]
  {
    var values := contents[..] + [content];
    longer := new Content[|values|](i requires 0 <= i < |values| => values[i]);
    assert longer[..] == values;
  }

  method ReplaceRescrapedContent(tx: Store, env: Env, id: string, input: RescrapeInput) returns (r: Result<()>)
    requires tx.Valid() && Inv(tx.view)
    modifies tx`next, tx`view, tx.versions, tx.docs
    ensures tx.Valid() && tx.Grown()
    ensures Leaves(r, tx.view, RescrapeSpec(env, old(tx.view), id, input))
  {
    var doc := tx.Document(id);
    if doc == null || doc.meta.deletedAt.Some? {
      return Err(NotFound("document"));
    }
    if doc.meta.kind != KIND_SCRAPED && doc.meta.kind != KIND_RSS {
      return Err(Validation("document cannot be re-scraped"));
    }
    if RescrapeURL(env, doc.meta) == "" {
      return Err(Validation("document has no source URL"));
    }
    var body, format := env.trim(input.content), FormatOf(env, input.format);
    if body == "" {
      return Err(Validation("content is required"));
    }
    if !ValidFormat(format) {
      return Err(Validation("content format is invalid"));
    }
    StoredOrNot(tx.view, id);
    ReplaceContent(tx, env, doc, input, body, format);
    return Ok(());
  }

  /** The before-image is copied before the contents change in place; the version holds the copy. */
  method ReplaceContent(tx: Store, env: Env, doc: DocumentRecord, input: RescrapeInput, body: string, format: string)
    requires tx.Valid() && doc.Valid() && doc !in tx.docs.Repr && doc !in tx.items.Repr
    requires doc.contents !in tx.docs.Repr && doc.contents !in tx.items.Repr
    modifies tx`next, tx`view, tx.versions, tx.docs, doc`contents, doc.contents
    ensures tx.Valid() && tx.Grown()
    ensures var s, image := old(tx.view), old(doc.Value());
            var (s1, contents) := ExtractedReplaced(env, s, image.contents, body, format);
            tx.view == WithDocument(VersionRecorded(env, s1, image, MUTATION_CONTENT, Now(env, s1)),
                                      Document(RescrapedMeta(env, image.meta, input, Now(env, s1)), contents,
                                               image.tagIDs))
  {
    var before := doc.Clone();
    UpdateExtracted(tx, env, doc, body, format);
    var now := env.clock(tx.Counter());
    var edited := doc.Value();
    RecordAndPut(tx, env, before, edited.(meta := RescrapedMeta(env, edited.meta, input, now)), MUTATION_CONTENT, now);
  }

  method RecordAndPut(tx: Store, env: Env, before: DocumentRecord, edited: Document, mutation: string, now: int)
    requires tx.Valid() && before.Valid()
    modifies tx`next, tx`view, tx.versions, tx.docs
    ensures tx.Valid() && tx.Grown()
    ensures tx.view == WithDocument(VersionRecorded(env, old(tx.view), old(before.Value()), mutation, now), edited)
  {
    RecordVersion(tx, env, before, mutation, now);
    var changed := new DocumentRecord(edited);
    tx.PutDocument(changed);
  }

  function RescrapedMeta(env: Env, meta: Metadata, input: RescrapeInput, now: int): (r: Metadata) {
    var source := OptionalString(env, input.sourceURL);
    meta.(canonicalURL := OptionalString(env, input.url),
          sourceURL := if source.Some? then source else meta.sourceURL,
          updatedAt := now)
  }

  // ----- Translations -----

  /** `hasTranslationContent`, the loop. */
  method FindTranslation(contents: seq<Content>, source: string, language: string) returns (found: bool)
    ensures found == HasTranslation(contents, source, language)
  {
    for i := 0 to |contents|
      invariant forall k | 0 <= k < i ::
        !(IsTranslation(contents[k]) && contents[k].sourceID == Some(source) && contents[k].language == Some(language))
    {
      if contents[i].role == CONTENT_TRANSLATION && contents[i].sourceID == Some(source)
         && contents[i].language == Some(language) {
        return true;
      }
    }
    return false;
  }

  /** `findDocumentContent`, the loop. */
  method FindContent(contents: seq<Content>, id: string) returns (found: Option<Content>)
    ensures found.None? <==> !HasContent(contents, id)
    ensures found.Some? ==> found.value in contents && found.value.id == id
  {
    for i := 0 to |contents|
      invariant forall k | 0 <= k < i :: contents[k].id != id
    {
      if contents[i].id == id {
        return Some(contents[i]);
      }
    }
    return None;
  }

  /** `translationPreparation`. */
  datatype Preparation = Preparation(document: Metadata, source: Content, sourceID: string, language: string)

  /** `prepareTranslation`. */
  method PrepareTranslation(tx: Store, env: Env, id: string, sourceID: string, language: string)
      returns (r: Result<Preparation>)
    requires tx.Valid()
    ensures match PreparedTranslation(env, tx.view, id, sourceID, language)
            case Err(e) => r == Err(e)
            case Ok(v) =>
              && r.Ok? && (r.value.sourceID, r.value.language) == v
              && r.value.document == tx.view.docs[id].meta
              && r.value.source in tx.view.docs[id].contents && r.value.source.id == v.0
  {
    var doc := tx.Document(id);
    if doc == null || doc.meta.deletedAt.Some? {
      return Err(NotFound("document"));
    }
    var value, source := doc.Value(), env.trim(sourceID);
    if source == "" {
      return Err(Validation("source content is required"));
    }
    var found := FindContent(value.contents, source);
    if found.None? {
      return Err(NotFound("document content"));
    }
    var target := ContentLanguage(env, language);
    if target.Err? {
      return Err(target.error);
    }
    var translated := FindTranslation(value.contents, source, target.value);
    if translated {
      return Err(Conflict("translation already exists"));
    }
    return Ok(Preparation(value.meta, found.value, source, target.value));
  }

  method AppendTranslatedContent(tx: Store, env: Env, id: string, input: TranslationInput) returns (r: Result<()>)
    requires tx.Valid() && Inv(tx.view)
    modifies tx`next, tx`view, tx.versions, tx.docs
    ensures tx.Valid() && tx.Grown()
    ensures Leaves(r, tx.view, AppendTranslationSpec(env, old(tx.view), id, input))
  {
    var prepared := PrepareTranslation(tx, env, id, input.sourceID, input.language);
    if prepared.Err? {
      return Err(prepared.error);
    }
    var body, format := env.trim(input.content), FormatOf(env, input.format);
    if body == "" {
      return Err(Validation("translated content is required"));
    }
    if !ValidFormat(format) {
      return Err(Validation("content format is invalid"));
    }
    StoredOrNot(tx.view, id);
    var doc := tx.Document(id);
    AppendContent(tx, env, doc, prepared.value.sourceID, prepared.value.language, body, format);
    return Ok(());
  }

  method AppendContent(tx: Store, env: Env, doc: DocumentRecord, source: string, language: string, body: string,
                       format: string)
    requires tx.Valid() && doc.Valid()
    modifies tx`next, tx`view, tx.versions, tx.docs
    ensures tx.Valid() && tx.Grown()
    ensures var s, image, now := old(tx.view), old(doc.Value()), Now(env, old(tx.view));
            var s1 := VersionRecorded(env, s, image, MUTATION_CONTENT, now);
            var content := Content(NewID(env, s1.next, "content"), CONTENT_TRANSLATION, format, Some(language), body,
                                   Some(source));
            tx.view == WithDocument(Drawn(s1),
                                    Document(image.meta.(updatedAt := now), image.contents + [content], image.tagIDs))
  {
    var image, now := doc.Value(), env.clock(tx.Counter());
    RecordVersion(tx, env, doc, MUTATION_CONTENT, now);
    var id := tx.NextID(env, "content");
    var content := Content(id, CONTENT_TRANSLATION, format, Some(language), body, Some(source));
    var changed := new DocumentRecord(Document(image.meta.(updatedAt := now), image.contents + [content],
                                               image.tagIDs));
    tx.PutDocument(changed);
  }
}
