/** What the service answers with after an operation: the description of a document, the tree of a
    folder. The operations here write through the ones of `DocumentService` and `FolderService` and
    then read the answer off the transaction's state. */
module Answers {
  import opened Prelude
  import opened Entities
  import opened FolderGraph
  import opened FolderForest
  import opened Library
  import opened FolderOps
  import opened TagOps
  import opened DocumentOps
  import opened ImportProofs
  import opened Store
  import DocumentService
  import FeedService
  import FolderService
  import FolderTree
  import Sorting
  import Text

  // ----- The description of a document -----

  datatype Detail = Detail(meta: Metadata, path: seq<Breadcrumb>, contents: seq<Content>, tags: seq<Tag>)

  /** The order of `documentTags`. */
  predicate TagBefore(a: Tag, b: Tag) {
    if a.slug != b.slug then Text.Before(a.slug, b.slug) else Text.Before(a.id, b.id)
  }

  /** From a root to the folder, each segment the parent of the next, with the folders' names. */
  ghost predicate IsPath(folders: Folders, folderID: Option<string>, path: seq<Breadcrumb>) {
    && (forall i | 0 <= i < |path| :: path[i].id in folders && path[i].name == folders[path[i].id].name)
    && (folderID.None? ==> path == [])
    && (folderID.Some? ==>
          && path != [] && path[|path| - 1].id == folderID.value
          && folders[path[0].id].parentID.None?
          && forall i | 0 < i < |path| :: folders[path[i].id].parentID == Some(path[i - 1].id))
  }

  ghost predicate HasTagsOf(s: State, d: Document, tags: seq<Tag>) {
    && (forall t :: t in tags <==> t.id in d.tagIDs && t.id in s.tags && s.tags[t.id] == t)
    && Sorting.NoInversion(TagBefore, tags)
  }

  /** The metadata as stored, but published when the feed item says that is linked to the document. */
  ghost predicate IsPublished(s: State, d: Metadata, meta: Metadata) {
    && meta == d.(publishedAt := meta.publishedAt)
    && (forall f, i | HasItem(s.items, f, i) && s.items[f][i].documentID == d.id ::
          meta.publishedAt == s.items[f][i].publishedAt)
    && ((forall f, i | HasItem(s.items, f, i) :: s.items[f][i].documentID != d.id) ==> meta == d)
  }

  ghost predicate Describes(s: State, id: string, detail: Detail) {
    && id in s.docs && IsPublished(s, s.docs[id].meta, detail.meta) && detail.contents == s.docs[id].contents
    && IsPath(s.folders, s.docs[id].meta.folderID, detail.path) && HasTagsOf(s, s.docs[id], detail.tags)
  }

  lemma TagOrderIsTotal(tags: set<Tag>)
    requires forall a, b | a in tags && b in tags && a.id == b.id :: a == b
    ensures Sorting.StrictTotal(TagBefore, tags)
  {
    forall a, b | a in tags && b in tags
      ensures !TagBefore(a, a) && (a != b ==> TagBefore(a, b) || TagBefore(b, a))
    {
      Text.BeforeTotal(a.id, a.id);
      Text.BeforeTotal(a.slug, b.slug);
      Text.BeforeTotal(a.id, b.id);
    }
    forall a, b, c | a in tags && b in tags && c in tags && TagBefore(a, b) && TagBefore(b, c) ensures TagBefore(a, c) {
      if Text.Before(a.slug, b.slug) && Text.Before(b.slug, c.slug) {
        Text.BeforeTransitive(a.slug, b.slug, c.slug);
      }
      if Text.Before(a.id, b.id) && Text.Before(b.id, c.id) {
        Text.BeforeTransitive(a.id, b.id, c.id);
      }
      Text.BeforeTotal(a.slug, b.slug);
      Text.BeforeTotal(b.slug, c.slug);
    }
  }

  /** Tags in order stand by slug, and by identifier among equal slugs; only a tag listed twice may stand
      beside itself. */
  lemma TagsStandInOrder(tags: seq<Tag>, i: nat, j: nat)
    requires Sorting.NoInversion(TagBefore, tags) && i < j < |tags|
    ensures var (a, b) := (tags[i], tags[j]);
            || Text.Before(a.slug, b.slug) || (a.slug == b.slug && Text.Before(a.id, b.id))
            || (a.slug == b.slug && a.id == b.id)
  {
    assert !TagBefore(tags[j], tags[i]);
    Text.BeforeTotal(tags[i].slug, tags[j].slug);
    Text.BeforeTotal(tags[i].id, tags[j].id);
  }

  /** `documentTags`. */
  method DocumentTags(table: map<string, Tag>, ids: seq<string>) returns (tags: seq<Tag>)
    requires forall t | t in table :: table[t].id == t
    ensures forall t :: t in tags <==> t.id in ids && t.id in table && table[t.id] == t
    ensures Sorting.NoInversion(TagBefore, tags)
  {
    var known: seq<Tag> := [];
    for i := 0 to |ids|
      invariant forall t :: t in known <==> t.id in ids[..i] && t.id in table && table[t.id] == t
    {
      assert ids[..i + 1] == ids[..i] + [ids[i]];
      if ids[i] in table {
        known := known + [table[ids[i]]];
      }
    }
    assert ids[..|ids|] == ids;
    tags := Sorting.Sort(TagBefore, known);
    Sorting.SameMembers(tags, known);
    TagOrderIsTotal(Sorting.Elements(known));
    Sorting.SortOrdered(TagBefore, known, Sorting.Elements(known));
  }

  /** `documentMetadata`. */
  method DocumentMetadata(tx: Store, d: Metadata) returns (meta: Metadata)
    requires tx.Valid() && Inv(tx.view)
    ensures IsPublished(tx.view, d, meta)
  {
    var item := FeedService.FeedItemByDocumentID(tx, d.id);
    meta := if item.Some? then d.(publishedAt := item.value.publishedAt) else d;
  }

  /** `documentDetail`. */
  method DocumentDetail(tx: Store, id: string) returns (detail: Detail)
    requires tx.Valid() && Inv(tx.view) && id in tx.view.docs
    ensures Describes(tx.view, id, detail)
  {
    StoredDocument(tx.view, id);
    FoldersSound(tx.view);
    TagsSound(tx.view);
    var record := tx.Document(id);
    var doc := record.Value();
    var meta := DocumentMetadata(tx, doc.meta);
    var path := DocumentFolderPath(tx.FolderMap(), doc.meta.folderID);
    var tags := DocumentTags(tx.TagMap(), doc.tagIDs);
    detail := Detail(meta, path, doc.contents, tags);
  }

  // ----- Operations that answer with a document -----

  ghost predicate AnswersNew(r: Result<Detail>, now: State, spec: Result<(State, string)>) {
    match spec
    case Ok(v) => now == v.0 && r.Ok? && Describes(now, v.1, r.value)
    case Err(e) => r == Err(e)
  }

  ghost predicate Answers(r: Result<Detail>, now: State, spec: Result<State>, id: string) {
    match spec
    case Ok(s) => now == s && r.Ok? && Describes(now, id, r.value)
    case Err(e) => r == Err(e)
  }

  /** The answer once a document was created, or not. */
  method AnswerNew(tx: Store, done: Result<string>, ghost spec: Result<(State, string)>) returns (r: Result<Detail>)
    requires tx.Valid() && FolderService.Meets(done, tx.view, spec)
    requires spec.Ok? ==> Inv(spec.value.0) && spec.value.1 in spec.value.0.docs
    ensures AnswersNew(r, tx.view, spec)
  {
    if done.Err? {
      return Err(done.error);
    }
    var detail := DocumentDetail(tx, done.value);
    return Ok(detail);
  }

  method Answer(tx: Store, id: string, done: Result<()>, ghost spec: Result<State>) returns (r: Result<Detail>)
    requires tx.Valid() && FolderService.Leaves(done, tx.view, spec)
    requires spec.Ok? ==> Inv(spec.value) && id in spec.value.docs
    ensures Answers(r, tx.view, spec, id)
  {
    if done.Err? {
      return Err(done.error);
    }
    var detail := DocumentDetail(tx, id);
    return Ok(detail);
  }

  method CreateDocument(tx: Store, env: Env, title: string, kind: string) returns (r: Result<Detail>)
    requires tx.Valid() && Inv(tx.view)
    modifies tx`next, tx`view, tx.folders, tx.docs
    ensures tx.Valid() && tx.Grown()
    ensures AnswersNew(r, tx.view, CreateDocumentSpec(env, old(tx.view), title, kind))
  {
    ghost var s := tx.view;
    ghost var spec := CreateDocumentSpec(env, s, title, kind);
    if spec.Ok? {
      CreateDocumentKeepsInv(env, s, title, kind, spec.value.0, spec.value.1);
    }
    var done := DocumentService.CreateDocument(tx, env, title, kind);
    r := AnswerNew(tx, done, spec);
  }

  method IngestDocument(tx: Store, env: Env, scraped: bool, input: IngestInput) returns (r: Result<Detail>)
    requires tx.Valid() && Inv(tx.view)
    modifies tx`next, tx`view, tx.folders, tx.docs
    ensures tx.Valid() && tx.Grown()
    ensures AnswersNew(r, tx.view, IngestSpec(env, old(tx.view), scraped, input))
  {
    ghost var s := tx.view;
    ghost var spec := IngestSpec(env, s, scraped, input);
    if spec.Ok? {
      IngestKeepsInv(env, s, scraped, input, spec.value.0, spec.value.1);
    }
    var done := DocumentService.IngestDocument(tx, env, scraped, input);
    r := AnswerNew(tx, done, spec);
  }

  lemma UpdateKeepsDocument(env: Env, s: State, id: string, input: UpdateDocumentInput, s': State)
    requires Inv(s) && UpdateDocumentSpec(env, s, id, input) == Ok(s')
    ensures Inv(s') && id in s'.docs
  {
    StoredDocument(s, id);
    UpdateDocumentKeepsInv(env, s, id, input, s');
  }

  method UpdateDocument(tx: Store, env: Env, id: string, input: UpdateDocumentInput) returns (r: Result<Detail>)
    requires tx.Valid() && Inv(tx.view)
    modifies tx`next, tx`view, tx.folders, tx.versions, tx.docs
    ensures tx.Valid() && tx.Grown()
    ensures Answers(r, tx.view, UpdateDocumentSpec(env, old(tx.view), id, input), id)
  {
    ghost var s := tx.view;
    ghost var spec := UpdateDocumentSpec(env, s, id, input);
    if spec.Ok? {
      UpdateKeepsDocument(env, s, id, input, spec.value);
    }
    var done := DocumentService.UpdateDocument(tx, env, id, input);
    r := Answer(tx, id, done, spec);
  }

  lemma TrashKeepsDocument(env: Env, s: State, id: string, s': State)
    requires Inv(s) && TrashDocumentSpec(env, s, id) == Ok(s')
    ensures Inv(s') && id in s'.docs
  {
    StoredDocument(s, id);
    TrashDocumentKeepsInv(env, s, id, s');
  }

  method TrashDocument(tx: Store, env: Env, id: string) returns (r: Result<Detail>)
    requires tx.Valid() && Inv(tx.view)
    modifies tx`view, tx.folders, tx.docs
    ensures tx.Valid() && tx.Grown()
    ensures Answers(r, tx.view, TrashDocumentSpec(env, old(tx.view), id), id)
  {
    ghost var s := tx.view;
    ghost var spec := TrashDocumentSpec(env, s, id);
    if spec.Ok? {
      TrashKeepsDocument(env, s, id, spec.value);
    }
    var done := DocumentService.TrashDocument(tx, env, id);
    r := Answer(tx, id, done, spec);
  }

  lemma RetagKeepsDocument(env: Env, s: State, id: string, tagIDs: seq<string>, s': State)
    requires Inv(s) && ReplaceTagsSpec(env, s, id, tagIDs) == Ok(s')
    ensures Inv(s') && id in s'.docs
  {
    StoredDocument(s, id);
    ReplaceTagsKeepsInv(env, s, id, tagIDs, s');
  }

  method ReplaceDocumentTags(tx: Store, env: Env, id: string, tagIDs: seq<string>) returns (r: Result<Detail>)
    requires tx.Valid() && Inv(tx.view)
    modifies tx`view, tx.tags, tx.tagSlugs, tx.docs.Repr
    ensures tx.Valid() && tx.Grown()
    ensures Answers(r, tx.view, ReplaceTagsSpec(env, old(tx.view), id, tagIDs), id)
  {
    ghost var s := tx.view;
    ghost var spec := ReplaceTagsSpec(env, s, id, tagIDs);
    if spec.Ok? {
      RetagKeepsDocument(env, s, id, tagIDs, spec.value);
    }
    var done := DocumentService.ReplaceDocumentTags(tx, env, id, tagIDs);
    r := Answer(tx, id, done, spec);
  }

  lemma RescrapeKeepsDocument(env: Env, s: State, id: string, input: RescrapeInput, s': State)
    requires Inv(s) && RescrapeSpec(env, s, id, input) == Ok(s')
    ensures Inv(s') && id in s'.docs
  {
    StoredDocument(s, id);
    RescrapeKeepsInv(env, s, id, input, s');
  }

  method ReplaceRescrapedContent(tx: Store, env: Env, id: string, input: RescrapeInput) returns (r: Result<Detail>)
    requires tx.Valid() && Inv(tx.view)
    modifies tx`next, tx`view, tx.versions, tx.docs
    ensures tx.Valid() && tx.Grown()
    ensures Answers(r, tx.view, RescrapeSpec(env, old(tx.view), id, input), id)
  {
    ghost var s := tx.view;
    ghost var spec := RescrapeSpec(env, s, id, input);
    if spec.Ok? {
      RescrapeKeepsDocument(env, s, id, input, spec.value);
    }
    var done := DocumentService.ReplaceRescrapedContent(tx, env, id, input);
    r := Answer(tx, id, done, spec);
  }

  lemma TranslationKeepsDocument(env: Env, s: State, id: string, input: TranslationInput, s': State)
    requires Inv(s) && AppendTranslationSpec(env, s, id, input) == Ok(s')
    ensures Inv(s') && id in s'.docs
  {
    StoredDocument(s, id);
    AppendTranslationKeepsInv(env, s, id, input, s');
  }

  method AppendTranslatedContent(tx: Store, env: Env, id: string, input: TranslationInput) returns (r: Result<Detail>)
    requires tx.Valid() && Inv(tx.view)
    modifies tx`next, tx`view, tx.versions, tx.docs
    ensures tx.Valid() && tx.Grown()
    ensures Answers(r, tx.view, AppendTranslationSpec(env, old(tx.view), id, input), id)
  {
    ghost var s := tx.view;
    ghost var spec := AppendTranslationSpec(env, s, id, input);
    if spec.Ok? {
      TranslationKeepsDocument(env, s, id, input, spec.value);
    }
    var done := DocumentService.AppendTranslatedContent(tx, env, id, input);
    r := Answer(tx, id, done, spec);
  }

  // ----- Operations that answer with a folder -----

  ghost predicate IsTreeOf(s: State, id: string, t: FolderTree.Tree) {
    id in s.folders && t.folder == s.folders[id] && FolderTree.Exact(s.folders, t) && FolderTree.InOrder(t)
  }

  method FolderAnswer(tx: Store, id: string) returns (t: FolderTree.Tree)
    requires tx.Valid() && Inv(tx.view) && id in tx.view.folders
    ensures IsTreeOf(tx.view, id, t)
  {
    FoldersSound(tx.view);
    var list := tx.Folders();
    t := FolderTree.ListTree(tx.FolderMap(), list, id);
  }

  method CreateFolder(tx: Store, env: Env, input: FolderInput) returns (r: Result<FolderTree.Tree>)
    requires tx.Valid() && Inv(tx.view)
    modifies tx`next, tx`view, tx.folders
    ensures tx.Valid() && tx.Grown()
    ensures match CreateFolderSpec(env, old(tx.view), input)
            case Ok(v) => tx.view == v.0 && r.Ok? && IsTreeOf(tx.view, v.1, r.value)
            case Err(e) => r == Err(e)
  {
    CreateFolderKeepsInv(env, tx.view, input);
    var done := FolderService.CreateFolder(tx, env, input);
    if done.Err? {
      return Err(done.error);
    }
    var tree := FolderAnswer(tx, done.value);
    return Ok(tree);
  }

  method UpdateFolder(tx: Store, env: Env, id: string, input: FolderInput) returns (r: Result<FolderTree.Tree>)
    requires tx.Valid() && Inv(tx.view)
    modifies tx`view, tx.folders
    ensures tx.Valid() && tx.Grown()
    ensures match UpdateFolderSpec(env, old(tx.view), id, input)
            case Ok(s) => tx.view == s && r.Ok? && IsTreeOf(tx.view, id, r.value)
            case Err(e) => r == Err(e)
  {
    UpdateFolderKeepsInv(env, tx.view, id, input);
    var done := FolderService.UpdateFolder(tx, env, id, input);
    if done.Err? {
      return Err(done.error);
    }
    var tree := FolderAnswer(tx, id);
    return Ok(tree);
  }
}
