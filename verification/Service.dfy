/** A service call from end to end: clone the state object, run the operation on the clone, and
    publish the clone or drop it. */
module Service {
  import opened Prelude
  import opened Entities
  import opened Library
  import opened FeedImport
  import opened FeedOps
  import opened ImportProofs
  import opened Store
  import opened Runs
  import Answers
  import FolderService
  import FeedService
  import DocumentService

  /** What a caller cannot choose about a call: the sort order a new feed's folder gets depends on
      the order in which a map yields its siblings. It is one that some order gives. */
  ghost predicate SameCall(done: Call, call: Call, s: State, failed: Option<Error>) {
    if call.op.CreateFeed? then
      && done.op.CreateFeed? && done == call.(op := call.op.(sortOrder := done.op.sortOrder))
      && (failed.None? ==> YieldsForFeed(call.env, s, done.op.sortOrder))
    else done == call
  }

  function ErrorOf<T>(r: Result<T>): (e: Option<Error>) {
    match r case Ok(_) => None case Err(e) => Some(e)
  }

  ghost predicate Performed(failed: Option<Error>, now: State, spec: Result<State>) {
    match spec case Ok(s) => failed.None? && now == s case Err(e) => failed == Some(e)
  }

  predicate IsCreateOp(op: Op) {
    op.CreateDocument? || op.IngestDocument?
  }

  predicate IsContentOp(op: Op) {
    op.ReplaceRescrapedContent? || op.AppendTranslatedContent?
  }

  method PerformCreateCall(tx: Store, call: Call) returns (failed: Option<Error>)
    requires tx.Valid() && Inv(tx.view) && KeyedDocuments(tx.view.docs) && IsCreateOp(call.op)
    modifies tx`next, tx`view, tx.folders, tx.docs
    ensures tx.Valid() && tx.Grown()
    ensures Performed(failed, tx.view, Apply(call, old(tx.view)))
  {
    match call.op {
      case CreateDocument(title, kind) =>
        var r := Answers.CreateDocument(tx, call.env, title, kind);
        return ErrorOf(r);
      case IngestDocument(scraped, input) =>
        var r := Answers.IngestDocument(tx, call.env, scraped, input);
        return ErrorOf(r);
    }
  }

  method PerformContentCall(tx: Store, call: Call) returns (failed: Option<Error>)
    requires tx.Valid() && Inv(tx.view) && KeyedDocuments(tx.view.docs) && IsContentOp(call.op)
    modifies tx`next, tx`view, tx.versions, tx.docs
    ensures tx.Valid() && tx.Grown()
    ensures Performed(failed, tx.view, Apply(call, old(tx.view)))
  {
    match call.op {
      case ReplaceRescrapedContent(id, input) =>
        var r := Answers.ReplaceRescrapedContent(tx, call.env, id, input);
        return ErrorOf(r);
      case AppendTranslatedContent(id, input) =>
        var r := Answers.AppendTranslatedContent(tx, call.env, id, input);
        return ErrorOf(r);
    }
  }

  method PerformMetadataCall(tx: Store, call: Call) returns (failed: Option<Error>)
    requires tx.Valid() && Inv(tx.view) && KeyedDocuments(tx.view.docs) && IsDocumentOp(call.op)
             && !IsCreateOp(call.op) && !IsContentOp(call.op)
    modifies tx`next, tx`view, tx.folders, tx.versions, tx.tags, tx.tagSlugs, tx.docs.Repr
    ensures tx.Valid() && tx.Grown()
    ensures Performed(failed, tx.view, Apply(call, old(tx.view)))
  {
    tx.Frames();
    var env := call.env;
    match call.op {
      case UpdateDocument(id, input) =>
        var r := Answers.UpdateDocument(tx, env, id, input);
        return ErrorOf(r);
      case DeleteDocument(id) =>
        var r := DocumentService.DeleteDocument(tx, env, id);
        return ErrorOf(r);
      case TrashDocument(id) =>
        var r := Answers.TrashDocument(tx, env, id);
        return ErrorOf(r);
      case ReplaceDocumentTags(id, tagIDs) =>
        var r := Answers.ReplaceDocumentTags(tx, env, id, tagIDs);
        return ErrorOf(r);
    }
  }

  predicate IsFeedOp(op: Op) {
    op.CreateFeed? || op.UpdateFeed? || op.DeleteFeed? || op.ImportFeedItems?
  }

  method PerformCreateFeed(tx: Store, call: Call) returns (failed: Option<Error>, ghost done: Call)
    requires tx.Valid() && Inv(tx.view) && KeyedDocuments(tx.view.docs) && call.op.CreateFeed?
    modifies tx`next, tx`view, tx.folders, tx.feeds, tx.feedURLs
    ensures tx.Valid() && tx.Grown() && SameCall(done, call, old(tx.view), failed)
    ensures Performed(failed, tx.view, Apply(done, old(tx.view)))
  {
    ghost var s := tx.view;
    var r, sortOrder := FeedService.CreateFeed(tx, call.env, call.op.feed);
    done := call.(op := call.op.(sortOrder := sortOrder));
    failed := ErrorOf(r);
    CreateFeedApplies(done, s, tx.view, r);
  }

  lemma CreateFeedApplies(done: Call, s: State, now: State, r: Result<Feed>)
    requires KeyedDocuments(s.docs) && done.op.CreateFeed?
    requires match CreateFeedSpec(done.env, s, done.op.feed, done.op.sortOrder)
             case Ok(v) => now == v.0 && r.Ok?
             case Err(e) => r == Err(e)
    ensures Performed(ErrorOf(r), now, Apply(done, s))
  {
  }

  method PerformFeedCall(tx: Store, call: Call) returns (failed: Option<Error>, ghost done: Call)
    requires tx.Valid() && Inv(tx.view) && KeyedDocuments(tx.view.docs) && IsFeedOp(call.op)
    modifies tx`next, tx`view, tx.folders, tx.feeds, tx.feedURLs, tx.docs, tx.items.Repr
    ensures tx.Valid() && tx.Grown() && SameCall(done, call, old(tx.view), failed)
    ensures Performed(failed, tx.view, Apply(done, old(tx.view)))
  {
    tx.Frames();
    done := call;
    var env := call.env;
    match call.op {
      case CreateFeed(_, _) => failed, done := PerformCreateFeed(tx, call);
      case UpdateFeed(id, input) =>
        var r := FeedService.UpdateFeed(tx, env, id, input);
        failed := ErrorOf(r);
      case DeleteFeed(id) =>
        var r := FeedService.DeleteFeed(tx, id);
        failed := ErrorOf(r);
      case ImportFeedItems(id, items) =>
        var r := FeedService.ImportFeedItems(tx, env, id, items);
        failed := ErrorOf(r);
    }
  }

  method PerformFolderCall(tx: Store, call: Call) returns (failed: Option<Error>)
    requires tx.Valid() && Inv(tx.view) && KeyedDocuments(tx.view.docs) && !IsDocumentOp(call.op) && !IsFeedOp(call.op)
    modifies tx`next, tx`view, tx.folders, tx.tags, tx.tagSlugs, tx.feeds, tx.feedURLs, tx.docs
    ensures tx.Valid() && tx.Grown()
    ensures Performed(failed, tx.view, Apply(call, old(tx.view)))
  {
    var env := call.env;
    match call.op {
      case ListFolders =>
        var trees := FolderService.ListFolders(tx, env);
        return None;
      case CreateFolder(input) =>
        var r := Answers.CreateFolder(tx, env, input);
        return ErrorOf(r);
      case UpdateFolder(id, input) =>
        var r := Answers.UpdateFolder(tx, env, id, input);
        return ErrorOf(r);
      case DeleteFolder(id, action) =>
        var r := FolderService.DeleteFolder(tx, env, id, action);
        return ErrorOf(r);
      case CreateTag(name) =>
        var r := DocumentService.CreateTag(tx, env, name);
        return ErrorOf(r);
    }
  }

  method Perform(tx: Store, call: Call) returns (failed: Option<Error>, ghost done: Call)
    requires tx.Valid() && Inv(tx.view) && KeyedDocuments(tx.view.docs)
    modifies tx`next, tx`view, tx.Flat(), tx.docs.Repr, tx.items.Repr
    ensures tx.Valid() && tx.Grown() && SameCall(done, call, old(tx.view), failed)
    ensures Performed(failed, tx.view, Apply(done, old(tx.view)))
  {
    tx.Frames();
    done := call;
    if IsCreateOp(call.op) {
      failed := PerformCreateCall(tx, call);
    } else if IsContentOp(call.op) {
      failed := PerformContentCall(tx, call);
    } else if IsDocumentOp(call.op) {
      failed := PerformMetadataCall(tx, call);
    } else if IsFeedOp(call.op) {
      failed, done := PerformFeedCall(tx, call);
    } else {
      failed := PerformFolderCall(tx, call);
    }
  }

  /** The call on a clone. */
  method Attempt(store: Store, call: Call) returns (pending: Store, failed: Option<Error>, ghost done: Call)
    requires store.Valid() && Inv(store.view) && KeyedDocuments(store.view.docs)
    ensures fresh(pending) && fresh(pending.Flat()) && fresh(pending.docs.Repr) && fresh(pending.items.Repr)
            && pending.Valid()
    ensures SameCall(done, call, store.view, failed)
    ensures Performed(failed, pending.view, Apply(done, store.view))
  {
    pending := store.Clone();
    pending.Frames();
    failed, done := Perform(pending, call);
  }

  lemma PerformedIsAfter(failed: Option<Error>, now: State, done: Call, s: State)
    requires Inv(s) && KeyedDocuments(s.docs) && Performed(failed, now, Apply(done, s))
    ensures failed == ErrorOf(Apply(done, s)) && After(done, s) == (if failed.None? then now else s)
            && Inv(After(done, s))
  {
    CallKeepsInv(done, s);
  }

  /** The state object goes from one reachable state to the next exactly as a run prescribes, keeps
      the invariant, and is untouched by a call that fails. Only the object's own fields are
      written: every cell a reader could hold keeps its content. */
  method Do(store: Store, call: Call) returns (failed: Option<Error>, ghost done: Call)
    requires store.Valid() && Inv(store.view)
    modifies store
    ensures store.Valid() && Inv(store.view) && SameCall(done, call, old(store.view), failed)
    ensures KeyedDocuments(old(store.view).docs)
    ensures store.view == After(done, old(store.view))
    ensures match Apply(done, old(store.view))
            case Ok(s) => failed.None? && store.view == s
            case Err(e) => failed == Some(e) && unchanged(store)
  {
    DocumentsKeyed(store.view);
    var pending;
    pending, failed, done := Attempt(store, call);
    PerformedIsAfter(failed, pending.view, done, store.view);
    if failed.None? {
      store.Publish(pending);
    }
  }
}
