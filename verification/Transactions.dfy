/** `Update` on the heap: the callback works on a clone, which is published or dropped. */
module Transactions {
  import opened Prelude
  import opened Entities
  import opened Library
  import opened OwnerLoop
  import opened Store

  /** The writes a callback can make. What it reads only decides which of them it makes, so a run of
      a callback is a list of writes and the way it ends. */
  datatype Write =
    | DrawID(prefix: string)
    | PutDocument(document: Document)
    | PutDocumentVersion(version: Version)
    | PutFolder(folder: Folder)
    | DeleteFolder(id: string)
    | PutTag(tag: Tag)
    | DeleteTag(id: string)
    | PutFeed(feed: Feed)
    | DeleteFeed(id: string)
    | PutFeedItem(item: FeedItem)

  datatype Finish = Returns | Fails(error: Error) | Panics

  function Written(env: Env, s: State, w: Write): (r: Result<State>) {
    match w
    case DrawID(_) => Ok(Drawn(s))
    case PutDocument(d) => Ok(WithDocument(s, d))
    case PutDocumentVersion(v) => Ok(WithVersion(s, v))
    case PutFolder(f) => Ok(WithFolder(s, f))
    case DeleteFolder(id) => Ok(s.(folders := s.folders - {id}))
    case PutTag(t) => Ok(WithTag(s, t))
    case DeleteTag(id) => Ok(WithoutTag(s, id))
    case PutFeed(f) => Ok(WithFeed(s, f))
    case DeleteFeed(id) => Ok(WithoutFeed(s, id))
    case PutFeedItem(i) => WithItem(s, i)
  }

  predicate InCommon(a: Option<string>, b: Option<string>) {
    a.Some? && a == b
  }

  /** The two entries have a key in common. */
  predicate KeyInCommon(a: FeedItem, b: FeedItem) {
    || a.url == b.url || InCommon(a.guid, b.guid) || InCommon(a.canonicalURL, b.canonicalURL)
    || InCommon(a.contentHash, b.contentHash)
  }

  /** What each write does to the tables: it stores or removes one row, with what belongs to it, and changes
      nothing else; only the entry of a feed is refused, if another entry of the feed has a key of it. */
  lemma WriteOutcome(env: Env, s: State, w: Write)
    ensures match w
            case DrawID(_) => Written(env, s, w) == Ok(s.(next := s.next + 1))
            case PutDocument(d) => Written(env, s, w) == Ok(s.(docs := s.docs[d.meta.id := d]))
            case PutDocumentVersion(v) =>
              var before := if v.documentID in s.versions then s.versions[v.documentID] else [];
              Written(env, s, w) == Ok(s.(versions := s.versions[v.documentID := before + [v]]))
            case PutFolder(f) => Written(env, s, w) == Ok(s.(folders := s.folders[f.id := f]))
            case DeleteFolder(id) => Written(env, s, w) == Ok(s.(folders := s.folders - {id}))
            case PutTag(t) =>
              Written(env, s, w) == Ok(s.(tags := s.tags[t.id := t], tagSlugs := s.tagSlugs[t.slug := t.id]))
            case DeleteTag(id) => Written(env, s, w).Ok? && TagGone(s, Written(env, s, w).value, id)
            case PutFeed(f) =>
              var urls := if f.id in s.feeds then s.feedURLs - {s.feeds[f.id].url} else s.feedURLs;
              Written(env, s, w) == Ok(s.(feeds := s.feeds[f.id := f], feedURLs := urls[f.url := f.id]))
            case DeleteFeed(id) =>
              var urls := if id in s.feeds then s.feedURLs - {s.feeds[id].url} else s.feedURLs;
              Written(env, s, w) == Ok(s.(feeds := s.feeds - {id}, feedURLs := urls, items := s.items - {id}))
            case PutFeedItem(i) =>
              var own := if i.feedID in s.items then s.items[i.feedID] else map[];
              Written(env, s, w) ==
                if exists j :: j in own && j != i.id && KeyInCommon(own[j], i)
                then Err(Conflict("feed item already exists"))
                else Ok(s.(items := s.items[i.feedID := own[i.id := i]]))
  {
    if w.PutFeedItem? {
      var own := ItemsOf(s.items, w.item.feedID);
      assert forall j | j in own :: KeyInCommon(own[j], w.item) <==> DuplicateItem(own[j], w.item);
    }
  }

  /** The tag is gone with its slug and from every document; the other tags of a document stay. */
  ghost predicate TagGone(s: State, s': State, id: string) {
    && s' == s.(tags := s.tags - {id}, docs := s'.docs, tagSlugs := s'.tagSlugs)
    && s'.tagSlugs == (if id in s.tags then s.tagSlugs - {s.tags[id].slug} else s.tagSlugs)
    && s'.docs.Keys == s.docs.Keys
    && forall d | d in s.docs ::
         && s'.docs[d] == s.docs[d].(tagIDs := s'.docs[d].tagIDs)
         && id !in s'.docs[d].tagIDs && forall t | t != id :: t in s'.docs[d].tagIDs <==> t in s.docs[d].tagIDs
  }

  /** The state after the writes, or the error of the abort that ended them early. */
  function Played(env: Env, s: State, writes: seq<Write>): (r: Result<State>) {
    if writes == [] then Ok(s)
    else
      var before :- Played(env, s, writes[..|writes| - 1]);
      Written(env, before, writes[|writes| - 1])
  }

  /** How the callback ends on a given state. */
  function Script(env: Env, writes: seq<Write>, finish: Finish, s: State): (e: Ending) {
    match Played(env, s, writes)
    case Err(e) => Aborted(e)
    case Ok(s') => match finish case Returns => Completed(s') case Fails(e) => Failed(e) case Panics => Panicked
  }

  method PerformOne(tx: Store, env: Env, w: Write) returns (aborted: Option<Error>)
    requires tx.Valid()
    modifies tx`next, tx`view, tx.Flat(), tx.docs.Repr, tx.items.Repr
    ensures tx.Valid() && tx.Grown()
    ensures match Written(env, old(tx.view), w)
            case Ok(s) => aborted.None? && tx.view == s
            case Err(e) => aborted == Some(e)
  {
    tx.Frames();
    aborted := None;
    match w {
      case DrawID(prefix) => var id := tx.NextID(env, prefix);
      case PutDocument(d) =>
        var record := new DocumentRecord(d);
        tx.PutDocument(record);
      case PutDocumentVersion(v) => tx.PutDocumentVersion(v);
      case PutFolder(f) => tx.PutFolder(f);
      case DeleteFolder(id) => tx.DeleteFolder(id);
      case PutTag(t) => tx.PutTag(t);
      case DeleteTag(id) => tx.DeleteTag(id);
      case PutFeed(f) => tx.PutFeed(f);
      case DeleteFeed(id) => tx.DeleteFeed(id);
      case PutFeedItem(i) =>
        var found := tx.PutFeedItem(i);
        if found {
          aborted := Some(Conflict("feed item already exists"));
        }
    }
  }

  lemma {:induction false} AbortStays(env: Env, s: State, writes: seq<Write>, k: nat)
    requires k <= |writes| && Played(env, s, writes[..k]).Err?
    ensures Played(env, s, writes) == Err(Played(env, s, writes[..k]).error)
  {
    if k == |writes| {
      assert writes[..k] == writes;
    } else {
      assert writes[..|writes| - 1][..k] == writes[..k];
      AbortStays(env, s, writes[..|writes| - 1], k);
    }
  }

  /** The callback's writes, one after the other, until an abort. */
  method Perform(tx: Store, env: Env, writes: seq<Write>) returns (aborted: Option<Error>)
    requires tx.Valid()
    modifies tx`next, tx`view, tx.Flat(), tx.docs.Repr, tx.items.Repr
    ensures tx.Valid() && tx.Grown()
    ensures match Played(env, old(tx.view), writes)
            case Ok(s) => aborted.None? && tx.view == s
            case Err(e) => aborted == Some(e)
  {
    tx.Frames();
    for i := 0 to |writes|
      invariant tx.Valid() && tx.Grown()
      invariant Played(env, old(tx.view), writes[..i]) == Ok(tx.view)
    {
      assert writes[..i + 1][..i] == writes[..i];
      aborted := PerformOne(tx, env, writes[i]);
      if aborted.Some? {
        AbortStays(env, old(tx.view), writes, i + 1);
        return;
      }
    }
    assert writes[..|writes|] == writes;
    aborted := None;
  }

  /** `Update`, for every callback: exactly its writes appear when it returns normally; after an
      error, an abort in the middle or a panic the state object is untouched. Either way no cell
      that was reachable before is written: the frame is the state object alone, although the
      callback's own writes filter slices and fill tables in place. */
  method Update(store: Store, env: Env, writes: seq<Write>, finish: Finish) returns (answer: Answer)
    requires store.Valid()
    modifies store
    ensures store.Valid()
    ensures match Played(env, old(store.view), writes)
            case Err(e) => answer == Failure(e) && unchanged(store)
            case Ok(s) =>
              match finish
              case Returns => answer == Success && store.view == s
              case Fails(e) => answer == Failure(e) && unchanged(store)
              case Panics => answer == PanicReported && unchanged(store)
    ensures (store.view, answer) == OwnerLoop.Perform(Request.Update(s => Script(env, writes, finish, s)),
                                                      old(store.view))
  {
    var pending := store.Clone();
    var aborted := Perform(pending, env, writes);
    if aborted.Some? {
      return Failure(aborted.value);
    }
    match finish {
      case Fails(e) => return Failure(e);
      case Panics => return PanicReported;
      case Returns =>
        store.Publish(pending);
        return Success;
    }
  }
}
