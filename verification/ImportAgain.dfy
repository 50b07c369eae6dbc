/** Importing the same items again: into the same feed, and into a feed that was deleted and
    created anew. */
module ImportAgain {
  import opened Prelude
  import opened Entities
  import opened FolderGraph
  import opened Library
  import opened SystemFolders
  import opened FeedOps
  import opened FeedItems
  import opened FeedImport
  import opened ImportProofs
  import ImportOutcomes
  import ImportTrash

  // ----- The same feed -----

  ghost predicate Settled(env: Env, keys: Keys, item: ImportItem) {
    var normal := Normalized(env, item);
    normal.None? || HasKey(keys, normal.value)
  }

  ghost predicate Within(a: Keys, b: Keys) {
    a.guids <= b.guids && a.canonicalURLs <= b.canonicalURLs && a.contentHashes <= b.contentHashes && a.urls <= b.urls
  }

  lemma StepSettles(env: Env, feed: Feed, im: Import, item: ImportItem, im': Import)
    requires ImportStep(env, feed, im, item) == Ok(im')
    ensures Within(im.seen, im'.seen) && Settled(env, im'.seen, item)
  {
  }

  lemma {:induction false} AllSettle(env: Env, feed: Feed, im: Import, items: seq<ImportItem>, im': Import)
    requires ImportAll(env, feed, im, items) == Ok(im')
    ensures Within(im.seen, im'.seen)
    ensures forall x | x in items :: Settled(env, im'.seen, x)
  {
    if items != [] {
      var front, last := items[..|items| - 1], items[|items| - 1];
      var before := ImportAll(env, feed, im, front).value;
      AllSettle(env, feed, im, front, before);
      StepSettles(env, feed, before, last, im');
      assert items == front + [last];
    }
  }

  lemma SettledStep(env: Env, feed: Feed, im: Import, item: ImportItem, keys: Keys)
    requires Settled(env, keys, item) && im.seen == keys
    ensures ImportStep(env, feed, im, item) == Ok(im.(skipped := im.skipped + 1))
  {
  }

  lemma OneMoreSkipped(env: Env, feed: Feed, im: Import, items: seq<ImportItem>, before: Import)
    requires items != [] && before.seen == im.seen && Settled(env, im.seen, items[|items| - 1])
    requires ImportAll(env, feed, im, items[..|items| - 1]) == Ok(before)
    ensures ImportAll(env, feed, im, items) == Ok(before.(skipped := before.skipped + 1))
  {
    SettledStep(env, feed, before, items[|items| - 1], im.seen);
  }

  lemma {:induction false} SettledIsSkipped(env: Env, feed: Feed, im: Import, items: seq<ImportItem>)
    requires forall x | x in items :: Settled(env, im.seen, x)
    ensures ImportAll(env, feed, im, items) == Ok(im.(skipped := im.skipped + |items|))
  {
    if items != [] {
      var front := items[..|items| - 1];
      SettledIsSkipped(env, feed, im, front);
      OneMoreSkipped(env, feed, im, items, im.(skipped := im.skipped + |front|));
    }
  }

  /** After an import every item of the list is settled by the keys of the feed's stored items. */
  lemma ImportSettles(env: Env, s: State, feedID: string, items: seq<ImportItem>, s': State, result: ImportResult)
    requires Inv(s) && KeyedDocuments(s.docs) && ImportFeedItemsSpec(env, s, feedID, items) == Ok((s', result))
    ensures forall x | x in items :: Settled(env, KeysOf(ItemsOf(s'.items, feedID)), x)
    ensures feedID in s'.feeds && s'.feeds[feedID].enabled && s'.feeds[feedID].id == feedID
  {
    var feed, start := s.feeds[feedID], ImportStart(s, feedID);
    var im := ImportAll(env, feed, start, items).value;
    StartKeepsInv(s, feedID);
    ImportAllKeepsInv(env, s, feed, start, items);
    AllSettle(env, feed, start, items, im);
    Unpacked(s, feed, im);
    FeedIsKeyed(s, feedID);
  }

  /** The entry has a key in common with the item. */
  predicate SharesKey(env: Env, x: ImportItem, entry: FeedItem) {
    || entry.url == env.trim(x.url)
    || (env.trim(x.guid) != "" && entry.guid == Some(env.trim(x.guid)))
    || (env.trim(x.contentHash) != "" && entry.contentHash == Some(env.trim(x.contentHash)))
    || (entry.canonicalURL.Some? && entry.canonicalURL == ImportOutcomes.OrURL(env, x.canonicalURL, x.url))
  }

  /** After an import the feed has an entry for every usable item: one with a key in common. */
  lemma ImportCoversItems(env: Env, s: State, feedID: string, items: seq<ImportItem>, s': State, result: ImportResult,
                          x: ImportItem) returns (i: string)
    requires Inv(s) && KeyedDocuments(s.docs) && ImportFeedItemsSpec(env, s, feedID, items) == Ok((s', result))
    requires x in items && env.trim(x.title) != "" && env.trim(x.url) != ""
    ensures HasItem(s'.items, feedID, i) && SharesKey(env, x, s'.items[feedID][i])
  {
    ImportSettles(env, s, feedID, items, s', result);
    var adopted := ImportOutcome(env, s, feedID, items, s', result);
    ItemsSound(s');
    var own, n := ItemsOf(s'.items, feedID), Normalized(env, x).value;
    forall j | j in own ensures HasItem(s'.items, feedID, j) {
    }
    var sample := ItemRecord("", feedID, "", n, 0);
    IndexAgreesWithScan(own, n, sample);
    i :| i in own && DuplicateItem(own[i], sample);
  }

  /** Storing a feed again under its old URL leaves the URL index alone. */
  lemma SameURLSameIndex(s: State, f: Feed)
    requires Inv(s) && f.id in s.feeds && f.url == s.feeds[f.id].url
    ensures WithFeed(s, f) == s.(feeds := s.feeds[f.id := f])
  {
    FeedsSound(s);
    assert WithFeed(s, f).feedURLs == s.feedURLs;
  }

  /** A list of settled items leaves the library alone but for the feed's timestamps. */
  lemma SettledListChangesNothing(later: Env, s: State, feedID: string, again: seq<ImportItem>)
    requires Inv(s) && KeyedDocuments(s.docs) && feedID in s.feeds && s.feeds[feedID].enabled
             && s.feeds[feedID].id == feedID
    requires forall x | x in again :: Settled(later, KeysOf(ItemsOf(s.items, feedID)), x)
    ensures var r := ImportFeedItemsSpec(later, s, feedID, again);
            && r.Ok?
            && r.value.1 == ImportResult(feedID, 0, |again|, Now(later, s))
            && r.value.0 == s.(feeds := r.value.0.feeds)
  {
    var feed, now := s.feeds[feedID], Now(later, s);
    SettledIsSkipped(later, feed, ImportStart(s, feedID), again);
    SameURLSameIndex(s, feed.(lastCheckedAt := Some(now), updatedAt := now));
  }

  lemma StillSettled(env: Env, later: Env, keys: Keys, items: seq<ImportItem>, again: seq<ImportItem>)
    requires later.trim == env.trim && (forall x | x in items :: Settled(env, keys, x))
             && forall x | x in again :: x in items
    ensures forall x | x in again :: Settled(later, keys, x)
  {
    forall x | x in again ensures Settled(later, keys, x) {
      assert Settled(env, keys, x);
      assert Normalized(later, x) == Normalized(env, x);
    }
  }

  /** Importing again, right after the import and with whatever clock, any list drawn from the imported
      items imports nothing: only the feed's timestamps move; documents, items and folders stay exactly as they are. */
  lemma ReimportChangesNothing(env: Env, s: State, feedID: string, items: seq<ImportItem>, s': State,
                               result: ImportResult,
                               later: Env, again: seq<ImportItem>)
    requires Inv(s) && KeyedDocuments(s.docs) && KeyedDocuments(s'.docs)
    requires ImportFeedItemsSpec(env, s, feedID, items) == Ok((s', result))
    requires later.trim == env.trim && forall x | x in again :: x in items
    ensures var r := ImportFeedItemsSpec(later, s', feedID, again);
            && r.Ok?
            && r.value.1 == ImportResult(feedID, 0, |again|, Now(later, s'))
            && r.value.0 == s'.(feeds := r.value.0.feeds)
  {
    ImportSettles(env, s, feedID, items, s', result);
    var adopted := ImportOutcome(env, s, feedID, items, s', result);
    StillSettled(env, later, KeysOf(ItemsOf(s'.items, feedID)), items, again);
    SettledListChangesNothing(later, s', feedID, again);
  }

  // ----- A feed deleted and created anew -----

  /** The links of a feed: which URL stands for which document. */
  function Links(items: Items, feedID: string): (links: set<(string, string)>) {
    set i | i in ItemsOf(items, feedID) :: (ItemsOf(items, feedID)[i].url, ItemsOf(items, feedID)[i].documentID)
  }

  /** Every RSS document that is not deleted is linked by some item. */
  ghost predicate NoOrphans(s: State) {
    forall d | d in s.docs && s.docs[d].meta.kind == KIND_RSS
           && s.docs[d].meta.deletedAt.None? :: d in LinkedDocuments(s)
  }

  /** Canonical and source URL of the item coincide with its URL. */
  ghost predicate Plain(env: Env, item: ImportItem) {
    var normal := Normalized(env, item);
    normal.Some? ==> normal.value.canonicalURL == normal.value.sourceURL == Some(normal.value.url)
  }

  lemma LinksBijective(s: State, feedID: string, u: string, d: string, u': string, d': string)
    requires Inv(s) && (u, d) in Links(s.items, feedID) && (u', d') in Links(s.items, feedID)
    ensures u == u' <==> d == d'
  {
    ItemsSound(s);
    var own := ItemsOf(s.items, feedID);
    var i :| i in own && own[i].url == u && own[i].documentID == d;
    var j :| j in own && own[j].url == u' && own[j].documentID == d';
    assert HasItem(s.items, feedID, i) && HasItem(s.items, feedID, j);
    assert Apart(s.items, feedID, i, j) && LinkedApart(s.items, feedID, i, feedID, j);
  }

  lemma LinkedInDocs(s: State, d: string)
    requires Inv(s) && d in LinkedDocuments(s)
    ensures d in s.docs
  {
    ItemsSound(s);
    var f, i :| f in s.feeds && i in ItemsOf(s.items, f) && ItemsOf(s.items, f)[i].documentID == d;
    assert HasItem(s.items, f, i);
  }

  lemma LinksGrow(env: Env, feed: Feed, im: Import, normal: NormalItem, documentID: string, im': Import)
    requires Inv(im.s) && ItemLinked(env, feed, im, normal, documentID) == Ok(im')
    ensures Links(im'.s.items, feed.id) == Links(im.s.items, feed.id) + {(normal.url, documentID)}
    ensures im'.s.docs == im.s.docs && im'.linked == im.linked && im'.records == im.records
  {
    var own, own' := ItemsOf(im.s.items, feed.id), ItemsOf(im'.s.items, feed.id);
    var record := ItemRecord(NewID(env, im.s.next, "feed_item"), feed.id, documentID, normal, Now(env, Drawn(im.s)));
    assert own' == own[record.id := record];
    ItemsSound(im.s);
    NewIDFresh(env, im.s.next, "feed_item");
    assert record.id in own ==> HasItem(im.s.items, feed.id, record.id);
    forall l ensures l in Links(im'.s.items, feed.id)
           <==> l in Links(im.s.items, feed.id) + {(normal.url, documentID)} {
      if l in Links(im.s.items, feed.id) {
        var i :| i in own && (own[i].url, own[i].documentID) == l;
        assert i in own' && own'[i] == own[i];
      }
      if l == (normal.url, documentID) {
        assert record.id in own';
      }
    }
  }

  /** A URL that is linked has been seen. */
  lemma LinkedURLSeen(s: State, feedID: string, u: string, d: string)
    requires Inv(s) && (u, d) in Links(s.items, feedID)
    ensures u in KeysOf(ItemsOf(s.items, feedID)).urls
  {
    ItemsSound(s);
    var own := ItemsOf(s.items, feedID);
    var i :| i in own && own[i].url == u && own[i].documentID == d;
    assert HasItem(s.items, feedID, i);
  }

  // ----- The first import: everything is created -----

  /** `d` is the document made for an item with URL `u`. */
  ghost predicate MadeFor(docs: map<string, Document>, u: string, d: string) {
    && d in docs && docs[d].meta.kind == KIND_RSS && docs[d].meta.deletedAt.None?
    && docs[d].meta.canonicalURL == docs[d].meta.sourceURL == Some(u)
  }

  /** So far every imported item got a document of its own, and nothing else changed. */
  ghost predicate MadeSoFar(base: State, docs: map<string, Document>, links: set<(string, string)>) {
    && (forall d | d in base.docs :: d in docs && docs[d] == base.docs[d])
    && (forall u, d | (u, d) in links :: d !in base.docs && MadeFor(docs, u, d))
    && (forall d | d in docs && d !in base.docs :: exists u :: (u, d) in links)
  }

  ghost predicate CreatedOnly(base: State, feed: Feed, im: Import) {
    && ImportInv(base, feed, im)
    && im.linked == LinkedDocuments(base) && im.adopted == 0
    && MadeSoFar(base, im.s.docs, Links(im.s.items, feed.id))
  }

  lemma MadeOneMore(base: State, docs: map<string, Document>, links: set<(string, string)>, u: string, d: string,
                    made: Document)
    requires MadeSoFar(base, docs, links) && d !in docs && MadeFor(docs[d := made], u, d)
    ensures MadeSoFar(base, docs[d := made], links + {(u, d)})
  {
    var docs', links' := docs[d := made], links + {(u, d)};
    forall x | x in docs' && x !in base.docs ensures exists v :: (v, x) in links' {
      if x == d {
        assert (u, d) in links';
      } else {
        var v :| (v, x) in links;
        assert (v, x) in links';
      }
    }
    forall v, x | (v, x) in links' ensures x !in base.docs && MadeFor(docs', v, x) {
      if (v, x) in links {
        assert MadeFor(docs, v, x);
      }
    }
  }

  lemma NothingToAdopt(base: State, feed: Feed, im: Import, normal: NormalItem)
    requires CreatedOnly(base, feed, im) && NoOrphans(base)
    ensures FirstOrphan(im.records, im.linked, normal) == |im.records|
  {
    Unpacked(base, feed, im);
    assert Current(base, im, FirstOrphan(im.records, im.linked, normal));
  }

  /** What a round of the first import does with a new item. */
  lemma FirstStepCreates(env: Env, base: State, feed: Feed, im: Import, item: ImportItem, n: NormalItem, im': Import)
      returns (d: string)
    requires CreatedOnly(base, feed, im) && NoOrphans(base)
    requires ImportStep(env, feed, im, item) == Ok(im') && Normalized(env, item) == Some(n) && !HasKey(im.seen, n)
    ensures Links(im'.s.items, feed.id) == Links(im.s.items, feed.id) + {(n.url, d)}
    ensures im'.seen == AddKeys(im.seen, n.guid, n.canonicalURL, n.contentHash, n.url)
    ensures im'.imported == im.imported + 1 && im'.skipped == im.skipped
    ensures d in im'.s.docs && im'.s.docs == im.s.docs[d := im'.s.docs[d]] && d !in im.s.docs
    ensures var m := im'.s.docs[d].meta;
            m.kind == KIND_RSS && m.deletedAt.None? && m.canonicalURL == n.canonicalURL && m.sourceURL == n.sourceURL
    ensures im'.linked == im.linked && im'.adopted == im.adopted
  {
    NothingToAdopt(base, feed, im, n);
    Unpacked(base, feed, im);
    var s1;
    s1, d := ItemDocumentCreated(env, im.s, feed, n).value.0, ItemDocumentCreated(env, im.s, feed, n).value.1;
    ItemDocumentKeepsInv(env, im.s, feed, n, s1, d);
    LinksGrow(env, feed, im.(s := s1), n, d, im');
  }

  lemma FirstStep(env: Env, base: State, feed: Feed, im: Import, item: ImportItem, im': Import)
    requires CreatedOnly(base, feed, im) && NoOrphans(base) && Plain(env, item)
    requires ImportStep(env, feed, im, item) == Ok(im')
    ensures CreatedOnly(base, feed, im') && Links(im.s.items, feed.id) <= Links(im'.s.items, feed.id)
  {
    StepKeepsInv(env, base, feed, im, item, im');
    var normal := Normalized(env, item);
    if normal.Some? && !HasKey(im.seen, normal.value) {
      var d := FirstStepCreates(env, base, feed, im, item, normal.value, im');
      MadeOneMore(base, im.s.docs, Links(im.s.items, feed.id), normal.value.url, d, im'.s.docs[d]);
    }
  }

  lemma {:induction false} FirstRun(env: Env, base: State, feed: Feed, im: Import, items: seq<ImportItem>, im': Import)
    requires CreatedOnly(base, feed, im) && NoOrphans(base) && forall x | x in items :: Plain(env, x)
    requires ImportAll(env, feed, im, items) == Ok(im')
    ensures CreatedOnly(base, feed, im') && Links(im.s.items, feed.id) <= Links(im'.s.items, feed.id)
  {
    if items != [] {
      var front, last := items[..|items| - 1], items[|items| - 1];
      assert items == front + [last];
      var before := ImportAll(env, feed, im, front).value;
      FirstRun(env, base, feed, im, front, before);
      FirstStep(env, base, feed, before, last, im');
    }
  }

  // ----- The second import: everything is found again -----

  /** The second import has done, by adoption, what the first did by creation. */
  ghost predicate Mirrors(base: State, feed: Feed, first: Import, firstFeed: string, im: Import) {
    && ImportInv(base, feed, im)
    && im.seen == first.seen
    && im.imported == first.imported && im.skipped == first.skipped
    && Links(im.s.items, feed.id) == Links(first.s.items, firstFeed)
    && im.s.docs.Keys == base.docs.Keys
    && (forall d | d in im.linked :: d in LinkedDocuments(base) || exists u :: (u, d) in Links(im.s.items, feed.id))
    && (forall d | d in LinkedDocuments(base) :: d in im.linked)
  }

  /** What the recreated feed finds: the documents of the first import, made for the final links,
      unlinked; every other RSS document is linked or deleted. */
  ghost predicate Abandoned(base: State, links: set<(string, string)>) {
    && (forall u, d | (u, d) in links :: MadeFor(base.docs, u, d) && d !in LinkedDocuments(base))
    && (forall u, d, u', d' | (u, d) in links && (u', d') in links :: u == u' <==> d == d')
    && (forall d | d in base.docs && base.docs[d].meta.kind == KIND_RSS && base.docs[d].meta.deletedAt.None? ::
          d in LinkedDocuments(base) || exists u :: (u, d) in links)
  }

  /** The document made for the URL is among the records, matches, and is still free. */
  lemma ItsDocumentMatches(base: State, feed: Feed, im: Import, links: set<(string, string)>, normal: NormalItem,
                           d: string) returns (j: nat)
    requires ImportInv(base, feed, im) && Abandoned(base, links) && (normal.url, d) in links && normal.url != ""
    ensures j < |im.records| && im.records[j].meta.id == d && MatchesOrphan(im.records[j], normal)
  {
    Unpacked(base, feed, im);
    assert MadeFor(base.docs, normal.url, d);
    assert InSnapshot(im, d);
    j :| 0 <= j < |im.records| && im.records[j].meta.id == d;
    assert Current(base, im, j);
    assert OnlyMoved(base.docs[d], im.s.docs[d]);
  }

  /** Any free record that matches is the document made for the URL. */
  lemma MatchIsItsDocument(base: State, feed: Feed, im: Import, links: set<(string, string)>, normal: NormalItem,
                           d: string, k: nat)
    requires ImportInv(base, feed, im) && Abandoned(base, links)
    requires (normal.url, d) in links && normal.canonicalURL == normal.sourceURL == Some(normal.url)
    requires k < |im.records| && MatchesOrphan(im.records[k], normal) && im.records[k].meta.id !in LinkedDocuments(base)
    ensures im.records[k].meta.id == d
  {
    assert ImportSound(base, feed, im, SnapshotPart) && ImportSound(base, feed, im, FramePart);
    assert Current(base, im, k);
    var e := im.records[k].meta.id;
    assert OnlyMoved(base.docs[e], im.s.docs[e]);
    var u :| (u, e) in links;
    assert MadeFor(base.docs, u, e);
    assert u == normal.url;
  }

  /** The one document made for a URL is what adoption finds for it. */
  lemma FindsItsDocument(base: State, feed: Feed, im: Import, links: set<(string, string)>, normal: NormalItem,
                         d: string)
    requires ImportInv(base, feed, im) && Abandoned(base, links)
    requires (normal.url, d) in links && normal.canonicalURL == normal.sourceURL == Some(normal.url) && normal.url != ""
    requires d !in im.linked
    requires forall x | x in LinkedDocuments(base) :: x in im.linked
    ensures var k := FirstOrphan(im.records, im.linked, normal);
            k < |im.records| && im.records[k].meta.id == d
  {
    var j := ItsDocumentMatches(base, feed, im, links, normal, d);
    var k := FirstOrphan(im.records, im.linked, normal);
    assert k <= j;
    MatchIsItsDocument(base, feed, im, links, normal, d, k);
  }

  /** A URL whose keys are unseen is not linked yet, so its document is still free. */
  lemma StillFree(base: State, feed: Feed, first: Import, firstFeed: string, im: Import, links: set<(string, string)>,
                  normal: NormalItem, d: string)
    requires Mirrors(base, feed, first, firstFeed, im) && Abandoned(base, links)
    requires Links(im.s.items, feed.id) <= links && (normal.url, d) in links && !HasKey(im.seen, normal)
    ensures d !in im.linked
  {
    if d in im.linked {
      assert d !in LinkedDocuments(base);
      var u :| (u, d) in Links(im.s.items, feed.id);
      assert (u, d) in links;
      Unpacked(base, feed, im);
      LinkedURLSeen(im.s, feed.id, u, d);
    }
  }

  /** The document half of the step. */
  lemma AdoptsIt(env: Env, base: State, feed: Feed, im: Import, links: set<(string, string)>, normal: NormalItem,
                 d: string) returns (im1: Import)
    requires ImportInv(base, feed, im) && Abandoned(base, links) && CleanKeys(normal)
    requires (normal.url, d) in links && normal.canonicalURL == normal.sourceURL == Some(normal.url)
    requires d !in im.linked && forall x | x in LinkedDocuments(base) :: x in im.linked
    ensures DocumentFor(env, feed, im, normal) == Ok((im1, d)) && OkStep(base, feed, im, normal, im1, d)
    ensures im1.s.docs.Keys == im.s.docs.Keys && im1.linked == im.linked + {d}
  {
    FindsItsDocument(base, feed, im, links, normal, d);
    Unpacked(base, feed, im);
    var k := FirstOrphan(im.records, im.linked, normal);
    im1 := Adopted(env, feed, im, k);
    DocumentForKeepsInv(env, base, feed, im, normal, im1, d);
    AdoptKeepsSnapshot(env, base, feed, im, k, im1);
  }

  lemma AdoptsMade(env: Env, base: State, feed: Feed, im: Import, links: set<(string, string)>, normal: NormalItem,
                   d: string)
      returns (im1: Import, im': Import)
    requires ImportInv(base, feed, im) && Abandoned(base, links) && CleanKeys(normal) && !HasKey(im.seen, normal)
    requires (normal.url, d) in links && normal.canonicalURL == normal.sourceURL == Some(normal.url)
    requires d !in im.linked && forall x | x in LinkedDocuments(base) :: x in im.linked
    ensures DocumentFor(env, feed, im, normal) == Ok((im1, d))
    ensures ItemLinked(env, feed, im1, normal, d) == Ok(im')
    ensures ImportInv(base, feed, im')
    ensures im'.imported == im.imported + 1 && im'.skipped == im.skipped
    ensures im'.s.docs.Keys == im.s.docs.Keys && im'.linked == im.linked + {d}
    ensures Links(im'.s.items, feed.id) == Links(im.s.items, feed.id) + {(normal.url, d)}
    ensures im'.seen == AddKeys(im.seen, normal.guid, normal.canonicalURL, normal.contentHash, normal.url)
  {
    im1 := AdoptsIt(env, base, feed, im, links, normal, d);
    NewItemKeepsInv(env, base, feed, im, normal, im1, d);
    im' := ItemLinked(env, feed, im1, normal, d).value;
    LinksGrow(env, feed, im1, normal, d, im');
  }

  lemma LinkedOneMore(base: State, linked: set<string>, links: set<(string, string)>, u: string, d: string)
    requires forall x | x in linked :: x in LinkedDocuments(base) || exists v :: (v, x) in links
    ensures forall x | x in linked + {d} :: x in LinkedDocuments(base) || exists v :: (v, x) in links + {(u, d)}
  {
    var links' := links + {(u, d)};
    forall x | x in linked + {d} ensures x in LinkedDocuments(base) || exists v :: (v, x) in links' {
      if x == d {
        assert (u, d) in links';
      } else if x !in LinkedDocuments(base) {
        var v :| (v, x) in links;
        assert (v, x) in links';
      }
    }
  }

  lemma SecondStepSkips(base: State, feed: Feed, first: Import, firstFeed: string, im: Import)
    requires Mirrors(base, feed, first, firstFeed, im)
    ensures Mirrors(base, feed, first.(skipped := first.skipped + 1), firstFeed, im.(skipped := im.skipped + 1))
  {
    SkipKeepsInv(base, feed, im);
  }

  /** Both imports have gone one item further. */
  lemma MirrorsOneMore(base: State, feed: Feed, first: Import, first': Import, firstFeed: string, im: Import,
                       im': Import, n: NormalItem, d: string)
    requires Mirrors(base, feed, first, firstFeed, im) && ImportInv(base, feed, im')
    requires Links(first'.s.items, firstFeed) == Links(first.s.items, firstFeed) + {(n.url, d)}
    requires Links(im'.s.items, feed.id) == Links(im.s.items, feed.id) + {(n.url, d)}
    requires first'.seen == AddKeys(first.seen, n.guid, n.canonicalURL, n.contentHash, n.url)
    requires im'.seen == AddKeys(im.seen, n.guid, n.canonicalURL, n.contentHash, n.url)
    requires first'.imported == first.imported + 1 && first'.skipped == first.skipped
    requires im'.imported == im.imported + 1 && im'.skipped == im.skipped
    requires im'.s.docs.Keys == im.s.docs.Keys && im'.linked == im.linked + {d}
    ensures Mirrors(base, feed, first', firstFeed, im')
  {
    LinkedOneMore(base, im.linked, Links(im.s.items, feed.id), n.url, d);
  }

  /** A new item whose URL the first import linked to `d`: the second adopts `d`. */
  lemma SecondStepAdopts(later: Env, base: State, feed: Feed, first: Import, firstFeed: string, im: Import,
                         links: set<(string, string)>, n: NormalItem, d: string) returns (im1: Import, im': Import)
    requires Mirrors(base, feed, first, firstFeed, im) && Abandoned(base, links)
    requires CleanKeys(n) && !HasKey(im.seen, n) && n.canonicalURL == n.sourceURL == Some(n.url)
    requires Links(first.s.items, firstFeed) <= links && (n.url, d) in links
    ensures DocumentFor(later, feed, im, n) == Ok((im1, d)) && ItemLinked(later, feed, im1, n, d) == Ok(im')
    ensures ImportInv(base, feed, im')
    ensures im'.imported == im.imported + 1 && im'.skipped == im.skipped
    ensures im'.s.docs.Keys == im.s.docs.Keys && im'.linked == im.linked + {d}
    ensures Links(im'.s.items, feed.id) == Links(im.s.items, feed.id) + {(n.url, d)}
    ensures im'.seen == AddKeys(im.seen, n.guid, n.canonicalURL, n.contentHash, n.url)
  {
    StillFree(base, feed, first, firstFeed, im, links, n, d);
    im1, im' := AdoptsMade(later, base, feed, im, links, n, d);
  }

  /** A new item for which the first import made `d`: the second adopts `d` and still mirrors the first. */
  lemma SecondStepMirrors(later: Env, base: State, feed: Feed, first: Import, first': Import, firstFeed: string,
                          im: Import,
                          links: set<(string, string)>, item: ImportItem, n: NormalItem, d: string)
                              returns (im': Import)
    requires Mirrors(base, feed, first, firstFeed, im) && Abandoned(base, links)
    requires Normalized(later, item) == Some(n) && !HasKey(im.seen, n) && n.canonicalURL == n.sourceURL == Some(n.url)
    requires Links(first.s.items, firstFeed) <= links && (n.url, d) in links
    requires Links(first'.s.items, firstFeed) == Links(first.s.items, firstFeed) + {(n.url, d)}
    requires first'.seen == AddKeys(first.seen, n.guid, n.canonicalURL, n.contentHash, n.url)
    requires first'.imported == first.imported + 1 && first'.skipped == first.skipped
    ensures ImportStep(later, feed, im, item) == Ok(im') && Mirrors(base, feed, first', firstFeed, im')
  {
    NormalIsClean(later, item, n);
    var im1;
    im1, im' := SecondStepAdopts(later, base, feed, first, firstFeed, im, links, n, d);
    NewItemStep(later, feed, im, item, n, im1, d, im');
    MirrorsOneMore(base, feed, first, first', firstFeed, im, im', n, d);
  }

  lemma NewItemStep(env: Env, feed: Feed, im: Import, item: ImportItem, n: NormalItem, im1: Import, d: string,
                    im': Import)
    requires Normalized(env, item) == Some(n) && !HasKey(im.seen, n)
    requires DocumentFor(env, feed, im, n) == Ok((im1, d)) && ItemLinked(env, feed, im1, n, d) == Ok(im')
    ensures ImportStep(env, feed, im, item) == Ok(im')
  {
  }

  lemma NormalIsClean(env: Env, item: ImportItem, n: NormalItem)
    requires Normalized(env, item) == Some(n)
    ensures CleanKeys(n)
  {
  }

  /** One item, in both imports: skipped in both, or created in the first and adopted in the second. */
  lemma SecondStep(env: Env, later: Env, base0: State, firstFeed: Feed, first: Import, first': Import,
                   base: State, feed: Feed, im: Import, links: set<(string, string)>, item: ImportItem)
      returns (im': Import)
    requires CreatedOnly(base0, firstFeed, first) && NoOrphans(base0) && Plain(env, item)
    requires ImportStep(env, firstFeed, first, item) == Ok(first')
    requires later.trim == env.trim && Mirrors(base, feed, first, firstFeed.id, im) && Abandoned(base, links)
    requires Links(first'.s.items, firstFeed.id) <= links
    ensures ImportStep(later, feed, im, item) == Ok(im') && Mirrors(base, feed, first', firstFeed.id, im')
  {
    var normal := Normalized(env, item);
    assert Normalized(later, item) == normal && im.seen == first.seen;
    if normal.None? || HasKey(im.seen, normal.value) {
      im' := im.(skipped := im.skipped + 1);
      SecondStepSkips(base, feed, first, firstFeed.id, im);
    } else {
      var n := normal.value;
      var d := FirstStepCreates(env, base0, firstFeed, first, item, n, first');
      assert (n.url, d) in Links(first'.s.items, firstFeed.id);
      im' := SecondStepMirrors(later, base, feed, first, first', firstFeed.id, im, links, item, n, d);
    }
  }

  lemma {:induction false} SecondRun(env: Env, later: Env, base0: State, firstFeed: Feed, first: Import,
                                     items: seq<ImportItem>, first': Import,
                                     base: State, feed: Feed, im: Import, links: set<(string, string)>)
      returns (im': Import)
    requires CreatedOnly(base0, firstFeed, first) && NoOrphans(base0) && forall x | x in items :: Plain(env, x)
    requires ImportAll(env, firstFeed, first, items) == Ok(first')
    requires later.trim == env.trim && Mirrors(base, feed, first, firstFeed.id, im) && Abandoned(base, links)
    requires Links(first'.s.items, firstFeed.id) <= links
    ensures ImportAll(later, feed, im, items) == Ok(im') && Mirrors(base, feed, first', firstFeed.id, im')
  {
    if items == [] {
      im' := im;
    } else {
      var front, last := items[..|items| - 1], items[|items| - 1];
      assert items == front + [last];
      var before := ImportAll(env, firstFeed, first, front).value;
      FirstRun(env, base0, firstFeed, first, front, before);
      FirstStep(env, base0, firstFeed, before, last, first');
      var middle := SecondRun(env, later, base0, firstFeed, first, front, before, base, feed, im, links);
      im' := SecondStep(env, later, base0, firstFeed, before, first', base, feed, middle, links, last);
    }
  }

  // ----- Import, delete, recreate, import -----

  lemma FirstStart(s: State, feedID: string)
    requires Inv(s) && KeyedDocuments(s.docs) && feedID in s.feeds && ItemsOf(s.items, feedID) == map[]
    ensures CreatedOnly(s, s.feeds[feedID], ImportStart(s, feedID))
    ensures Links(s.items, feedID) == {} && ImportStart(s, feedID).seen == KeysOf(map[])
  {
    StartKeepsInv(s, feedID);
    FeedIsKeyed(s, feedID);
  }

  /** A document some item of another feed than `feedID` links. */
  ghost predicate LinkedElsewhere(s: State, feedID: string, d: string) {
    exists f, i :: f in s.feeds && f != feedID && i in ItemsOf(s.items, f) && ItemsOf(s.items, f)[i].documentID == d
  }

  lemma NewFeedLinksNothing(s: State, feedID: string, s': State, feedID': string)
    requires s'.items == s.items - {feedID} && ItemsOf(s'.items, feedID') == map[]
    requires s'.feeds.Keys == s.feeds.Keys - {feedID} + {feedID'}
    ensures forall d :: d in LinkedDocuments(s') <==> LinkedElsewhere(s, feedID, d)
  {
    forall d ensures d in LinkedDocuments(s') <==> LinkedElsewhere(s, feedID, d) {
      if d in LinkedDocuments(s') {
        var f, i :| f in s'.feeds && i in ItemsOf(s'.items, f) && ItemsOf(s'.items, f)[i].documentID == d;
        assert f in s.feeds && f != feedID && i in ItemsOf(s.items, f);
      }
      if LinkedElsewhere(s, feedID, d) {
        var f, i :| f in s.feeds && f != feedID && i in ItemsOf(s.items, f) && ItemsOf(s.items, f)[i].documentID == d;
        assert f in s'.feeds && i in ItemsOf(s'.items, f);
      }
    }
  }

  /** Deleting the feed and creating another keeps the documents and unlinks exactly the feed's. */
  lemma Recreated(env: Env, s: State, feedID: string, input: CreateFeedInput, sortOrder: int, s': State,
                  feedID': string)
    requires Inv(s) && feedID in s.feeds
    requires CreateFeedSpec(env, WithoutFeed(s, feedID), input, sortOrder) == Ok((s', feedID'))
    ensures Inv(s') && feedID' in s'.feeds && s'.docs == s.docs
    ensures s'.feeds[feedID'].enabled == (input.enabled.None? || input.enabled.value)
    ensures ItemsOf(s'.items, feedID') == map[]
    ensures forall d :: d in LinkedDocuments(s') <==> LinkedElsewhere(s, feedID, d)
  {
    var s2 := WithoutFeed(s, feedID);
    DeleteFeedKeepsInv(s, feedID);
    CreateFeedKeepsInv(env, s2, input, sortOrder, s', feedID');
    CreateFeedOutcome(env, s2, input, sortOrder, s', feedID');
    ItemsSound(s2);
    NewFeedLinksNothing(s, feedID, s', feedID');
  }

  lemma LeftBehind(base0: State, feed: Feed, im: Import, s: State)
    requires Inv(base0) && NoOrphans(base0) && CreatedOnly(base0, feed, im)
    requires s.docs == im.s.docs && LinkedDocuments(s) == LinkedDocuments(base0)
    ensures Abandoned(s, Links(im.s.items, feed.id))
  {
    Unpacked(base0, feed, im);
    var links := Links(im.s.items, feed.id);
    forall u, d | (u, d) in links ensures MadeFor(s.docs, u, d) && d !in LinkedDocuments(s) {
      if d in LinkedDocuments(base0) {
        LinkedInDocs(base0, d);
      }
    }
    forall u, d, u', d' | (u, d) in links && (u', d') in links ensures u == u' <==> d == d' {
      LinksBijective(im.s, feed.id, u, d, u', d');
    }
  }

  /** The import of `items` into the empty feed `feedID` gave `s1`; the feed was deleted, created
      anew as `feedID'`, and `s3` is where that left the library. */
  ghost predicate ImportedAndRecreated(env: Env, s0: State, feedID: string, items: seq<ImportItem>, s1: State,
                                       result: ImportResult,
                                       between: Env, input: CreateFeedInput, sortOrder: int, s3: State, feedID': string)
  {
    && Inv(s0) && KeyedDocuments(s0.docs) && NoOrphans(s0)
    && ItemsOf(s0.items, feedID) == map[] && (forall x | x in items :: Plain(env, x))
    && ImportFeedItemsSpec(env, s0, feedID, items) == Ok((s1, result))
    && CreateFeedSpec(between, WithoutFeed(s1, feedID), input, sortOrder) == Ok((s3, feedID'))
    && (input.enabled.None? || input.enabled.value)
  }

  /** What the first import did: it created a document for every item it imported. */
  lemma FirstImport(env: Env, s0: State, feedID: string, items: seq<ImportItem>, s1: State, result: ImportResult)
      returns (first: Import)
    requires Inv(s0) && KeyedDocuments(s0.docs) && NoOrphans(s0)
    requires ItemsOf(s0.items, feedID) == map[] && forall x | x in items :: Plain(env, x)
    requires ImportFeedItemsSpec(env, s0, feedID, items) == Ok((s1, result))
    ensures feedID in s0.feeds && s0.feeds[feedID].id == feedID
    ensures CreatedOnly(s0, s0.feeds[feedID], ImportStart(s0, feedID)) && CreatedOnly(s0, s0.feeds[feedID], first)
    ensures ImportAll(env, s0.feeds[feedID], ImportStart(s0, feedID), items) == Ok(first)
    ensures s1.docs == first.s.docs && s1.items == first.s.items && s1.feeds.Keys == s0.feeds.Keys
    ensures first.imported == result.imported && first.skipped == result.skipped
    ensures forall f | f != feedID :: ItemsOf(s1.items, f) == ItemsOf(s0.items, f)
  {
    var feed, start := s0.feeds[feedID], ImportStart(s0, feedID);
    first := ImportAll(env, feed, start, items).value;
    FirstStart(s0, feedID);
    FeedIsKeyed(s0, feedID);
    FirstRun(env, s0, feed, start, items, first);
    Unpacked(s0, feed, first);
  }

  lemma MirrorStart(s0: State, feedID: string, s3: State, feedID': string)
    requires Inv(s0) && KeyedDocuments(s0.docs) && feedID in s0.feeds && ItemsOf(s0.items, feedID) == map[]
    requires Inv(s3) && feedID' in s3.feeds && ItemsOf(s3.items, feedID') == map[]
    ensures KeyedDocuments(s3.docs) && s3.feeds[feedID'].id == feedID'
    ensures Mirrors(s3, s3.feeds[feedID'], ImportStart(s0, feedID), feedID, ImportStart(s3, feedID'))
  {
    FeedIsKeyed(s3, feedID');
    StartKeepsInv(s3, feedID');
    FirstLinksEmpty(s3, feedID');
    FirstLinksEmpty(s0, feedID);
  }

  /** Where the recreated feed starts: it mirrors the start of the first import, and the documents
      of that import are waiting. */
  lemma RecreatedStart(s0: State, feedID: string, first: Import, s1: State, env: Env, input: CreateFeedInput,
                       sortOrder: int,
                       s3: State, feedID': string)
    requires Inv(s0) && KeyedDocuments(s0.docs) && NoOrphans(s0) && ItemsOf(s0.items, feedID) == map[]
    requires feedID in s0.feeds && s0.feeds[feedID].id == feedID && CreatedOnly(s0, s0.feeds[feedID], first)
    requires Inv(s1) && s1.docs == first.s.docs && s1.feeds.Keys == s0.feeds.Keys
    requires forall f | f != feedID :: ItemsOf(s1.items, f) == ItemsOf(s0.items, f)
    requires CreateFeedSpec(env, WithoutFeed(s1, feedID), input, sortOrder) == Ok((s3, feedID'))
    requires input.enabled.None? || input.enabled.value
    ensures Inv(s3) && KeyedDocuments(s3.docs) && feedID' in s3.feeds && s3.feeds[feedID'].enabled
            && s3.feeds[feedID'].id == feedID'
    ensures s3.docs == s1.docs && Abandoned(s3, Links(first.s.items, feedID))
    ensures Mirrors(s3, s3.feeds[feedID'], ImportStart(s0, feedID), feedID, ImportStart(s3, feedID'))
  {
    Recreated(env, s1, feedID, input, sortOrder, s3, feedID');
    SameLinked(s0, s1, feedID, s3);
    LeftBehind(s0, s0.feeds[feedID], first, s3);
    MirrorStart(s0, feedID, s3, feedID');
  }

  lemma FirstLinksEmpty(s: State, feedID: string)
    requires ItemsOf(s.items, feedID) == map[]
    ensures Links(s.items, feedID) == {}
  {
  }

  lemma SameLinked(s0: State, s1: State, feedID: string, s3: State)
    requires s1.feeds.Keys == s0.feeds.Keys && ItemsOf(s0.items, feedID) == map[]
    requires forall f | f != feedID :: ItemsOf(s1.items, f) == ItemsOf(s0.items, f)
    requires forall d :: d in LinkedDocuments(s3) <==> LinkedElsewhere(s1, feedID, d)
    ensures LinkedDocuments(s3) == LinkedDocuments(s0)
  {
    forall d ensures d in LinkedDocuments(s3) <==> d in LinkedDocuments(s0) {
      if d in LinkedDocuments(s0) {
        var f, i :| f in s0.feeds && i in ItemsOf(s0.items, f) && ItemsOf(s0.items, f)[i].documentID == d;
        assert f in s1.feeds && f != feedID && i in ItemsOf(s1.items, f);
      }
    }
  }

  /** What the import into an empty feed with a folder links, of the documents that were there, lies in
      that folder unless it lay in Trash. */
  lemma RelinkedLieInFolder(env: Env, s: State, feedID: string, items: seq<ImportItem>, s': State,
                            result: ImportResult)
    requires Inv(s) && KeyedDocuments(s.docs) && ImportFeedItemsSpec(env, s, feedID, items) == Ok((s', result))
    requires feedID in s.feeds && s.feeds[feedID].folderID.Some? && ItemsOf(s.items, feedID) == map[]
    ensures forall u, d | (u, d) in Links(s'.items, feedID) && d in s.docs ::
              d in s'.docs && s'.docs[d].meta.folderID ==
                if ImportTrash.LiesInTrash(s, d) then s.docs[d].meta.folderID else s.feeds[feedID].folderID
  {
    forall u, d | (u, d) in Links(s'.items, feedID) && d in s.docs
      ensures d in s'.docs && s'.docs[d].meta.folderID ==
                if ImportTrash.LiesInTrash(s, d) then s.docs[d].meta.folderID else s.feeds[feedID].folderID
    {
      ImportOutcomes.ImportPlacesDocuments(env, s, feedID, items, s', result, d);
      var i :| i in ItemsOf(s'.items, feedID) && ItemsOf(s'.items, feedID)[i].documentID == d;
      assert ImportOutcomes.IsNewItem(s, s', feedID, i);
    }
  }

  lemma ReimportLinksAgain(env: Env, s0: State, feedID: string, items: seq<ImportItem>, s1: State,
                           result: ImportResult,
                           between: Env, input: CreateFeedInput, sortOrder: int, s3: State, feedID': string,
                               later: Env)
    requires ImportedAndRecreated(env, s0, feedID, items, s1, result, between, input, sortOrder, s3, feedID')
    requires later.trim == env.trim
    ensures KeyedDocuments(s3.docs)
    ensures var r := ImportFeedItemsSpec(later, s3, feedID', items);
            && r.Ok?
            && r.value.1 == ImportResult(feedID', result.imported, result.skipped, Now(later, s3))
            && r.value.0.docs.Keys == s1.docs.Keys
            && Links(r.value.0.items, feedID') == Links(s1.items, feedID)
            && forall d | d in s1.docs :: OnlyMoved(s1.docs[d], r.value.0.docs[d])
  {
    var first := FirstImport(env, s0, feedID, items, s1, result);
    var adopted := ImportOutcome(env, s0, feedID, items, s1, result);
    RecreatedStart(s0, feedID, first, s1, between, input, sortOrder, s3, feedID');
    var feed := s3.feeds[feedID'];
    var second := SecondRun(env, later, s0, s0.feeds[feedID], ImportStart(s0, feedID), items, first,
                            s3, feed, ImportStart(s3, feedID'), Links(first.s.items, feedID));
    Unpacked(s3, feed, second);
  }

  /** The documents that the links name lie in the feed's folder, those in Trash excepted. */
  ghost predicate Gathered(s: State, docs: map<string, Document>, feed: Feed, links: set<(string, string)>) {
    forall u, d | (u, d) in links ::
      && d in s.docs && d in docs
      && docs[d].meta.folderID == if ImportTrash.LiesInTrash(s, d) then s.docs[d].meta.folderID else feed.folderID
  }

  lemma RecreatedFeed(env: Env, s: State, feedID: string, input: CreateFeedInput, sortOrder: int, s': State,
                      feedID': string)
    requires Inv(s) && feedID in s.feeds
    requires CreateFeedSpec(env, WithoutFeed(s, feedID), input, sortOrder) == Ok((s', feedID'))
    ensures Inv(s') && feedID' in s'.feeds && s'.feeds[feedID'].folderID.Some? && ItemsOf(s'.items, feedID') == map[]
    ensures s'.docs == s.docs
  {
    Recreated(env, s, feedID, input, sortOrder, s', feedID');
    DeleteFeedKeepsInv(s, feedID);
    CreateFeedOutcome(env, WithoutFeed(s, feedID), input, sortOrder, s', feedID');
  }

  lemma ImportLeavesFeed(env: Env, s: State, feedID: string, items: seq<ImportItem>, s': State, result: ImportResult)
    requires Inv(s) && KeyedDocuments(s.docs) && ImportFeedItemsSpec(env, s, feedID, items) == Ok((s', result))
    ensures Inv(s') && feedID in s'.feeds
  {
    ImportOutcomes.ImportMakesEntries(env, s, feedID, items, s', result);
    var adopted := ImportOutcome(env, s, feedID, items, s', result);
  }

  lemma Regathered(s1: State, feedID: string, env: Env, s3: State, feedID': string, items: seq<ImportItem>, s': State,
                   result: ImportResult)
    requires Inv(s1) && Inv(s3) && s3.docs == s1.docs && KeyedDocuments(s3.docs)
    requires feedID' in s3.feeds && s3.feeds[feedID'].folderID.Some? && ItemsOf(s3.items, feedID') == map[]
    requires ImportFeedItemsSpec(env, s3, feedID', items) == Ok((s', result))
    requires Links(s'.items, feedID') == Links(s1.items, feedID)
    ensures Gathered(s3, s'.docs, s3.feeds[feedID'], Links(s1.items, feedID))
  {
    LinksAreStored(s1, feedID);
    RelinkedLieInFolder(env, s3, feedID', items, s', result);
  }

  lemma LinksAreStored(s: State, feedID: string)
    requires Inv(s)
    ensures forall u, d | (u, d) in Links(s.items, feedID) :: d in s.docs
  {
    ItemsSound(s);
    forall u, d | (u, d) in Links(s.items, feedID) ensures d in s.docs {
      var i :| i in ItemsOf(s.items, feedID) && ItemsOf(s.items, feedID)[i].documentID == d;
      assert HasItem(s.items, feedID, i);
    }
  }

  /** Import into an empty feed while no RSS document is orphaned, delete the feed, create it
      anew, import the same list again: the second import succeeds, creates no document, changes
      at most folder and timestamp of those there are, and links every URL to the same document
      as before; the documents it links again lie in the folder of the new feed, those in Trash
      excepted, which stay there. */
  lemma ReimportAfterRecreation(env: Env, s0: State, feedID: string, items: seq<ImportItem>, s1: State,
                                result: ImportResult,
                                between: Env, input: CreateFeedInput, sortOrder: int, s3: State, feedID': string,
                                    later: Env)
    requires ImportedAndRecreated(env, s0, feedID, items, s1, result, between, input, sortOrder, s3, feedID')
    requires later.trim == env.trim
    ensures KeyedDocuments(s3.docs)
    ensures var r := ImportFeedItemsSpec(later, s3, feedID', items);
            && r.Ok?
            && r.value.1 == ImportResult(feedID', result.imported, result.skipped, Now(later, s3))
            && r.value.0.docs.Keys == s1.docs.Keys
            && Links(r.value.0.items, feedID') == Links(s1.items, feedID)
            && forall d | d in s1.docs :: OnlyMoved(s1.docs[d], r.value.0.docs[d])
    ensures feedID' in s3.feeds && s3.feeds[feedID'].folderID.Some?
    ensures Gathered(s3, ImportFeedItemsSpec(later, s3, feedID', items).value.0.docs, s3.feeds[feedID'],
                     Links(s1.items, feedID))
  {
    ReimportLinksAgain(env, s0, feedID, items, s1, result, between, input, sortOrder, s3, feedID', later);
    ImportLeavesFeed(env, s0, feedID, items, s1, result);
    RecreatedFeed(between, s1, feedID, input, sortOrder, s3, feedID');
    Regathered(s1, feedID, later, s3, feedID', items, ImportFeedItemsSpec(later, s3, feedID', items).value.0,
               ImportFeedItemsSpec(later, s3, feedID', items).value.1);
  }
}
