/** Feed entries, their normalization, and the four-key index against duplicates. */
module FeedItems {
  import opened Prelude
  import opened Entities
  import opened Library
  import opened DocumentOps

  // ----- Items -----

  datatype ImportItem = ImportItem(
    title: string, url: string, canonicalURL: string, sourceURL: string, guid: string, contentHash: string,
    publishedAt: Option<int>, content: string, format: string)

  datatype NormalItem = NormalItem(
    title: string, url: string, canonicalURL: Option<string>, sourceURL: Option<string>,
    guid: Option<string>, contentHash: Option<string>, publishedAt: Option<int>, content: string, format: string)

  function OrElse(first: Option<string>, second: Option<string>): (r: Option<string>) {
    if first.Some? then first else second
  }

  /** `normalizeFeedImportItem`: empty keys become nil, an item without title or URL is unusable. */
  function Normalized(env: Env, item: ImportItem): (r: Option<NormalItem>)
    ensures r.Some? ==> CleanKeys(r.value)
  {
    var title, url := env.trim(item.title), env.trim(item.url);
    if title == "" || url == "" then None
    else Some(NormalItem(
      title, url,
      OrElse(OptionalString(env, item.canonicalURL), OptionalString(env, url)),
      OrElse(OptionalString(env, item.sourceURL), OptionalString(env, url)),
      OptionalString(env, item.guid), OptionalString(env, item.contentHash), item.publishedAt,
      env.trim(item.content), FormatOf(env, item.format)))
  }

  predicate CleanKeys(item: NormalItem) {
    item.url != "" && item.guid != Some("") && item.canonicalURL != Some("") && item.contentHash != Some("")
  }

  /** `feedItemRecord`. */
  function ItemRecord(id: string, feedID: string, documentID: string, item: NormalItem, now: int): (r: FeedItem) {
    FeedItem(id, feedID, documentID, item.guid, item.url, item.canonicalURL, item.contentHash, item.publishedAt, now)
  }

  // ----- The four-key index -----

  datatype Keys = Keys(guids: set<string>, canonicalURLs: set<string>, contentHashes: set<string>, urls: set<string>)

  function AddOption(values: set<string>, value: Option<string>): (r: set<string>) {
    if value.Some? && value.value != "" then values + {value.value} else values
  }

  function AddValue(values: set<string>, value: string): (r: set<string>) {
    if value != "" then values + {value} else values
  }

  predicate HasOption(values: set<string>, value: Option<string>) {
    value.Some? && value.value in values
  }

  /** `feedItemSet.has`. */
  predicate HasKey(keys: Keys, item: NormalItem) {
    || HasOption(keys.guids, item.guid)
    || HasOption(keys.canonicalURLs, item.canonicalURL)
    || HasOption(keys.contentHashes, item.contentHash)
    || item.url in keys.urls
  }

  /** `feedItemSet.add`. */
  function AddKeys(keys: Keys, guid: Option<string>, canonicalURL: Option<string>, contentHash: Option<string>,
                   url: string): (r: Keys) {
    Keys(AddOption(keys.guids, guid), AddOption(keys.canonicalURLs, canonicalURL),
         AddOption(keys.contentHashes, contentHash), AddValue(keys.urls, url))
  }

  function Present(value: Option<string>): (r: set<string>) {
    AddOption({}, value)
  }

  /** `newFeedItemSet`: the keys of the stored items of a feed. */
  function KeysOf(own: map<string, FeedItem>): (keys: Keys) {
    Keys(set i, v | i in own && v in Present(own[i].guid) :: v,
         set i, v | i in own && v in Present(own[i].canonicalURL) :: v,
         set i, v | i in own && v in Present(own[i].contentHash) :: v,
         set i | i in own && own[i].url != "" :: own[i].url)
  }

  /** The object the source keeps: four maps that grow as items are added. */
  class FeedItemSet {
    var guids: set<string>
    var canonicalURLs: set<string>
    var contentHashes: set<string>
    var urls: set<string>

    function View(): (keys: Keys)
      reads this
    {
      Keys(guids, canonicalURLs, contentHashes, urls)
    }

    constructor (items: seq<FeedItem>, ghost own: map<string, FeedItem>)
      requires forall i | i in own :: own[i] in items && own[i].id == i
      requires forall k | 0 <= k < |items| :: items[k].id in own && own[items[k].id] == items[k]
      ensures View() == KeysOf(own)
    {
      guids, canonicalURLs, contentHashes, urls := {}, {}, {}, {};
      new;
      ghost var added: map<string, FeedItem> := map[];
      for k := 0 to |items|
        invariant View() == KeysOf(added)
        invariant forall i | i in added :: i in own && added[i] == own[i]
        invariant forall j | 0 <= j < k :: items[j].id in added
      {
        KeysGrow(added, items[k].id, items[k]);
        Add(items[k].guid, items[k].canonicalURL, items[k].contentHash, items[k].url);
        added := added[items[k].id := items[k]];
      }
      forall i | i in own ensures i in added {
        var k :| 0 <= k < |items| && items[k] == own[i];
      }
      assert added == own;
    }

    method Add(guid: Option<string>, canonicalURL: Option<string>, contentHash: Option<string>, url: string)
      modifies this
      ensures View() == AddKeys(old(View()), guid, canonicalURL, contentHash, url)
    {
      if guid.Some? && guid.value != "" { guids := guids + {guid.value}; }
      if canonicalURL.Some? && canonicalURL.value != "" { canonicalURLs := canonicalURLs + {canonicalURL.value}; }
      if contentHash.Some? && contentHash.value != "" { contentHashes := contentHashes + {contentHash.value}; }
      if url != "" { urls := urls + {url}; }
    }

    method Has(item: NormalItem) returns (found: bool)
      ensures found == HasKey(View(), item)
    {
      found := (item.guid.Some? && item.guid.value in guids)
        || (item.canonicalURL.Some? && item.canonicalURL.value in canonicalURLs)
        || (item.contentHash.Some? && item.contentHash.value in contentHashes)
        || item.url in urls;
    }
  }

  /** Adding the keys of a new item, or again those of a stored one, gives the keys of the table
      with the item in it. */
  lemma KeysGrow(own: map<string, FeedItem>, id: string, item: FeedItem)
    requires id in own ==> own[id] == item
    ensures AddKeys(KeysOf(own), item.guid, item.canonicalURL, item.contentHash, item.url) == KeysOf(own[id := item])
  {
    var own' := own[id := item];
    var added := AddKeys(KeysOf(own), item.guid, item.canonicalURL, item.contentHash, item.url);
    forall v ensures v in added.guids <==> v in KeysOf(own').guids {
      assert v in Present(item.guid) ==> id in own' && v in Present(own'[id].guid);
      if i :| i in own && v in Present(own[i].guid) { assert i in own' && own'[i] == own[i]; }
    }
    forall v ensures v in added.canonicalURLs <==> v in KeysOf(own').canonicalURLs {
      assert v in Present(item.canonicalURL) ==> id in own' && v in Present(own'[id].canonicalURL);
      if i :| i in own && v in Present(own[i].canonicalURL) { assert i in own' && own'[i] == own[i]; }
    }
    forall v ensures v in added.contentHashes <==> v in KeysOf(own').contentHashes {
      assert v in Present(item.contentHash) ==> id in own' && v in Present(own'[id].contentHash);
      if i :| i in own && v in Present(own[i].contentHash) { assert i in own' && own'[i] == own[i]; }
    }
    forall v ensures v in added.urls <==> v in KeysOf(own').urls {
      assert item.url != "" ==> id in own' && own'[id].url == item.url;
      if i :| i in own && own[i].url != "" && own[i].url == v { assert i in own' && own'[i] == own[i]; }
    }
  }

  /** The four-map index agrees with a scan for a duplicate: on stored items without empty keys,
      `has` answers exactly whether some item would collide with the new one. */
  lemma IndexAgreesWithScan(own: map<string, FeedItem>, item: NormalItem, record: FeedItem)
    requires CleanKeys(item) && record == ItemRecord(record.id, record.feedID, record.documentID, item,
                                                     record.createdAt)
    requires forall i | i in own :: CleanItem(own[i])
    ensures HasKey(KeysOf(own), item) <==> exists i :: i in own && DuplicateItem(own[i], record)
  {
    var keys := KeysOf(own);
    if HasKey(keys, item) {
      if HasOption(keys.guids, item.guid) {
        var i :| i in own && item.guid.value in Present(own[i].guid);
        assert DuplicateItem(own[i], record);
      } else if HasOption(keys.canonicalURLs, item.canonicalURL) {
        var i :| i in own && item.canonicalURL.value in Present(own[i].canonicalURL);
        assert DuplicateItem(own[i], record);
      } else if HasOption(keys.contentHashes, item.contentHash) {
        var i :| i in own && item.contentHash.value in Present(own[i].contentHash);
        assert DuplicateItem(own[i], record);
      } else {
        var i :| i in own && own[i].url == item.url;
        assert DuplicateItem(own[i], record);
      }
    }
    if i :| i in own && DuplicateItem(own[i], record) {
      if SameSet(own[i].guid, record.guid) {
        assert record.guid.value in Present(own[i].guid);
      } else if SameSet(own[i].canonicalURL, record.canonicalURL) {
        assert record.canonicalURL.value in Present(own[i].canonicalURL);
      } else if SameSet(own[i].contentHash, record.contentHash) {
        assert record.contentHash.value in Present(own[i].contentHash);
      }
    }
  }
}
