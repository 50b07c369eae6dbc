/** The state of the document library, the writes a transaction can make, and what every
    reachable state satisfies. */
module Library {
  import opened Prelude
  import opened Entities
  import opened FolderGraph
  import opened FolderForest
  import Text

  type Items = map<string, map<string, FeedItem>>

  datatype State = State(
    next: nat,
    docs: map<string, Document>,
    versions: map<string, seq<Version>>,
    folders: Folders,
    tags: map<string, Tag>,
    tagSlugs: map<string, string>,
    feeds: map<string, Feed>,
    feedURLs: map<string, string>,
    items: Items)

  const EMPTY := State(0, map[], map[], map[], map[], map[], map[], map[], map[])

  // ----- Clock and identifiers -----

  function Now(env: Env, s: State): (t: int) {
    env.clock(s.next)
  }

  /** `nextID`: prefix, timestamp and the counter after its increment. */
  function NewID(env: Env, next: nat, prefix: string): (id: string)
    ensures id != ""
  {
    prefix + "_" + env.stamp(env.clock(next + 1)) + "_" + Text.Decimal(next + 1)
  }

  function Drawn(s: State): (r: State) {
    s.(next := s.next + 1)
  }

  /** An identifier that a counter standing at `next` has already passed. */
  predicate Known(next: nat, id: string) {
    id != "" && Text.TrailingValue(id) <= next
  }

  /** A drawn identifier is new to every state it can be drawn in, and is passed right after. */
  lemma NewIDFresh(env: Env, next: nat, prefix: string)
    ensures !Known(next, NewID(env, next, prefix)) && Known(next + 1, NewID(env, next, prefix))
    ensures Text.TrailingValue(NewID(env, next, prefix)) == next + 1
  {
    var before := prefix + "_" + env.stamp(env.clock(next + 1)) + "_";
    assert before[|before| - 1] == '_';
    Text.TrailingDecimal(before, next + 1);
  }

  /** Two identifiers drawn at different counter values differ, whatever the prefixes and the
      clock: time standing still or running backwards cannot make them collide. */
  lemma NewIDsDiffer(envA: Env, envB: Env, m: nat, n: nat, prefixA: string, prefixB: string)
    requires m != n
    ensures NewID(envA, m, prefixA) != NewID(envB, n, prefixB)
  {
    NewIDFresh(envA, m, prefixA);
    NewIDFresh(envB, n, prefixB);
  }

  // ----- Writes -----

  function WithDocument(s: State, d: Document): (r: State) {
    s.(docs := s.docs[d.meta.id := d])
  }

  function VersionsOf(s: State, documentID: string): (v: seq<Version>) {
    if documentID in s.versions then s.versions[documentID] else []
  }

  function WithVersion(s: State, v: Version): (r: State) {
    s.(versions := s.versions[v.documentID := VersionsOf(s, v.documentID) + [v]])
  }

  function WithFolder(s: State, f: Folder): (r: State) {
    s.(folders := s.folders[f.id := f])
  }

  function WithTag(s: State, t: Tag): (r: State) {
    s.(tags := s.tags[t.id := t], tagSlugs := s.tagSlugs[t.slug := t.id])
  }

  function RemoveValue(values: seq<string>, value: string): (r: seq<string>)
    ensures value !in r && forall v :: v in r <==> v in values && v != value
  {
    if values == [] then []
    else if values[0] == value then RemoveValue(values[1..], value)
    else [values[0]] + RemoveValue(values[1..], value)
  }

  /** `DeleteTag` also takes the tag off every document. */
  function WithoutTag(s: State, id: string): (r: State) {
    s.(tagSlugs := if id in s.tags then s.tagSlugs - {s.tags[id].slug} else s.tagSlugs,
       tags := s.tags - {id},
       docs := map d | d in s.docs :: s.docs[d].(tagIDs := RemoveValue(s.docs[d].tagIDs, id)))
  }

  /** The URL index without the URL that the feed has in the table. */
  function URLsWithout(s: State, id: string): (urls: map<string, string>) {
    if id in s.feeds then s.feedURLs - {s.feeds[id].url} else s.feedURLs
  }

  function WithFeed(s: State, f: Feed): (r: State) {
    s.(feeds := s.feeds[f.id := f], feedURLs := URLsWithout(s, f.id)[f.url := f.id])
  }

  function WithoutFeed(s: State, id: string): (r: State) {
    s.(feedURLs := URLsWithout(s, id),
       feeds := s.feeds - {id},
       items := s.items - {id})
  }

  function ItemsOf(items: Items, feedID: string): (m: map<string, FeedItem>) {
    if feedID in items then items[feedID] else map[]
  }

  predicate SameSet(left: Option<string>, right: Option<string>) {
    left.Some? && right.Some? && left == right
  }

  /** `duplicateFeedItem`: any of the four keys in common. */
  predicate DuplicateItem(existing: FeedItem, next: FeedItem) {
    || SameSet(existing.guid, next.guid)
    || SameSet(existing.canonicalURL, next.canonicalURL)
    || SameSet(existing.contentHash, next.contentHash)
    || existing.url == next.url
  }

  /** `PutFeedItem`: aborts the transaction when another item of the feed shares a key. */
  function WithItem(s: State, item: FeedItem): (r: Result<State>) {
    var own := ItemsOf(s.items, item.feedID);
    if exists id | id in own :: id != item.id && DuplicateItem(own[id], item) then
      Err(Conflict("feed item already exists"))
    else
      Ok(s.(items := s.items[item.feedID := own[item.id := item]]))
  }

  // ----- Invariants -----

  function RoleName(role: string): (name: string) {
    if role == ROLE_INBOX then "Inbox" else if role == ROLE_FEEDS then "Feeds" else "Trash"
  }

  function RoleID(role: string): (id: string) {
    if role == ROLE_INBOX then INBOX_ID else if role == ROLE_FEEDS then FEEDS_ID else TRASH_ID
  }

  predicate IsRole(role: string) {
    role == ROLE_INBOX || role == ROLE_FEEDS || role == ROLE_TRASH
  }

  ghost predicate FoldersKeyed(next: nat, folders: Folders) {
    forall f | f in folders :: folders[f].id == f && Known(next, f)
  }

  ghost predicate NotTwins(folders: Folders, f: string, g: string) {
    f in folders && g in folders && f != g ==>
      folders[f].name != folders[g].name || folders[f].parentID != folders[g].parentID
  }

  /** No two folders share both name and parent. */
  ghost predicate SiblingsUnique(folders: Folders) {
    forall f, g :: NotTwins(folders, f, g)
  }

  lemma TwinsAreOne(folders: Folders, f: string, g: string)
    requires SiblingsUnique(folders) && f in folders && g in folders
    requires folders[f].name == folders[g].name && folders[f].parentID == folders[g].parentID
    ensures f == g
  {
    assert NotTwins(folders, f, g);
  }

  /** Taking folders out, or changing neither name nor parent, makes no twins. */
  lemma StaysTwinless(folders: Folders, folders': Folders)
    requires SiblingsUnique(folders)
    requires forall f | f in folders' ::
               f in folders && folders'[f].name == folders[f].name && folders'[f].parentID == folders[f].parentID
    ensures SiblingsUnique(folders')
  {
    forall f, g ensures NotTwins(folders', f, g) {
      assert NotTwins(folders, f, g);
    }
  }

  lemma AddTwinless(folders: Folders, folder: Folder)
    requires SiblingsUnique(folders)
    requires forall f | f in folders && f != folder.id ::
               folders[f].name != folder.name || folders[f].parentID != folder.parentID
    ensures SiblingsUnique(folders[folder.id := folder])
  {
    var folders' := folders[folder.id := folder];
    forall f, g ensures NotTwins(folders', f, g) {
      assert NotTwins(folders, f, g);
    }
  }

  /** A system folder is a root that bears its role's name; a reserved identifier bears its role. */
  ghost predicate RolesPlaced(folders: Folders) {
    && (forall f | f in folders && folders[f].systemRole.Some? ::
          && IsRole(folders[f].systemRole.value)
          && folders[f].parentID.None?
          && folders[f].name == RoleName(folders[f].systemRole.value))
    && (forall role | IsRole(role) && RoleID(role) in folders ::
          folders[RoleID(role)].systemRole == Some(role))
  }

  ghost predicate FolderInv(next: nat, folders: Folders) {
    && FoldersKeyed(next, folders)
    && Forest(folders)
    && SiblingsUnique(folders)
    && RolesPlaced(folders)
  }

  predicate IsTranslation(c: Content) {
    c.role == CONTENT_TRANSLATION
  }

  /** A translation names its language and a source that is among the contents. */
  predicate Grounded(contents: seq<Content>, i: nat)
    requires i < |contents|
  {
    IsTranslation(contents[i]) ==>
      contents[i].language.Some? && contents[i].sourceID.Some? && HasContent(contents, contents[i].sourceID.value)
  }

  /** Contents of one document: distinct identifiers; every translation names a source that is
      there, and no two translate the same source into the same language. */
  ghost predicate ContentsInv(next: nat, contents: seq<Content>) {
    && (forall i | 0 <= i < |contents| :: Known(next, contents[i].id))
    && (forall i, j | 0 <= i < j < |contents| :: contents[i].id != contents[j].id)
    && (forall i | 0 <= i < |contents| :: Grounded(contents, i))
    && (forall i, j | 0 <= i < j < |contents| && IsTranslation(contents[i]) && IsTranslation(contents[j]) ::
          contents[i].sourceID != contents[j].sourceID || contents[i].language != contents[j].language)
  }

  predicate HasContent(contents: seq<Content>, id: string) {
    exists k | 0 <= k < |contents| :: contents[k].id == id
  }

  ghost predicate DocumentInv(next: nat, id: string, d: Document, folderIDs: set<string>, tagIDs: set<string>) {
    && d.meta.id == id && Known(next, id)
    && (d.meta.folderID.Some? ==> d.meta.folderID.value in folderIDs)
    && (forall t | t in d.tagIDs :: t in tagIDs)
    && ContentsInv(next, d.contents)
  }

  ghost predicate DocumentsInv(next: nat, docs: map<string, Document>, folderIDs: set<string>, tagIDs: set<string>) {
    forall d | d in docs :: DocumentInv(next, d, docs[d], folderIDs, tagIDs)
  }

  ghost predicate VersionsInv(versions: map<string, seq<Version>>, docIDs: set<string>) {
    && versions.Keys <= docIDs
    && forall d, k | d in versions && 0 <= k < |versions[d]| ::
         versions[d][k].sequence == k + 1 && versions[d][k].documentID == d
  }

  ghost predicate TagsInv(next: nat, tags: map<string, Tag>, slugs: map<string, string>) {
    && (forall t | t in tags :: tags[t].id == t && Known(next, t)
                                && tags[t].slug in slugs && slugs[tags[t].slug] == t)
    && (forall slug | slug in slugs :: slugs[slug] in tags && tags[slugs[slug]].slug == slug)
  }

  ghost predicate FeedsInv(next: nat, feeds: map<string, Feed>, urls: map<string, string>, folderIDs: set<string>) {
    && (forall f | f in feeds ::
          && feeds[f].id == f && Known(next, f)
          && (feeds[f].folderID.Some? ==> feeds[f].folderID.value in folderIDs)
          && feeds[f].url in urls && urls[feeds[f].url] == f)
    && (forall url | url in urls :: urls[url] in feeds && feeds[urls[url]].url == url)
  }

  predicate HasItem(items: Items, feedID: string, id: string) {
    feedID in items && id in items[feedID]
  }

  /** No key of a stored item is the empty string: normalization turns empty keys into nil. */
  predicate CleanItem(item: FeedItem) {
    item.url != "" && item.guid != Some("") && item.canonicalURL != Some("") && item.contentHash != Some("")
  }

  ghost predicate ItemsKeyed(next: nat, items: Items, feedIDs: set<string>, docIDs: set<string>) {
    && items.Keys <= feedIDs
    && forall f, i | HasItem(items, f, i) ::
         var item := items[f][i];
         item.id == i && item.feedID == f && item.documentID in docIDs && Known(next, i) && CleanItem(item)
  }

  ghost predicate Apart(items: Items, f: string, i: string, j: string) {
    HasItem(items, f, i) && HasItem(items, f, j) && i != j ==> !DuplicateItem(items[f][i], items[f][j])
  }

  /** Items of one feed share none of the four keys. */
  ghost predicate ItemsApart(items: Items) {
    forall f, i, j :: Apart(items, f, i, j)
  }

  ghost predicate LinkedApart(items: Items, f: string, i: string, g: string, j: string) {
    HasItem(items, f, i) && HasItem(items, g, j) && items[f][i].documentID == items[g][j].documentID
    ==> f == g && i == j
  }

  /** Across all feeds, no two items are linked to one document. */
  ghost predicate LinksUnique(items: Items) {
    forall f, i, g, j :: LinkedApart(items, f, i, g, j)
  }

  ghost predicate ItemsInv(next: nat, items: Items, feedIDs: set<string>, docIDs: set<string>) {
    ItemsKeyed(next, items, feedIDs, docIDs) && ItemsApart(items) && LinksUnique(items)
  }

  datatype Part = FoldersPart | DocumentsPart | VersionsPart | TagsPart | FeedsPart | ItemsPart

  /** One part of the invariant. */
  ghost predicate Sound(s: State, part: Part) {
    match part
    case FoldersPart => FolderInv(s.next, s.folders)
    case DocumentsPart => DocumentsInv(s.next, s.docs, s.folders.Keys, s.tags.Keys)
    case VersionsPart => VersionsInv(s.versions, s.docs.Keys)
    case TagsPart => TagsInv(s.next, s.tags, s.tagSlugs)
    case FeedsPart => FeedsInv(s.next, s.feeds, s.feedURLs, s.folders.Keys)
    case ItemsPart => ItemsInv(s.next, s.items, s.feeds.Keys, s.docs.Keys)
  }

  /** What every reachable state satisfies: folders form a forest, references are closed, the
      two indexes are exact inverses, keys are unique. */
  ghost predicate Inv(s: State) {
    forall part: Part :: Sound(s, part)
  }

  lemma EmptyInv()
    ensures Inv(EMPTY)
  {
    EmptyForest();
    forall part: Part ensures Sound(EMPTY, part) {
    }
  }

  // ----- The parts, one at a time -----

  lemma FoldersSound(s: State)
    requires Inv(s)
    ensures FolderInv(s.next, s.folders) && "" !in s.folders
  {
    assert Sound(s, FoldersPart);
  }

  lemma DocumentsSound(s: State)
    requires Inv(s)
    ensures DocumentsInv(s.next, s.docs, s.folders.Keys, s.tags.Keys)
  {
    assert Sound(s, DocumentsPart);
  }

  lemma VersionsSound(s: State)
    requires Inv(s)
    ensures VersionsInv(s.versions, s.docs.Keys)
  {
    assert Sound(s, VersionsPart);
  }

  lemma TagsSound(s: State)
    requires Inv(s)
    ensures TagsInv(s.next, s.tags, s.tagSlugs)
  {
    assert Sound(s, TagsPart);
  }

  lemma FeedsSound(s: State)
    requires Inv(s)
    ensures FeedsInv(s.next, s.feeds, s.feedURLs, s.folders.Keys)
  {
    assert Sound(s, FeedsPart);
  }

  lemma ItemsSound(s: State)
    requires Inv(s)
    ensures ItemsInv(s.next, s.items, s.feeds.Keys, s.docs.Keys)
  {
    assert Sound(s, ItemsPart);
  }

  // ----- Replacing one table -----

  lemma DocumentsGrow(next: nat, next': nat, docs: map<string, Document>, folderIDs: set<string>,
                      folderIDs': set<string>,
                      tagIDs: set<string>, tagIDs': set<string>)
    requires next <= next' && folderIDs <= folderIDs' && tagIDs <= tagIDs'
    requires DocumentsInv(next, docs, folderIDs, tagIDs)
    ensures DocumentsInv(next', docs, folderIDs', tagIDs')
  {
    forall d | d in docs ensures DocumentInv(next', d, docs[d], folderIDs', tagIDs') {
      assert DocumentInv(next, d, docs[d], folderIDs, tagIDs);
    }
  }

  lemma ItemsGrow(next: nat, next': nat, items: Items, feedIDs: set<string>, feedIDs': set<string>,
                  docIDs: set<string>, docIDs': set<string>)
    requires next <= next' && feedIDs <= feedIDs' && docIDs <= docIDs'
    requires ItemsInv(next, items, feedIDs, docIDs)
    ensures ItemsInv(next', items, feedIDs', docIDs')
  {
  }

  /** A larger counter and a sound folder table that still holds every folder. */
  lemma FoldersReplaced(s: State, next': nat, folders': Folders)
    requires Inv(s) && s.next <= next' && s.folders.Keys <= folders'.Keys && FolderInv(next', folders')
    ensures Inv(s.(next := next', folders := folders'))
  {
    var s' := s.(next := next', folders := folders');
    forall part: Part ensures Sound(s', part) {
      assert Sound(s, part);
      match part {
        case DocumentsPart =>
          DocumentsGrow(s.next, next', s.docs, s.folders.Keys, folders'.Keys, s.tags.Keys, s.tags.Keys);
        case ItemsPart =>
          ItemsGrow(s.next, next', s.items, s.feeds.Keys, s.feeds.Keys, s.docs.Keys, s.docs.Keys);
        case _ =>
      }
    }
  }

  lemma DocumentsReplaced(s: State, docs': map<string, Document>)
    requires Inv(s) && s.docs.Keys <= docs'.Keys
    requires DocumentsInv(s.next, docs', s.folders.Keys, s.tags.Keys)
    ensures Inv(s.(docs := docs'))
  {
    var s' := s.(docs := docs');
    forall part: Part ensures Sound(s', part) {
      assert Sound(s, part);
      if part.ItemsPart? {
        ItemsGrow(s.next, s.next, s.items, s.feeds.Keys, s.feeds.Keys, s.docs.Keys, docs'.Keys);
      }
    }
  }

  lemma FeedsReplaced(s: State, feeds': map<string, Feed>, urls': map<string, string>)
    requires Inv(s) && s.feeds.Keys <= feeds'.Keys
    requires FeedsInv(s.next, feeds', urls', s.folders.Keys)
    ensures Inv(s.(feeds := feeds', feedURLs := urls'))
  {
    var s' := s.(feeds := feeds', feedURLs := urls');
    forall part: Part ensures Sound(s', part) {
      assert Sound(s, part);
      if part.ItemsPart? {
        ItemsGrow(s.next, s.next, s.items, s.feeds.Keys, feeds'.Keys, s.docs.Keys, s.docs.Keys);
      }
    }
  }

  lemma ItemsReplaced(s: State, items': Items)
    requires Inv(s) && ItemsInv(s.next, items', s.feeds.Keys, s.docs.Keys)
    ensures Inv(s.(items := items'))
  {
    var s' := s.(items := items');
    forall part: Part ensures Sound(s', part) {
      assert Sound(s, part);
    }
  }

  lemma VersionsReplaced(s: State, versions': map<string, seq<Version>>)
    requires Inv(s) && VersionsInv(versions', s.docs.Keys)
    ensures Inv(s.(versions := versions'))
  {
    var s' := s.(versions := versions');
    forall part: Part ensures Sound(s', part) {
      assert Sound(s, part);
    }
  }

  lemma DrawKeepsInv(s: State)
    requires Inv(s)
    ensures Inv(Drawn(s))
  {
    FoldersSound(s);
    assert FolderInv(s.next + 1, s.folders);
    FoldersReplaced(s, s.next + 1, s.folders);
    assert Drawn(s) == s.(next := s.next + 1, folders := s.folders);
  }

  /** Storing a sound document. */
  lemma DocumentKeepsInv(s: State, d: Document)
    requires Inv(s) && DocumentInv(s.next, d.meta.id, d, s.folders.Keys, s.tags.Keys)
    ensures Inv(WithDocument(s, d))
  {
    DocumentsSound(s);
    var docs' := s.docs[d.meta.id := d];
    forall x | x in docs' ensures DocumentInv(s.next, x, docs'[x], s.folders.Keys, s.tags.Keys) {
    }
    DocumentsReplaced(s, docs');
  }

  /** `FeedItemByDocumentID` scans the maps in arbitrary order; there is only one answer. */
  lemma ItemByDocumentUnique(s: State, documentID: string, f: string, i: string, g: string, j: string)
    requires Inv(s) && HasItem(s.items, f, i) && HasItem(s.items, g, j)
    requires s.items[f][i].documentID == documentID == s.items[g][j].documentID
    ensures s.items[f][i] == s.items[g][j]
  {
    ItemsSound(s);
    assert LinkedApart(s.items, f, i, g, j);
  }
}
