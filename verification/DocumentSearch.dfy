/** Listing documents: filters, search score, the four sort orders, and pages with a cursor. */
module DocumentSearch {
  import opened Prelude
  import opened Entities
  import opened FolderGraph
  import opened FolderForest
  import opened Library
  import opened FeedImport
  import opened Base64
  import DocumentOps
  import Sorting
  import Text

  const SORT_RELEVANCE := "relevance"
  const SORT_RECENT := "recent"
  const SORT_CREATED := "created_desc"
  const SORT_RATING := "rating_desc"

  datatype Filters = Filters(
    query: string, status: string, folderID: string, includeDescendants: bool, tag: string, ratingMin: int,
    kind: string, sort: string, includeDeleted: bool, includeTrash: bool, limit: int, cursor: string)

  /** `normalizeDocumentFilters`. */
  function NormalizedFilters(env: Env, f: Filters): (r: Result<Filters>)
    ensures r.Ok? ==> 1 <= r.value.limit <= 100 && r.value.cursor == f.cursor
    ensures r.Ok? && 1 <= f.limit <= 100 ==> r.value.limit == f.limit
  {
    var query, sort := env.trim(f.query), env.trim(f.sort);
    if |query| > 256 then Err(Validation("query must be at most 256 characters"))
    else
      var limit := if f.limit <= 0 || f.limit > 100 then 50 else f.limit;
      var chosen := if sort != "" then sort else if query == "" then SORT_RECENT else SORT_RELEVANCE;
      if chosen == SORT_RELEVANCE && query == "" then Err(Validation("relevance sort requires query"))
      else if chosen !in {SORT_RELEVANCE, SORT_RECENT, SORT_CREATED, SORT_RATING}
          then Err(Validation("sort is invalid"))
      else Ok(f.(query := query, sort := chosen, limit := limit))
  }

  // ----- Which documents -----

  /** `documentFolderFilterIDs`: no folder filter is the empty set. */
  ghost function FilterFolders(folders: Folders, f: Filters): (ids: set<string>) {
    if f.folderID == "" then {}
    else if f.includeDescendants then Descendants(folders, f.folderID)
    else {f.folderID}
  }

  predicate HasTagSlug(tags: map<string, Tag>, ids: seq<string>, slug: string) {
    exists k | 0 <= k < |ids| :: ids[k] in tags && tags[ids[k]].slug == slug
  }

  predicate InTrash(folders: Folders, meta: Metadata) {
    meta.folderID.Some? && HasRoleAncestor(folders, meta.folderID.value, ROLE_TRASH)
  }

  /** `matchesDocumentFiltersWithFolders`. */
  predicate Matches(folders: Folders, tags: map<string, Tag>, d: Document, f: Filters, folderIDs: set<string>) {
    && (f.includeDeleted || d.meta.deletedAt.None?)
    && (f.includeTrash || f.folderID != "" || !InTrash(folders, d.meta))
    && (f.status == "" || d.meta.status == f.status)
    && (folderIDs == {} || (d.meta.folderID.Some? && d.meta.folderID.value in folderIDs))
    && (f.kind == "" || d.meta.kind == f.kind)
    && (f.ratingMin <= 0 || (d.meta.rating.Some? && d.meta.rating.value >= f.ratingMin))
    && (f.tag == "" || HasTagSlug(tags, d.tagIDs, f.tag))
  }

  predicate OccursAt(text: string, part: string, i: nat) {
    i + |part| <= |text| && text[i..i + |part|] == part
  }

  predicate Contains(text: string, part: string) {
    exists i | 0 <= i <= |text| :: OccursAt(text, part, i)
  }

  function SearchBody(contents: seq<Content>): (body: string) {
    if contents == [] then "" else SearchBody(contents[..|contents| - 1]) + contents[|contents| - 1].body + "\n"
  }

  function TokenScore(title: string, body: string, token: string): (n: nat) {
    (if Contains(title, token) then 100 else 0) + (if Contains(body, token) then 10 else 0)
  }

  function Score(title: string, body: string, tokens: seq<string>): (n: Option<nat>) {
    if tokens == [] then Some(0)
    else
      var last := TokenScore(title, body, tokens[|tokens| - 1]);
      match Score(title, body, tokens[..|tokens| - 1])
      case Some(before) => if last == 0 then None else Some(before + last)
      case None => None
  }

  /** A search finds exactly the texts in which every token occurs, and each token adds to the score. */
  lemma {:induction false} FoundWhenEveryTokenOccurs(title: string, body: string, tokens: seq<string>)
    ensures Score(title, body, tokens).Some? <==>
            forall k | 0 <= k < |tokens| :: Contains(title, tokens[k]) || Contains(body, tokens[k])
    ensures Score(title, body, tokens).Some? ==> 10 * |tokens| <= Score(title, body, tokens).value <= 110 * |tokens|
  {
    if tokens != [] {
      FoundWhenEveryTokenOccurs(title, body, tokens[..|tokens| - 1]);
    }
  }

  /** `documentSearchScore`: every token must occur in title or body. */
  function DocumentScore(env: Env, d: Document, query: string): (n: Option<nat>) {
    Score(env.lower(d.meta.title), env.lower(SearchBody(d.contents)), env.words(env.lower(query)))
  }

  /** The document passes the filters and the search. */
  ghost predicate Wanted(env: Env, s: State, f: Filters, d: Document) {
    Matches(s.folders, s.tags, d, f, FilterFolders(s.folders, f)) && DocumentScore(env, d, f.query).Some?
  }

  datatype Entry = Entry(record: Document, score: nat)

  ghost function EntryOf(env: Env, f: Filters, d: Document): (e: Entry)
    requires DocumentScore(env, d, f.query).Some?
  {
    Entry(d, DocumentScore(env, d, f.query).value)
  }

  /** The filtering loop. */
  ghost function Hits(env: Env, s: State, f: Filters, records: seq<Document>): (entries: seq<Entry>) {
    if records == [] then []
    else
      var d := records[|records| - 1];
      Hits(env, s, f, records[..|records| - 1]) + if Wanted(env, s, f, d) then [EntryOf(env, f, d)] else []
  }

  // ----- In which order -----

  function Rating(d: Document): (n: int) {
    if d.meta.rating.Some? then d.meta.rating.value else 0
  }

  /** `newerDocument`. */
  predicate Newer(a: Document, b: Document) {
    if a.meta.updatedAt != b.meta.updatedAt then a.meta.updatedAt > b.meta.updatedAt
    else if a.meta.createdAt != b.meta.createdAt then a.meta.createdAt > b.meta.createdAt
    else Text.Before(b.meta.id, a.meta.id)
  }

  /** The comparison of `sortDocumentEntries`. */
  predicate Precedes(sort: string, a: Entry, b: Entry) {
    if sort == SORT_RELEVANCE && a.score != b.score then a.score > b.score
    else if sort == SORT_CREATED then
      if a.record.meta.createdAt != b.record.meta.createdAt then a.record.meta.createdAt > b.record.meta.createdAt
      else Text.Before(b.record.meta.id, a.record.meta.id)
    else if sort == SORT_RATING && Rating(a.record) != Rating(b.record) then Rating(a.record) > Rating(b.record)
    else Newer(a.record, b.record)
  }

  /** Later changed first, then later created, then by descending identifier. */
  predicate MoreRecent(a: Metadata, b: Metadata) {
    || a.updatedAt > b.updatedAt
    || (a.updatedAt == b.updatedAt && a.createdAt > b.createdAt)
    || (a.updatedAt == b.updatedAt && a.createdAt == b.createdAt && Text.Before(b.id, a.id))
  }

  /** The rating that counts, none being zero. */
  function Stars(m: Metadata): (n: int) {
    match m.rating case None => 0 case Some(n) => n
  }

  /** What stands earlier has the better score, was created later, has the better rating or was changed later,
      as the sort asks; among equals the more recent document stands first, or, of those created together,
      the one with the greater identifier. */
  predicate StandsBefore(sort: string, x: Entry, y: Entry) {
    var (a, b) := (x.record.meta, y.record.meta);
    match sort
    case "relevance" => x.score > y.score || (x.score == y.score && MoreRecent(a, b))
    case "created_desc" => a.createdAt > b.createdAt || (a.createdAt == b.createdAt && Text.Before(b.id, a.id))
    case "rating_desc" => Stars(a) > Stars(b) || (Stars(a) == Stars(b) && MoreRecent(a, b))
    case _ => MoreRecent(a, b)
  }

  lemma PrecedingStandsBefore(sort: string, x: Entry, y: Entry)
    ensures Precedes(sort, x, y) <==> StandsBefore(sort, x, y)
  {
  }

  function Order(sort: string): (less: (Entry, Entry) -> bool) {
    (a, b) => Precedes(sort, a, b)
  }

  ghost predicate Keyed(domain: set<Entry>) {
    forall a, b | a in domain && b in domain && a.record.meta.id == b.record.meta.id :: a == b
  }

  lemma PrecedesTransitive(sort: string, a: Entry, b: Entry, c: Entry)
    requires Precedes(sort, a, b) && Precedes(sort, b, c)
    ensures Precedes(sort, a, c)
  {
    if Text.Before(b.record.meta.id, a.record.meta.id) && Text.Before(c.record.meta.id, b.record.meta.id) {
      Text.BeforeTransitive(c.record.meta.id, b.record.meta.id, a.record.meta.id);
    }
  }

  /** Each of the four orders is the one its name says, and a strict total order on entries with distinct
      identifiers. */
  lemma OrderIsTotal(sort: string, domain: set<Entry>)
    requires Keyed(domain)
    ensures Sorting.StrictTotal(Order(sort), domain)
    ensures forall x, y :: Order(sort)(x, y) <==> StandsBefore(sort, x, y)
  {
    forall x, y ensures Order(sort)(x, y) <==> StandsBefore(sort, x, y) {
      PrecedingStandsBefore(sort, x, y);
    }
    var less := Order(sort);
    forall a, b | a in domain && b in domain ensures !less(a, a) && (a != b ==> less(a, b) || less(b, a)) {
      Text.BeforeTotal(a.record.meta.id, a.record.meta.id);
      Text.BeforeTotal(a.record.meta.id, b.record.meta.id);
    }
    forall a, b, c | a in domain && b in domain && c in domain && less(a, b) && less(b, c) ensures less(a, c) {
      PrecedesTransitive(sort, a, b, c);
    }
  }

  ghost function Listing(env: Env, s: State, f: Filters, records: seq<Document>): (entries: seq<Entry>) {
    Sorting.Sort(Order(f.sort), Hits(env, s, f, records))
  }

  /** The documents of the store in some order of the map, each once. */
  ghost predicate Enumerates(s: State, records: seq<Document>) {
    KeyedDocuments(s.docs) && DocumentsOf(s.docs, records) && Sorting.Distinct(records)
  }

  ghost function WantedEntries(env: Env, s: State, f: Filters): (entries: set<Entry>) {
    set d | d in s.docs && Wanted(env, s, f, s.docs[d]) :: EntryOf(env, f, s.docs[d])
  }

  lemma {:induction false} HitsAre(env: Env, s: State, f: Filters, records: seq<Document>)
    ensures forall e :: e in Hits(env, s, f, records) <==>
              e.record in records && Wanted(env, s, f, e.record) && e == EntryOf(env, f, e.record)
    ensures Sorting.Distinct(records) ==> Sorting.Distinct(Hits(env, s, f, records))
  {
    if records != [] {
      var front, d := records[..|records| - 1], records[|records| - 1];
      HitsAre(env, s, f, front);
      assert records == front + [d];
      if Sorting.Distinct(records) {
        assert d !in front;
      }
    }
  }

  lemma WantedIsKeyed(env: Env, s: State, f: Filters)
    requires KeyedDocuments(s.docs)
    ensures Keyed(WantedEntries(env, s, f))
  {
  }

  lemma HitsAreWanted(env: Env, s: State, f: Filters, records: seq<Document>)
    requires Enumerates(s, records)
    ensures Sorting.Elements(Hits(env, s, f, records)) == WantedEntries(env, s, f)
    ensures Sorting.Distinct(Hits(env, s, f, records))
  {
    HitsAre(env, s, f, records);
    forall e ensures e in Hits(env, s, f, records) <==> e in WantedEntries(env, s, f) {
      if e in Hits(env, s, f, records) {
        assert e.record.meta.id in s.docs && s.docs[e.record.meta.id] == e.record;
      }
    }
  }

  lemma ListingSorted(env: Env, s: State, f: Filters, records: seq<Document>)
    requires Enumerates(s, records)
    ensures Sorting.StrictTotal(Order(f.sort), WantedEntries(env, s, f))
    ensures Sorting.Sorted(Order(f.sort), Listing(env, s, f, records))
    ensures Sorting.Elements(Listing(env, s, f, records)) == WantedEntries(env, s, f)
    ensures |Listing(env, s, f, records)| == |Hits(env, s, f, records)|
  {
    HitsAreWanted(env, s, f, records);
    WantedIsKeyed(env, s, f);
    OrderIsTotal(f.sort, WantedEntries(env, s, f));
    Sorting.SortSorted(Order(f.sort), Hits(env, s, f, records), WantedEntries(env, s, f));
    Sorting.SameMembers(Listing(env, s, f, records), Hits(env, s, f, records));
  }

  /** The listing does not depend on the order in which the map yields the documents. */
  lemma ListingIgnoresMapOrder(env: Env, s: State, f: Filters, a: seq<Document>, b: seq<Document>)
    requires Enumerates(s, a) && Enumerates(s, b)
    ensures Listing(env, s, f, a) == Listing(env, s, f, b)
  {
    ListingSorted(env, s, f, a);
    ListingSorted(env, s, f, b);
    Sorting.SortedUnique(Order(f.sort), Listing(env, s, f, a), Listing(env, s, f, b), WantedEntries(env, s, f));
  }

  function IDs(entries: seq<Entry>): (ids: seq<string>)
    ensures |ids| == |entries| && forall k | 0 <= k < |ids| :: ids[k] == entries[k].record.meta.id
  {
    seq(|entries|, k requires 0 <= k < |entries| => entries[k].record.meta.id)
  }

  lemma ListingDistinct(env: Env, s: State, f: Filters, records: seq<Document>, entries: seq<Entry>)
    requires Enumerates(s, records) && entries == Listing(env, s, f, records)
    ensures Sorting.Distinct(IDs(entries))
    ensures forall i, j | 0 <= i < j < |entries| :: Precedes(f.sort, entries[i], entries[j])
  {
    ListingSorted(env, s, f, records);
    Sorting.SortedDistinct(Order(f.sort), entries, WantedEntries(env, s, f));
    WantedIsKeyed(env, s, f);
    var ids := IDs(entries);
    forall i, j | 0 <= i < j < |ids| ensures ids[i] != ids[j] {
      assert entries[i] in entries && entries[j] in entries;
    }
    forall i, j | 0 <= i < j < |entries| ensures Precedes(f.sort, entries[i], entries[j]) {
      assert Order(f.sort)(entries[i], entries[j]);
    }
  }

  lemma ListingComplete(env: Env, s: State, f: Filters, records: seq<Document>, entries: seq<Entry>, id: string)
    requires Enumerates(s, records) && entries == Listing(env, s, f, records)
    ensures id in IDs(entries) <==> id in s.docs && Wanted(env, s, f, s.docs[id])
  {
    ListingSorted(env, s, f, records);
    var ids := IDs(entries);
    if id in ids {
      var k :| 0 <= k < |ids| && ids[k] == id;
      assert entries[k] in entries;
    }
    if id in s.docs && Wanted(env, s, f, s.docs[id]) {
      var e := EntryOf(env, f, s.docs[id]);
      assert e in WantedEntries(env, s, f);
      var k :| 0 <= k < |entries| && entries[k] == e;
      assert ids[k] == id;
    }
  }

  /** The listing holds each wanted document exactly once, in the order asked for. */
  lemma ListingIsExact(env: Env, s: State, f: Filters, records: seq<Document>)
    requires Enumerates(s, records)
    ensures var ids := IDs(Listing(env, s, f, records));
            && Sorting.Distinct(ids)
            && (forall id :: id in ids <==> id in s.docs && Wanted(env, s, f, s.docs[id]))
            && (forall i, j | 0 <= i < j < |ids| ::
                StandsBefore(f.sort, Listing(env, s, f, records)[i], Listing(env, s, f, records)[j]))
  {
    var entries := Listing(env, s, f, records);
    ListingDistinct(env, s, f, records, entries);
    forall i, j | 0 <= i < j < |entries| ensures StandsBefore(f.sort, entries[i], entries[j]) {
      PrecedingStandsBefore(f.sort, entries[i], entries[j]);
    }
    forall id ensures id in IDs(entries) <==> id in s.docs && Wanted(env, s, f, s.docs[id]) {
      ListingComplete(env, s, f, records, entries, id);
    }
  }

  /** A document moved to Trash is gone from every listing that neither names a folder nor asks for
      Trash, whatever else the filters say. */
  lemma TrashedLeavesListings(env: Env, s: State, id: string, s': State, f: Filters)
    requires Inv(s) && DocumentOps.TrashDocumentSpec(env, s, id) == Ok(s')
    requires !f.includeTrash && f.folderID == ""
    ensures id in s'.docs && !Wanted(env, s', f, s'.docs[id])
  {
    DocumentOps.TrashedIsInTrash(env, s, id, s');
  }

  // ----- The loops -----

  /** `documentFolderFilterIDs`; `order` is the order in which the map yields the folders. */
  method FolderFilter(folders: Folders, f: Filters, order: seq<string>) returns (ids: set<string>)
    requires forall x :: x in folders <==> x in order
    ensures ids == FilterFolders(folders, f)
  {
    if f.folderID == "" {
      return {};
    }
    if !f.includeDescendants {
      return {f.folderID};
    }
    ids := FolderFilterIDs(folders, f.folderID, order);
  }

  lemma {:induction false} ScoreFails(title: string, body: string, tokens: seq<string>, k: nat)
    requires k <= |tokens| && Score(title, body, tokens[..k]).None?
    ensures Score(title, body, tokens).None?
  {
    if k == |tokens| {
      assert tokens[..k] == tokens;
    } else {
      assert tokens[..|tokens| - 1][..k] == tokens[..k];
      ScoreFails(title, body, tokens[..|tokens| - 1], k);
    }
  }

  /** `documentSearchScore`. */
  method ScoreDocument(env: Env, d: Document, query: string) returns (score: Option<nat>)
    ensures score == DocumentScore(env, d, query)
  {
    var title, body, tokens := env.lower(d.meta.title), env.lower(SearchBody(d.contents)), env.words(env.lower(query));
    var sum := 0;
    for i := 0 to |tokens|
      invariant Score(title, body, tokens[..i]) == Some(sum)
    {
      assert tokens[..i + 1][..i] == tokens[..i];
      var tokenScore := TokenScore(title, body, tokens[i]);
      if tokenScore == 0 {
        ScoreFails(title, body, tokens, i + 1);
        return None;
      }
      sum := sum + tokenScore;
    }
    assert tokens[..|tokens|] == tokens;
    return Some(sum);
  }

  /** The filtering loop of `listDocumentIDsFromRecords`, and of `countDocumentRecords`. */
  method CollectHits(env: Env, folders: Folders, tags: map<string, Tag>, f: Filters, records: seq<Document>,
                     order: seq<string>, ghost s: State)
      returns (entries: seq<Entry>, count: nat)
    requires folders == s.folders && tags == s.tags && forall x :: x in folders <==> x in order
    ensures entries == Hits(env, s, f, records) && count == |entries|
  {
    var folderIDs := FolderFilter(folders, f, order);
    entries, count := [], 0;
    for i := 0 to |records|
      invariant entries == Hits(env, s, f, records[..i]) && count == |entries|
    {
      assert records[..i + 1][..i] == records[..i];
      if Matches(folders, tags, records[i], f, folderIDs) {
        var score := ScoreDocument(env, records[i], f.query);
        if score.Some? {
          entries, count := entries + [Entry(records[i], score.value)], count + 1;
        }
      }
    }
    assert records[..|records|] == records;
  }
}
