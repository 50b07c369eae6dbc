/** Pages of a listing: where a cursor starts, what a page holds, and that following the cursors
    tiles the listing. */
module Paging {
  import opened Prelude
  import opened Entities
  import opened FolderGraph
  import opened FolderForest
  import opened Library
  import opened FeedImport
  import opened DocumentSearch
  import Base64
  import Sorting

  datatype Page = Page(ids: seq<string>, next: Option<string>)

  ghost predicate ByteIDs(ids: seq<string>) {
    forall k | 0 <= k < |ids| :: Base64.IsBytes(ids[k])
  }

  // ----- One page -----

  function IndexOf(ids: seq<string>, id: string): (k: nat)
    ensures k <= |ids| && (k < |ids| ==> ids[k] == id) && forall i | 0 <= i < k :: ids[i] != id
  {
    if ids == [] || ids[0] == id then 0 else 1 + IndexOf(ids[1..], id)
  }

  /** `decodeDocumentCursor`. */
  function DecodedCursor(cursor: string): (id: Result<string>) {
    match Base64.Decode(cursor)
    case None => Err(Validation("cursor is invalid"))
    case Some(id) => if id == "" then Err(Validation("cursor is invalid")) else Ok(id)
  }

  /** `documentCursorStart`: right behind the document the cursor names. */
  function CursorStart(ids: seq<string>, cursor: string): (start: Result<nat>)
    ensures start.Ok? ==> start.value <= |ids|
  {
    if cursor == "" then Ok(0)
    else
      var id :- DecodedCursor(cursor);
      var k := IndexOf(ids, id);
      if k < |ids| then Ok(k + 1) else Err(Validation("cursor is invalid"))
  }

  /** A cursor is good exactly if it is empty or decodes to a listed identifier; the page starts behind it. */
  lemma CursorOutcome(ids: seq<string>, cursor: string)
    requires Sorting.Distinct(ids)
    ensures var start, id := CursorStart(ids, cursor), Base64.Decode(cursor);
            if cursor == "" then start == Ok(0)
            else if id.None? || id.value == "" || id.value !in ids then start == Err(Validation("cursor is invalid"))
            else start.Ok? && start.value >= 1 && ids[start.value - 1] == id.value
  {
  }

  function Least(a: nat, b: nat): (m: nat) {
    if a < b then a else b
  }

  /** The cursor that leads on from position `end`, unless that is the end of the listing. */
  function NextCursor(ids: seq<string>, end: nat): (next: Option<string>)
    requires end <= |ids| && forall k | 0 <= k < |ids| :: Base64.IsBytes(ids[k])
    requires end < |ids| ==> end > 0
  {
    if end < |ids| then Some(Base64.Encode(ids[end - 1])) else None
  }

  /** The page from `start` on, with a cursor unless it is the last. */
  function PageFrom(ids: seq<string>, start: nat, limit: nat): (page: Page)
    requires start <= |ids| && limit >= 1 && forall k | 0 <= k < |ids| :: Base64.IsBytes(ids[k])
  {
    var end := Least(start + limit, |ids|);
    Page(ids[start..end], NextCursor(ids, end))
  }

  function PageAt(ids: seq<string>, cursor: string, limit: nat): (page: Result<Page>)
    requires limit >= 1 && forall k | 0 <= k < |ids| :: Base64.IsBytes(ids[k])
  {
    var start :- CursorStart(ids, cursor);
    Ok(PageFrom(ids, start, limit))
  }

  /** The cursor a page hands out leads right behind its last document. */
  lemma CursorLeadsOn(ids: seq<string>, end: nat)
    requires ByteIDs(ids) && Sorting.Distinct(ids) && "" !in ids && 1 <= end <= |ids|
    ensures Base64.Encode(ids[end - 1]) != "" && CursorStart(ids, Base64.Encode(ids[end - 1])) == Ok(end)
  {
    var id := ids[end - 1];
    assert id in ids;
    Base64.RoundTrip(id);
    Base64.EncodeGivesLetters(id);
    var k := IndexOf(ids, id);
    assert k == end - 1;
  }

  /** `sliceDocumentIDPage`: given the rows behind the cursor, cut off one row past the limit, it
      returns the same page. */
  function SlicedPage(rows: seq<string>, limit: nat): (page: Page)
    requires limit >= 1 && forall k | 0 <= k < |rows| :: Base64.IsBytes(rows[k])
  {
    var end := Least(limit, |rows|);
    Page(rows[..end], if end < |rows| then Some(Base64.Encode(rows[end - 1])) else None)
  }

  lemma SliceOfSlice(ids: seq<string>, start: nat, stop: nat, end: nat)
    requires start + end <= stop <= |ids|
    ensures ids[start..stop][..end] == ids[start..start + end]
  {
  }

  lemma LimitPlusOneAgrees(ids: seq<string>, start: nat, limit: nat)
    requires start <= |ids| && limit >= 1 && ByteIDs(ids)
    ensures var rows := ids[start..Least(start + limit + 1, |ids|)];
            && ByteIDs(rows)
            && SlicedPage(rows, limit) == PageFrom(ids, start, limit)
  {
    var stop := Least(start + limit + 1, |ids|);
    var rows := ids[start..stop];
    var end := Least(limit, |rows|);
    assert |rows| == stop - start && start + end <= stop;
    SliceOfSlice(ids, start, stop, end);
  }

  // ----- Following the cursors -----

  ghost predicate ByteKeys(s: State) {
    "" !in s.docs && forall d | d in s.docs :: Base64.IsBytes(d)
  }

  /** `listDocumentIDsFromRecords`. */
  ghost function ListedPage(env: Env, s: State, f: Filters, records: seq<Document>): (r: Result<Page>)
    requires Enumerates(s, records) && ByteKeys(s)
  {
    var normal :- NormalizedFilters(env, f);
    ListingIsExact(env, s, normal, records);
    PageAt(IDs(Listing(env, s, normal, records)), normal.cursor, normal.limit)
  }

  datatype Progress = Progress(ids: seq<string>, next: Option<string>)

  /** The client that starts without a cursor and follows `nextCursor`: what it has after asking
      once for each of `orders`, the orders in which the map happened to yield the documents. */
  ghost function Followed(env: Env, s: State, f: Filters, orders: seq<seq<Document>>): (r: Result<Progress>)
    requires ByteKeys(s) && forall k | 0 <= k < |orders| :: Enumerates(s, orders[k])
  {
    if orders == [] then Ok(Progress([], Some("")))
    else
      var before :- Followed(env, s, f, orders[..|orders| - 1]);
      match before.next
      case None => Ok(before)
      case Some(cursor) =>
        var page :- ListedPage(env, s, f.(cursor := cursor), orders[|orders| - 1]);
        Ok(Progress(before.ids + page.ids, page.next))
  }

  /** How far `n` pages reach. */
  function Reached(total: nat, limit: nat, n: nat): (r: nat)
    ensures r <= total
  {
    if n == 0 then 0 else Least(Reached(total, limit, n - 1) + limit, total)
  }

  lemma {:induction false} ReachesEnd(total: nat, limit: nat, n: nat)
    requires limit >= 1
    ensures Reached(total, limit, n) >= Least(n, total)
    ensures n > 0 && Reached(total, limit, n) == 0 ==> total == 0
  {
    if n > 0 {
      ReachesEnd(total, limit, n - 1);
    }
  }

  ghost predicate Tiled(ids: seq<string>, limit: nat, n: nat, p: Progress)
    requires limit >= 1 && ByteIDs(ids)
  {
    var k := Reached(|ids|, limit, n);
    && p.ids == ids[..k]
    && (if n == 0 then p.next == Some("") else (k == 0 ==> |ids| == 0) && p.next == NextCursor(ids, k))
  }

  lemma StartsAtReach(ids: seq<string>, limit: nat, n: nat, p: Progress, cursor: string)
    requires limit >= 1 && ByteIDs(ids) && Sorting.Distinct(ids) && "" !in ids
    requires Tiled(ids, limit, n, p) && p.next == Some(cursor)
    ensures CursorStart(ids, cursor) == Ok(Reached(|ids|, limit, n))
  {
    if n > 0 {
      ReachesEnd(|ids|, limit, n);
      CursorLeadsOn(ids, Reached(|ids|, limit, n));
    }
  }

  lemma PageFromTiles(ids: seq<string>, limit: nat, n: nat)
    requires limit >= 1 && ByteIDs(ids)
    ensures var k := Reached(|ids|, limit, n);
            var page := PageFrom(ids, k, limit);
            Tiled(ids, limit, n + 1, Progress(ids[..k] + page.ids, page.next))
  {
    var k := Reached(|ids|, limit, n);
    var end := Least(k + limit, |ids|);
    assert ids[..k] + ids[k..end] == ids[..end];
    assert Reached(|ids|, limit, n + 1) == end && PageFrom(ids, k, limit).ids == ids[k..end];
  }

  lemma PageTiles(ids: seq<string>, limit: nat, n: nat, p: Progress, cursor: string)
    requires limit >= 1 && ByteIDs(ids) && Sorting.Distinct(ids) && "" !in ids
    requires Tiled(ids, limit, n, p) && p.next == Some(cursor)
    ensures PageAt(ids, cursor, limit).Ok?
    ensures var page := PageAt(ids, cursor, limit).value;
            Tiled(ids, limit, n + 1, Progress(p.ids + page.ids, page.next))
  {
    StartsAtReach(ids, limit, n, p, cursor);
    PageFromTiles(ids, limit, n);
  }

  lemma OrderIsFree(env: Env, s: State, f: Filters, a: seq<Document>, b: seq<Document>)
    requires Enumerates(s, a) && Enumerates(s, b) && ByteKeys(s)
    ensures ListedPage(env, s, f, a) == ListedPage(env, s, f, b)
  {
    var normal := NormalizedFilters(env, f);
    if normal.Ok? {
      ListingIgnoresMapOrder(env, s, normal.value, a, b);
    }
  }

  lemma ListingIgnoresCursor(env: Env, s: State, f: Filters, cursor: string, records: seq<Document>)
    requires NormalizedFilters(env, f).Ok?
    ensures NormalizedFilters(env, f.(cursor := cursor)) == Ok(NormalizedFilters(env, f).value.(cursor := cursor))
    ensures Listing(env, s, NormalizedFilters(env, f).value.(cursor := cursor), records)
         == Listing(env, s, NormalizedFilters(env, f).value, records)
  {
    HitsIgnoreCursor(env, s, NormalizedFilters(env, f).value, cursor, records);
  }

  lemma {:induction false} HitsIgnoreCursor(env: Env, s: State, f: Filters, cursor: string, records: seq<Document>)
    ensures Hits(env, s, f.(cursor := cursor), records) == Hits(env, s, f, records)
  {
    if records != [] {
      var d := records[|records| - 1];
      HitsIgnoreCursor(env, s, f, cursor, records[..|records| - 1]);
      assert FilterFolders(s.folders, f.(cursor := cursor)) == FilterFolders(s.folders, f);
    }
  }

  lemma FollowOnce(env: Env, s: State, f: Filters, n: nat, before: Progress, last: seq<Document>,
                   records: seq<Document>)
    requires ByteKeys(s) && NormalizedFilters(env, f).Ok? && Enumerates(s, records) && Enumerates(s, last)
    requires ByteIDs(IDs(Listing(env, s, NormalizedFilters(env, f).value, records)))
    requires before.next.Some?
    requires Tiled(IDs(Listing(env, s, NormalizedFilters(env, f).value, records)),
                   NormalizedFilters(env, f).value.limit, n, before)
    ensures ListedPage(env, s, f.(cursor := before.next.value), last).Ok?
    ensures var page := ListedPage(env, s, f.(cursor := before.next.value), last).value;
            Tiled(IDs(Listing(env, s, NormalizedFilters(env, f).value, records)),
                  NormalizedFilters(env, f).value.limit, n + 1,
                  Progress(before.ids + page.ids, page.next))
  {
    ListingIsExact(env, s, NormalizedFilters(env, f).value, records);
    OrderIsFree(env, s, f.(cursor := before.next.value), last, records);
    ListingIgnoresCursor(env, s, f, before.next.value, records);
    PageTiles(IDs(Listing(env, s, NormalizedFilters(env, f).value, records)), NormalizedFilters(env, f).value.limit, n,
              before, before.next.value);
  }

  /** No request failed; what the client has is the first pages of the listing, one for each request,
      and all of it once it was told to stop. */
  ghost predicate HasPages(ids: seq<string>, limit: nat, n: nat, got: Result<Progress>) {
    && limit >= 1 && ByteIDs(ids) && got.Ok?
    && (got.value.next.Some? ==> Tiled(ids, limit, n, got.value))
    && (got.value.next.None? ==> got.value.ids == ids)
  }

  lemma Requested(env: Env, s: State, f: Filters, front: seq<seq<Document>>, last: seq<Document>, before: Progress)
      returns (got: Result<Progress>)
    requires ByteKeys(s) && Enumerates(s, last) && forall k | 0 <= k < |front| :: Enumerates(s, front[k])
    requires Followed(env, s, f, front) == Ok(before)
    ensures Followed(env, s, f, front + [last]) == got
    ensures if before.next.None? then got == Ok(before)
            else match ListedPage(env, s, f.(cursor := before.next.value), last)
                 case Err(e) => got == Err(e)
                 case Ok(page) => got == Ok(Progress(before.ids + page.ids, page.next))
  {
    assert (front + [last])[..|front|] == front;
    got := Followed(env, s, f, front + [last]);
  }

  lemma OneMoreRequest(env: Env, s: State, f: Filters, front: seq<seq<Document>>, last: seq<Document>,
                       records: seq<Document>, ids: seq<string>)
    requires ByteKeys(s) && NormalizedFilters(env, f).Ok? && Enumerates(s, records) && Enumerates(s, last)
    requires forall k | 0 <= k < |front| :: Enumerates(s, front[k])
    requires ids == IDs(Listing(env, s, NormalizedFilters(env, f).value, records))
    requires HasPages(ids, NormalizedFilters(env, f).value.limit, |front|, Followed(env, s, f, front))
    ensures HasPages(ids, NormalizedFilters(env, f).value.limit, |front| + 1, Followed(env, s, f, front + [last]))
  {
    var before := Followed(env, s, f, front).value;
    var got := Requested(env, s, f, front, last, before);
    if before.next.Some? {
      FollowOnce(env, s, f, |front|, before, last, records);
    }
  }

  /** Following `nextCursor` over an unchanged store, whatever the order of the map at each request:
      no request fails, and after n of them the client has exactly the first n pages of the listing
      in order; it is told to stop exactly when it has everything. */
  lemma {:induction false} PagesTileTheListing(env: Env, s: State, f: Filters, orders: seq<seq<Document>>,
                                               records: seq<Document>)
    requires ByteKeys(s) && NormalizedFilters(env, f).Ok? && Enumerates(s, records)
    requires forall k | 0 <= k < |orders| :: Enumerates(s, orders[k])
    ensures HasPages(IDs(Listing(env, s, NormalizedFilters(env, f).value, records)),
                     NormalizedFilters(env, f).value.limit,
                     |orders|, Followed(env, s, f, orders))
  {
    ListingIsExact(env, s, NormalizedFilters(env, f).value, records);
    if orders != [] {
      var front, last := orders[..|orders| - 1], orders[|orders| - 1];
      assert orders == front + [last];
      PagesTileTheListing(env, s, f, front, records);
      OneMoreRequest(env, s, f, front, last, records, IDs(Listing(env, s, NormalizedFilters(env, f).value, records)));
    }
  }

  /** The client is done after at most one request for each listed document, and at least one. */
  lemma FollowingEnds(env: Env, s: State, f: Filters, orders: seq<seq<Document>>, records: seq<Document>)
    requires ByteKeys(s) && NormalizedFilters(env, f).Ok? && Enumerates(s, records)
    requires forall k | 0 <= k < |orders| :: Enumerates(s, orders[k])
    requires |orders| >= 1 && |orders| >= |Listing(env, s, NormalizedFilters(env, f).value, records)|
    ensures Followed(env, s, f, orders) == Ok(Progress(IDs(Listing(env, s, NormalizedFilters(env, f).value, records)),
                                                       None))
  {
    var normal := NormalizedFilters(env, f).value;
    PagesTileTheListing(env, s, f, orders, records);
    ReachesEnd(|Listing(env, s, normal, records)|, normal.limit, |orders|);
  }

  // ----- The loops -----

  lemma FirstIndex(ids: seq<string>, id: string, k: nat)
    requires k <= |ids| && (k < |ids| ==> ids[k] == id) && forall i | 0 <= i < k :: ids[i] != id
    ensures IndexOf(ids, id) == k
  {
    var f := IndexOf(ids, id);
    assert f >= k;
  }

  /** `documentCursorStart`, and the search of `sliceDocumentIDsByCursor`. */
  method FindStart(ids: seq<string>, cursor: string) returns (start: Result<nat>)
    ensures start == CursorStart(ids, cursor)
  {
    if cursor == "" {
      return Ok(0);
    }
    var id := DecodedCursor(cursor);
    if id.Err? {
      return Err(id.error);
    }
    for index := 0 to |ids|
      invariant forall i | 0 <= i < index :: ids[i] != id.value
    {
      if ids[index] == id.value {
        FirstIndex(ids, id.value, index);
        return Ok(index + 1);
      }
    }
    FirstIndex(ids, id.value, |ids|);
    return Err(Validation("cursor is invalid"));
  }

  /** `sliceDocumentIDsByCursor`. */
  method SliceIDsByCursor(ids: seq<string>, cursor: string, limit: nat) returns (r: Result<Page>)
    requires limit >= 1 && forall k | 0 <= k < |ids| :: Base64.IsBytes(ids[k])
    ensures r == PageAt(ids, cursor, limit)
  {
    var start := FindStart(ids, cursor);
    if start.Err? {
      return Err(start.error);
    }
    var end := start.value + limit;
    if end > |ids| {
      end := |ids|;
    }
    var next: Option<string> := None;
    if end < |ids| {
      next := Some(Base64.Encode(ids[end - 1]));
    }
    return Ok(Page(ids[start.value..end], next));
  }

  /** `listDocumentIDsFromRecords`. */
  method ListDocumentIDs(env: Env, folders: Folders, tags: map<string, Tag>, f: Filters, records: seq<Document>,
                         order: seq<string>, ghost s: State)
      returns (r: Result<Page>)
    requires folders == s.folders && tags == s.tags && forall x :: x in folders <==> x in order
    requires Enumerates(s, records) && ByteKeys(s)
    ensures r == ListedPage(env, s, f, records)
  {
    var filters := NormalizedFilters(env, f);
    if filters.Err? {
      return Err(filters.error);
    }
    var hits, count := CollectHits(env, folders, tags, filters.value, records, order, s);
    ListingIsExact(env, s, filters.value, records);
    var ids := IDs(Sorting.Sort(Order(filters.value.sort), hits));
    r := SliceIDsByCursor(ids, filters.value.cursor, filters.value.limit);
  }

  /** `countDocumentRecords`: as many as the listing has, whatever the order of the map. */
  method CountDocuments(env: Env, folders: Folders, tags: map<string, Tag>, f: Filters, records: seq<Document>,
                        order: seq<string>, ghost s: State)
      returns (r: Result<nat>)
    requires folders == s.folders && tags == s.tags && forall x :: x in folders <==> x in order
    requires Enumerates(s, records)
    ensures match NormalizedFilters(env, f)
            case Err(e) => r == Err(e)
            case Ok(normal) => r == Ok(|Listing(env, s, normal, records)|)
  {
    var filters := NormalizedFilters(env, f);
    if filters.Err? {
      return Err(filters.error);
    }
    var hits, count := CollectHits(env, folders, tags, filters.value, records, order, s);
    return Ok(count);
  }
}
