/** Listing and counting documents on a transaction's state object. */
module SearchService {
  import opened Prelude
  import opened Entities
  import opened FolderGraph
  import opened Library
  import opened FeedImport
  import opened ImportProofs
  import opened DocumentSearch
  import opened Paging
  import opened Store

  /** The identifiers of the folders, in map order. */
  method FolderOrder(tx: Store) returns (order: seq<string>)
    requires tx.Valid()
    ensures forall x :: x in tx.view.folders <==> x in order
  {
    order := [];
    var rest := tx.FolderMap().Keys;
    while rest != {}
      invariant rest <= tx.FolderMap().Keys
      invariant forall x :: x in order <==> x in tx.FolderMap() && x !in rest
      decreases rest
    {
      var f :| f in rest;
      order, rest := order + [f], rest - {f};
    }
  }

  /** `ListDocuments`: the page is a function of the library alone; no map order shows in it. */
  method ListDocuments(tx: Store, env: Env, f: Filters) returns (r: Result<Page>)
    requires tx.Valid() && Inv(tx.view) && ByteKeys(tx.view)
    ensures forall records | Enumerates(tx.view, records) :: r == ListedPage(env, tx.view, f, records)
  {
    ghost var s := tx.view;
    DocumentsKeyed(s);
    var records := tx.Documents();
    var order := FolderOrder(tx);
    r := ListDocumentIDs(env, tx.FolderMap(), tx.TagMap(), f, records, order, s);
    forall other | Enumerates(s, other) ensures r == ListedPage(env, s, f, other) {
      OrderIsFree(env, s, f, records, other);
    }
  }

  /** `CountDocuments`: the length of the whole listing. */
  method CountAll(tx: Store, env: Env, f: Filters) returns (r: Result<nat>)
    requires tx.Valid() && Inv(tx.view)
    ensures match NormalizedFilters(env, f)
            case Err(e) => r == Err(e)
            case Ok(normal) => forall records | Enumerates(tx.view, records) ::
                 r == Ok(|Listing(env, tx.view, normal, records)|)
  {
    ghost var s := tx.view;
    DocumentsKeyed(s);
    var records := tx.Documents();
    var order := FolderOrder(tx);
    r := CountDocuments(env, tx.FolderMap(), tx.TagMap(), f, records, order, s);
    forall other | NormalizedFilters(env, f).Ok? && Enumerates(s, other)
      ensures r == Ok(|Listing(env, s, NormalizedFilters(env, f).value, other)|)
    {
      ListingIgnoresMapOrder(env, s, NormalizedFilters(env, f).value, records, other);
    }
  }
}
