/** The repository state on the heap: document records with slices of their own, nested item
    tables, and the reads and writes of a transaction. The ghost field `state` is the value that
    a reader sees; every method says what it becomes. */
module Store {
  import opened Prelude
  import opened Entities
  import opened FolderGraph
  import opened Library
  import opened FeedImport
  import opened Tables
  import FolderTree
  import Sorting

  /** `documentRecord`. The tags are a Go slice: the first `tagCount` cells of a backing array that
      may be longer. */
  class DocumentRecord {
    var meta: Metadata
    var contents: array<Content>
    var tags: array<string>
    var tagCount: nat

    ghost predicate Valid()
      reads this
    {
      tagCount <= tags.Length
    }

    function Value(): (d: Document)
      requires Valid()
      reads this, contents, tags
    {
      Document(meta, contents[..], tags[..tagCount])
    }

    constructor (d: Document)
      ensures Valid() && Value() == d && fresh(contents) && fresh(tags)
    {
      meta, tagCount := d.meta, |d.tagIDs|;
      contents := new Content[|d.contents|](i requires 0 <= i < |d.contents| => d.contents[i]);
      tags := new string[|d.tagIDs|](i requires 0 <= i < |d.tagIDs| => d.tagIDs[i]);
      new;
      assert contents[..] == d.contents && tags[..tagCount] == d.tagIDs;
    }

    /** `cloneDocumentRecord`: nothing is shared with the original. */
    method Clone() returns (copy: DocumentRecord)
      requires Valid()
      ensures fresh(copy) && fresh(copy.contents) && fresh(copy.tags)
      ensures copy.Valid() && copy.Value() == Value()
    {
      copy := new DocumentRecord(Value());
    }

    /** `removeStringValue`: the filtered values overwrite the front of the same backing array. */
    method RemoveTag(id: string)
      requires Valid()
      modifies this`tagCount, tags
      ensures Valid() && Value() == old(Value()).(tagIDs := RemoveValue(old(Value()).tagIDs, id))
    {
      var count, kept := tagCount, 0;
      ghost var before := tags[..count];
      for i := 0 to count
        invariant kept <= i && tagCount == count
        invariant tags[..kept] == RemoveValue(before[..i], id)
        invariant forall k | i <= k < count :: tags[k] == before[k]
      {
        RemoveOneMore(before, i, id);
        assert tags[i] == before[i];
        if tags[i] != id {
          ghost var front := tags[..kept];
          tags[kept] := tags[i];
          assert tags[..kept] == front;
          assert tags[..kept + 1] == front + [before[i]];
          kept := kept + 1;
        }
      }
      assert before[..count] == before;
      tagCount := kept;
    }
  }

  lemma {:induction false} RemoveConcat(a: seq<string>, b: seq<string>, id: string)
    ensures RemoveValue(a + b, id) == RemoveValue(a, id) + RemoveValue(b, id)
  {
    if a == [] {
      assert a + b == b;
    } else {
      assert (a + b)[1..] == a[1..] + b;
      RemoveConcat(a[1..], b, id);
    }
  }

  lemma RemoveOneMore(values: seq<string>, i: nat, id: string)
    requires i < |values|
    ensures RemoveValue(values[..i + 1], id) == RemoveValue(values[..i], id) + if values[i] == id
            then [] else [values[i]]
  {
    assert values[..i + 1] == values[..i] + [values[i]];
    RemoveConcat(values[..i], [values[i]], id);
  }

  function Untagged(d: Document, id: string): (r: Document) {
    d.(tagIDs := RemoveValue(d.tagIDs, id))
  }

  /** The invariants of the heap objects come in parts, so that a proof opens only those it names. */
  datatype TablePart = Domain | Cells

  /** The map `docs`, a heap object of its own: pointers to records. `owner` says which document a
      cell belongs to, so no two documents share one. */
  class DocumentTable {
    var cells: map<string, DocumentRecord>
    ghost var value: map<string, Document>
    ghost var owner: map<object, string>
    ghost var Repr: set<object>

    ghost predicate Owns(cell: object, d: string)
      reads this
    {
      cell in Repr && cell in owner && owner[cell] == d
    }

    ghost predicate Shown(d: string)
      reads this, Repr
    {
      d in cells ==>
        && Owns(cells[d], d) && Owns(cells[d].contents, d) && Owns(cells[d].tags, d)
        && cells[d].Valid() && d in value && cells[d].Value() == value[d]
    }

    ghost predicate Sound(part: TablePart)
      reads this, Repr
    {
      match part
      case Domain => this in Repr && this !in owner && cells.Keys == value.Keys
      case Cells => forall d {:trigger Shown(d)} :: Shown(d)
    }

    ghost predicate Valid()
      reads this, Repr
    {
      forall part: TablePart :: Sound(part)
    }

    lemma Parts()
      requires Valid()
      ensures Sound(Domain) && Sound(Cells)
    {
    }

    constructor ()
      ensures Valid() && this in Repr && fresh(Repr) && value == map[]
    {
      cells, value, owner := map[], map[], map[];
      Repr := {this};
    }

    /** `docs[id] = &copied`, with a copy of the record. */
    method Put(id: string, record: DocumentRecord)
      requires Valid() && record.Valid()
      modifies this
      ensures Valid() && old(Repr) <= Repr && fresh(Repr - old(Repr)) && value == old(value)[id := record.Value()]
    {
      Parts();
      var copy := record.Clone();
      Store(id, copy);
    }

    method Store(id: string, copy: DocumentRecord)
      requires Valid() && copy.Valid()
      requires copy !in Repr && copy.contents !in Repr && copy.tags !in Repr
      modifies this
      ensures Valid() && Repr == old(Repr) + {copy, copy.contents, copy.tags} && value == old(value)[id := copy.Value()]
    {
      Parts();
      cells, value := cells[id := copy], value[id := copy.Value()];
      owner := owner[copy := id][copy.contents := id][copy.tags := id];
      Repr := Repr + {copy, copy.contents, copy.tags};
      forall d ensures Shown(d) {
        assert old(Shown(d));
      }
    }

    /** One round of the loop of `DeleteTag`. */
    method Strip(d: string, record: DocumentRecord, id: string)
      requires Valid() && d in cells && d in value && cells[d] == record
      modifies this`value, record`tagCount, record.tags
      ensures Valid() && value == old(value)[d := Untagged(old(value)[d], id)]
    {
      Parts();
      assert Shown(d);
      record.RemoveTag(id);
      value := value[d := Untagged(value[d], id)];
      forall e ensures Shown(e) {
        assert old(Shown(e));
      }
    }

    /** The loop of `DeleteTag`: the tag slice of every document is filtered in place, in map order. */
    method StripAll(id: string)
      requires Valid()
      modifies Repr
      ensures Valid() && Repr == old(Repr)
      ensures value == map d | d in old(value) :: Untagged(old(value)[d], id)
    {
      Parts();
      var rest := cells.Keys;
      while rest != {}
        invariant rest <= cells.Keys && Valid() && cells == old(cells) && Repr == old(Repr)
        invariant value.Keys == old(value).Keys == cells.Keys
        invariant forall d | d in value :: value[d] == if d in rest then old(value)[d] else Untagged(old(value)[d], id)
        decreases rest
      {
        var d :| d in rest;
        Parts();
        assert Shown(d);
        Strip(d, cells[d], id);
        rest := rest - {d};
      }
    }

    /** `cloneDocumentState`: the same documents in cells of their own. */
    method Clone() returns (copy: DocumentTable)
      requires Valid()
      ensures fresh(copy) && copy in copy.Repr && fresh(copy.Repr) && copy.Valid() && copy.value == value
    {
      Parts();
      copy := new DocumentTable();
      var rest := cells.Keys;
      while rest != {}
        invariant rest <= cells.Keys && copy.Valid() && fresh(copy) && copy in copy.Repr && fresh(copy.Repr)
        invariant copy.value.Keys == cells.Keys - rest
        invariant forall d | d in copy.value :: copy.value[d] == value[d]
        decreases rest
      {
        var d :| d in rest;
        assert Shown(d);
        copy.Put(d, cells[d]);
        rest := rest - {d};
      }
      assert copy.value == value;
    }
  }

  /** The map `items`: pointers to the tables. */
  class ItemTables {
    var tables: map<string, Table<FeedItem>>
    ghost var value: Items
    ghost var Repr: set<object>

    ghost predicate Sound(part: TablePart)
      reads this, Repr
    {
      match part
      case Domain => this in Repr && tables.Keys == value.Keys
      case Cells =>
        && (forall f | f in tables :: f in value && tables[f] in Repr && tables[f].entries == value[f])
        && (forall f, g | f in tables && g in tables && f != g :: tables[f] != tables[g])
    }

    ghost predicate Valid()
      reads this, Repr
    {
      forall part: TablePart :: Sound(part)
    }

    lemma Parts()
      requires Valid()
      ensures Sound(Domain) && Sound(Cells)
    {
    }

    constructor ()
      ensures Valid() && this in Repr && fresh(Repr) && value == map[]
    {
      tables, value := map[], map[];
      Repr := {this};
    }

    /** The feed gets a table of its own, one that no other feed has. */
    method PutTable(f: string, own: Table<FeedItem>)
      requires Valid() && own !in Repr
      modifies this
      ensures Valid() && Repr == old(Repr) + {own} && value == old(value)[f := own.entries]
      ensures f in tables && tables[f] == own
    {
      Parts();
      tables, value := tables[f := own], value[f := own.entries];
      Repr := Repr + {own};
    }

    method PutItem(f: string, own: Table<FeedItem>, item: FeedItem)
      requires Valid() && f in tables && f in value && tables[f] == own
      modifies this`value, own
      ensures Valid() && value == old(value)[f := old(value)[f][item.id := item]]
    {
      Parts();
      own.Put(item.id, item);
      value := value[f := own.entries];
    }

    /** The feed's table, created when it is missing. */
    method TableFor(f: string) returns (own: Table<FeedItem>)
      requires Valid()
      modifies this
      ensures Valid() && old(Repr) <= Repr && fresh(Repr - old(Repr)) && f in tables && tables[f] == own
      ensures own.entries == ItemsOf(old(value), f) && value == old(value)[f := own.entries]
    {
      Parts();
      if f in tables {
        own := tables[f];
      } else {
        own := new Table();
        PutTable(f, own);
      }
      assert value == old(value)[f := own.entries];
    }

    method Put(item: FeedItem) returns (aborted: bool)
      requires Valid()
      modifies Repr
      ensures Valid() && old(Repr) <= Repr && fresh(Repr - old(Repr))
      ensures var own := ItemsOf(old(value), item.feedID);
              && (aborted <==> exists i | i in own :: i != item.id && DuplicateItem(own[i], item))
              && (!aborted ==> value == old(value)[item.feedID := own[item.id := item]])
    {
      Parts();
      var own := TableFor(item.feedID);
      aborted := Collides(own.entries, item);
      if !aborted {
        Parts();
        PutItem(item.feedID, own, item);
      }
    }

    method Delete(f: string)
      requires Valid()
      modifies this
      ensures Valid() && Repr == old(Repr) && value == old(value) - {f}
    {
      Parts();
      tables, value := tables - {f}, value - {f};
    }

    /** The item part of `cloneFeedJobState`. */
    method Clone() returns (copy: ItemTables)
      requires Valid()
      ensures fresh(copy) && copy in copy.Repr && fresh(copy.Repr) && copy.Valid() && copy.value == value
    {
      Parts();
      copy := new ItemTables();
      var rest := tables.Keys;
      while rest != {}
        invariant rest <= tables.Keys && copy.Valid() && fresh(copy) && copy in copy.Repr && fresh(copy.Repr)
        invariant copy.value.Keys == tables.Keys - rest
        invariant forall f | f in copy.value :: copy.value[f] == value[f]
        decreases rest
      {
        var f :| f in rest;
        var own := tables[f].Clone();
        copy.PutTable(f, own);
        rest := rest - {f};
      }
      assert copy.value == value;
    }
  }

  datatype StorePart = Contents | DocumentCells | ItemCells | Footprints

  /** `repositoryState`: the counter and the maps. `view` is what a reader sees in them. */
  class Store {
    var next: nat
    var docs: DocumentTable
    var versions: Table<seq<Version>>
    var folders: Table<Folder>
    var tags: Table<Tag>
    var tagSlugs: Table<string>
    var feeds: Table<Feed>
    var feedURLs: Table<string>
    var items: ItemTables
    ghost var view: State

    /** The maps that hold their entries directly. */
    ghost function Flat(): (tables: set<object>)
      reads this
    {
      {versions, folders, tags, tagSlugs, feeds, feedURLs}
    }

    ghost predicate Sound(part: StorePart)
      reads this, versions, folders, tags, tagSlugs, feeds, feedURLs, docs, docs.Repr, items, items.Repr
    {
      match part
      case Contents =>
        view == State(next, docs.value, versions.entries, folders.entries, tags.entries, tagSlugs.entries,
                      feeds.entries, feedURLs.entries, items.value)
      case DocumentCells => docs.Valid()
      case ItemCells => items.Valid()
      case Footprints =>
        && docs in docs.Repr && items in items.Repr && docs.Repr !! items.Repr
        && this !in docs.Repr && this !in items.Repr
        && Flat() !! docs.Repr && Flat() !! items.Repr && tagSlugs != feedURLs
    }

    ghost predicate Valid()
      reads this, versions, folders, tags, tagSlugs, feeds, feedURLs, docs, docs.Repr, items, items.Repr
    {
      forall part: StorePart :: Sound(part)
    }

    lemma Parts()
      requires Valid()
      ensures Sound(Contents) && Sound(DocumentCells) && Sound(ItemCells) && Sound(Footprints)
    {
    }

    lemma Frames()
      requires Valid()
      ensures Sound(Footprints)
    {
    }

    /** The two nested tables took only new cells. */
    twostate predicate Grown()
      reads this, docs, items
    {
      && docs == old(docs) && items == old(items)
      && fresh(docs.Repr - old(docs.Repr)) && fresh(items.Repr - old(items.Repr))
    }

    static method EmptyTables()
      returns (versions: Table<seq<Version>>, folders: Table<Folder>, tags: Table<Tag>, tagSlugs: Table<string>,
               feeds: Table<Feed>, feedURLs: Table<string>)
      ensures fresh(versions) && fresh(folders) && fresh(tags) && fresh(tagSlugs) && fresh(feeds) && fresh(feedURLs)
      ensures tagSlugs != feedURLs
      ensures versions.entries == map[] && folders.entries == map[] && tags.entries == map[]
      ensures tagSlugs.entries == map[] && feeds.entries == map[] && feedURLs.entries == map[]
    {
      versions := new Table();
      folders := new Table();
      tags := new Table();
      tagSlugs := new Table();
      feeds := new Table();
      feedURLs := new Table();
    }

    static method EmptyNested() returns (documents: DocumentTable, tables: ItemTables)
      ensures documents.Valid() && documents in documents.Repr && fresh(documents.Repr) && documents.value == map[]
      ensures tables.Valid() && tables in tables.Repr && fresh(tables.Repr) && tables.value == map[]
      ensures documents.Repr !! tables.Repr
    {
      documents := new DocumentTable();
      tables := new ItemTables();
    }

    /** `newEmptyRepositoryState`. */
    constructor ()
      ensures Valid() && view == EMPTY
      ensures fresh(Flat()) && fresh(docs) && fresh(docs.Repr) && fresh(items) && fresh(items.Repr)
    {
      next := 0;
      var versions', folders', tags', tagSlugs', feeds', feedURLs' := EmptyTables();
      versions, folders, tags, tagSlugs, feeds, feedURLs := versions', folders', tags', tagSlugs', feeds', feedURLs';
      var documents, tables := EmptyNested();
      docs, items := documents, tables;
      view := EMPTY;
      new;
      Attach(documents, tables);
    }

    // ----- Reads -----

    function Counter(): (r: nat)
      requires Valid()
      reads this, versions, folders, tags, tagSlugs, feeds, feedURLs, docs, docs.Repr, items, items.Repr
      ensures r == view.next
    {
      assert Sound(Contents);
      next
    }

    function VersionMap(): (r: map<string, seq<Version>>)
      requires Valid()
      reads this, versions, folders, tags, tagSlugs, feeds, feedURLs, docs, docs.Repr, items, items.Repr
      ensures r == view.versions
    {
      assert Sound(Contents);
      versions.entries
    }

    function FolderMap(): (r: Folders)
      requires Valid()
      reads this, versions, folders, tags, tagSlugs, feeds, feedURLs, docs, docs.Repr, items, items.Repr
      ensures r == view.folders
    {
      assert Sound(Contents);
      folders.entries
    }

    function TagMap(): (r: map<string, Tag>)
      requires Valid()
      reads this, versions, folders, tags, tagSlugs, feeds, feedURLs, docs, docs.Repr, items, items.Repr
      ensures r == view.tags
    {
      assert Sound(Contents);
      tags.entries
    }

    function SlugMap(): (r: map<string, string>)
      requires Valid()
      reads this, versions, folders, tags, tagSlugs, feeds, feedURLs, docs, docs.Repr, items, items.Repr
      ensures r == view.tagSlugs
    {
      assert Sound(Contents);
      tagSlugs.entries
    }

    function FeedMap(): (r: map<string, Feed>)
      requires Valid()
      reads this, versions, folders, tags, tagSlugs, feeds, feedURLs, docs, docs.Repr, items, items.Repr
      ensures r == view.feeds
    {
      assert Sound(Contents);
      feeds.entries
    }

    function URLMap(): (r: map<string, string>)
      requires Valid()
      reads this, versions, folders, tags, tagSlugs, feeds, feedURLs, docs, docs.Repr, items, items.Repr
      ensures r == view.feedURLs
    {
      assert Sound(Contents);
      feedURLs.entries
    }

    /** The inner map of a feed, which is missing as long as the feed has no items. */
    function ItemMap(feedID: string): (r: map<string, FeedItem>)
      requires Valid()
      reads this, versions, folders, tags, tagSlugs, feeds, feedURLs, docs, docs.Repr, items, items.Repr
      ensures r == ItemsOf(view.items, feedID)
    {
      assert Sound(Contents) && Sound(ItemCells);
      items.Parts();
      if feedID in items.tables then items.tables[feedID].entries else map[]
    }

    predicate HasDocument(id: string)
      requires Valid()
      reads this, versions, folders, tags, tagSlugs, feeds, feedURLs, docs, docs.Repr, items, items.Repr
      ensures HasDocument(id) <==> id in view.docs
    {
      assert Sound(Contents) && Sound(DocumentCells);
      docs.Parts();
      id in docs.cells
    }

    /** `Document`: a copy the caller may change. */
    method Document(id: string) returns (r: DocumentRecord?)
      requires Valid()
      ensures r == null <==> id !in view.docs
      ensures r != null ==> fresh(r) && fresh(r.contents) && fresh(r.tags) && r.Valid() && r.Value() == view.docs[id]
    {
      Parts();
      docs.Parts();
      if id !in docs.cells {
        return null;
      }
      assert docs.Shown(id);
      r := docs.cells[id].Clone();
    }

    /** `Documents`: copies of all documents, in map order. */
    method Documents() returns (records: seq<Document>)
      requires Valid() && KeyedDocuments(view.docs)
      ensures DocumentsOf(view.docs, records) && Sorting.Distinct(records)
    {
      Parts();
      docs.Parts();
      records := [];
      var rest := docs.cells.Keys;
      while rest != {}
        invariant rest <= docs.cells.Keys
        invariant forall d ::
                    d in records <==> d.meta.id in docs.value && docs.value[d.meta.id] == d && d.meta.id !in rest
        invariant Sorting.Distinct(records)
        decreases rest
      {
        var d :| d in rest;
        assert docs.Shown(d);
        var record := docs.cells[d];
        records := records + [record.Value()];
        rest := rest - {d};
      }
    }

    /** `Folders`, in map order. */
    method Folders() returns (list: seq<Folder>)
      requires Valid() && forall f | f in view.folders :: view.folders[f].id == f
      ensures FolderTree.Lists(view.folders, list)
    {
      Parts();
      list := [];
      var folders, rest := folders.entries, folders.entries.Keys;
      assert forall f | f in folders :: view.folders[f].id == f;
      while rest != {}
        invariant rest <= folders.Keys
        invariant forall x :: x in list <==> x.id in folders && folders[x.id] == x && x.id !in rest
        invariant Sorting.Distinct(list)
        decreases rest
      {
        var f :| f in rest;
        assert folders[f].id == f;
        list, rest := list + [folders[f]], rest - {f};
      }
    }

    /** `TagHasDocuments`. */
    method TagHasDocuments(id: string) returns (found: bool)
      requires Valid()
      ensures found <==> exists d | d in view.docs :: id in view.docs[d].tagIDs
    {
      Parts();
      docs.Parts();
      var rest := docs.cells.Keys;
      while rest != {}
        invariant rest <= docs.cells.Keys
        invariant forall d | d in docs.cells && d !in rest :: id !in docs.value[d].tagIDs
        decreases rest
      {
        var d :| d in rest;
        var record := docs.cells[d];
        assert docs.Shown(d);
        if id in record.tags[..record.tagCount] {
          assert d in view.docs && id in view.docs[d].tagIDs;
          return true;
        }
        rest := rest - {d};
      }
      return false;
    }

    // ----- Writes -----

    method NextID(env: Env, prefix: string) returns (id: string)
      requires Valid()
      modifies this`next, this`view
      ensures Valid() && Grown()
      ensures view == Drawn(old(view)) && id == NewID(env, old(view).next, prefix)
    {
      Parts();
      next := next + 1;
      view := Drawn(view);
      id := NewID(env, next - 1, prefix);
    }

    /** `PutDocument`: a copy is stored, so later changes to the caller's record stay outside. */
    method PutDocument(record: DocumentRecord)
      requires Valid() && record.Valid()
      modifies this`view, docs
      ensures Valid() && Grown()
      ensures view == WithDocument(old(view), record.Value())
    {
      Parts();
      docs.Put(record.meta.id, record);
      view := WithDocument(view, record.Value());
    }

    method PutDocumentVersion(v: Version)
      requires Valid()
      modifies this`view, versions
      ensures Valid() && Grown() && view == WithVersion(old(view), v)
    {
      Parts();
      var before := if v.documentID in versions.entries then versions.entries[v.documentID] else [];
      versions.Put(v.documentID, before + [v]);
      view := WithVersion(view, v);
    }

    method PutFolder(f: Folder)
      requires Valid()
      modifies this`view, folders
      ensures Valid() && Grown() && view == WithFolder(old(view), f)
    {
      Parts();
      folders.Put(f.id, f);
      view := WithFolder(view, f);
    }

    method DeleteFolder(id: string)
      requires Valid()
      modifies this`view, folders
      ensures Valid() && Grown() && view == old(view).(folders := old(view).folders - {id})
    {
      Parts();
      folders.Delete(id);
      view := view.(folders := view.folders - {id});
    }

    method PutTag(t: Tag)
      requires Valid()
      modifies this`view, tags, tagSlugs
      ensures Valid() && Grown() && view == WithTag(old(view), t)
    {
      Parts();
      tags.Put(t.id, t);
      tagSlugs.Put(t.slug, t.id);
      view := WithTag(view, t);
    }

    method DropTag(id: string)
      requires Valid()
      modifies this`view, tags, tagSlugs
      ensures Valid() && view == old(view).(
                tags := old(view).tags - {id},
                tagSlugs := if id in old(view).tags
                    then old(view).tagSlugs - {old(view).tags[id].slug} else old(view).tagSlugs)
    {
      Parts();
      if id in tags.entries {
        tagSlugs.Delete(tags.entries[id].slug);
      }
      tags.Delete(id);
      view := view.(tags := tags.entries, tagSlugs := tagSlugs.entries);
    }

    method StripTag(id: string)
      requires Valid()
      modifies this`view, docs.Repr
      ensures Valid() && Grown()
      ensures view == old(view).(docs := map d | d in old(view).docs :: Untagged(old(view).docs[d], id))
    {
      Parts();
      docs.StripAll(id);
      view := view.(docs := docs.value);
    }

    method DeleteTag(id: string)
      requires Valid()
      modifies this`view, tags, tagSlugs, docs.Repr
      ensures Valid() && Grown() && view == WithoutTag(old(view), id)
    {
      DropTag(id);
      StripTag(id);
    }

    /** The URL that the feed had so far goes out of the index. */
    method ForgetURL(id: string)
      requires Valid()
      modifies this`view, feedURLs
      ensures Valid() && view == old(view).(feedURLs := URLsWithout(old(view), id))
    {
      Parts();
      if id in feeds.entries {
        feedURLs.Delete(feeds.entries[id].url);
      }
      view := view.(feedURLs := feedURLs.entries);
    }

    method StoreFeed(f: Feed)
      requires Valid()
      modifies this`view, feeds, feedURLs
      ensures Valid()
      ensures view == old(view).(feeds := old(view).feeds[f.id := f], feedURLs := old(view).feedURLs[f.url := f.id])
    {
      Parts();
      feeds.Put(f.id, f);
      feedURLs.Put(f.url, f.id);
      view := view.(feeds := feeds.entries, feedURLs := feedURLs.entries);
    }

    method PutFeed(f: Feed)
      requires Valid()
      modifies this`view, feeds, feedURLs
      ensures Valid() && Grown() && view == WithFeed(old(view), f)
    {
      ForgetURL(f.id);
      StoreFeed(f);
    }

    method DropFeed(id: string)
      requires Valid()
      modifies this`view, feeds, items
      ensures Valid() && items.Repr == old(items.Repr)
      ensures view == old(view).(feeds := old(view).feeds - {id}, items := old(view).items - {id})
    {
      Parts();
      feeds.Delete(id);
      items.Delete(id);
      view := view.(feeds := feeds.entries, items := items.value);
    }

    method DeleteFeed(id: string)
      requires Valid()
      modifies this`view, feeds, feedURLs, items
      ensures Valid() && Grown() && view == WithoutFeed(old(view), id)
    {
      ForgetURL(id);
      DropFeed(id);
    }

    /** `PutFeedItem`: creates the feed's table on demand, scans it for a duplicate, and aborts the
        transaction when there is one. */
    method PutFeedItem(item: FeedItem) returns (aborted: bool)
      requires Valid()
      modifies this`view, items.Repr
      ensures Valid() && Grown()
      ensures aborted <==> WithItem(old(view), item).Err?
      ensures !aborted ==> WithItem(old(view), item) == Ok(view)
    {
      Parts();
      aborted := items.Put(item);
      view := view.(items := items.value);
    }

    // ----- Copy and publish -----

    /** The flat map of `cloneDocumentState`. */
    method CloneVersions(copy: Store)
      modifies copy`versions
      ensures fresh(copy.versions) && copy.versions.entries == versions.entries
    {
      copy.versions := versions.Clone();
    }

    /** `cloneFolderTagState`. */
    method CloneFoldersAndTags(copy: Store)
      requires copy != this
      modifies copy`folders, copy`tags, copy`tagSlugs
      ensures fresh(copy.folders) && fresh(copy.tags) && fresh(copy.tagSlugs)
      ensures copy.folders.entries == folders.entries && copy.tags.entries == tags.entries
      ensures copy.tagSlugs.entries == tagSlugs.entries
    {
      copy.folders := folders.Clone();
      copy.tags := tags.Clone();
      copy.tagSlugs := tagSlugs.Clone();
    }

    /** The flat maps of `cloneFeedJobState`. */
    method CloneFeeds(copy: Store)
      requires copy != this
      modifies copy`feeds, copy`feedURLs
      ensures fresh(copy.feeds) && fresh(copy.feedURLs)
      ensures copy.feeds.entries == feeds.entries && copy.feedURLs.entries == feedURLs.entries
    {
      copy.feeds := feeds.Clone();
      copy.feedURLs := feedURLs.Clone();
    }

    /** An object that so far shows only the flat maps. */
    method CloneFlat() returns (copy: Store)
      ensures fresh(copy) && fresh(copy.Flat()) && copy.tagSlugs != copy.feedURLs && ShowsFlat(copy)
    {
      copy := new Store();
      copy.next := next;
      CloneVersions(copy);
      CloneFoldersAndTags(copy);
      CloneFeeds(copy);
    }

    /** The other object has the same counter and the same entries in the flat maps. */
    ghost predicate ShowsFlat(other: Store)
      reads this, versions, folders, tags, tagSlugs, feeds, feedURLs
      reads other, other.versions, other.folders, other.tags, other.tagSlugs, other.feeds, other.feedURLs
    {
      && other.next == next && other.versions.entries == versions.entries && other.folders.entries == folders.entries
      && other.tags.entries == tags.entries && other.tagSlugs.entries == tagSlugs.entries
      && other.feeds.entries == feeds.entries && other.feedURLs.entries == feedURLs.entries
    }

    method CloneNested() returns (documents: DocumentTable, tables: ItemTables)
      requires docs.Valid() && items.Valid()
      ensures documents.Valid() && documents in documents.Repr && fresh(documents.Repr) && documents.value == docs.value
      ensures tables.Valid() && tables in tables.Repr && fresh(tables.Repr) && tables.value == items.value
      ensures documents.Repr !! tables.Repr
    {
      documents := docs.Clone();
      tables := items.Clone();
    }

    method Attach(documents: DocumentTable, tables: ItemTables)
      requires documents.Valid() && documents in documents.Repr && this !in documents.Repr && Flat() !! documents.Repr
      requires tables.Valid() && tables in tables.Repr && this !in tables.Repr && Flat() !! tables.Repr
      requires documents.Repr !! tables.Repr && tagSlugs != feedURLs
      modifies this`docs, this`items, this`view
      ensures Valid() && docs == documents && items == tables
      ensures view == State(next, documents.value, versions.entries, folders.entries, tags.entries, tagSlugs.entries,
                            feeds.entries, feedURLs.entries, tables.value)
    {
      docs, items := documents, tables;
      view := State(next, docs.value, versions.entries, folders.entries, tags.entries, tagSlugs.entries,
                    feeds.entries, feedURLs.entries, items.value);
    }

    /** `cloneRepositoryState`: the same value, in maps and cells of its own. */
    method Clone() returns (copy: Store)
      requires Valid()
      ensures fresh(copy) && fresh(copy.Flat()) && fresh(copy.docs) && fresh(copy.docs.Repr) && fresh(copy.items)
      ensures fresh(copy.items.Repr) && copy.Valid() && copy.view == view
    {
      Parts();
      copy := CloneFlat();
      var documents, tables := CloneNested();
      copy.Attach(documents, tables);
    }

    method PublishFlat(pending: Store)
      modifies this`next, this`versions, this`folders, this`tags, this`tagSlugs, this`feeds, this`feedURLs
      ensures next == old(pending.next) && versions == old(pending.versions) && folders == old(pending.folders)
      ensures tags == old(pending.tags) && tagSlugs == old(pending.tagSlugs)
      ensures feeds == old(pending.feeds) && feedURLs == old(pending.feedURLs)
    {
      next, versions, folders, tags := pending.next, pending.versions, pending.folders, pending.tags;
      tagSlugs, feeds, feedURLs := pending.tagSlugs, pending.feeds, pending.feedURLs;
    }

    /** `*state = *pending`. */
    method Publish(pending: Store)
      requires pending.Valid() && this !in pending.docs.Repr && this !in pending.items.Repr
      modifies this
      ensures Valid() && view == old(pending.view) && docs == pending.docs && items == pending.items
    {
      pending.Parts();
      PublishFlat(pending);
      Attach(pending.docs, pending.items);
    }
  }

  /** The scan of `PutFeedItem`, in map order. */
  method Collides(own: map<string, FeedItem>, item: FeedItem) returns (found: bool)
    ensures found <==> exists i | i in own :: i != item.id && DuplicateItem(own[i], item)
  {
    var rest := own.Keys;
    while rest != {}
      invariant rest <= own.Keys
      invariant forall i | i in own && i !in rest && i != item.id :: !DuplicateItem(own[i], item)
      decreases rest
    {
      var i :| i in rest;
      if i != item.id && DuplicateItem(own[i], item) {
        return true;
      }
      rest := rest - {i};
    }
    return false;
  }
}
