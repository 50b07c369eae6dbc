/** What the operations on documents and tags come to, field by field. */
module DocumentOutcomes {
  import opened Prelude
  import opened Entities
  import opened FolderGraph
  import opened FolderForest
  import opened Library
  import opened SystemFolders
  import opened TagOps
  import opened DocumentOps
  import FolderOutcomes

  // ----- Tags -----

  /** An identifier that is asked for and names no tag. */
  predicate AsksUnknown(env: Env, tags: map<string, Tag>, ids: seq<string>) {
    exists k | 0 <= k < |ids| :: env.trim(ids[k]) != "" && env.trim(ids[k]) !in tags
  }

  /** Tag `a` is asked for at a point up to which tag `b` is not. */
  predicate AskedBefore(env: Env, ids: seq<string>, a: string, b: string) {
    exists p | 0 <= p < |ids| :: env.trim(ids[p]) == a && forall q | 0 <= q <= p :: env.trim(ids[q]) != b
  }

  lemma AskedBeforeStays(env: Env, ids: seq<string>, more: seq<string>, a: string, b: string)
    requires AskedBefore(env, ids, a, b)
    ensures AskedBefore(env, ids + more, a, b)
  {
    var p :| 0 <= p < |ids| && env.trim(ids[p]) == a && forall q | 0 <= q <= p :: env.trim(ids[q]) != b;
    assert env.trim((ids + more)[p]) == a;
  }

  lemma AsksMore(env: Env, tags: map<string, Tag>, ids: seq<string>)
    requires ids != []
    ensures AsksUnknown(env, tags, ids) <==>
              AsksUnknown(env, tags, ids[..|ids| - 1])
              || (env.trim(ids[|ids| - 1]) != "" && env.trim(ids[|ids| - 1]) !in tags)
  {
    var front := ids[..|ids| - 1];
    if k :| 0 <= k < |front| && env.trim(front[k]) != "" && env.trim(front[k]) !in tags {
      assert ids[k] == front[k];
    }
    if k :| 0 <= k < |front| && env.trim(ids[k]) != "" && env.trim(ids[k]) !in tags {
      assert ids[k] == front[k];
    }
  }

  /** A tag list is accepted exactly if every identifier in it is blank or names a tag; the tags keep the
      order in which they are first asked for. */
  lemma {:induction false} TagListOutcome(env: Env, tags: map<string, Tag>, ids: seq<string>)
    ensures var r := NormalizedTags(env, tags, ids);
            if AsksUnknown(env, tags, ids) then r == Err(NotFound("tag"))
            else r.Ok? && forall i, j | 0 <= i < j < |r.value| :: AskedBefore(env, ids, r.value[i], r.value[j])
  {
    if ids != [] {
      var front, last := ids[..|ids| - 1], ids[|ids| - 1];
      assert ids == front + [last];
      TagListOutcome(env, tags, front);
      AsksMore(env, tags, ids);
      if !AsksUnknown(env, tags, ids) {
        LastTagComesLast(env, tags, ids);
      }
    }
  }

  lemma LastTagComesLast(env: Env, tags: map<string, Tag>, ids: seq<string>)
    requires ids != [] && NormalizedTags(env, tags, ids).Ok? && NormalizedTags(env, tags, ids[..|ids| - 1]).Ok?
    requires var front := NormalizedTags(env, tags, ids[..|ids| - 1]).value;
             forall i, j | 0 <= i < j < |front| :: AskedBefore(env, ids[..|ids| - 1], front[i], front[j])
    ensures var kept := NormalizedTags(env, tags, ids).value;
            forall i, j | 0 <= i < j < |kept| :: AskedBefore(env, ids, kept[i], kept[j])
  {
    var front, last := ids[..|ids| - 1], ids[|ids| - 1];
    assert ids == front + [last];
    var before, kept := NormalizedTags(env, tags, front).value, NormalizedTags(env, tags, ids).value;
    NormalizedTagsSound(env, tags, front);
    forall i, j | 0 <= i < j < |kept| ensures AskedBefore(env, ids, kept[i], kept[j]) {
      if j < |before| {
        AskedBeforeStays(env, front, [last], kept[i], kept[j]);
      } else {
        assert kept[i] in before;
        var p :| 0 <= p < |front| && env.trim(front[p]) == kept[i];
        assert kept[j] !in before;
        assert forall q | 0 <= q <= p :: env.trim(ids[q]) == env.trim(front[q]);
        assert env.trim(ids[p]) == kept[i];
      }
    }
  }

  /** A tag is created exactly if its name and slug are not blank and no tag has the slug. */
  lemma CreateTagOutcome(env: Env, s: State, name: string)
    requires Inv(s)
    ensures var r, slug := CreateTagSpec(env, s, name), env.slugify(env.trim(name));
            if env.trim(name) == "" then r == Err(Validation("tag name is required"))
            else if slug == "" then r == Err(Validation("tag slug is required"))
            else if exists t | t in s.tags :: s.tags[t].slug == slug then r == Err(Conflict("tag slug already exists"))
            else
              && r.Ok? && var (s', id) := r.value;
              && id !in s.tags && slug !in s.tagSlugs
              && s' == s.(next := s.next + 1, tagSlugs := s.tagSlugs[slug := id],
                          tags := s.tags[id := Tag(id, env.trim(name), slug, env.clock(s.next + 1))])
  {
    TagsSound(s);
    NewIDFresh(env, s.next, "tag");
  }

  // ----- New documents -----

  /** An unread document without rating, of the given kind, called and placed as asked. */
  predicate IsNewDocument(d: Document, id: string, kind: string, title: string, folderID: string, now: int) {
    && d.meta == Metadata(id, title, kind, Some(folderID), d.meta.canonicalURL, d.meta.sourceURL, None, "unread", None,
                          now, now, None, None, None)
  }

  /** What is left of a value after trimming, if anything. */
  predicate IsOptional(env: Env, given: string, value: Option<string>) {
    value == if env.trim(given) == "" then None else Some(env.trim(given))
  }

  /** A document created by hand lies in Inbox and has nothing but its title. */
  lemma CreateDocumentOutcome(env: Env, s: State, title: string, kind: string)
    requires Inv(s)
    ensures var r := CreateDocumentSpec(env, s, title, kind);
            if env.trim(title) == "" then r == Err(Validation("title is required"))
            else
              var (s1, inbox) := Ensured(env, s, "inbox");
              && r.Ok? && var (s', id) := r.value;
              && id !in s.docs && id in s'.docs
              && s' == s1.(next := s.next + 1, docs := s.docs[id := s'.docs[id]])
              && IsNewDocument(s'.docs[id], id, if kind == "" then "bookmark" else kind, env.trim(title), inbox,
                               env.clock(s.next))
              && s'.docs[id].contents == [] && s'.docs[id].tagIDs == []
              && s'.docs[id].meta.canonicalURL.None? && s'.docs[id].meta.sourceURL.None?
  {
    DocumentsSound(s);
    NewIDFresh(env, s.next, "doc");
  }

  predicate IsFormat(env: Env, given: string, format: string) {
    format == if env.trim(given) == "" then "text" else env.trim(given)
  }

  /** The one content a scraped document starts with. */
  predicate IsScrape(env: Env, contents: seq<Content>, body: string, format: string) {
    && |contents| == 1 && contents[0].body == body && contents[0].role == "extracted"
    && IsFormat(env, format, contents[0].format)
    && contents[0].language.None? && contents[0].sourceID.None?
  }

  /** Why a document cannot be ingested: the first that applies. */
  ghost function IngestError(env: Env, s: State, scraped: bool, input: IngestInput): (e: Option<Error>) {
    if env.trim(input.title) == "" then Some(Validation("title is required"))
    else match DocumentFolderFor(env, s, input.folderID, false)
      case Err(e) => Some(e)
      case Ok(_) =>
        if AsksUnknown(env, s.tags, input.tagIDs) then Some(NotFound("tag"))
        else if scraped && env.trim(input.content) == "" then Some(Validation("content is required"))
        else None
  }

  lemma IngestFails(env: Env, s: State, scraped: bool, input: IngestInput)
    ensures var e := IngestError(env, s, scraped, input);
            if e.Some? then IngestSpec(env, s, scraped, input) == Err(e.value)
            else IngestSpec(env, s, scraped, input).Ok?
  {
    TagListOutcome(env, s.tags, input.tagIDs);
  }

  /** What an ingested document looks like: placed by the placement rule, with the tags asked for, with
      its body as its only content if it was scraped and with none if it is a bookmark. */
  lemma IngestOutcome(env: Env, s: State, scraped: bool, input: IngestInput, s': State, id: string)
    requires Inv(s) && IngestSpec(env, s, scraped, input) == Ok((s', id))
    ensures id !in s.docs && id in s'.docs && DocumentFolderFor(env, s, input.folderID, false).Ok?
    ensures var (s1, folderID) := DocumentFolderFor(env, s, input.folderID, false).value;
            && s' == s1.(next := s.next + (if scraped then 2 else 1), docs := s.docs[id := s'.docs[id]])
            && IsNewDocument(s'.docs[id], id, if scraped then "scraped_article" else "bookmark", env.trim(input.title),
                             folderID, env.clock(if scraped then s.next + 1 else s.next))
    ensures var d := s'.docs[id];
            && IsOptional(env, input.url, d.meta.canonicalURL) && IsOptional(env, input.sourceURL, d.meta.sourceURL)
            && Ok(d.tagIDs) == NormalizedTags(env, s.tags, input.tagIDs)
            && if scraped then IsScrape(env, d.contents, env.trim(input.content), input.format) else d.contents == []
  {
    IngestKeepsInv(env, s, scraped, input, s', id);
  }

  // ----- Edits -----

  /** The document as it stood, recorded as number `n`. */
  predicate IsBeforeImage(v: Version, d: Document, n: nat, mutation: string, now: int) {
    && v.documentID == d.meta.id && v.sequence == n && v.mutation == mutation && v.createdAt == now
    && v.title == d.meta.title && v.contents == d.contents && v.meta == d.meta
  }

  /** The edit of document `id` is recorded: its history is one before-image longer, and no other is. */
  ghost predicate Recorded(s: State, s': State, id: string, mutation: string, now: int)
    requires id in s.docs
  {
    && id in s'.versions && |s'.versions[id]| == |VersionsOf(s, id)| + 1
    && s'.versions == s.versions[id := VersionsOf(s, id) + [s'.versions[id][|VersionsOf(s, id)|]]]
    && IsBeforeImage(s'.versions[id][|VersionsOf(s, id)|], s.docs[id], |VersionsOf(s, id)| + 1, mutation, now)
  }

  /** Why a title or a folder cannot be changed: the first that applies. */
  ghost function EditError(env: Env, s: State, id: string, input: UpdateDocumentInput): (e: Option<Error>) {
    if id !in s.docs then Some(NotFound("document"))
    else if input.title.Some? && env.trim(input.title.value) == "" then Some(Validation("title is required"))
    else if input.folderID.Some? && DocumentFolderFor(env, s, input.folderID.value, false).Err? then
      Some(DocumentFolderFor(env, s, input.folderID.value, false).error)
    else None
  }

  lemma UpdateDocumentFails(env: Env, s: State, id: string, input: UpdateDocumentInput)
    ensures var e := EditError(env, s, id, input);
            if e.Some? then UpdateDocumentSpec(env, s, id, input) == Err(e.value)
            else UpdateDocumentSpec(env, s, id, input).Ok?
  {
  }

  /** The document has this title and lies in this folder, and is otherwise as before but for the time; a
      title that is really new is recorded, an unchanged one is not. */
  ghost predicate EditedTo(env: Env, s: State, s': State, id: string, title: string, folderID: Option<string>)
    requires id in s.docs
  {
    var (d, now) := (s.docs[id], env.clock(s.next));
    && id in s'.docs
    && s' == s.(next := s'.next, docs := s.docs[id := s'.docs[id]], versions := s'.versions, folders := s'.folders)
    && s'.docs[id] == d.(meta := d.meta.(title := title, folderID := folderID, updatedAt := now))
    && if title != d.meta.title then s'.next == s.next + 1 && Recorded(s, s', id, "title", now)
       else s'.next == s.next && s'.versions == s.versions
  }

  lemma EditedOn(env: Env, s: State, s1: State, id: string, title: string, folderID: Option<string>, s': State)
    requires Inv(s) && id in s.docs && s1 == s.(folders := s1.folders)
    requires var d, now := s.docs[id], Now(env, s1);
             s' == WithDocument(if title != d.meta.title then VersionRecorded(env, s1, d, MUTATION_TITLE, now) else s1,
                                d.(meta := d.meta.(title := title, folderID := folderID, updatedAt := now)))
    ensures id in s'.docs && s'.folders == s1.folders && EditedTo(env, s, s', id, title, folderID)
  {
    StoredDocument(s, id);
  }

  /** The document gets the title and the folder asked for. */
  lemma UpdateDocumentOutcome(env: Env, s: State, id: string, input: UpdateDocumentInput, s': State)
    requires Inv(s) && UpdateDocumentSpec(env, s, id, input) == Ok(s')
    ensures id in s.docs && id in s'.docs
    ensures var title := if input.title.Some? then env.trim(input.title.value) else s.docs[id].meta.title;
            match input.folderID
            case None => s'.folders == s.folders && EditedTo(env, s, s', id, title, s.docs[id].meta.folderID)
            case Some(asked) =>
              && DocumentFolderFor(env, s, asked, false).Ok?
              && var (placed, folderID) := DocumentFolderFor(env, s, asked, false).value;
                 s'.folders == placed.folders && EditedTo(env, s, s', id, title, Some(folderID))
  {
    var title := if input.title.Some? then env.trim(input.title.value) else s.docs[id].meta.title;
    match input.folderID {
      case None => EditedOn(env, s, s, id, title, s.docs[id].meta.folderID, s');
      case Some(asked) =>
        var (placed, folderID) := DocumentFolderFor(env, s, asked, false).value;
        EditedOn(env, s, placed, id, title, Some(folderID), s');
    }
  }

  /** Deleting marks a stored document with the time and does nothing else. */
  lemma DeleteDocumentOutcome(env: Env, s: State, id: string)
    requires Inv(s)
    ensures if id !in s.docs then DeleteDocumentSpec(env, s, id) == Err(NotFound("document"))
            else
              && DeleteDocumentSpec(env, s, id).Ok?
              && var s' := DeleteDocumentSpec(env, s, id).value;
                 && id in s'.docs && s' == s.(docs := s.docs[id := s'.docs[id]])
                 && var now := env.clock(s.next);
                    s'.docs[id] == s.docs[id].(meta := s.docs[id].meta.(deletedAt := Some(now), updatedAt := now))
  {
    if id in s.docs {
      StoredDocument(s, id);
    }
  }

  /** A document that already lies in Trash stays where it is; any other goes to the Trash folder. */
  lemma TrashDocumentOutcome(env: Env, s: State, id: string)
    requires Inv(s)
    ensures var r := TrashDocumentSpec(env, s, id);
            if id !in s.docs || s.docs[id].meta.deletedAt.Some? then r == Err(NotFound("document"))
            else if s.docs[id].meta.folderID.Some? && RoleAbove(s.folders, s.docs[id].meta.folderID.value, "trash")
                then r == Ok(s)
            else
              && r.Ok? && id in r.value.docs
              && var (s1, trash) := Ensured(env, s, "trash");
                 && r.value == s1.(docs := s.docs[id := r.value.docs[id]])
                 && r.value.docs[id] == s.docs[id].(meta := s.docs[id].meta.(folderID := Some(trash),
                                                                             updatedAt := env.clock(s.next)))
  {
    FoldersSound(s);
    if id in s.docs {
      StoredDocument(s, id);
      if s.docs[id].meta.folderID.Some? {
        RoleWalkFindsRoles(s.folders, s.docs[id].meta.folderID.value, "trash");
      }
    }
  }

  /** The document bears the tags asked for; of the tags it bore, those that it lost and that no document
      bears any more are gone with their slugs, and no other tag is. */
  lemma ReplaceTagsOutcome(env: Env, s: State, id: string, tagIDs: seq<string>)
    requires Inv(s)
    ensures var r := ReplaceTagsSpec(env, s, id, tagIDs);
            if id !in s.docs then r == Err(NotFound("document"))
            else if AsksUnknown(env, s.tags, tagIDs) then r == Err(NotFound("tag"))
            else
              && r.Ok? && var s' := r.value;
              && id in s'.docs && s' == s.(docs := s.docs[id := s'.docs[id]], tags := s'.tags, tagSlugs := s'.tagSlugs)
              && Ok(s'.docs[id].tagIDs) == NormalizedTags(env, s.tags, tagIDs)
              && s'.docs[id] == s.docs[id].(tagIDs := s'.docs[id].tagIDs,
                                            meta := s.docs[id].meta.(updatedAt := env.clock(s.next)))
              && (forall t :: t in s'.tags <==>
                    && t in s.tags
                    && (t !in s.docs[id].tagIDs || exists d | d in s'.docs :: t in s'.docs[d].tagIDs))
              && (forall t | t in s'.tags :: s'.tags[t] == s.tags[t])
              && (forall slug :: slug in s'.tagSlugs <==> slug in s.tagSlugs && s.tagSlugs[slug] in s'.tags)
              && (forall slug | slug in s'.tagSlugs :: s'.tagSlugs[slug] == s.tagSlugs[slug])
  {
    TagListOutcome(env, s.tags, tagIDs);
    if id in s.docs && !AsksUnknown(env, s.tags, tagIDs) {
      ReplacedTags(env, s, id, tagIDs, ReplaceTagsSpec(env, s, id, tagIDs).value);
    }
  }

  lemma ReplacedTags(env: Env, s: State, id: string, tagIDs: seq<string>, s': State)
    requires Inv(s) && ReplaceTagsSpec(env, s, id, tagIDs) == Ok(s')
    ensures forall t :: t in s'.tags <==>
              t in s.tags && (t !in s.docs[id].tagIDs || exists d | d in s'.docs :: t in s'.docs[d].tagIDs)
    ensures forall slug :: slug in s'.tagSlugs <==> slug in s.tagSlugs && s.tagSlugs[slug] in s'.tags
    ensures id in s'.docs && s' == s.(docs := s.docs[id := s'.docs[id]], tags := s'.tags, tagSlugs := s'.tagSlugs)
    ensures s'.docs[id] == s.docs[id].(tagIDs := NormalizedTags(env, s.tags, tagIDs).value,
                                       meta := s.docs[id].meta.(updatedAt := env.clock(s.next)))
  {
    StoredDocument(s, id);
    TagsSound(s);
    forall t ensures t in s'.tags <==>
        t in s.tags && (t !in s.docs[id].tagIDs || exists d | d in s'.docs :: t in s'.docs[d].tagIDs)
    {
      if t in s'.docs[id].tagIDs {
        assert id in s'.docs;
      }
    }
  }

  // ----- Rescraping -----

  predicate IsKnownFormat(env: Env, given: string) {
    env.trim(given) in {"", "html", "markdown", "text"}
  }

  /** The address a document can be scraped from again: its source, or else its canonical URL. */
  function Address(env: Env, meta: Metadata): (url: string) {
    var source := if meta.sourceURL.Some? then env.trim(meta.sourceURL.value) else "";
    var canonical := if meta.canonicalURL.Some? then env.trim(meta.canonicalURL.value) else "";
    if source != "" then source else canonical
  }

  /** The first extracted content, if there is one at all, has the new body and format and no source, and is
      otherwise as it was; if there is none, a new content stands at the end. */
  predicate Rescraped(env: Env, before: seq<Content>, after: seq<Content>, k: nat, input: RescrapeInput) {
    && k <= |before| && k < |after|
    && (forall i | 0 <= i < k :: before[i].role != "extracted")
    && (k < |before| ==> before[k].role == "extracted" && after == before[k := after[k]] && after[k].id == before[k].id
                         && after[k].language == before[k].language)
    && (k == |before| ==> after == before + [after[k]] && after[k].language.None?)
    && IsNewBody(env, after[k], input)
  }

  /** A document is rescraped exactly if it is stored, not deleted, was made from a web page, has an address,
      and the new content is not blank and of a known format. */
  lemma RescrapeFails(env: Env, s: State, id: string, input: RescrapeInput)
    ensures var r := RescrapeSpec(env, s, id, input);
            if id !in s.docs || s.docs[id].meta.deletedAt.Some? then r == Err(NotFound("document"))
            else if s.docs[id].meta.kind !in {"scraped_article", "rss_item"}
                then r == Err(Validation("document cannot be re-scraped"))
            else if Address(env, s.docs[id].meta) == "" then r == Err(Validation("document has no source URL"))
            else if env.trim(input.content) == "" then r == Err(Validation("content is required"))
            else if !IsKnownFormat(env, input.format) then r == Err(Validation("content format is invalid"))
            else r.Ok?
  {
  }

  predicate IsNewBody(env: Env, c: Content, input: RescrapeInput) {
    && c.role == "extracted" && c.body == env.trim(input.content) && c.sourceID.None?
    && IsFormat(env, input.format, c.format)
  }

  lemma ReplacedAt(env: Env, before: seq<Content>, k: nat, c: Content, input: RescrapeInput)
    requires k < |before| && before[k].role == "extracted" && forall i | 0 <= i < k :: before[i].role != "extracted"
    requires c.id == before[k].id && c.language == before[k].language && IsNewBody(env, c, input)
    ensures Rescraped(env, before, before[k := c], k, input)
  {
    assert before[k := c][k] == c;
  }

  lemma AddedAt(env: Env, before: seq<Content>, c: Content, input: RescrapeInput)
    requires forall i | 0 <= i < |before| :: before[i].role != "extracted"
    requires c.language.None? && IsNewBody(env, c, input)
    ensures Rescraped(env, before, before + [c], |before|, input)
  {
    assert (before + [c])[|before|] == c;
  }

  lemma RescrapedAt(env: Env, s: State, contents: seq<Content>, input: RescrapeInput, s1: State, after: seq<Content>)
    requires (s1, after) == ExtractedReplaced(env, s, contents, env.trim(input.content), FormatOf(env, input.format))
    ensures Rescraped(env, contents, after, FirstExtracted(contents), input)
  {
    var k, body, format := FirstExtracted(contents), env.trim(input.content), FormatOf(env, input.format);
    if k < |contents| {
      ReplacedAt(env, contents, k, contents[k].(format := format, body := body, sourceID := None), input);
    } else {
      var c := Extracted(env, s, body, format).1;
      AddedAt(env, contents, c, input);
      assert after == contents + [c];
    }
  }

  lemma RescrapeDraws(env: Env, s: State, contents: seq<Content>, body: string, format: string)
    ensures FirstExtracted(contents) < |contents| ==> ExtractedReplaced(env, s, contents, body, format).0 == s
    ensures FirstExtracted(contents) == |contents| ==> ExtractedReplaced(env, s, contents, body, format).0 == Drawn(s)
  {
  }

  /** The URLs are those of the page scraped: the canonical one as found, the source kept when none was found. */
  ghost predicate Readdressed(env: Env, m: Metadata, m': Metadata, input: RescrapeInput) {
    && m' == m.(canonicalURL := m'.canonicalURL, sourceURL := m'.sourceURL, updatedAt := m'.updatedAt)
    && IsOptional(env, input.url, m'.canonicalURL)
    && m'.sourceURL == if env.trim(input.sourceURL) == "" then m.sourceURL else Some(env.trim(input.sourceURL))
  }

  lemma RescrapeStored(env: Env, s: State, id: string, input: RescrapeInput, s1: State, contents: seq<Content>,
                       s': State)
    requires Inv(s) && RescrapeSpec(env, s, id, input) == Ok(s') && id in s.docs && (s1 == s || s1 == Drawn(s))
    requires ExtractedReplaced(env, s, s.docs[id].contents, env.trim(input.content), FormatOf(env, input.format))
          == (s1, contents)
    ensures id in s'.docs
    ensures s' == s.(next := s1.next + 1, docs := s.docs[id := s'.docs[id]], versions := s'.versions)
    ensures s'.docs[id].contents == contents && s'.docs[id].tagIDs == s.docs[id].tagIDs
    ensures Readdressed(env, s.docs[id].meta, s'.docs[id].meta, input)
    ensures s'.docs[id].meta.updatedAt == env.clock(s1.next)
    ensures Recorded(s, s', id, "content", env.clock(s1.next))
  {
    StoredDocument(s, id);
  }

  /** The edit is recorded first; then one body is new, and the URLs are those of the page scraped. `k` is the
      position of that body. */
  lemma RescrapeOutcome(env: Env, s: State, id: string, input: RescrapeInput, s': State) returns (k: nat)
    requires Inv(s) && RescrapeSpec(env, s, id, input) == Ok(s')
    ensures id in s.docs && id in s'.docs
    ensures s' == s.(next := s'.next, docs := s.docs[id := s'.docs[id]], versions := s'.versions)
    ensures Rescraped(env, s.docs[id].contents, s'.docs[id].contents, k, input)
    ensures Readdressed(env, s.docs[id].meta, s'.docs[id].meta, input) && s'.docs[id].tagIDs == s.docs[id].tagIDs
    ensures var draws := if k == |s.docs[id].contents| then 1 else 0;
            && s'.next == s.next + draws + 1 && s'.docs[id].meta.updatedAt == env.clock(s.next + draws)
            && Recorded(s, s', id, "content", env.clock(s.next + draws))
  {
    k := FirstExtracted(s.docs[id].contents);
    RescrapeDraws(env, s, s.docs[id].contents, env.trim(input.content), FormatOf(env, input.format));
    var (s1, contents) := ExtractedReplaced(env, s, s.docs[id].contents, env.trim(input.content),
                                            FormatOf(env, input.format));
    RescrapedAt(env, s, s.docs[id].contents, input, s1, contents);
    RescrapeStored(env, s, id, input, s1, contents, s');
    assert s1.next == s.next + if k == |s.docs[id].contents| then 1 else 0;
  }

  // ----- Translations -----

  predicate TranslatedAlready(contents: seq<Content>, source: string, language: string) {
    exists c :: c in contents && c.role == "translation" && c.sourceID == Some(source) && c.language == Some(language)
  }

  /** A translation can be prepared exactly if the document is stored and not deleted, the source is one of its
      contents, the language is a known one, and this translation is not there yet. */
  lemma PrepareOutcome(env: Env, s: State, id: string, sourceID: string, language: string)
    ensures var r, source, target :=
              PreparedTranslation(env, s, id, sourceID, language), env.trim(sourceID), env.lower(env.trim(language));
            if id !in s.docs || s.docs[id].meta.deletedAt.Some? then r == Err(NotFound("document"))
            else if source == "" then r == Err(Validation("source content is required"))
            else if forall c | c in s.docs[id].contents :: c.id != source then r == Err(NotFound("document content"))
            else if target == "" then r == Err(Validation("target language is required"))
            else if !env.languageTag(target) then r == Err(Validation("target language is invalid"))
            else if TranslatedAlready(s.docs[id].contents, source, target)
                then r == Err(Conflict("translation already exists"))
            else r == Ok((source, target))
  {
    if id in s.docs {
      var contents := s.docs[id].contents;
      if k :| 0 <= k < |contents| && contents[k].id == env.trim(sourceID) {
        assert contents[k] in contents;
      }
      forall k | 0 <= k < |contents| && IsTranslation(contents[k]) && contents[k].sourceID == Some(env.trim(sourceID))
                 && contents[k].language == Some(env.lower(env.trim(language)))
        ensures TranslatedAlready(contents, env.trim(sourceID), env.lower(env.trim(language)))
      {
        assert contents[k] in contents;
      }
      if c :| c in contents && c.role == "translation" && c.sourceID == Some(env.trim(sourceID))
              && c.language == Some(env.lower(env.trim(language))) {
        var k :| 0 <= k < |contents| && contents[k] == c;
        assert IsTranslation(contents[k]);
      }
    }
  }

  /** The content a translation adds. */
  predicate IsTranslated(env: Env, c: Content, input: TranslationInput) {
    && c.role == "translation" && c.body == env.trim(input.content) && IsFormat(env, input.format, c.format)
    && c.sourceID == Some(env.trim(input.sourceID)) && c.language == Some(env.lower(env.trim(input.language)))
  }

  /** The document as it was is recorded; then the translation stands behind its contents, in the body, format,
      language and source asked for, and nothing else changes but the time. */
  lemma AppendTranslationOutcome(env: Env, s: State, id: string, input: TranslationInput)
    requires Inv(s)
    ensures var r, prepared := AppendTranslationSpec(env, s, id, input),
                               PreparedTranslation(env, s, id, input.sourceID, input.language);
            if prepared.Err? then r == Err(prepared.error)
            else if env.trim(input.content) == "" then r == Err(Validation("translated content is required"))
            else if !IsKnownFormat(env, input.format) then r == Err(Validation("content format is invalid"))
            else r.Ok? && id in s.docs && Appended(env, s, r.value, id, input)
  {
    if AppendTranslationSpec(env, s, id, input).Ok? {
      TranslationAppended(env, s, id, input, AppendTranslationSpec(env, s, id, input).value);
    }
  }

  ghost predicate Appended(env: Env, s: State, s': State, id: string, input: TranslationInput)
    requires id in s.docs
  {
    var (d, now) := (s.docs[id], env.clock(s.next));
    && id in s'.docs
    && s' == s.(next := s.next + 2, docs := s.docs[id := s'.docs[id]], versions := s'.versions)
    && |s'.docs[id].contents| == |d.contents| + 1 && IsTranslated(env, s'.docs[id].contents[|d.contents|], input)
    && s'.docs[id] == d.(meta := d.meta.(updatedAt := now),
                         contents := d.contents + [s'.docs[id].contents[|d.contents|]])
    && Recorded(s, s', id, "content", now)
  }

  lemma TranslationAppended(env: Env, s: State, id: string, input: TranslationInput, s': State)
    requires Inv(s) && AppendTranslationSpec(env, s, id, input) == Ok(s')
    ensures id in s.docs && Appended(env, s, s', id, input)
  {
    StoredDocument(s, id);
  }
}
