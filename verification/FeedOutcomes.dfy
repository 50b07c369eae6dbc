/** What the feed operations come to, field by field. */
module FeedOutcomes {
  import opened Prelude
  import opened Entities
  import opened FolderGraph
  import opened FolderForest
  import opened Library
  import opened SystemFolders
  import opened FeedOps
  import FolderOutcomes
  import Text

  /** A URL that a feed can have: not blank, with a host, of a web scheme. */
  predicate UsableURL(env: Env, url: string) {
    url != "" && env.hasHost(url) && env.webScheme(url)
  }

  ghost predicate TakenBy(s: State, url: string, id: string) {
    id in s.feeds && s.feeds[id].url == url
  }

  /** The URL index after the feeds changed: exactly the stored feeds, by their URLs. */
  ghost predicate IndexIsExact(s: State) {
    forall url, id :: (url in s.feedURLs && s.feedURLs[url] == id) <==> TakenBy(s, url, id)
  }

  lemma SoundIndexIsExact(s: State)
    requires Inv(s)
    ensures IndexIsExact(s)
  {
    FeedsSound(s);
  }

  /** The name of a new feed's folder: the wanted name if no sibling has it, otherwise the wanted name
      with the least number from 2 on that no sibling's name bears. */
  ghost predicate IsFreshName(siblings: set<string>, wanted: string, name: string) {
    if wanted !in siblings then name == wanted
    else exists k: nat :: IsLeastFree(siblings, wanted, k) && name == wanted + " (" + Text.Decimal(k) + ")"
  }

  ghost predicate IsLeastFree(siblings: set<string>, wanted: string, k: nat) {
    && k >= 2 && wanted + " (" + Text.Decimal(k) + ")" !in siblings
    && forall i: nat | 2 <= i < k :: wanted + " (" + Text.Decimal(i) + ")" in siblings
  }

  lemma UniqueNameIsFresh(env: Env, used: set<string>, base: string)
    ensures IsFreshName(used, if env.trim(base) == "" then "Feed" else env.trim(base), UniqueName(env, used, base))
  {
    var wanted := if env.trim(base) == "" then "Feed" else env.trim(base);
    if wanted in used {
      var k := FirstFreeOf(used, wanted);
      forall i: nat | 2 <= i < k ensures wanted + " (" + Text.Decimal(i) + ")" in used {
        assert Candidate(wanted, i) in used;
      }
      assert IsLeastFree(used, wanted, k);
    }
  }

  /** The title given, trimmed; none when it is missing or blank. */
  ghost predicate IsTitle(env: Env, given: Option<string>, title: Option<string>) {
    title == if given.Some? && env.trim(given.value) != "" then Some(env.trim(given.value)) else None
  }

  /** A folder for the feed right below Feeds, called after the title, or after the host. */
  ghost predicate IsFeedFolder(env: Env, s: State, s': State, feed: Feed, sortOrder: int) {
    && feed.folderID.Some? && feed.folderID.value in s'.folders && feed.folderID.value !in s.folders
    && var f := s'.folders[feed.folderID.value];
       && f.id == feed.folderID.value && f.systemRole.None? && f.sortOrder == sortOrder
       && f.createdAt == f.updatedAt == env.clock(s.next)
       && f.parentID.Some? && f.parentID.value in s'.folders && f.parentID.value != f.id
       && s'.folders[f.parentID.value].systemRole == Some("feeds")
       && IsFreshName(set g | g in s'.folders && g != f.id
                      && s'.folders[g].parentID == f.parentID :: s'.folders[g].name,
                      WantedName(env, feed), f.name)
  }

  /** The feed's title, or the host name its URL gives, or plainly "Feed". */
  function WantedName(env: Env, feed: Feed): (name: string) {
    var titled := if feed.title.Some? then env.trim(feed.title.value) else "";
    var called := env.trim(if titled != "" then titled else env.feedHostName(feed.url));
    if called == "" then "Feed" else called
  }

  /** A feed is created exactly if its URL is usable and free and no folder is asked for. */
  lemma CreateFeedSucceeds(env: Env, s: State, input: CreateFeedInput, sortOrder: int)
    requires Inv(s)
    ensures CreateFeedSpec(env, s, input, sortOrder).Ok? <==>
              && UsableURL(env, env.trim(input.url))
              && (forall f | f in s.feeds :: s.feeds[f].url != env.trim(input.url))
              && (input.folderID.None? || env.trim(input.folderID.value) == "")
    ensures CreateFeedSpec(env, s, input, sortOrder).Err? ==>
              CreateFeedSpec(env, s, input, sortOrder).error ==
                if env.trim(input.url) == "" then Validation("feed url is required")
                else if !env.hasHost(env.trim(input.url)) then Validation("feed url is invalid")
                else if !env.webScheme(env.trim(input.url)) then Validation("feed url must use http or https")
                else if exists f | f in s.feeds :: s.feeds[f].url == env.trim(input.url)
                    then Conflict("feed url already exists")
                else Validation("feed folder is assigned automatically")
  {
    FeedByURLExact(s, env.trim(input.url));
  }

  /** The siblings of a folder just added are the folders that were below its parent. */
  lemma SiblingsOfNew(before: Folders, f: Folder, after: Folders, parent: string)
    requires f.id !in before && f.parentID == Some(parent) && after == before[f.id := f]
    ensures (set g | g in after && g != f.id && after[g].parentID == f.parentID :: after[g].name)
         == UsedNames(before, parent)
  {
    var names := set g | g in after && g != f.id && after[g].parentID == f.parentID :: after[g].name;
    forall n ensures n in names <==> n in UsedNames(before, parent) {
      if g :| g in before && before[g].parentID == Some(parent) && before[g].name == n {
        assert g in after && after[g] == before[g];
      }
    }
  }

  lemma FolderIsFeedFolder(env: Env, s: State, title: Option<string>, url: string, sortOrder: int, s0: State,
                           parent: string, s1: State, id: string, feed: Feed)
    requires Inv(s) && Ensured(env, s, "feeds") == (s0, parent)
    requires FeedFolderCreated(env, s, title, url, sortOrder) == (s1, id)
    requires feed.folderID == Some(id) && feed.url == url && feed.title == title
    ensures IsFeedFolder(env, s, s1, feed, sortOrder) && s1.folders == s0.folders[id := s1.folders[id]]
  {
    FeedFolderCreatedKeepsInv(env, s, title, url, sortOrder);
    EnsuredKeepsInv(env, s, "feeds");
    NotStoredYet(env, s0);
    SiblingsOfNew(s0.folders, s1.folders[id], s1.folders, parent);
    UniqueNameIsFresh(env, UsedNames(s0.folders, parent), FolderBaseName(env, title, url));
  }

  lemma NotStoredYet(env: Env, s: State)
    requires Inv(s)
    ensures NewID(env, s.next, "folder") !in s.folders
  {
    FoldersSound(s);
    NewIDFresh(env, s.next, "folder");
  }

  /** What a created feed looks like; besides it and its folder nothing changes. */
  lemma CreateFeedResult(env: Env, s: State, input: CreateFeedInput, sortOrder: int, s': State, id: string)
    requires Inv(s) && CreateFeedSpec(env, s, input, sortOrder) == Ok((s', id))
    ensures id !in s.feeds && id in s'.feeds && IndexIsExact(s')
    ensures s' == s.(next := s.next + 2, folders := s'.folders, feeds := s.feeds[id := s'.feeds[id]],
                     feedURLs := s'.feedURLs)
    ensures var feed := s'.feeds[id];
            && feed.id == id && feed.url == env.trim(input.url) && IsTitle(env, input.title, feed.title)
            && feed.enabled == (input.enabled != Some(false)) && feed.lastCheckedAt.None?
            && feed.createdAt == feed.updatedAt == env.clock(s.next)
            && IsFeedFolder(env, s, s', feed, sortOrder)
    ensures var folderID := s'.feeds[id].folderID.value;
            s'.folders == Ensured(env, s, "feeds").0.folders[folderID := s'.folders[folderID]]
  {
    CreateFeedKeepsInv(env, s, input, sortOrder, s', id);
    SoundIndexIsExact(s');
    CreateFeedOutcome(env, s, input, sortOrder, s', id);
    var feed := s'.feeds[id];
    var s1 := FeedFolderCreated(env, s, feed.title, feed.url, sortOrder).0;
    FeedFolderCreatedKeepsInv(env, s, feed.title, feed.url, sortOrder);
    var (s0, parent) := Ensured(env, s, "feeds");
    FolderIsFeedFolder(env, s, feed.title, feed.url, sortOrder, s0, parent, s1, feed.folderID.value, feed);
  }

  /** The folder a feed may be given: none when blank; otherwise a stored one that does not lie in Trash. */
  lemma FeedFolderOutcome(env: Env, s: State, value: string)
    requires Inv(s)
    ensures var id := env.trim(value);
            FeedFolder(env, s, value) ==
              if id == "" then Ok(None)
              else if id !in s.folders then Err(NotFound("folder"))
              else if RoleAbove(s.folders, id, "trash") then Err(Validation("folder cannot be trash"))
              else Ok(Some(id))
  {
    FoldersSound(s);
    RoleWalkFindsRoles(s.folders, env.trim(value), "trash");
  }

  /** A feed is changed exactly if it is stored, its new URL is usable and no other feed has it, and its
      new folder is one that feeds may be given. */
  lemma UpdateFeedSucceeds(env: Env, s: State, id: string, input: UpdateFeedInput)
    requires Inv(s)
    ensures UpdateFeedSpec(env, s, id, input).Ok? <==>
              && id in s.feeds
              && (input.url.Some? ==>
                    && UsableURL(env, env.trim(input.url.value))
                    && forall f | f in s.feeds && f != id :: s.feeds[f].url != env.trim(input.url.value))
              && (input.folderID.Some? && env.trim(input.folderID.value) != "" ==>
                    && env.trim(input.folderID.value) in s.folders
                    && !RoleAbove(s.folders, env.trim(input.folderID.value), "trash"))
  {
    if input.url.Some? {
      FeedByURLExact(s, env.trim(input.url.value));
      SoundIndexIsExact(s);
      forall f | f in s.feeds ensures TakenBy(s, s.feeds[f].url, f) {
      }
    }
    if input.folderID.Some? {
      FeedFolderOutcome(env, s, input.folderID.value);
    }
  }

  /** What was asked for is as asked, and everything else about the feed is as before. */
  ghost predicate IsChanged(env: Env, f: Feed, f': Feed, input: UpdateFeedInput, now: int) {
    && f'.url == (if input.url.Some? then env.trim(input.url.value) else f.url)
    && (if input.title.Some? then IsTitle(env, input.title.value, f'.title) else f'.title == f.title)
    && (match input.folderID
        case None => f'.folderID == f.folderID
        case Some(folder) => f'.folderID == if env.trim(folder) == "" then None else Some(env.trim(folder)))
    && f'.enabled == (if input.enabled.Some? then input.enabled.value else f.enabled)
    && f'.updatedAt == now && f'.id == f.id && f'.lastCheckedAt == f.lastCheckedAt && f'.createdAt == f.createdAt
  }

  lemma FeedStored(s: State, f: Feed, s': State)
    requires s' == WithFeed(s, f)
    ensures f.id in s'.feeds && s'.feeds[f.id] == f
    ensures s' == s.(feeds := s.feeds[f.id := f], feedURLs := s'.feedURLs)
  {
  }

  /** The update stores a feed changed as asked. */
  lemma ChangedFeedStored(env: Env, s: State, id: string, input: UpdateFeedInput, s': State) returns (f: Feed)
    requires id in s.feeds && UpdateFeedSpec(env, s, id, input) == Ok(s')
    ensures s' == WithFeed(s, f) && IsChanged(env, s.feeds[id], f, input, env.clock(s.next))
  {
    var feed := s.feeds[id];
    f := feed.(
      url := if input.url.None? then feed.url else ValidateFeedURL(env, input.url.value).value,
      title := if input.title.Some? then OptionalText(env, input.title.value) else feed.title,
      folderID := if input.folderID.None? then feed.folderID else FeedFolder(env, s, input.folderID.value).value,
      enabled := if input.enabled.Some? then input.enabled.value else feed.enabled,
      updatedAt := Now(env, s));
  }

  /** The feed is changed as asked, and every other feed is as before. */
  lemma UpdateFeedResult(env: Env, s: State, id: string, input: UpdateFeedInput, s': State)
    requires Inv(s) && UpdateFeedSpec(env, s, id, input) == Ok(s')
    ensures id in s.feeds && id in s'.feeds
    ensures s' == s.(feeds := s.feeds[id := s'.feeds[id]], feedURLs := s'.feedURLs)
    ensures IsChanged(env, s.feeds[id], s'.feeds[id], input, env.clock(s.next))
  {
    FeedsSound(s);
    var f := ChangedFeedStored(env, s, id, input, s');
    FeedStored(s, f, s');
  }

  /** A successful change leaves the URL index exact. */
  lemma UpdateFeedIndex(env: Env, s: State, id: string, input: UpdateFeedInput, s': State)
    requires Inv(s) && UpdateFeedSpec(env, s, id, input) == Ok(s')
    ensures IndexIsExact(s')
  {
    UpdateFeedKeepsInv(env, s, id, input, s');
    SoundIndexIsExact(s');
  }

  /** Deleting a feed takes exactly its row, its URL and its items along. */
  lemma DeleteFeedResult(s: State, id: string)
    requires Inv(s)
    ensures DeleteFeedSpec(s, id) == if id in s.feeds
              then Ok(s.(feeds := s.feeds - {id}, items := s.items - {id}, feedURLs := s.feedURLs - {s.feeds[id].url}))
              else Err(NotFound("feed"))
    ensures id in s.feeds ==> IndexIsExact(DeleteFeedSpec(s, id).value)
  {
    if id in s.feeds {
      DeleteFeedKeepsInv(s, id);
      SoundIndexIsExact(DeleteFeedSpec(s, id).value);
    }
  }
}
