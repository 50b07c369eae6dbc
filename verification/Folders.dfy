/** Creating, moving and deleting folders. */
module FolderOps {
  import opened Prelude
  import opened Entities
  import opened FolderGraph
  import opened FolderForest
  import opened Library
  import opened SystemFolders

  datatype FolderInput = FolderInput(parentID: Option<string>, name: string, sortOrder: int)

  predicate IsSystemFolder(folder: Folder) {
    folder.systemRole.Some? && folder.systemRole.value != ""
  }

  /** `validateFolderInput`: the error, if any, for placing folder `id` (empty when new). */
  function InvalidInput(env: Env, folders: Folders, id: string, input: FolderInput): (e: Option<Error>) {
    var name := env.trim(input.name);
    if name == "" then Some(Validation("folder name is required"))
    else if input.parentID == Some(id) then Some(Validation("folder cannot be its own parent"))
    else if input.parentID.Some? && input.parentID.value !in folders then Some(NotFound("parent folder"))
    else if input.parentID.Some? && id != "" && HasAncestor(folders, input.parentID.value, id) then
      Some(Validation("folder cannot be placed under its descendant"))
    else if input.parentID.Some? && folders[input.parentID.value].systemRole == Some(ROLE_TRASH) then
      Some(Validation("folder cannot be placed under trash"))
    else if exists f | f in folders ::
              folders[f].id != id && folders[f].name == name && folders[f].parentID == input.parentID then
      Some(Conflict("folder name must be unique among siblings"))
    else None
  }

  function CreateFolderSpec(env: Env, s: State, input: FolderInput): (r: Result<(State, string)>) {
    match InvalidInput(env, s.folders, "", input)
    case Some(e) => Err(e)
    case None =>
      var now := Now(env, s);
      var id := NewID(env, s.next, "folder");
      var folder := Folder(id, input.parentID, env.trim(input.name), None, input.sortOrder, now, now);
      Ok((WithFolder(Drawn(s), folder), id))
  }

  function UpdateFolderSpec(env: Env, s: State, id: string, input: FolderInput): (r: Result<State>) {
    if id !in s.folders then Err(NotFound("folder"))
    else if IsSystemFolder(s.folders[id]) then Err(Validation("system folder cannot be edited"))
    else match InvalidInput(env, s.folders, id, input)
      case Some(e) => Err(e)
      case None =>
        Ok(WithFolder(s, s.folders[id].(parentID := input.parentID, name := env.trim(input.name),
                                        sortOrder := input.sortOrder, updatedAt := Now(env, s))))
  }

  /** `ListFolders` first puts the three system folders in place. */
  ghost function SystemFoldersSpec(env: Env, s: State): (r: State) {
    Ensured(env, Ensured(env, Ensured(env, s, ROLE_INBOX).0, ROLE_FEEDS).0, ROLE_TRASH).0
  }

  // ----- Deleting a folder -----

  const MOVE_TO_PARENT := "move_to_parent"
  const MOVE_TO_UNCATEGORIZED := "move_to_uncategorized"

  predicate InFolder(s: State, d: string, id: string) {
    d in s.docs && s.docs[d].meta.folderID == Some(id)
  }

  function MovedDocument(d: Document, target: string, now: int): (r: Document) {
    d.(meta := d.meta.(folderID := Some(target), updatedAt := now))
  }

  /** `deletedFolderDocumentTarget`. */
  ghost function DeletionTarget(env: Env, s: State, folder: Folder, id: string,
                                action: string): (r: Result<(State, string)>) {
    if action == MOVE_TO_PARENT then
      match folder.parentID
      case Some(p) => Ok((s, p))
      case None => DefaultForDelete(env, s, id)
    else if action == MOVE_TO_UNCATEGORIZED then DefaultForDelete(env, s, id)
    else Err(Conflict("folder has documents"))
  }

  function DocumentsMoved(docs: map<string, Document>, id: string, target: string, now: int)
    : (r: map<string, Document>)
  {
    map d | d in docs :: if docs[d].meta.folderID == Some(id) then MovedDocument(docs[d], target, now) else docs[d]
  }

  /** `moveDeletedFolderDocuments`. */
  ghost function FolderEmptied(env: Env, s: State, folder: Folder, id: string, action: string,
                               now: int): (r: Result<State>) {
    if forall d | d in s.docs :: !InFolder(s, d, id) then Ok(s)
    else
      var (s', target) :- DeletionTarget(env, s, folder, id, action);
      Ok(s'.(docs := DocumentsMoved(s.docs, id, target, now)))
  }

  /** The feeds that filled the folder now fill its parent, or no folder. */
  function FeedsMoved(feeds: map<string, Feed>, folder: Folder, id: string, action: string, now: int)
    : (r: map<string, Feed>)
  {
    map f | f in feeds ::
      if feeds[f].folderID == Some(id)
      then feeds[f].(folderID := if action == MOVE_TO_PARENT then folder.parentID else None, updatedAt := now)
      else feeds[f]
  }

  predicate HasFeeds(s: State, id: string) {
    exists f | f in s.feeds :: s.feeds[f].folderID == Some(id)
  }

  ghost function DeleteFolderSpec(env: Env, s: State, id: string, action: string): (r: Result<State>) {
    if id !in s.folders then Err(NotFound("folder"))
    else if IsSystemFolder(s.folders[id]) then Err(Conflict("system folder cannot be deleted"))
    else if exists f | f in s.folders :: s.folders[f].parentID == Some(id)
        then Err(Conflict("folder has child folders"))
    else
      var now := Now(env, s);
      var s1 :- FolderEmptied(env, s, s.folders[id], id, action, now);
      if HasFeeds(s, id) && action != MOVE_TO_PARENT && action != MOVE_TO_UNCATEGORIZED
         then Err(Conflict("folder has feeds"))
      else Ok(s1.(feeds := FeedsMoved(s.feeds, s.folders[id], id, action, now), folders := s1.folders - {id}))
  }

  // ----- Invariants -----

  lemma NoParentInput(env: Env, folders: Folders, id: string, input: FolderInput)
    requires "" !in folders && InvalidInput(env, folders, id, input).None? && input.parentID.Some? && id != ""
    ensures input.parentID.value in folders && !Reaches(folders, input.parentID.value, id)
  {
    WalkFindsAncestors(folders, input.parentID.value, id);
  }

  lemma CreateFolderKeepsInv(env: Env, s: State, input: FolderInput)
    requires Inv(s)
    ensures var r := CreateFolderSpec(env, s, input); r.Ok? ==> Inv(r.value.0) && r.value.1 !in s.folders
  {
    var r := CreateFolderSpec(env, s, input);
    if r.Ok? {
      var (s', id) := r.value;
      FoldersSound(s);
      NewIDFresh(env, s.next, "folder");
      NewFolderKeepsInv(s, s'.folders[id]);
      assert s' == WithFolder(Drawn(s), s'.folders[id]);
    }
  }

  lemma AddFolder(next: nat, folders: Folders, folder: Folder)
    requires FolderInv(next, folders)
    requires !Known(next, folder.id) && Known(next + 1, folder.id) && folder.systemRole.None?
    requires folder.parentID.Some? ==> folder.parentID.value in folders
    requires forall f | f in folders :: folders[f].name != folder.name || folders[f].parentID != folder.parentID
    ensures FolderInv(next + 1, folders[folder.id := folder])
  {
    var folders' := folders[folder.id := folder];
    assert folder.id !in folders;
    AddLeaf(folders, folder);
    AddTwinless(folders, folder);
    forall role | IsRole(role) && RoleID(role) in folders' ensures folders'[RoleID(role)].systemRole == Some(role) {
      ReservedKnown(next, role);
    }
  }

  /** A folder under a freshly drawn identifier, with a name no sibling has. */
  lemma NewFolderKeepsInv(s: State, folder: Folder)
    requires Inv(s) && !Known(s.next, folder.id) && Known(s.next + 1, folder.id) && folder.systemRole.None?
    requires folder.parentID.Some? ==> folder.parentID.value in s.folders
    requires forall f | f in s.folders :: s.folders[f].name != folder.name || s.folders[f].parentID != folder.parentID
    ensures Inv(WithFolder(Drawn(s), folder))
  {
    FoldersSound(s);
    AddFolder(s.next, s.folders, folder);
    FoldersReplaced(s, s.next + 1, s.folders[folder.id := folder]);
    assert WithFolder(Drawn(s), folder) == s.(next := s.next + 1, folders := s.folders[folder.id := folder]);
  }

  lemma ReplaceFolder(next: nat, folders: Folders, folder: Folder)
    requires FolderInv(next, folders) && folder.id in folders && Forest(folders[folder.id := folder])
    requires folders[folder.id].systemRole.None? && folder.systemRole.None?
    requires forall f | f in folders && f != folder.id ::
               folders[f].name != folder.name || folders[f].parentID != folder.parentID
    ensures FolderInv(next, folders[folder.id := folder])
  {
    var folders' := folders[folder.id := folder];
    AddTwinless(folders, folder);
    forall role | IsRole(role) && RoleID(role) in folders' ensures folders'[RoleID(role)].systemRole == Some(role) {
      assert folders[RoleID(role)].systemRole == Some(role);
    }
  }

  lemma NotSystemIsPlain(next: nat, folders: Folders, id: string)
    requires FolderInv(next, folders) && id in folders
    ensures IsSystemFolder(folders[id]) <==> folders[id].systemRole.Some?
  {
  }

  lemma UpdateFolderKeepsInv(env: Env, s: State, id: string, input: FolderInput)
    requires Inv(s)
    ensures var r := UpdateFolderSpec(env, s, id, input); r.Ok? ==> Inv(r.value)
  {
    var r := UpdateFolderSpec(env, s, id, input);
    if r.Ok? {
      var folder := r.value.folders[id];
      FoldersSound(s);
      NotSystemIsPlain(s.next, s.folders, id);
      match input.parentID {
        case None => KeepOrDropParent(s.folders, folder);
        case Some(p) =>
          NoParentInput(env, s.folders, id, input);
          Reparent(s.folders, folder, p);
      }
      ReplaceFolder(s.next, s.folders, folder);
      FoldersReplaced(s, s.next, r.value.folders);
    }
  }

  lemma SystemFoldersKeepInv(env: Env, s: State)
    requires Inv(s)
    ensures Inv(SystemFoldersSpec(env, s))
  {
    EnsuredKeepsInv(env, s, ROLE_INBOX);
    var s1 := Ensured(env, s, ROLE_INBOX).0;
    EnsuredKeepsInv(env, s1, ROLE_FEEDS);
    EnsuredKeepsInv(env, Ensured(env, s1, ROLE_FEEDS).0, ROLE_TRASH);
  }

  /** The parent of a childless folder is another folder. */
  lemma ParentIsOther(folders: Folders, id: string)
    requires Forest(folders) && id in folders && folders[id].parentID.Some?
    ensures folders[id].parentID.value in folders && folders[id].parentID.value != id
  {
    var rank :| Ranks(folders, rank);
    assert RankedAt(folders, rank, id);
  }

  lemma DeletionTargetKeepsInv(env: Env, s: State, id: string, action: string)
    requires Inv(s) && id in s.folders && !IsSystemFolder(s.folders[id])
    requires forall f | f in s.folders :: s.folders[f].parentID != Some(id)
    requires DeletionTarget(env, s, s.folders[id], id, action).Ok?
    ensures var (s', target) := DeletionTarget(env, s, s.folders[id], id, action).value;
            && Inv(s') && s' == s.(folders := s'.folders)
            && target in s'.folders && target != id
            && id in s'.folders && !IsSystemFolder(s'.folders[id])
            && s.folders.Keys <= s'.folders.Keys
            && forall f | f in s'.folders :: s'.folders[f].parentID != Some(id)
  {
    if action == MOVE_TO_PARENT && s.folders[id].parentID.Some? {
      FoldersSound(s);
      ParentIsOther(s.folders, id);
    } else {
      DefaultForDeleteKeepsInv(env, s, id);
      var s' := DefaultForDelete(env, s, id).value.0;
      DefaultForDeleteSettles(env, s, id, env, s');
      forall f | f in s'.folders ensures s'.folders[f].parentID != Some(id) {
        if f in s.folders {
          assert s'.folders[f].parentID == s.folders[f].parentID;
        }
      }
    }
  }

  lemma MoveDocumentsKeepsInv(s: State, id: string, target: string, now: int)
    requires Inv(s) && target in s.folders
    ensures Inv(s.(docs := DocumentsMoved(s.docs, id, target, now)))
  {
    DocumentsSound(s);
    var docs' := DocumentsMoved(s.docs, id, target, now);
    forall d | d in docs' ensures DocumentInv(s.next, d, docs'[d], s.folders.Keys, s.tags.Keys) {
      assert DocumentInv(s.next, d, s.docs[d], s.folders.Keys, s.tags.Keys);
    }
    DocumentsReplaced(s, docs');
  }

  lemma MoveFeedsKeepsInv(s: State, folder: Folder, id: string, action: string, now: int)
    requires Inv(s) && (folder.parentID.Some? ==> folder.parentID.value in s.folders)
    ensures Inv(s.(feeds := FeedsMoved(s.feeds, folder, id, action, now)))
  {
    var feeds' := FeedsMoved(s.feeds, folder, id, action, now);
    FeedsSound(s);
    assert FeedsInv(s.next, feeds', s.feedURLs, s.folders.Keys);
    FeedsReplaced(s, feeds', s.feedURLs);
    assert s.(feeds := feeds') == s.(feeds := feeds', feedURLs := s.feedURLs);
  }

  lemma RemoveFolder(next: nat, folders: Folders, id: string)
    requires FolderInv(next, folders) && id in folders && !IsSystemFolder(folders[id])
    requires forall f | f in folders :: folders[f].parentID != Some(id)
    ensures FolderInv(next, folders - {id})
  {
    RemoveLeaf(folders, id);
    StaysTwinless(folders, folders - {id});
  }

  /** A folder nothing refers to can go. */
  lemma RemoveFolderKeepsInv(s: State, id: string)
    requires Inv(s) && id in s.folders && !IsSystemFolder(s.folders[id]) && Unreferenced(s, id)
    ensures Inv(s.(folders := s.folders - {id}))
  {
    FoldersSound(s);
    RemoveFolder(s.next, s.folders, id);
    var s' := s.(folders := s.folders - {id});
    forall part: Part ensures Sound(s', part) {
      assert Sound(s, part);
      if part.DocumentsPart? {
        forall d | d in s.docs ensures DocumentInv(s.next, d, s.docs[d], s'.folders.Keys, s.tags.Keys) {
          assert DocumentInv(s.next, d, s.docs[d], s.folders.Keys, s.tags.Keys);
        }
      }
    }
  }

  /** Every other folder is as before; at most Inbox is new. */
  ghost predicate OthersKept(before: Folders, after: Folders, except: string) {
    && (forall f | f in before && f != except :: f in after && after[f] == before[f])
    && (forall f | f in after && f !in before :: f == "folder_default_inbox")
  }

  /** The documents of folder `id`, soft-deleted ones included, and no others, went to `target`. */
  ghost predicate OnlyItsDocumentsMoved(s: State, s': State, id: string, target: string, now: int) {
    && s'.docs.Keys == s.docs.Keys
    && forall d | d in s.docs ::
         s'.docs[d] == if s.docs[d].meta.folderID == Some(id)
                       then s.docs[d].(meta := s.docs[d].meta.(folderID := Some(target), updatedAt := now))
                       else s.docs[d]
  }

  /** Where the documents of a deleted folder go: to its parent under `move_to_parent`, if there is one.
      Otherwise to the default folder: the one under the reserved identifier, else another root named
      Inbox, else the holder of the inbox role. */
  ghost predicate IsDestination(s: State, s': State, id: string, action: string, target: string)
    requires id in s.folders
  {
    if action == "move_to_parent" && s.folders[id].parentID.Some? then s.folders[id].parentID == Some(target)
    else IsDefaultFolder(s, s', id, target)
  }

  ghost predicate IsDefaultFolder(s: State, s': State, id: string, target: string) {
    var others := s.folders - {id};
    if "folder_default_inbox" in others then target == "folder_default_inbox"
    else if exists f :: f in others && others[f].parentID.None? && others[f].name == "Inbox" then
      target in others && others[target].parentID.None? && others[target].name == "Inbox"
    else target in s'.folders && s'.folders[target].systemRole == Some("inbox")
  }

  /** The feeds that filled the folder fill its parent under `move_to_parent`, no folder otherwise; every
      other feed is as before. */
  ghost predicate OnlyItsFeedsMoved(s: State, s': State, id: string, action: string, now: int)
    requires id in s.folders
  {
    && s'.feeds.Keys == s.feeds.Keys
    && forall f | f in s.feeds ::
         s'.feeds[f] == if s.feeds[f].folderID != Some(id) then s.feeds[f]
                        else s.feeds[f].(folderID := if action == "move_to_parent"
                                         then s.folders[id].parentID else None,
                                         updatedAt := now)
  }

  lemma InboxHolds(env: Env, s: State, s1: State, target: string)
    requires Inv(s) && Ensured(env, s, ROLE_INBOX) == (s1, target)
    ensures target in s1.folders && s1.folders[target].systemRole == Some("inbox")
  {
    FoldersSound(s);
    EnsuredInKeepsInv(s.next, s.folders, Now(env, s), ROLE_INBOX);
  }

  lemma DefaultIsDestination(env: Env, s: State, id: string, s1: State, target: string)
    requires Inv(s) && DefaultForDelete(env, s, id) == Ok((s1, target))
    ensures IsDefaultFolder(s, s1, id, target)
  {
    if INBOX_ID !in s.folders - {id} && RootNamed(s.folders - {id}, RoleName(ROLE_INBOX)).None? {
      InboxHolds(env, s, s1, target);
    }
  }

  lemma TargetIsDestination(env: Env, s: State, id: string, action: string, s1: State, target: string)
    requires Inv(s) && id in s.folders && DeletionTarget(env, s, s.folders[id], id, action) == Ok((s1, target))
    ensures IsDestination(s, s1, id, action, target)
  {
    if !(action == MOVE_TO_PARENT && s.folders[id].parentID.Some?) {
      DefaultIsDestination(env, s, id, s1, target);
    }
  }

  /** No folder, document or feed refers to the folder. */
  ghost predicate Unreferenced(s: State, id: string) {
    && (forall f | f in s.folders :: s.folders[f].parentID != Some(id))
    && (forall d | d in s.docs :: s.docs[d].meta.folderID != Some(id))
    && (forall f | f in s.feeds :: s.feeds[f].folderID != Some(id))
  }

  /** Folder `id` can still be removed: stored, not a system folder, without children. */
  ghost predicate Removable(s: State, id: string) {
    && id in s.folders && !IsSystemFolder(s.folders[id])
    && forall f | f in s.folders :: s.folders[f].parentID != Some(id)
  }

  lemma FolderEmptiedKeepsInv(env: Env, s: State, id: string, action: string, now: int, s': State)
    requires Inv(s) && Removable(s, id) && FolderEmptied(env, s, s.folders[id], id, action, now) == Ok(s')
    ensures Inv(s')
  {
    if exists d :: InFolder(s, d, id) {
      DeletionTargetKeepsInv(env, s, id, action);
      var found := DeletionTarget(env, s, s.folders[id], id, action).value;
      MoveDocumentsKeepsInv(found.0, id, found.1, now);
      assert s' == found.0.(docs := DocumentsMoved(found.0.docs, id, found.1, now));
    } else {
      assert s' == s;
    }
  }

  lemma FolderEmptiedOutcome(env: Env, s: State, id: string, action: string, now: int, s': State)
      returns (target: string)
    requires Inv(s) && Removable(s, id) && FolderEmptied(env, s, s.folders[id], id, action, now) == Ok(s')
    ensures s' == s.(docs := s'.docs, folders := s'.folders)
    ensures Removable(s', id) && OthersKept(s.folders, s'.folders, id) && s.folders.Keys <= s'.folders.Keys
    ensures OnlyItsDocumentsMoved(s, s', id, target, now) && target != id
    ensures (exists d :: InFolder(s, d, id)) ==> target in s'.folders && IsDestination(s, s', id, action, target)
  {
    target := id + "'";
    if exists d :: InFolder(s, d, id) {
      TargetIsDestination(env, s, id, action, DeletionTarget(env, s, s.folders[id], id, action).value.0,
                          DeletionTarget(env, s, s.folders[id], id, action).value.1);
      DeletionTargetKeepsInv(env, s, id, action);
      DeletionTargetKeepsFolders(env, s, id, action);
      target := DeletionTarget(env, s, s.folders[id], id, action).value.1;
    }
  }

  /** Moving the feeds and removing the folder, once its documents are gone. */
  lemma EmptyFolderRemoved(s: State, folder: Folder, id: string, action: string, now: int)
    requires Inv(s) && Removable(s, id)
    requires forall d | d in s.docs :: s.docs[d].meta.folderID != Some(id)
    requires folder.parentID.Some? ==> folder.parentID.value in s.folders && folder.parentID.value != id
    ensures Inv(s.(feeds := FeedsMoved(s.feeds, folder, id, action, now), folders := s.folders - {id}))
  {
    var s2 := s.(feeds := FeedsMoved(s.feeds, folder, id, action, now));
    MoveFeedsKeepsInv(s, folder, id, action, now);
    RemoveFolderKeepsInv(s2, id);
    assert s2.(folders := s2.folders - {id})
        == s.(feeds := FeedsMoved(s.feeds, folder, id, action, now), folders := s.folders - {id});
  }

  lemma DeleteFolderKeepsInv(env: Env, s: State, id: string, action: string, s': State)
    requires Inv(s) && DeleteFolderSpec(env, s, id, action) == Ok(s')
    ensures Inv(s')
  {
    var now, folder := Now(env, s), s.folders[id];
    var s1 := FolderEmptied(env, s, folder, id, action, now).value;
    FoldersSound(s);
    var target := FolderEmptiedOutcome(env, s, id, action, now, s1);
    FolderEmptiedKeepsInv(env, s, id, action, now, s1);
    if folder.parentID.Some? {
      ParentIsOther(s.folders, id);
    }
    EmptyFolderRemoved(s1, folder, id, action, now);
    assert s' == s1.(feeds := FeedsMoved(s1.feeds, folder, id, action, now), folders := s1.folders - {id});
  }

  /** What a successful `DeleteFolder` does: nothing refers to the folder any more; exactly its
      documents moved, together, to the folder that the action names; its feeds fill the parent or
      nothing; every other document and feed, and every version, tag and feed item, is as before. */
  lemma DeleteFolderOutcome(env: Env, s: State, id: string, action: string, s': State) returns (target: string)
    requires Inv(s) && DeleteFolderSpec(env, s, id, action) == Ok(s')
    ensures id in s.folders && id !in s'.folders && Unreferenced(s', id)
    ensures OnlyItsDocumentsMoved(s, s', id, target, Now(env, s))
    ensures (exists d | d in s.docs :: s.docs[d].meta.folderID == Some(id)) ==>
              target in s'.folders && IsDestination(s, s', id, action, target)
    ensures OnlyItsFeedsMoved(s, s', id, action, Now(env, s))
    ensures s' == s.(docs := s'.docs, feeds := s'.feeds, folders := s'.folders)
    ensures OthersKept(s.folders, s'.folders, id)
  {
    var now, folder := Now(env, s), s.folders[id];
    var s1 := FolderEmptied(env, s, folder, id, action, now).value;
    target := FolderEmptiedOutcome(env, s, id, action, now, s1);
    FoldersSound(s);
    if folder.parentID.Some? {
      ParentIsOther(s.folders, id);
    }
    RemovedOutcome(s, s1, folder, id, action, target, now, s');
    if d :| d in s.docs && s.docs[d].meta.folderID == Some(id) {
      assert InFolder(s, d, id);
      DestinationStays(s, s1, s', id, action, target);
    }
  }

  lemma DestinationStays(s: State, s1: State, s': State, id: string, action: string, target: string)
    requires id in s.folders && IsDestination(s, s1, id, action, target) && target in s1.folders && target != id
    requires s'.folders == s1.folders - {id}
    ensures target in s'.folders && IsDestination(s, s', id, action, target)
  {
  }

  /** What removing the emptied folder leaves of the outcome of emptying it. */
  lemma RemovedOutcome(s: State, s1: State, folder: Folder, id: string, action: string, target: string, now: int,
                       s': State)
    requires OnlyItsDocumentsMoved(s, s1, id, target, now) && OthersKept(s.folders, s1.folders, id) && target != id
    requires Removable(s1, id) && s1.feeds == s.feeds
    requires folder.parentID.Some? ==> folder.parentID.value != id
    requires s' == s1.(feeds := FeedsMoved(s.feeds, folder, id, action, now), folders := s1.folders - {id})
    ensures Unreferenced(s', id) && OnlyItsDocumentsMoved(s, s', id, target, now)
            && OthersKept(s.folders, s'.folders, id)
    ensures id in s.folders && folder == s.folders[id] ==> OnlyItsFeedsMoved(s, s', id, action, now)
  {
  }

  lemma DeletionTargetKeepsFolders(env: Env, s: State, id: string, action: string)
    requires Inv(s) && id in s.folders && DeletionTarget(env, s, s.folders[id], id, action).Ok?
    ensures OthersKept(s.folders, DeletionTarget(env, s, s.folders[id], id, action).value.0.folders, id)
  {
    if !(action == MOVE_TO_PARENT && s.folders[id].parentID.Some?) {
      DefaultKeepsOthers(env, s, id);
    }
  }

  /** A role that nobody holds is put on one folder; here no other folder can be that one. */
  lemma InboxMadeKeepsOthers(folders: Folders, now: int, id: string)
    requires INBOX_ID !in folders || INBOX_ID == id
    requires forall f | f in folders && f != id ::
               folders[f].parentID.Some? || folders[f].name != RoleName(ROLE_INBOX)
    ensures OthersKept(folders, EnsuredIn(folders, now, ROLE_INBOX).0, id)
  {
  }

  lemma DefaultKeepsOthers(env: Env, s: State, id: string)
    requires Inv(s) && DefaultForDelete(env, s, id).Ok?
    ensures OthersKept(s.folders, DefaultForDelete(env, s, id).value.0.folders, id)
  {
    if INBOX_ID !in s.folders - {id} && RootNamed(s.folders - {id}, RoleName(ROLE_INBOX)).None? {
      forall f | f in s.folders && f != id
        ensures s.folders[f].parentID.Some? || s.folders[f].name != RoleName(ROLE_INBOX)
      {
        assert f in s.folders - {id};
      }
      InboxMadeKeepsOthers(s.folders, Now(env, s), id);
    }
  }

  /** With documents to move to the default folder, deletion fails only for a root folder named
      Inbox that does not bear the inbox role: it would have to receive its own documents. */
  lemma DefaultTargetExists(env: Env, s: State, id: string)
    requires Inv(s) && id in s.folders && !IsSystemFolder(s.folders[id])
    ensures DefaultForDelete(env, s, id).Ok? <==>
            !(s.folders[id].parentID.None? && s.folders[id].name == RoleName(ROLE_INBOX))
  {
    FoldersSound(s);
    assert IsRole(ROLE_INBOX);
    forall f | f in s.folders - {id} && s.folders[f].parentID.None? && s.folders[f].name == RoleName(ROLE_INBOX)
      ensures !(s.folders[id].parentID.None? && s.folders[id].name == RoleName(ROLE_INBOX))
    {
      assert NotTwins(s.folders, f, id);
    }
    if SystemFolder(s.folders, ROLE_INBOX).Some? {
      HolderIsNamedRoot(s, ROLE_INBOX);
    }
  }

  /** Exactly when a folder can be deleted. */
  lemma DeleteFolderSucceeds(env: Env, s: State, id: string, action: string)
    requires Inv(s) && id in s.folders
    ensures DeleteFolderSpec(env, s, id, action).Ok? <==>
            && s.folders[id].systemRole.None?
            && (forall f | f in s.folders :: s.folders[f].parentID != Some(id))
            && (HasFeeds(s, id) || (exists d :: InFolder(s, d, id))
                ==> action in {MOVE_TO_PARENT, MOVE_TO_UNCATEGORIZED})
            && ((exists d :: InFolder(s, d, id))
                && (action == MOVE_TO_UNCATEGORIZED || s.folders[id].parentID.None?) ==>
                  s.folders[id].parentID.Some? || s.folders[id].name != RoleName(ROLE_INBOX))
  {
    FoldersSound(s);
    NotSystemIsPlain(s.next, s.folders, id);
    if s.folders[id].systemRole.None? {
      DefaultTargetExists(env, s, id);
    }
  }
}
