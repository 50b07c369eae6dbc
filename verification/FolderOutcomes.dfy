/** What the folder operations come to, field by field: which folder gets a role, where documents are
    placed, which input is accepted, what a created or changed folder looks like. */
module FolderOutcomes {
  import opened Prelude
  import opened Entities
  import opened FolderGraph
  import opened FolderForest
  import opened Library
  import opened SystemFolders
  import opened FolderOps

  // ----- System folders -----

  /** The folder that takes a role nobody holds: the root that has the role's name, or else a new root
      under the reserved identifier, with the role's own place among the roots. */
  ghost predicate TakesRole(s: State, s': State, role: string, id: string, now: int) {
    || (id in s.folders && s.folders[id].parentID.None?
        && s'.folders == s.folders[id := s.folders[id].(systemRole := Some(role))])
    || (id !in s.folders && id in s'.folders
        && (forall f | f in s.folders :: s.folders[f].parentID.Some? || s.folders[f].name != s'.folders[id].name)
        && s'.folders[id].sortOrder == (if role == "inbox" then 0 else if role == "feeds" then 1000 else 9000)
        && s'.folders[id].createdAt == now == s'.folders[id].updatedAt && s'.folders[id].id == id
        && s'.folders == s.folders[id := s'.folders[id]])
  }

  /** Asking for a role: its holder, if there is one, and nothing changes; otherwise exactly one folder
      takes it. Either way the folder is a root of the role's name. */
  lemma EnsuredOutcome(env: Env, s: State, role: string, s': State, id: string)
    requires Inv(s) && role in {"inbox", "feeds", "trash"} && Ensured(env, s, role) == (s', id)
    ensures s' == s.(folders := s'.folders) && id in s'.folders
    ensures s'.folders[id].systemRole == Some(role) && s'.folders[id].parentID.None?
    ensures s'.folders[id].name == if role == "inbox" then "Inbox" else if role == "feeds" then "Feeds" else "Trash"
    ensures id in s.folders || id == (if role == "inbox" then "folder_default_inbox"
                                      else if role == "feeds" then "folder_system_feeds" else "folder_system_trash")
    ensures if exists f :: f in s.folders && s.folders[f].systemRole == Some(role)
            then s' == s else TakesRole(s, s', role, id, env.clock(s.next))
  {
    FoldersSound(s);
    EnsuredInKeepsInv(s.next, s.folders, Now(env, s), role);
    assert s'.folders[id].systemRole.Some?;
  }

  /** No folder loses its role, its name or its parent. */
  ghost predicate RolesStay(before: Folders, after: Folders) {
    forall f | f in before ::
      && f in after && after[f].parentID == before[f].parentID && after[f].name == before[f].name
      && (before[f].systemRole.Some? ==> after[f].systemRole == before[f].systemRole)
  }

  lemma EnsuredRolesStay(env: Env, s: State, role: string, s': State, id: string)
    requires Inv(s) && role in {"inbox", "feeds", "trash"} && Ensured(env, s, role) == (s', id)
    ensures Inv(s') && RolesStay(s.folders, s'.folders) && s'.folders[id].systemRole == Some(role)
  {
    FoldersSound(s);
    EnsuredKeepsInv(env, s, role);
    EnsuredInKeepsInv(s.next, s.folders, Now(env, s), role);
    if id in s.folders && s.folders[id].systemRole.Some? {
      RoleNamesDiffer(s.folders[id].systemRole.value, role);
    }
  }

  /** Listing the folders leaves Inbox, Feeds and Trash in place, whatever was there before. */
  lemma ListFoldersOutcome(env: Env, s: State)
    requires Inv(s)
    ensures var s' := SystemFoldersSpec(env, s);
            && s' == s.(folders := s'.folders) && RolesStay(s.folders, s'.folders)
            && forall role | role in {"inbox", "feeds", "trash"} ::
                 exists f :: f in s'.folders && s'.folders[f].systemRole == Some(role)
  {
    var (s1, inbox) := Ensured(env, s, "inbox");
    EnsuredRolesStay(env, s, "inbox", s1, inbox);
    var (s2, feeds) := Ensured(env, s1, "feeds");
    EnsuredRolesStay(env, s1, "feeds", s2, feeds);
    var (s3, trash) := Ensured(env, s2, "trash");
    EnsuredRolesStay(env, s2, "trash", s3, trash);
    assert s3.folders[inbox].systemRole == Some("inbox") && s3.folders[feeds].systemRole == Some("feeds");
  }

  // ----- Where documents are placed -----

  /** A blank folder means Inbox. A named one is taken exactly if it is stored, does not lie in Trash
      and, unless feeds are allowed, not below Feeds; lying in a folder is reaching it by parent steps. */
  lemma PlacementOutcome(env: Env, s: State, folderID: string, allowFeeds: bool)
    requires Inv(s)
    ensures var r, id := DocumentFolderFor(env, s, folderID, allowFeeds), env.trim(folderID);
            if id == "" then r == Ok(Ensured(env, s, "inbox"))
            else if id !in s.folders then r == Err(NotFound("folder"))
            else if RoleAbove(s.folders, id, "trash") then r == Err(Validation("folder cannot be trash"))
            else if RoleAbove(s.folders, id, "feeds") && !allowFeeds
                then r == Err(Validation("folder cannot be feeds"))
            else r == Ok((s, id))
  {
    FoldersSound(s);
    RoleWalkFindsRoles(s.folders, env.trim(folderID), "trash");
    RoleWalkFindsRoles(s.folders, env.trim(folderID), "feeds");
  }

  // ----- Creating and changing folders -----

  /** Folder `id`, empty for a new one, can be called and placed as asked: the name is not blank and no
      sibling has it; the parent is stored, is not the Trash, and does not lie in the folder itself. */
  ghost predicate Acceptable(env: Env, s: State, id: string, input: FolderInput) {
    && env.trim(input.name) != ""
    && (input.parentID.Some? ==>
          && input.parentID.value in s.folders && s.folders[input.parentID.value].systemRole != Some("trash")
          && !Reaches(s.folders, input.parentID.value, id))
    && forall f | f in s.folders && f != id ::
         s.folders[f].name != env.trim(input.name) || s.folders[f].parentID != input.parentID
  }

  lemma NothingReachesEmpty(folders: Folders, f: string)
    requires Forest(folders) && "" !in folders && f in folders
    ensures !Reaches(folders, f, "")
  {
    if Reaches(folders, f, "") {
      var rank :| Ranks(folders, rank);
      var n: nat :| Up(folders, f, n) == Some("");
      ForestClimbStays(folders, rank, f, n);
    }
  }

  lemma {:induction false} ForestClimbStays(folders: Folders, rank: map<string, nat>, f: string, n: nat)
    requires Ranks(folders, rank) && f in folders
    ensures Up(folders, f, n).Some? ==> Up(folders, f, n).value in folders
    decreases n
  {
    assert RankedAt(folders, rank, f);
    if n > 0 && folders[f].parentID.Some? {
      ForestClimbStays(folders, rank, folders[f].parentID.value, n - 1);
    }
  }

  lemma AcceptedWhen(env: Env, s: State, id: string, input: FolderInput)
    requires Inv(s)
    ensures InvalidInput(env, s.folders, id, input).None? <==> Acceptable(env, s, id, input)
  {
    FoldersSound(s);
    if input.parentID.Some? && input.parentID.value in s.folders {
      var p := input.parentID.value;
      assert Up(s.folders, p, 0) == Some(p);
      if id == "" {
        NothingReachesEmpty(s.folders, p);
      } else {
        WalkFindsAncestors(s.folders, p, id);
      }
    }
    forall f | f in s.folders ensures s.folders[f].id == f {
    }
  }

  /** Which complaint an unacceptable input meets: the first that applies. */
  lemma RefusedWith(env: Env, s: State, id: string, input: FolderInput)
    requires Inv(s) && !Acceptable(env, s, id, input)
    ensures InvalidInput(env, s.folders, id, input) == Some(
              if env.trim(input.name) == "" then Validation("folder name is required")
              else if input.parentID == Some(id) then Validation("folder cannot be its own parent")
              else if input.parentID.Some? && input.parentID.value !in s.folders then NotFound("parent folder")
              else if input.parentID.Some? && Reaches(s.folders, input.parentID.value, id)
                  then Validation("folder cannot be placed under its descendant")
              else if input.parentID.Some? && s.folders[input.parentID.value].systemRole == Some("trash")
                  then Validation("folder cannot be placed under trash")
              else Conflict("folder name must be unique among siblings"))
  {
    AcceptedWhen(env, s, id, input);
    FoldersSound(s);
    if input.parentID.Some? && input.parentID.value in s.folders {
      if id == "" {
        NothingReachesEmpty(s.folders, input.parentID.value);
      } else {
        WalkFindsAncestors(s.folders, input.parentID.value, id);
      }
    }
  }

  /** A folder is created exactly if the input is acceptable, as asked for, and nothing else changes. */
  lemma CreateFolderOutcome(env: Env, s: State, input: FolderInput)
    requires Inv(s)
    ensures CreateFolderSpec(env, s, input).Ok? <==> Acceptable(env, s, "", input)
    ensures CreateFolderSpec(env, s, input).Ok? ==>
              var (s', id) := CreateFolderSpec(env, s, input).value;
              && id !in s.folders && id in s'.folders
              && s' == s.(next := s.next + 1, folders := s.folders[id := s'.folders[id]])
              && s'.folders[id] == Folder(id, input.parentID, env.trim(input.name), None, input.sortOrder,
                                          env.clock(s.next), env.clock(s.next))
  {
    AcceptedWhen(env, s, "", input);
    FoldersSound(s);
    NewIDFresh(env, s.next, "folder");
  }

  /** A folder is changed exactly if it is stored, is no system folder, and the input is acceptable: it
      gets the parent, the name and the place asked for, keeps what else it is, and nothing else changes. */
  lemma UpdateFolderOutcome(env: Env, s: State, id: string, input: FolderInput)
    requires Inv(s)
    ensures UpdateFolderSpec(env, s, id, input).Ok? <==>
              id in s.folders && s.folders[id].systemRole.None? && Acceptable(env, s, id, input)
    ensures UpdateFolderSpec(env, s, id, input).Ok? ==>
              var s' := UpdateFolderSpec(env, s, id, input).value;
              && id in s'.folders && s' == s.(folders := s.folders[id := s'.folders[id]])
              && var (f, f') := (s.folders[id], s'.folders[id]);
                 && f'.parentID == input.parentID && f'.name == env.trim(input.name)
                 && f'.sortOrder == input.sortOrder && f'.updatedAt == env.clock(s.next)
                 && f'.id == f.id && f'.systemRole == f.systemRole && f'.createdAt == f.createdAt
    ensures id !in s.folders ==> UpdateFolderSpec(env, s, id, input) == Err(NotFound("folder"))
    ensures id in s.folders && s.folders[id].systemRole.Some? ==>
              UpdateFolderSpec(env, s, id, input) == Err(Validation("system folder cannot be edited"))
  {
    AcceptedWhen(env, s, id, input);
    FoldersSound(s);
    if id in s.folders {
      NotSystemIsPlain(s.next, s.folders, id);
    }
  }

  /** Which complaint a folder whose documents cannot go anywhere meets. */
  lemma EmptyingRefusedWith(env: Env, s: State, folder: Folder, id: string, action: string, now: int)
    requires FolderEmptied(env, s, folder, id, action, now).Err?
    ensures FolderEmptied(env, s, folder, id, action, now).error ==
              if action in {"move_to_parent", "move_to_uncategorized"} then Conflict("default folder has documents")
              else Conflict("folder has documents")
    ensures exists d | d in s.docs :: s.docs[d].meta.folderID == Some(id)
  {
  }

  lemma EmptyingSucceeds(env: Env, s: State, folder: Folder, id: string, action: string, now: int)
    requires FolderEmptied(env, s, folder, id, action, now).Ok? && action !in {MOVE_TO_PARENT, MOVE_TO_UNCATEGORIZED}
    ensures forall d | d in s.docs :: s.docs[d].meta.folderID != Some(id)
  {
    forall d | d in s.docs ensures s.docs[d].meta.folderID != Some(id) {
      assert !InFolder(s, d, id);
    }
  }

  /** Which complaint a folder that cannot be deleted meets. */
  lemma DeleteFolderRefusedWith(env: Env, s: State, id: string, action: string)
    requires Inv(s) && DeleteFolderSpec(env, s, id, action).Err?
    ensures var known := action in {"move_to_parent", "move_to_uncategorized"};
            DeleteFolderSpec(env, s, id, action).error ==
              if id !in s.folders then NotFound("folder")
              else if s.folders[id].systemRole.Some? then Conflict("system folder cannot be deleted")
              else if exists f | f in s.folders :: s.folders[f].parentID == Some(id)
                  then Conflict("folder has child folders")
              else if exists d | d in s.docs :: s.docs[d].meta.folderID == Some(id) then
                if known then Conflict("default folder has documents") else Conflict("folder has documents")
              else Conflict("folder has feeds")
  {
    FoldersSound(s);
    if id in s.folders {
      NotSystemIsPlain(s.next, s.folders, id);
    }
    if id in s.folders {
      if FolderEmptied(env, s, s.folders[id], id, action, Now(env, s)).Err? {
        EmptyingRefusedWith(env, s, s.folders[id], id, action, Now(env, s));
      } else if action !in {MOVE_TO_PARENT, MOVE_TO_UNCATEGORIZED} {
        EmptyingSucceeds(env, s, s.folders[id], id, action, Now(env, s));
      }
    }
  }
}
