/** Inbox, Feeds and Trash: found by role, by reserved identifier or by name, created otherwise. */
module SystemFolders {
  import opened Prelude
  import opened Entities
  import opened FolderGraph
  import opened FolderForest
  import opened Library

  /** `systemFolder`. The source takes the first match in map order; `RoleHolderUnique` shows
      that there is at most one. */
  ghost function SystemFolder(folders: Folders, role: string): (r: Option<string>)
    ensures r.Some? ==> r.value in folders && folders[r.value].systemRole == Some(role)
    ensures r.None? ==> forall f | f in folders :: folders[f].systemRole != Some(role)
  {
    if exists f :: f in folders && folders[f].systemRole == Some(role) then
      var f :| f in folders && folders[f].systemRole == Some(role);
      Some(f)
    else None
  }

  ghost function RootNamed(folders: Folders, name: string): (r: Option<string>)
    ensures r.Some? ==> r.value in folders && folders[r.value].parentID.None? && folders[r.value].name == name
    ensures r.None? ==> forall f | f in folders :: folders[f].parentID.Some? || folders[f].name != name
  {
    if exists f :: f in folders && folders[f].parentID.None? && folders[f].name == name then
      var f :| f in folders && folders[f].parentID.None? && folders[f].name == name;
      Some(f)
    else None
  }

  lemma RoleHolderUnique(next: nat, folders: Folders, role: string, f: string, g: string)
    requires FolderInv(next, folders) && f in folders && g in folders
    requires folders[f].systemRole == folders[g].systemRole == Some(role)
    ensures f == g
  {
    TwinsAreOne(folders, f, g);
  }

  function RoleSortOrder(role: string): (order: int) {
    if role == ROLE_INBOX then 0 else if role == ROLE_FEEDS then 1000 else 9000
  }

  /** A folder found under the reserved identifier gets the role back; Feeds and Trash are also
      moved to the root under their name, Inbox is not. */
  function Restored(folder: Folder, role: string): (r: Folder) {
    if role == ROLE_INBOX then folder.(systemRole := Some(role))
    else folder.(parentID := None, name := RoleName(role), systemRole := Some(role))
  }

  /** `ensureDefaultDocumentFolder` and `ensureRootSystemFolder`: the folder table with the role
      in place, and the identifier of the folder that holds it. */
  ghost function EnsuredIn(folders: Folders, now: int, role: string): (r: (Folders, string))
    ensures r.1 in r.0 && folders.Keys <= r.0.Keys
  {
    match SystemFolder(folders, role)
    case Some(f) => (folders, f)
    case None =>
      var id := RoleID(role);
      if id in folders then (folders[id := Restored(folders[id], role)], id)
      else match RootNamed(folders, RoleName(role))
        case Some(f) => (folders[f := folders[f].(systemRole := Some(role))], f)
        case None =>
          (folders[id := Folder(id, None, RoleName(role), Some(role), RoleSortOrder(role), now, now)], id)
  }

  ghost function Ensured(env: Env, s: State, role: string): (r: (State, string))
    ensures r.0 == s.(folders := r.0.folders) && r.1 in r.0.folders
  {
    var (folders, id) := EnsuredIn(s.folders, Now(env, s), role);
    (s.(folders := folders), id)
  }

  lemma ReservedKnown(next: nat, role: string)
    requires IsRole(role)
    ensures Known(next, RoleID(role))
  {
    assert INBOX_ID[|INBOX_ID| - 1] == 'x' && FEEDS_ID[|FEEDS_ID| - 1] == 's' && TRASH_ID[|TRASH_ID| - 1] == 'h';
  }

  lemma RoleNamesDiffer(a: string, b: string)
    requires IsRole(a) && IsRole(b) && RoleName(a) == RoleName(b)
    ensures a == b
  {
    assert "Inbox"[0] == 'I' && "Feeds"[0] == 'F' && "Trash"[0] == 'T';
  }

  lemma RoleIDsDiffer(a: string, b: string)
    requires IsRole(a) && IsRole(b) && RoleID(a) == RoleID(b)
    ensures a == b
  {
    assert INBOX_ID[7] == 'd' && FEEDS_ID[7] == 's' && TRASH_ID[7] == 's';
    assert FEEDS_ID[14] == 'f' && TRASH_ID[14] == 't';
  }

  /** A root of the right name without a role can take the role. */
  lemma RoleOnRoot(next: nat, folders: Folders, f: string, role: string)
    requires FolderInv(next, folders) && IsRole(role) && f in folders
    requires folders[f].parentID.None? && folders[f].name == RoleName(role)
    ensures FolderInv(next, folders[f := folders[f].(systemRole := Some(role))])
  {
    KeepOrDropParent(folders, folders[f].(systemRole := Some(role)));
    var folders' := folders[f := folders[f].(systemRole := Some(role))];
    StaysTwinless(folders, folders');
    forall r | IsRole(r) && RoleID(r) in folders'
      ensures folders'[RoleID(r)].systemRole == Some(r)
    {
      if RoleID(r) == f {
        RoleNamesDiffer(r, role);
      }
    }
  }

  /** With no root of the role's name, a new root under the reserved identifier can bear it. */
  lemma RoleOnNewRoot(next: nat, folders: Folders, folder: Folder, role: string)
    requires FolderInv(next, folders) && IsRole(role) && RootNamed(folders, RoleName(role)).None?
    requires RoleID(role) !in folders && folder.id == RoleID(role)
    requires folder.parentID.None? && folder.name == RoleName(role) && folder.systemRole == Some(role)
    ensures FolderInv(next, folders[folder.id := folder])
  {
    ReservedKnown(next, role);
    AddLeaf(folders, folder);
    AddTwinless(folders, folder);
    var folders' := folders[folder.id := folder];
    forall r | IsRole(r) && RoleID(r) in folders'
      ensures folders'[RoleID(r)].systemRole == Some(r)
    {
      if RoleID(r) == folder.id {
        RoleIDsDiffer(r, role);
      }
    }
  }

  /** Putting a role in place keeps the folder invariant, every parent pointer and every name. */
  lemma EnsuredInKeepsInv(next: nat, folders: Folders, now: int, role: string)
    requires FolderInv(next, folders) && IsRole(role)
    ensures var (folders', id) := EnsuredIn(folders, now, role);
            && FolderInv(next, folders')
            && folders'[id].systemRole == Some(role)
            && (forall f | f in folders ::
                  folders'[f].parentID == folders[f].parentID && folders'[f].name == folders[f].name)
            && (forall f | f in folders' && f !in folders :: f == RoleID(role) == id)
  {
    if SystemFolder(folders, role).None? {
      assert IsRole(role);
      assert RoleID(role) !in folders;
      match RootNamed(folders, RoleName(role)) {
        case Some(f) => RoleOnRoot(next, folders, f, role);
        case None => RoleOnNewRoot(next, folders, EnsuredIn(folders, now, role).0[RoleID(role)], role);
      }
    }
  }

  /** The role is settled: asking again, at any time, changes nothing and names the same folder. */
  lemma EnsuredSettles(next: nat, folders: Folders, now: int, later: int, role: string)
    requires FolderInv(next, folders) && IsRole(role)
    ensures EnsuredIn(EnsuredIn(folders, now, role).0, later, role) == EnsuredIn(folders, now, role)
  {
    EnsuredInKeepsInv(next, folders, now, role);
    var (folders', id) := EnsuredIn(folders, now, role);
    RoleHolderUnique(next, folders', role, id, SystemFolder(folders', role).value);
  }

  lemma EnsuredKeepsInv(env: Env, s: State, role: string)
    requires Inv(s) && IsRole(role)
    ensures Inv(Ensured(env, s, role).0)
  {
    FoldersSound(s);
    EnsuredInKeepsInv(s.next, s.folders, Now(env, s), role);
    FoldersReplaced(s, s.next, Ensured(env, s, role).0.folders);
  }

  /** `normalizeDocumentFolderIDFor`. */
  ghost function DocumentFolderFor(env: Env, s: State, folderID: string, allowFeeds: bool): (r: Result<(State, string)>)
    ensures r.Ok? ==> r.value.1 in r.value.0.folders && r.value.0 == s.(folders := r.value.0.folders)
  {
    var id := env.trim(folderID);
    if id == "" then Ok(Ensured(env, s, ROLE_INBOX))
    else if id !in s.folders then Err(NotFound("folder"))
    else if HasRoleAncestor(s.folders, id, ROLE_TRASH) then Err(Validation("folder cannot be trash"))
    else if !allowFeeds && HasRoleAncestor(s.folders, id, ROLE_FEEDS) then Err(Validation("folder cannot be feeds"))
    else Ok((s, id))
  }

  lemma DocumentFolderKeepsInv(env: Env, s: State, folderID: string, allowFeeds: bool)
    requires Inv(s)
    ensures var r := DocumentFolderFor(env, s, folderID, allowFeeds);
            r.Ok? ==> Inv(r.value.0) && s.folders.Keys <= r.value.0.folders.Keys
  {
    EnsuredKeepsInv(env, s, ROLE_INBOX);
  }

  /** The folder that holds a role counts as being below it. */
  lemma HolderIsWithin(env: Env, s: State, role: string)
    requires Inv(s) && IsRole(role)
    ensures var (s', id) := Ensured(env, s, role); HasRoleAncestor(s'.folders, id, role)
  {
    FoldersSound(s);
    EnsuredKeepsInv(env, s, role);
    EnsuredInKeepsInv(s.next, s.folders, Now(env, s), role);
    var (s', id) := Ensured(env, s, role);
    FoldersSound(s');
    assert id in Trail(s'.folders, id, {});
  }

  lemma RootReachesItself(folders: Folders, f: string, g: string)
    requires f in folders && folders[f].parentID.None? && Reaches(folders, f, g)
    ensures g == f
  {
    var n: nat :| Up(folders, f, n) == Some(g);
    assert n > 0 ==> Up(folders, f, n) == None;
  }

  /** A document is never placed in Trash, nor in Feeds unless it comes from a feed: not when it
      names its folder, and not when it falls to the default folder. */
  lemma PlacedOutsideTrash(env: Env, s: State, folderID: string, allowFeeds: bool, s': State, id: string)
    requires Inv(s) && DocumentFolderFor(env, s, folderID, allowFeeds) == Ok((s', id))
    ensures !HasRoleAncestor(s'.folders, id, ROLE_TRASH)
    ensures !allowFeeds ==> !HasRoleAncestor(s'.folders, id, ROLE_FEEDS)
  {
    if env.trim(folderID) == "" {
      FoldersSound(s);
      EnsuredInKeepsInv(s.next, s.folders, Now(env, s), ROLE_INBOX);
      EnsuredKeepsInv(env, s, ROLE_INBOX);
      FoldersSound(s');
      InboxStandsAlone(s'.next, s'.folders, id, ROLE_TRASH);
      InboxStandsAlone(s'.next, s'.folders, id, ROLE_FEEDS);
    }
  }

  lemma InboxStandsAlone(next: nat, folders: Folders, id: string, role: string)
    requires FolderInv(next, folders) && "" !in folders && id in folders && folders[id].systemRole == Some(ROLE_INBOX)
    requires role == ROLE_TRASH || role == ROLE_FEEDS
    ensures !HasRoleAncestor(folders, id, role)
  {
    RoleWalkFindsRoles(folders, id, role);
    assert ROLE_INBOX[0] == 'i' && ROLE_TRASH[0] == 't' && ROLE_FEEDS[0] == 'f';
    assert folders[id].systemRole.Some?;
    if HasRoleAncestor(folders, id, role) {
      var g :| g in folders && folders[g].systemRole == Some(role) && Reaches(folders, id, g);
      RootReachesItself(folders, id, g);
    }
  }

  /** `defaultDocumentFolderForDelete`: where documents go when their folder disappears. */
  ghost function DefaultForDelete(env: Env, s: State, deletedID: string): (r: Result<(State, string)>) {
    if INBOX_ID in s.folders && INBOX_ID != deletedID then Ok((s, INBOX_ID))
    else match RootNamed(s.folders - {deletedID}, RoleName(ROLE_INBOX))
      case Some(f) => Ok((s, f))
      case None =>
        if deletedID == INBOX_ID then Err(Conflict("default folder has documents"))
        else
          var (s', id) := Ensured(env, s, ROLE_INBOX);
          if id == deletedID then Err(Conflict("default folder has documents")) else Ok((s', id))
  }

  /** The target survives the deletion; the folder table only gains a root or a role. */
  lemma DefaultForDeleteKeepsInv(env: Env, s: State, deletedID: string)
    requires Inv(s)
    requires DefaultForDelete(env, s, deletedID).Ok?
    ensures var (s', id) := DefaultForDelete(env, s, deletedID).value;
            && Inv(s') && s' == s.(folders := s'.folders)
            && id in s'.folders && id != deletedID
            && s.folders.Keys <= s'.folders.Keys
            && (forall f | f in s.folders :: s'.folders[f].parentID == s.folders[f].parentID)
            && (forall f | f in s'.folders && f !in s.folders :: s'.folders[f].parentID.None?)
  {
    FoldersSound(s);
    if !(INBOX_ID in s.folders && INBOX_ID != deletedID)
       && RootNamed(s.folders - {deletedID}, RoleName(ROLE_INBOX)).None? {
      EnsuredKeepsInv(env, s, ROLE_INBOX);
      EnsuredInKeepsInv(s.next, s.folders, Now(env, s), ROLE_INBOX);
      var (s', id) := Ensured(env, s, ROLE_INBOX);
      assert id in s.folders || id == INBOX_ID;
      if id !in s.folders {
        assert s'.folders[id].systemRole == Some(ROLE_INBOX);
      }
    }
  }

  /** Asking again after the target was created, in any later state with the same folders, gives
      the same target: every document of the folder ends up in one place. */
  lemma DefaultForDeleteSettles(env: Env, s: State, deletedID: string, env': Env, later: State)
    requires Inv(s)
    requires DefaultForDelete(env, s, deletedID).Ok?
    requires later.folders == DefaultForDelete(env, s, deletedID).value.0.folders
    ensures DefaultForDelete(env', later, deletedID) == Ok((later, DefaultForDelete(env, s, deletedID).value.1))
    ensures deletedID in s.folders ==> later.folders[deletedID] == s.folders[deletedID]
  {
    FoldersSound(s);
    if !(INBOX_ID in s.folders && INBOX_ID != deletedID) {
      match RootNamed(s.folders - {deletedID}, RoleName(ROLE_INBOX)) {
        case Some(f) =>
        case None =>
          forall f | f in s.folders && f != deletedID
            ensures s.folders[f].parentID.Some? || s.folders[f].name != RoleName(ROLE_INBOX)
          {
            assert f in s.folders - {deletedID};
          }
          if SystemFolder(s.folders, ROLE_INBOX).Some? {
            HolderIsNamedRoot(s, ROLE_INBOX);
          }
          assert IsRole(ROLE_INBOX);
      }
    }
  }

  lemma HolderIsNamedRoot(s: State, role: string)
    requires FolderInv(s.next, s.folders) && SystemFolder(s.folders, role).Some?
    ensures var f := SystemFolder(s.folders, role).value;
            s.folders[f].parentID.None? && s.folders[f].name == RoleName(role)
  {
    var f := SystemFolder(s.folders, role).value;
    assert s.folders[f].systemRole.Some?;
  }
}
