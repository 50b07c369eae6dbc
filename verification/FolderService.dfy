/** The folder operations of the service as they run on a transaction's state object. Each is
    proved to compute its specification; the loops see folders and documents in map order. */
module FolderService {
  import opened Prelude
  import opened Entities
  import opened FolderGraph
  import opened FolderForest
  import opened Library
  import opened SystemFolders
  import opened FolderOps
  import opened FeedImport
  import opened ImportProofs
  import opened Store
  import FolderTree

  /** The operation did what the specification says; after an error the transaction is dropped, so
      only the error matters. */
  ghost predicate Meets<T>(r: Result<T>, now: State, spec: Result<(State, T)>) {
    match spec
    case Ok(v) => r == Ok(v.1) && now == v.0
    case Err(e) => r == Err(e)
  }

  ghost predicate Leaves(r: Result<()>, now: State, spec: Result<State>) {
    match spec
    case Ok(s) => r == Ok(()) && now == s
    case Err(e) => r == Err(e)
  }

  // ----- Searching the folder table -----

  /** At most one folder has the role. */
  ghost predicate OneHolder(folders: Folders, role: string) {
    forall f, g | f in folders && g in folders && folders[f].systemRole == Some(role) == folders[g].systemRole :: f == g
  }

  /** Enough of the invariant for a search in map order to have one answer. */
  ghost predicate Searchable(folders: Folders, role: string) {
    (forall f | f in folders :: folders[f].id == f) && SiblingsUnique(folders) && OneHolder(folders, role)
  }

  lemma InvIsSearchable(s: State, role: string)
    requires Inv(s)
    ensures Searchable(s.folders, role)
  {
    FoldersSound(s);
    forall f, g | f in s.folders && g in s.folders && s.folders[f].systemRole == Some(role) == s.folders[g].systemRole
      ensures f == g
    {
      RoleHolderUnique(s.next, s.folders, role, f, g);
    }
  }

  /** `systemFolder`. */
  method FindRole(folders: Folders, role: string) returns (found: Option<string>)
    requires OneHolder(folders, role)
    ensures found == SystemFolder(folders, role)
  {
    var rest := folders.Keys;
    while rest != {}
      invariant rest <= folders.Keys
      invariant forall f | f in folders && f !in rest :: folders[f].systemRole != Some(role)
      decreases rest
    {
      var f :| f in rest;
      if folders[f].systemRole == Some(role) {
        return Some(f);
      }
      rest := rest - {f};
    }
    return None;
  }

  /** The loop over root folders of a given name, past one folder if asked. */
  method FindRoot(folders: Folders, name: string, except: set<string>) returns (found: Option<string>)
    requires SiblingsUnique(folders)
    ensures found == RootNamed(folders - except, name)
  {
    var rest := folders.Keys;
    while rest != {}
      invariant rest <= folders.Keys
      invariant forall f | f in folders && f !in rest
                && f !in except :: folders[f].parentID.Some? || folders[f].name != name
      decreases rest
    {
      var f :| f in rest;
      if f !in except && folders[f].parentID.None? && folders[f].name == name {
        assert f in folders - except;
        TwinsAreOne(folders, f, RootNamed(folders - except, name).value);
        return Some(f);
      }
      rest := rest - {f};
    }
    return None;
  }

  // ----- System folders -----

  /** `ensureDefaultDocumentFolder` for Inbox, `ensureRootSystemFolder` for Feeds and Trash. */
  method EnsureRole(tx: Store, env: Env, role: string) returns (id: string)
    requires tx.Valid() && Searchable(tx.view.folders, role)
    modifies tx`view, tx.folders
    ensures tx.Valid() && tx.Grown()
    ensures (tx.view, id) == Ensured(env, old(tx.view), role)
  {
    var holder := FindRole(tx.FolderMap(), role);
    if holder.Some? {
      return holder.value;
    }
    id := PutRole(tx, env, role);
  }

  /** The same when no folder has the role. */
  method PutRole(tx: Store, env: Env, role: string) returns (id: string)
    requires tx.Valid() && Searchable(tx.view.folders, role) && SystemFolder(tx.view.folders, role).None?
    modifies tx`view, tx.folders
    ensures tx.Valid() && tx.Grown()
    ensures (tx.view, id) == Ensured(env, old(tx.view), role)
  {
    id := RoleID(role);
    if id in tx.FolderMap() {
      assert tx.FolderMap()[id].id == id;
      tx.PutFolder(Restored(tx.FolderMap()[id], role));
      return;
    }
    id := PutRoleByName(tx, env, role);
  }

  lemma EnsuredByName(env: Env, s: State, role: string, id: string)
    requires SystemFolder(s.folders, role).None? && RoleID(role) !in s.folders
    requires RootNamed(s.folders, RoleName(role)) == Some(id) && s.folders[id].id == id
    ensures Ensured(env, s, role) == (WithFolder(s, s.folders[id].(systemRole := Some(role))), id)
  {
  }

  lemma EnsuredAnew(env: Env, s: State, role: string, id: string)
    requires SystemFolder(s.folders, role).None? && id == RoleID(role) && id !in s.folders
    requires RootNamed(s.folders, RoleName(role)).None?
    ensures var now := Now(env, s);
            Ensured(env, s, role)
            == (WithFolder(s, Folder(id, None, RoleName(role), Some(role), RoleSortOrder(role), now, now)), id)
  {
  }

  /** The same when the role's own identifier is free too. */
  method PutRoleByName(tx: Store, env: Env, role: string) returns (id: string)
    requires tx.Valid() && Searchable(tx.view.folders, role) && SystemFolder(tx.view.folders, role).None?
             && RoleID(role) !in tx.view.folders
    modifies tx`view, tx.folders
    ensures tx.Valid() && tx.Grown()
    ensures (tx.view, id) == Ensured(env, old(tx.view), role)
  {
    ghost var s := tx.view;
    id := RoleID(role);
    var root := FindRoot(tx.FolderMap(), RoleName(role), {});
    assert s.folders - {} == s.folders;
    if root.Some? {
      id := root.value;
      assert tx.FolderMap()[id].id == id;
      EnsuredByName(env, s, role, id);
      tx.PutFolder(tx.FolderMap()[id].(systemRole := Some(role)));
      return;
    }
    EnsuredAnew(env, s, role, id);
    var now := env.clock(tx.Counter());
    tx.PutFolder(Folder(id, None, RoleName(role), Some(role), RoleSortOrder(role), now, now));
  }

  /** `normalizeDocumentFolderIDFor`. */
  method PlaceDocument(tx: Store, env: Env, folderID: string, allowFeeds: bool) returns (r: Result<string>)
    requires tx.Valid() && Inv(tx.view)
    modifies tx`view, tx.folders
    ensures tx.Valid() && tx.Grown()
    ensures Meets(r, tx.view, DocumentFolderFor(env, old(tx.view), folderID, allowFeeds))
  {
    var id := env.trim(folderID);
    if id == "" {
      InvIsSearchable(tx.view, ROLE_INBOX);
      id := EnsureRole(tx, env, ROLE_INBOX);
      return Ok(id);
    }
    if id !in tx.FolderMap() {
      return Err(NotFound("folder"));
    }
    var inTrash := WalkToRole(tx.FolderMap(), id, ROLE_TRASH);
    if inTrash {
      return Err(Validation("folder cannot be trash"));
    }
    if !allowFeeds {
      var inFeeds := WalkToRole(tx.FolderMap(), id, ROLE_FEEDS);
      if inFeeds {
        return Err(Validation("folder cannot be feeds"));
      }
    }
    return Ok(id);
  }

  // ----- Creating and changing folders -----

  /** `validateFolderInput`. */
  method ValidateFolder(env: Env, folders: Folders, id: string, input: FolderInput) returns (e: Option<Error>)
    requires forall f | f in folders :: folders[f].id == f
    ensures e == InvalidInput(env, folders, id, input)
  {
    var name := env.trim(input.name);
    if name == "" {
      return Some(Validation("folder name is required"));
    }
    if input.parentID.Some? {
      var parent := input.parentID.value;
      if parent == id {
        return Some(Validation("folder cannot be its own parent"));
      }
      if parent !in folders {
        return Some(NotFound("parent folder"));
      }
      if id != "" {
        var below := WalkToAncestor(folders, parent, id);
        if below {
          return Some(Validation("folder cannot be placed under its descendant"));
        }
      }
      if folders[parent].systemRole == Some(ROLE_TRASH) {
        return Some(Validation("folder cannot be placed under trash"));
      }
    }
    var rest := folders.Keys;
    while rest != {}
      invariant rest <= folders.Keys
      invariant forall f | f in folders && f !in rest ::
        !(folders[f].id != id && folders[f].name == name && folders[f].parentID == input.parentID)
      decreases rest
    {
      var f :| f in rest;
      if folders[f].id != id && folders[f].name == name && folders[f].parentID == input.parentID {
        return Some(Conflict("folder name must be unique among siblings"));
      }
      rest := rest - {f};
    }
    return None;
  }

  method CreateFolder(tx: Store, env: Env, input: FolderInput) returns (r: Result<string>)
    requires tx.Valid() && Inv(tx.view)
    modifies tx`next, tx`view, tx.folders
    ensures tx.Valid() && tx.Grown()
    ensures Meets(r, tx.view, CreateFolderSpec(env, old(tx.view), input))
  {
    FoldersSound(tx.view);
    var invalid := ValidateFolder(env, tx.FolderMap(), "", input);
    if invalid.Some? {
      return Err(invalid.value);
    }
    var now := env.clock(tx.Counter());
    var id := tx.NextID(env, "folder");
    tx.PutFolder(Folder(id, input.parentID, env.trim(input.name), None, input.sortOrder, now, now));
    return Ok(id);
  }

  method UpdateFolder(tx: Store, env: Env, id: string, input: FolderInput) returns (r: Result<()>)
    requires tx.Valid() && Inv(tx.view)
    modifies tx`view, tx.folders
    ensures tx.Valid() && tx.Grown()
    ensures Leaves(r, tx.view, UpdateFolderSpec(env, old(tx.view), id, input))
  {
    FoldersSound(tx.view);
    if id !in tx.FolderMap() {
      return Err(NotFound("folder"));
    }
    var folder := tx.FolderMap()[id];
    if IsSystemFolder(folder) {
      return Err(Validation("system folder cannot be edited"));
    }
    var invalid := ValidateFolder(env, tx.FolderMap(), id, input);
    if invalid.Some? {
      return Err(invalid.value);
    }
    folder := folder.(parentID := input.parentID, name := env.trim(input.name), sortOrder := input.sortOrder,
                      updatedAt := env.clock(tx.Counter()));
    tx.PutFolder(folder);
    return Ok(());
  }

  /** `ensureSystemFolders`. */
  method EnsureSystemFolders(tx: Store, env: Env)
    requires tx.Valid() && Inv(tx.view)
    modifies tx`view, tx.folders
    ensures tx.Valid() && tx.Grown()
    ensures tx.view == SystemFoldersSpec(env, old(tx.view))
  {
    ghost var s := tx.view;
    EnsuredKeepsInv(env, s, ROLE_INBOX);
    InvIsSearchable(s, ROLE_INBOX);
    var inbox := EnsureRole(tx, env, ROLE_INBOX);
    ghost var s1 := tx.view;
    EnsuredKeepsInv(env, s1, ROLE_FEEDS);
    InvIsSearchable(s1, ROLE_FEEDS);
    var feeds := EnsureRole(tx, env, ROLE_FEEDS);
    InvIsSearchable(tx.view, ROLE_TRASH);
    var trash := EnsureRole(tx, env, ROLE_TRASH);
  }

  method ListTrees(tx: Store) returns (trees: seq<FolderTree.Tree>)
    requires tx.Valid() && Inv(tx.view)
    ensures FolderTree.Complete(tx.view.folders, trees)
  {
    FoldersSound(tx.view);
    var list := tx.Folders();
    trees := FolderTree.ListTrees(tx.FolderMap(), list);
  }

  /** `ListFolders`: the system folders are put in place, and every folder is listed once. */
  method ListFolders(tx: Store, env: Env) returns (trees: seq<FolderTree.Tree>)
    requires tx.Valid() && Inv(tx.view)
    modifies tx`view, tx.folders
    ensures tx.Valid() && tx.Grown()
    ensures tx.view == SystemFoldersSpec(env, old(tx.view)) && FolderTree.Complete(tx.view.folders, trees)
  {
    SystemFoldersKeepInv(env, tx.view);
    EnsureSystemFolders(tx, env);
    trees := ListTrees(tx);
  }

  // ----- Deleting a folder -----

  /** `defaultDocumentFolderForDelete`. */
  method DefaultFolderForDelete(tx: Store, env: Env, deletedID: string) returns (r: Result<string>)
    requires tx.Valid() && Searchable(tx.view.folders, ROLE_INBOX)
    modifies tx`view, tx.folders
    ensures tx.Valid() && tx.Grown()
    ensures Meets(r, tx.view, DefaultForDelete(env, old(tx.view), deletedID))
  {
    if INBOX_ID in tx.FolderMap() && INBOX_ID != deletedID {
      return Ok(INBOX_ID);
    }
    var root := FindRoot(tx.FolderMap(), RoleName(ROLE_INBOX), {deletedID});
    if root.Some? {
      return Ok(root.value);
    }
    if deletedID == INBOX_ID {
      return Err(Conflict("default folder has documents"));
    }
    var id := EnsureRole(tx, env, ROLE_INBOX);
    if id == deletedID {
      return Err(Conflict("default folder has documents"));
    }
    return Ok(id);
  }

  /** `deletedFolderDocumentTarget`. */
  method TargetForDelete(tx: Store, env: Env, folder: Folder, id: string, action: string) returns (r: Result<string>)
    requires tx.Valid() && Searchable(tx.view.folders, ROLE_INBOX)
    modifies tx`view, tx.folders
    ensures tx.Valid() && tx.Grown()
    ensures Meets(r, tx.view, DeletionTarget(env, old(tx.view), folder, id, action))
  {
    if action == MOVE_TO_PARENT {
      if folder.parentID.Some? {
        return Ok(folder.parentID.value);
      }
      r := DefaultFolderForDelete(tx, env, id);
    } else if action == MOVE_TO_UNCATEGORIZED {
      r := DefaultFolderForDelete(tx, env, id);
    } else {
      r := Err(Conflict("folder has documents"));
    }
  }

  /** The documents already passed are where `DocumentsMoved` puts them. */
  ghost function MovedSoFar(docs: map<string, Document>, done: seq<Document>, id: string, target: string,
                            now: int): (r: map<string, Document>) {
    map d | d in docs :: if docs[d] in done && docs[d].meta.folderID == Some(id)
        then MovedDocument(docs[d], target, now) else docs[d]
  }

  ghost predicate SomeIn(done: seq<Document>, id: string) {
    exists k | 0 <= k < |done| :: done[k].meta.folderID == Some(id)
  }

  lemma MovedOneMore(docs: map<string, Document>, records: seq<Document>, i: nat, id: string, target: string, now: int)
    requires KeyedDocuments(docs) && DocumentsOf(docs, records) && i < |records|
    ensures MovedSoFar(docs, records[..i + 1], id, target, now)
         == if records[i].meta.folderID == Some(id)
            then
              var before := MovedSoFar(docs, records[..i], id, target, now);
              before[records[i].meta.id := MovedDocument(records[i], target, now)]
            else MovedSoFar(docs, records[..i], id, target, now)
    ensures SomeIn(records[..i + 1], id) <==> SomeIn(records[..i], id) || records[i].meta.folderID == Some(id)
  {
    assert records[i] in records;
    assert records[..i + 1] == records[..i] + [records[i]];
    if SomeIn(records[..i], id) {
      var k :| 0 <= k < i && records[..i][k].meta.folderID == Some(id);
      assert records[..i + 1][k].meta.folderID == Some(id);
    }
    assert records[..i + 1][i] == records[i];
  }

  lemma AllPassed(docs: map<string, Document>, records: seq<Document>, id: string, target: string, now: int)
    requires DocumentsOf(docs, records) && KeyedDocuments(docs)
    ensures MovedSoFar(docs, records, id, target, now) == DocumentsMoved(docs, id, target, now)
    ensures SomeIn(records, id) <==> exists d | d in docs :: docs[d].meta.folderID == Some(id)
  {
    forall d | d in docs ensures docs[d] in records {
    }
    if SomeIn(records, id) {
      var k :| 0 <= k < |records| && records[k].meta.folderID == Some(id);
      assert records[k] in records;
    }
  }

  /** Once found, the target is found again: asking for each document changes nothing more. */
  lemma TargetSettles(env: Env, s: State, folder: Folder, id: string, action: string, later: State)
    requires Inv(s) && DeletionTarget(env, s, folder, id, action).Ok?
    requires later.folders == DeletionTarget(env, s, folder, id, action).value.0.folders
    ensures DeletionTarget(env, later, folder, id, action)
            == Ok((later, DeletionTarget(env, s, folder, id, action).value.1))
  {
    if !(action == MOVE_TO_PARENT && folder.parentID.Some?) {
      DefaultForDeleteSettles(env, s, id, env, later);
    }
  }

  /** The state once the documents in `done` are passed. */
  ghost function EmptiedSoFar(env: Env, s: State, folder: Folder, id: string, action: string, now: int,
                              done: seq<Document>): (r: State) {
    match DeletionTarget(env, s, folder, id, action)
    case Ok(v) => if SomeIn(done, id) then v.0.(docs := MovedSoFar(s.docs, done, id, v.1, now)) else s
    case Err(_) => s
  }

  lemma EmptiedSearchable(env: Env, s: State, id: string, action: string, now: int, done: seq<Document>)
    requires Inv(s) && Removable(s, id)
    ensures Searchable(EmptiedSoFar(env, s, s.folders[id], id, action, now, done).folders, ROLE_INBOX)
  {
    InvIsSearchable(s, ROLE_INBOX);
    if DeletionTarget(env, s, s.folders[id], id, action).Ok? {
      DeletionTargetKeepsInv(env, s, id, action);
      InvIsSearchable(DeletionTarget(env, s, s.folders[id], id, action).value.0, ROLE_INBOX);
    }
  }

  /** Looking for the target again, with some documents already moved. */
  lemma TargetAt(env: Env, s: State, id: string, action: string, now: int, done: seq<Document>)
    requires Inv(s) && Removable(s, id) && (SomeIn(done, id) ==> DeletionTarget(env, s, s.folders[id], id, action).Ok?)
    ensures var spec, at := DeletionTarget(env, s, s.folders[id], id, action),
            EmptiedSoFar(env, s, s.folders[id], id, action, now, done);
            DeletionTarget(env, at, s.folders[id], id, action) == match spec
              case Err(e) => Err(e)
              case Ok(v) => Ok((v.0.(docs := MovedSoFar(s.docs, done, id, v.1, now)), v.1))
  {
    var spec := DeletionTarget(env, s, s.folders[id], id, action);
    if spec.Ok? {
      if SomeIn(done, id) {
        TargetSettles(env, s, s.folders[id], id, action, EmptiedSoFar(env, s, s.folders[id], id, action, now, done));
      } else {
        DeletionTargetKeepsInv(env, s, id, action);
        assert MovedSoFar(s.docs, done, id, spec.value.1, now) == s.docs;
      }
    }
  }

  /** What passing one document does, whether the target is asked for or not. */
  lemma PassedOne(env: Env, s: State, folder: Folder, id: string, action: string, now: int, records: seq<Document>,
                  i: nat)
    requires Inv(s) && Removable(s, id) && folder == s.folders[id]
    requires DocumentsOf(s.docs, records) && KeyedDocuments(s.docs) && i < |records|
    requires SomeIn(records[..i], id) ==> DeletionTarget(env, s, folder, id, action).Ok?
    ensures var at := EmptiedSoFar(env, s, folder, id, action, now, records[..i]);
            var next := EmptiedSoFar(env, s, folder, id, action, now, records[..i + 1]);
            && Searchable(at.folders, ROLE_INBOX)
            && if records[i].meta.folderID != Some(id)
               then next == at && (SomeIn(records[..i + 1], id) <==> SomeIn(records[..i], id))
               else match DeletionTarget(env, at, folder, id, action)
                 case Err(e) => SomeIn(records, id) && DeletionTarget(env, s, folder, id, action) == Err(e)
                 case Ok(v) => DeletionTarget(env, s, folder, id, action).Ok?
                               && next == WithDocument(v.0, MovedDocument(records[i], v.1, now))
  {
    EmptiedSearchable(env, s, id, action, now, records[..i]);
    TargetAt(env, s, id, action, now, records[..i]);
    var spec := DeletionTarget(env, s, folder, id, action);
    MovedOneMore(s.docs, records, i, id, if spec.Ok? then spec.value.1 else "", now);
  }

  method MoveOut(tx: Store, env: Env, folder: Folder, id: string, action: string, now: int, record: Document)
      returns (failed: Option<Error>)
    requires tx.Valid() && Searchable(tx.view.folders, ROLE_INBOX)
    modifies tx`view, tx.folders, tx.docs
    ensures tx.Valid() && tx.Grown()
    ensures match DeletionTarget(env, old(tx.view), folder, id, action)
            case Err(e) => failed == Some(e)
            case Ok(v) => failed.None? && tx.view == WithDocument(v.0, MovedDocument(record, v.1, now))
  {
    var target := TargetForDelete(tx, env, folder, id, action);
    if target.Err? {
      return Some(target.error);
    }
    var moved := new DocumentRecord(MovedDocument(record, target.value, now));
    tx.PutDocument(moved);
    return None;
  }

  /** One document of the loop below. */
  method MoveDocument(tx: Store, env: Env, folder: Folder, id: string, action: string, now: int,
                      ghost s: State, records: seq<Document>, i: nat) returns (failed: Option<Error>)
    requires tx.Valid() && Inv(s) && Removable(s, id) && folder == s.folders[id]
    requires DocumentsOf(s.docs, records) && KeyedDocuments(s.docs) && i < |records|
    requires SomeIn(records[..i], id) ==> DeletionTarget(env, s, folder, id, action).Ok?
    requires tx.view == EmptiedSoFar(env, s, folder, id, action, now, records[..i])
    modifies tx`view, tx.folders, tx.docs
    ensures tx.Valid() && tx.Grown()
    ensures failed.Some? ==> SomeIn(records, id) && DeletionTarget(env, s, folder, id, action) == Err(failed.value)
    ensures failed.None? ==> tx.view == EmptiedSoFar(env, s, folder, id, action, now, records[..i + 1])
    ensures failed.None? && SomeIn(records[..i + 1], id) ==> DeletionTarget(env, s, folder, id, action).Ok?
  {
    failed := None;
    PassedOne(env, s, folder, id, action, now, records, i);
    if records[i].meta.folderID == Some(id) {
      failed := MoveOut(tx, env, folder, id, action, now, records[i]);
    }
  }

  lemma EmptiedAtEnd(env: Env, s: State, folder: Folder, id: string, action: string, now: int, records: seq<Document>)
    requires Inv(s) && Removable(s, id) && folder == s.folders[id] && DocumentsOf(s.docs, records)
             && KeyedDocuments(s.docs)
    ensures FolderEmptied(env, s, folder, id, action, now) ==
            match DeletionTarget(env, s, folder, id, action)
            case Ok(_) => Ok(EmptiedSoFar(env, s, folder, id, action, now, records))
            case Err(e) => if SomeIn(records, id) then Err(e) else Ok(s)
  {
    var spec := DeletionTarget(env, s, folder, id, action);
    if spec.Ok? {
      DeletionTargetKeepsInv(env, s, id, action);
    }
    AllPassed(s.docs, records, id, if spec.Ok? then spec.value.1 else "", now);
    assert SomeIn(records, id) <==> exists d | d in s.docs :: InFolder(s, d, id);
  }

  /** The loop of `moveDeletedFolderDocuments`. */
  method MoveAll(tx: Store, env: Env, folder: Folder, id: string, action: string, now: int, records: seq<Document>,
                 ghost s: State)
      returns (failed: Option<Error>)
    requires tx.Valid() && tx.view == s && Inv(s) && Removable(s, id) && folder == s.folders[id]
    requires DocumentsOf(s.docs, records) && KeyedDocuments(s.docs)
    modifies tx`view, tx.folders, tx.docs
    ensures tx.Valid() && tx.Grown()
    ensures failed.Some? ==> SomeIn(records, id) && DeletionTarget(env, s, folder, id, action) == Err(failed.value)
    ensures failed.None? ==> tx.view == EmptiedSoFar(env, s, folder, id, action, now, records)
    ensures failed.None? && SomeIn(records, id) ==> DeletionTarget(env, s, folder, id, action).Ok?
  {
    failed := None;
    for i := 0 to |records|
      invariant tx.Valid() && tx.Grown()
      invariant SomeIn(records[..i], id) ==> DeletionTarget(env, s, folder, id, action).Ok?
      invariant tx.view == EmptiedSoFar(env, s, folder, id, action, now, records[..i])
    {
      failed := MoveDocument(tx, env, folder, id, action, now, s, records, i);
      if failed.Some? {
        return;
      }
    }
    assert records[..|records|] == records;
    failed := None;
  }

  /** `moveDeletedFolderDocuments`: over a copy of the documents, in map order. */
  method MoveDocuments(tx: Store, env: Env, folder: Folder, id: string, action: string, now: int)
      returns (r: Result<()>)
    requires tx.Valid() && Inv(tx.view) && Removable(tx.view, id) && folder == tx.view.folders[id]
    modifies tx`view, tx.folders, tx.docs
    ensures tx.Valid() && tx.Grown()
    ensures Leaves(r, tx.view, FolderEmptied(env, old(tx.view), folder, id, action, now))
  {
    ghost var s := tx.view;
    DocumentsKeyed(s);
    var records := tx.Documents();
    EmptiedAtEnd(env, s, folder, id, action, now, records);
    var failed := MoveAll(tx, env, folder, id, action, now, records, s);
    if failed.Some? {
      return Err(failed.value);
    }
    return Ok(());
  }

  /** Each feed is stored under its identifier and found under its URL. */
  ghost predicate FeedsIndexed(feeds: map<string, Feed>, urls: map<string, string>) {
    forall f | f in feeds :: feeds[f].id == f && feeds[f].url in urls && urls[feeds[f].url] == f
  }

  lemma FeedsAreIndexed(s: State)
    requires Inv(s)
    ensures FeedsIndexed(s.feeds, s.feedURLs)
  {
    FeedsSound(s);
  }

  /** The feeds once those outside `rest` are passed. */
  ghost function PartMoved(feeds: map<string, Feed>, rest: set<string>, folder: Folder, id: string, action: string,
                           now: int)
    : (r: map<string, Feed>)
  {
    map f | f in feeds :: if f in rest then feeds[f] else FeedsMoved(feeds, folder, id, action, now)[f]
  }

  lemma PartMovedOneMore(feeds: map<string, Feed>, rest: set<string>, f: string, folder: Folder, id: string,
                         action: string, now: int)
    requires f in rest && f in feeds
    ensures PartMoved(feeds, rest, folder, id, action, now)[f] == feeds[f]
    ensures PartMoved(feeds, rest - {f}, folder, id, action, now)
         == PartMoved(feeds, rest, folder, id, action, now)[f := FeedsMoved(feeds, folder, id, action, now)[f]]
  {
  }

  lemma PartMovedEnds(feeds: map<string, Feed>, folder: Folder, id: string, action: string, now: int)
    ensures PartMoved(feeds, feeds.Keys, folder, id, action, now) == feeds
    ensures PartMoved(feeds, {}, folder, id, action, now) == FeedsMoved(feeds, folder, id, action, now)
  {
  }

  predicate MovesFeeds(action: string) {
    action == MOVE_TO_PARENT || action == MOVE_TO_UNCATEGORIZED
  }

  lemma IndexStays(feeds: map<string, Feed>, urls: map<string, string>, feed: Feed)
    requires FeedsIndexed(feeds, urls) && feed.id in feeds && feed.url == feeds[feed.id].url
    ensures FeedsIndexed(feeds[feed.id := feed], urls) && (urls - {feed.url})[feed.url := feed.id] == urls
  {
  }

  /** One feed of the loop below; its URL stays, so the URL index does too. */
  method MoveFeed(tx: Store, feed: Feed, folder: Folder, id: string, action: string, now: int,
                  ghost feeds: map<string, Feed>)
      returns (failed: bool)
    requires tx.Valid() && FeedsIndexed(tx.view.feeds, tx.view.feedURLs)
    requires feed.id in feeds && feeds[feed.id] == feed && feed.id in tx.view.feeds && tx.view.feeds[feed.id] == feed
    modifies tx`view, tx.feeds, tx.feedURLs
    ensures tx.Valid() && tx.Grown()
    ensures failed <==> feed.folderID == Some(id) && !MovesFeeds(action)
    ensures failed ==> HasFeeds(old(tx.view), id)
    ensures !failed ==> tx.view == old(tx.view).(
              feeds := old(tx.view).feeds[feed.id := FeedsMoved(feeds, folder, id, action, now)[feed.id]])
    ensures FeedsIndexed(tx.view.feeds, tx.view.feedURLs)
  {
    ghost var s := tx.view;
    failed := false;
    if feed.folderID == Some(id) {
      if !MovesFeeds(action) {
        return true;
      }
      var moved := feed.(folderID := if action == MOVE_TO_PARENT then folder.parentID else None, updatedAt := now);
      IndexStays(s.feeds, s.feedURLs, moved);
      tx.PutFeed(moved);
    } else {
      assert s.feeds == s.feeds[feed.id := feed];
    }
  }

  /** The loop of `DeleteFolder` over the feeds. */
  method MoveFeeds(tx: Store, folder: Folder, id: string, action: string, now: int) returns (failed: Option<Error>)
    requires tx.Valid() && FeedsIndexed(tx.view.feeds, tx.view.feedURLs)
    modifies tx`view, tx.feeds, tx.feedURLs
    ensures tx.Valid() && tx.Grown()
    ensures failed == if HasFeeds(old(tx.view), id) && !MovesFeeds(action)
            then Some(Conflict("folder has feeds")) else None
    ensures failed.None? ==> tx.view == old(tx.view).(feeds := FeedsMoved(old(tx.view).feeds, folder, id, action, now))
  {
    ghost var s := tx.view;
    var feeds, rest := tx.FeedMap(), tx.FeedMap().Keys;
    PartMovedEnds(feeds, folder, id, action, now);
    while rest != {}
      invariant rest <= feeds.Keys && tx.Valid() && tx.Grown()
      invariant FeedsIndexed(tx.view.feeds, tx.view.feedURLs)
      invariant tx.view == s.(feeds := PartMoved(feeds, rest, folder, id, action, now))
      invariant !MovesFeeds(action) ==> forall f | f in feeds && f !in rest :: feeds[f].folderID != Some(id)
      decreases rest
    {
      var f :| f in rest;
      PartMovedOneMore(feeds, rest, f, folder, id, action, now);
      var refused := MoveFeed(tx, feeds[f], folder, id, action, now, feeds);
      if refused {
        assert HasFeeds(s, id);
        return Some(Conflict("folder has feeds"));
      }
      rest := rest - {f};
    }
    return None;
  }

  method HasChildren(folders: Folders, id: string) returns (found: bool)
    ensures found <==> exists f | f in folders :: folders[f].parentID == Some(id)
  {
    var rest := folders.Keys;
    while rest != {}
      invariant rest <= folders.Keys
      invariant forall f | f in folders && f !in rest :: folders[f].parentID != Some(id)
      decreases rest
    {
      var f :| f in rest;
      if folders[f].parentID == Some(id) {
        return true;
      }
      rest := rest - {f};
    }
    return false;
  }

  /** Past the first checks: what is left of the deletion. */
  lemma DeletionRule(env: Env, s: State, id: string, action: string)
    requires Removable(s, id)
    ensures DeleteFolderSpec(env, s, id, action) ==
            match FolderEmptied(env, s, s.folders[id], id, action, Now(env, s))
            case Err(e) => Err(e)
            case Ok(s1) =>
              if HasFeeds(s, id) && !MovesFeeds(action) then Err(Conflict("folder has feeds"))
              else Ok(s1.(feeds := FeedsMoved(s.feeds, s.folders[id], id, action, Now(env, s)),
                          folders := s1.folders - {id}))
  {
  }

  method DeleteFolder(tx: Store, env: Env, id: string, action: string) returns (r: Result<()>)
    requires tx.Valid() && Inv(tx.view)
    modifies tx`view, tx.folders, tx.docs, tx.feeds, tx.feedURLs
    ensures tx.Valid() && tx.Grown()
    ensures Leaves(r, tx.view, DeleteFolderSpec(env, old(tx.view), id, action))
  {
    ghost var s := tx.view;
    if id !in tx.FolderMap() {
      return Err(NotFound("folder"));
    }
    var folder := tx.FolderMap()[id];
    if IsSystemFolder(folder) {
      return Err(Conflict("system folder cannot be deleted"));
    }
    var children := HasChildren(tx.FolderMap(), id);
    if children {
      return Err(Conflict("folder has child folders"));
    }
    var now := env.clock(tx.Counter());
    DeletionRule(env, s, id, action);
    r := MoveDocuments(tx, env, folder, id, action, now);
    if r.Err? {
      return;
    }
    FolderEmptiedKeepsInv(env, s, id, action, now, tx.view);
    ghost var target := FolderEmptiedOutcome(env, s, id, action, now, tx.view);
    r := RemoveEmptied(tx, folder, id, action, now);
  }

  /** `DeleteFolder` from the loop over the feeds on. */
  method RemoveEmptied(tx: Store, folder: Folder, id: string, action: string, now: int) returns (r: Result<()>)
    requires tx.Valid() && Inv(tx.view)
    modifies tx`view, tx.folders, tx.feeds, tx.feedURLs
    ensures tx.Valid() && tx.Grown()
    ensures if HasFeeds(old(tx.view), id) && !MovesFeeds(action) then r == Err(Conflict("folder has feeds"))
            else r == Ok(()) && tx.view == old(tx.view).(
                   feeds := FeedsMoved(old(tx.view).feeds, folder, id, action, now),
                   folders := old(tx.view).folders - {id})
  {
    FeedsAreIndexed(tx.view);
    var failed := MoveFeeds(tx, folder, id, action, now);
    if failed.Some? {
      return Err(failed.value);
    }
    tx.DeleteFolder(id);
    return Ok(());
  }
}
