/** An import never takes a document out of Trash, although it moves what it adopts and may change
    the folder table on the way. */
module ImportTrash {
  import opened Prelude
  import opened Entities
  import opened FolderGraph
  import opened FolderForest
  import opened Library
  import opened SystemFolders
  import opened DocumentOps
  import opened FeedItems
  import opened FeedImport
  import opened ImportProofs

  predicate LiesInTrash(s: State, d: string) {
    d in s.docs && s.docs[d].meta.folderID.Some?
        && HasRoleAncestor(s.folders, s.docs[d].meta.folderID.value, ROLE_TRASH)
  }

  // ----- The folder table -----

  ghost predicate ParentsAgree(folders: Folders, folders': Folders) {
    forall f | f in folders :: f in folders' && folders'[f].parentID == folders[f].parentID
  }

  ghost predicate RolesAgree(folders: Folders, folders': Folders, role: string) {
    forall f | f in folders :: f in folders'
           && (folders'[f].systemRole == Some(role) <==> folders[f].systemRole == Some(role))
  }

  lemma {:induction false} SameClimb(folders: Folders, rank: map<string, nat>, folders': Folders, f: string, n: nat)
    requires Ranks(folders, rank) && ParentsAgree(folders, folders') && f in folders
    ensures Up(folders', f, n) == Up(folders, f, n)
    ensures Up(folders, f, n).Some? ==> Up(folders, f, n).value in folders
    decreases n
  {
    assert RankedAt(folders, rank, f);
    if n > 0 && folders[f].parentID.Some? {
      SameClimb(folders, rank, folders', folders[f].parentID.value, n - 1);
    }
  }

  /** A forest that only grows, keeping parents and holders of a role, answers the role walk as before. */
  lemma SameRoleWalk(folders: Folders, folders': Folders, f: string, role: string)
    requires Forest(folders) && "" !in folders && "" !in folders' && f in folders
    requires ParentsAgree(folders, folders') && RolesAgree(folders, folders', role)
    ensures HasRoleAncestor(folders', f, role) <==> HasRoleAncestor(folders, f, role)
  {
    var rank :| Ranks(folders, rank);
    RoleWalkFindsRoles(folders, f, role);
    RoleWalkFindsRoles(folders', f, role);
    forall g ensures Reaches(folders', f, g) <==> Reaches(folders, f, g) && g in folders {
      if Reaches(folders', f, g) {
        var n: nat :| Up(folders', f, n) == Some(g);
        SameClimb(folders, rank, folders', f, n);
      }
      if Reaches(folders, f, g) && g in folders {
        var n: nat :| Up(folders, f, n) == Some(g);
        SameClimb(folders, rank, folders', f, n);
      }
    }
  }

  /** Putting Inbox in place neither gives nor takes the Trash role. */
  lemma InboxLeavesTrash(next: nat, folders: Folders, now: int)
    requires FolderInv(next, folders)
    ensures RolesAgree(folders, EnsuredIn(folders, now, ROLE_INBOX).0, ROLE_TRASH)
  {
    assert ROLE_INBOX[0] == 'i' && ROLE_TRASH[0] == 't' && IsRole(ROLE_INBOX);
    EnsuredInKeepsInv(next, folders, now, ROLE_INBOX);
    var found := RootNamed(folders, RoleName(ROLE_INBOX));
    if found.Some? && folders[found.value].systemRole.Some? {
      RoleNamesDiffer(folders[found.value].systemRole.value, ROLE_INBOX);
    }
  }

  // ----- What an import keeps -----

  ghost predicate WalksKept(base: State, s: State) {
    forall f | f in base.folders ::
      f in s.folders && (HasRoleAncestor(s.folders, f, ROLE_TRASH) <==> HasRoleAncestor(base.folders, f, ROLE_TRASH))
  }

  ghost predicate PlacesKept(base: State, s: State) {
    forall d | LiesInTrash(base, d) :: d in s.docs && s.docs[d].meta.folderID == base.docs[d].meta.folderID
  }

  lemma PlacementLeavesTrash(env: Env, base: State, s: State, folderID: string, s': State, id: string)
    requires Inv(s) && WalksKept(base, s) && DocumentFolderFor(env, s, folderID, true) == Ok((s', id))
    ensures WalksKept(base, s')
  {
    if env.trim(folderID) == "" {
      FoldersSound(s);
      EnsuredKeepsInv(env, s, ROLE_INBOX);
      FoldersSound(s');
      EnsuredInKeepsInv(s.next, s.folders, Now(env, s), ROLE_INBOX);
      InboxLeavesTrash(s.next, s.folders, Now(env, s));
      forall f | f in base.folders
        ensures f in s'.folders && (HasRoleAncestor(s'.folders, f, ROLE_TRASH)
                                    <==> HasRoleAncestor(base.folders, f, ROLE_TRASH))
      {
        SameRoleWalk(s.folders, s'.folders, f, ROLE_TRASH);
      }
    }
  }

  lemma RecordIsStored(base: State, feed: Feed, im: Import, k: nat)
    requires ImportInv(base, feed, im) && k < |im.records|
    ensures var d := im.records[k]; d.meta.id in base.docs && d.meta.id in im.s.docs && im.s.docs[d.meta.id] == d
  {
    assert ImportSound(base, feed, im, SnapshotPart);
    assert Current(base, im, k);
  }

  lemma MoreDocumentsLeaveTrash(base: State, s: State, s': State)
    requires PlacesKept(base, s) && forall d | d in s.docs :: d in s'.docs && s'.docs[d] == s.docs[d]
    ensures PlacesKept(base, s')
  {
  }

  /** Creating a document for an item changes the folder table only by placing it. */
  lemma CreatedWhere(env: Env, s: State, feed: Feed, item: NormalItem, s1: State, id: string)
      returns (wanted: string, placed: State, folderID: string)
    requires ItemDocumentCreated(env, s, feed, item) == Ok((s1, id))
    ensures DocumentFolderFor(env, s, wanted, true) == Ok((placed, folderID)) && s1.folders == placed.folders
  {
    wanted := WantedFolder(feed);
    placed := DocumentFolderFor(env, s, wanted, true).value.0;
    folderID := DocumentFolderFor(env, s, wanted, true).value.1;
  }

  lemma CreateKeepsPlaces(env: Env, base: State, feed: Feed, s: State, item: NormalItem, s1: State, id: string)
    requires Inv(s) && PlacesKept(base, s) && ItemDocumentCreated(env, s, feed, item) == Ok((s1, id))
    ensures PlacesKept(base, s1)
  {
    ItemDocumentKeepsInv(env, s, feed, item, s1, id);
    MoreDocumentsLeaveTrash(base, s, s1);
  }

  lemma CreateLeavesTrash(env: Env, base: State, feed: Feed, im: Import, item: NormalItem, s1: State, id: string)
    requires ImportInv(base, feed, im) && WalksKept(base, im.s) && PlacesKept(base, im.s)
    requires ItemDocumentCreated(env, im.s, feed, item) == Ok((s1, id))
    ensures WalksKept(base, s1) && PlacesKept(base, s1)
  {
    StoreStaysSound(base, feed, im);
    CreateKeepsPlaces(env, base, feed, im.s, item, s1, id);
    var wanted, placed, folderID := CreatedWhere(env, im.s, feed, item, s1, id);
    PlacementLeavesTrash(env, base, im.s, wanted, placed, folderID);
  }

  /** What `adopt` moves does not lie in Trash. */
  lemma MoveLeavesTrash(base: State, s: State, d: Document, feed: Feed, moved: Document)
    requires Inv(base) && WalksKept(base, s) && PlacesKept(base, s)
    requires d.meta.id in base.docs && d.meta.id in s.docs && s.docs[d.meta.id] == d && ShouldMove(s.folders, d, feed)
    requires moved.meta.id == d.meta.id
    ensures PlacesKept(base, WithDocument(s, moved))
  {
    StoredDocument(base, d.meta.id);
  }

  lemma AdoptLeavesTrash(env: Env, base: State, feed: Feed, im: Import, k: nat)
    requires Inv(base) && ImportInv(base, feed, im) && WalksKept(base, im.s) && PlacesKept(base, im.s)
             && k < |im.records|
    ensures var s1 := Adopted(env, feed, im, k).s; WalksKept(base, s1) && PlacesKept(base, s1)
  {
    RecordIsStored(base, feed, im, k);
    var d := im.records[k];
    if ShouldMove(im.s.folders, d, feed) {
      MoveLeavesTrash(base, im.s, d, feed, d.(meta := d.meta.(folderID := feed.folderID, updatedAt := Now(env, im.s))));
    }
  }

  lemma DocumentForLeavesTrash(env: Env, base: State, feed: Feed, im: Import, item: NormalItem, im1: Import,
                               documentID: string)
    requires Inv(base) && ImportInv(base, feed, im) && WalksKept(base, im.s) && PlacesKept(base, im.s)
    requires DocumentFor(env, feed, im, item) == Ok((im1, documentID))
    ensures WalksKept(base, im1.s) && PlacesKept(base, im1.s)
  {
    var k := FirstOrphan(im.records, im.linked, item);
    if k < |im.records| {
      AdoptLeavesTrash(env, base, feed, im, k);
    } else {
      CreateLeavesTrash(env, base, feed, im, item, im1.s, documentID);
    }
  }

  lemma StepLeavesTrash(env: Env, base: State, feed: Feed, im: Import, item: ImportItem, im': Import)
    requires Inv(base) && ImportInv(base, feed, im) && WalksKept(base, im.s) && PlacesKept(base, im.s)
    requires ImportStep(env, feed, im, item) == Ok(im')
    ensures WalksKept(base, im'.s) && PlacesKept(base, im'.s)
  {
    var normal := Normalized(env, item);
    if normal.Some? && !HasKey(im.seen, normal.value) {
      var (im1, documentID) := DocumentFor(env, feed, im, normal.value).value;
      DocumentForLeavesTrash(env, base, feed, im, normal.value, im1, documentID);
    }
  }

  lemma {:induction false} AllLeaveTrash(env: Env, base: State, feed: Feed, im: Import, items: seq<ImportItem>,
                                         im': Import)
    requires Inv(base) && ImportInv(base, feed, im) && WalksKept(base, im.s) && PlacesKept(base, im.s)
    requires ImportAll(env, feed, im, items) == Ok(im')
    ensures WalksKept(base, im'.s) && PlacesKept(base, im'.s)
  {
    if items != [] {
      var front, last := items[..|items| - 1], items[|items| - 1];
      var before := ImportAll(env, feed, im, front).value;
      AllLeaveTrash(env, base, feed, im, front, before);
      ImportAllKeepsInv(env, base, feed, im, front);
      StepLeavesTrash(env, base, feed, before, last, im');
    }
  }

  /** A document that lies in Trash before an import lies there afterwards, in the same folder. */
  lemma ImportKeepsTrash(env: Env, s: State, feedID: string, items: seq<ImportItem>, s': State, result: ImportResult,
                         d: string)
    requires Inv(s) && KeyedDocuments(s.docs) && ImportFeedItemsSpec(env, s, feedID, items) == Ok((s', result))
    requires LiesInTrash(s, d)
    ensures LiesInTrash(s', d) && s'.docs[d].meta.folderID == s.docs[d].meta.folderID
  {
    StartKeepsInv(s, feedID);
    var feed, start := s.feeds[feedID], ImportStart(s, feedID);
    AllLeaveTrash(env, s, feed, start, items, ImportAll(env, feed, start, items).value);
    StoredDocument(s, d);
  }
}
