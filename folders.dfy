/** The pure side of BACKEND/controllers/folderController.js: the listing and search
    filters, the record a create builds, and the in-place update and `$inc` of one folder. */
module FolderController {
  import opened Responses
  import opened Sequences
  import opened Records
  import opened Access

  predicate FolderVisible(allowed: seq<int>, email: string, f: Folder) {
    VisibleTo(allowed, email, f.groupId, f.ownerEmail, f.visibility)
  }

  /** getFolders: the folders of the caller's groups that the caller owns or that are public. */
  function ListFolders(sups: seq<Supervisor>, studs: seq<Student>, folders: seq<Folder>, email: string): (r: seq<Folder>)
    ensures forall f :: f in r <==> f in folders && FolderVisible(AllowedGroups(sups, studs, email), email, f)
  {
    var allowed := AllowedGroups(sups, studs, email);
    Filter(folders, (f: Folder) => FolderVisible(allowed, email, f))
  }

  /** searchFolders: the same filter, restricted to names the query matches. */
  function SearchFolders(sups: seq<Supervisor>, studs: seq<Student>, folders: seq<Folder>, query: string, email: string): (r: seq<Folder>)
    ensures forall f :: f in r <==>
      f in folders && Matches(query, f.name) && FolderVisible(AllowedGroups(sups, studs, email), email, f)
  {
    var allowed := AllowedGroups(sups, studs, email);
    Filter(folders, (f: Folder) => Matches(query, f.name) && FolderVisible(allowed, email, f))
  }

  /** Whatever a search returns, the plain listing returns too. */
  lemma SearchWithinListing(sups: seq<Supervisor>, studs: seq<Student>, folders: seq<Folder>, query: string, email: string)
    ensures forall f :: f in SearchFolders(sups, studs, folders, query, email) ==> f in ListFolders(sups, studs, folders, email)
  {
  }

  /** Searching with the empty query is the plain listing, in the same order. */
  lemma EmptySearchIsListing(sups: seq<Supervisor>, studs: seq<Student>, folders: seq<Folder>, email: string)
    ensures SearchFolders(sups, studs, folders, "", email) == ListFolders(sups, studs, folders, email)
  {
    var allowed := AllowedGroups(sups, studs, email);
    forall f | f in folders ensures Matches("", f.name) {
      EmptyQueryMatchesAll(f.name);
    }
    FilterAgrees(folders,
      (f: Folder) => Matches("", f.name) && FolderVisible(allowed, email, f),
      (f: Folder) => FolderVisible(allowed, email, f));
  }

  /** An email nobody carries lists no folder. */
  lemma UnknownEmailListsNothing(sups: seq<Supervisor>, studs: seq<Student>, folders: seq<Folder>, email: string)
    requires !Known(sups, studs, email)
    ensures ListFolders(sups, studs, folders, email) == []
  {
    UnknownEmailFallsThrough(sups, studs, email, 0);
  }

  /** A supervisor with no groups lists and finds nothing. */
  lemma NoGroupsListsNothing(sups: seq<Supervisor>, studs: seq<Student>, folders: seq<Folder>, s: Supervisor, query: string)
    requires UniqueGmails(sups) && s in sups && s.groups == []
    ensures ListFolders(sups, studs, folders, s.gmail) == []
    ensures SearchFolders(sups, studs, folders, query, s.gmail) == []
  {
    SupervisorWithoutGroups(sups, studs, s, 0);
  }

  /** A private folder is listed for its owner when its group is allowed, and for nobody else. */
  lemma PrivateFolderOwnerOnly(sups: seq<Supervisor>, studs: seq<Student>, folders: seq<Folder>, f: Folder, email: string)
    requires f in folders && !f.visibility
    ensures f in ListFolders(sups, studs, folders, email) <==>
      f.ownerEmail == email && f.groupId in AllowedGroups(sups, studs, email)
  {
  }

  /** After deleteFolder, no folder with that id is listed for anyone. */
  lemma DeletedFolderNotListed(sups: seq<Supervisor>, studs: seq<Student>, folders: seq<Folder>, id: int, email: string)
    requires UniqueIds(Keys(folders, FolderId))
    ensures forall f :: f in ListFolders(sups, studs, RemoveFirst(folders, FolderId, id), email) ==> f.id != id
  {
  }

  /** createFolder's new record: id above every existing folder id (max + 1, or 1 when there
      are none), exactly the given fields, and a `File` counter of 0. */
  function NewFolder(folders: seq<Folder>, name: string, visibility: bool, ownerEmail: string, groupId: int): (f: Folder)
    ensures forall g :: g in folders ==> g.id < f.id
    ensures folders == [] ==> f.id == 1
    ensures folders != [] ==> exists g :: g in folders && g.id == f.id - 1
    ensures f.name == name && f.visibility == visibility && f.ownerEmail == ownerEmail
    ensures f.groupId == groupId && f.fileCount == 0
  {
    var ids := Keys(folders, FolderId);
    assert forall g :: g in folders ==> g.id in ids;
    Folder(NextId(ids), name, visibility, ownerEmail, groupId, 0)
  }

  /** Appending the new folder keeps folder ids unique. */
  lemma NewFolderKeepsIdsUnique(folders: seq<Folder>, name: string, visibility: bool, ownerEmail: string, groupId: int)
    requires UniqueIds(Keys(folders, FolderId))
    ensures UniqueIds(Keys(folders + [NewFolder(folders, name, visibility, ownerEmail, groupId)], FolderId))
  {
    var f := NewFolder(folders, name, visibility, ownerEmail, groupId);
    KeysAppend(folders, f, FolderId);
    NextIdKeepsUnique(Keys(folders, FolderId));
  }

  /** Folders created one after another from none get ids 1, 2, 3, ... with no gap. */
  lemma SequentialFolderIds(folders: seq<Folder>, name: string, visibility: bool, ownerEmail: string, groupId: int)
    requires forall i :: 0 <= i < |folders| ==> folders[i].id == i + 1
    ensures NewFolder(folders, name, visibility, ownerEmail, groupId).id == |folders| + 1
  {
    NextIdAfterSequential(Keys(folders, FolderId));
  }

  /** updateFolder: the folder with that id gets the new Name and Visibility; its id, owner,
      group and counter, and every other folder, stay as they were; no folder has the id,
      nothing changes. No ownership is checked. */
  function Rename(folders: seq<Folder>, id: int, name: string, visibility: bool): (r: seq<Folder>)
    ensures |r| == |folders| && Keys(r, FolderId) == Keys(folders, FolderId)
    ensures id !in Keys(folders, FolderId) ==> r == folders
    ensures UniqueIds(Keys(folders, FolderId)) ==> forall i :: 0 <= i < |folders| ==>
      r[i] == if folders[i].id == id then folders[i].(name := name, visibility := visibility) else folders[i]
  {
    match FirstIndex(Keys(folders, FolderId), id)
    case None => folders
    case Some(i) => folders[i := folders[i].(name := name, visibility := visibility)]
  }

  /** The `$inc` on a folder's `File` counter: the folder with that id gets delta added and
      nothing else changes; no folder has the id, nothing changes. No bound is kept. */
  function BumpFileCount(folders: seq<Folder>, id: int, delta: int): (r: seq<Folder>)
    ensures |r| == |folders| && Keys(r, FolderId) == Keys(folders, FolderId)
    ensures id !in Keys(folders, FolderId) ==> r == folders
    ensures UniqueIds(Keys(folders, FolderId)) ==> forall i :: 0 <= i < |folders| ==>
      r[i] == if folders[i].id == id then folders[i].(fileCount := folders[i].fileCount + delta) else folders[i]
  {
    match FirstIndex(Keys(folders, FolderId), id)
    case None => folders
    case Some(i) => folders[i := folders[i].(fileCount := folders[i].fileCount + delta)]
  }

  /** Raising a counter and lowering it again by the same amount restores every folder. */
  lemma BumpRoundTrip(folders: seq<Folder>, id: int, delta: int)
    ensures BumpFileCount(BumpFileCount(folders, id, delta), id, -delta) == folders
  {
    match FirstIndex(Keys(folders, FolderId), id)
    case None =>
    case Some(i) =>
      var once := folders[i := folders[i].(fileCount := folders[i].fileCount + delta)];
      assert BumpFileCount(folders, id, delta) == once;
      assert Keys(once, FolderId) == Keys(folders, FolderId);
      var twice := once[i := once[i].(fileCount := once[i].fileCount - delta)];
      assert BumpFileCount(once, id, -delta) == twice;
      assert twice[i] == folders[i];
  }
}
