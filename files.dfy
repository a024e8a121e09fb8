/** The pure side of BACKEND/controllers/fileController.js: upload validation, the record an
    upload builds, the listing and search filters, and the download lookup. */
module FileController {
  import opened Responses
  import opened Sequences
  import opened Records
  import opened Access
  import opened FolderController

  /** The multipart Visibility field: text, a JSON boolean, or absent. */
  datatype VisibilityField = Text(text: string) | Flag(flag: bool) | Absent

  /** The multipart body of an upload. A text field is None when the form omits it. The folder
      and group ids arrive as text: None stands for an omitted or empty field (both falsy), and
      otherwise the field holds the parsed number. */
  datatype UploadForm = UploadForm(
    name: Option<string>,
    folder: Option<int>,
    visibility: VisibilityField,
    ownerEmail: Option<string>,
    groupId: Option<int>)

  /** JavaScript truthiness of a text field: present and non-empty. */
  predicate Supplied(s: Option<string>) {
    s.Some? && s.value != ""
  }

  predicate HasUploadFields(form: UploadForm) {
    Supplied(form.name) && form.folder.Some? && Supplied(form.ownerEmail) && form.groupId.Some?
  }

  /** The stored Visibility: true exactly for the text "true" or the boolean true. */
  function ParseVisibility(v: VisibilityField): (b: bool)
    ensures b <==> v == Text("true") || v == Flag(true)
  {
    match v
    case Text(t) => t == "true"
    case Flag(f) => f
    case Absent => false
  }

  /** The checks uploadFile makes before it writes anything: BadRequest when no file came with
      the request or a required field is missing, then the same group gate as createFolder. */
  function CheckUpload(sups: seq<Supervisor>, studs: seq<Student>, upload: Option<string>, form: UploadForm): (r: Outcome)
    ensures r == Fail(BadRequest) <==> upload.None? || !HasUploadFields(form)
    ensures upload.Some? && HasUploadFields(form) ==>
      r == CreateCheck(sups, studs, form.ownerEmail.value, form.groupId.value)
  {
    if upload.None? then Fail(BadRequest)
    else if !HasUploadFields(form) then Fail(BadRequest)
    else CreateCheck(sups, studs, form.ownerEmail.value, form.groupId.value)
  }

  /** An uploader that exists and lacks the group is refused; an unknown email passes. */
  lemma UploadGate(sups: seq<Supervisor>, studs: seq<Student>, upload: Option<string>, form: UploadForm)
    requires upload.Some? && HasUploadFields(form)
    ensures CheckUpload(sups, studs, upload, form).Pass? <==>
      !Known(sups, studs, form.ownerEmail.value) || form.groupId.value in AllowedGroups(sups, studs, form.ownerEmail.value)
  {
    CreateCheckMatchesAllowedGroups(sups, studs, form.ownerEmail.value, form.groupId.value);
  }

  /** The gate reads the submitted group only: which folder the file goes into plays no part,
      so an allowed group admits an upload into any folder, existing or not. */
  lemma UploadGateIgnoresFolder(sups: seq<Supervisor>, studs: seq<Student>, upload: Option<string>, form: UploadForm, folder: int)
    requires form.folder.Some?
    ensures CheckUpload(sups, studs, upload, form.(folder := Some(folder))) == CheckUpload(sups, studs, upload, form)
  {
  }

  /** uploadFile's new record: id above every existing file id (max + 1, or 1 when there are
      none), the form's fields, the parsed Visibility and the blob's path. */
  function NewFile(files: seq<File>, form: UploadForm, path: string): (f: File)
    requires HasUploadFields(form)
    ensures forall g :: g in files ==> g.id < f.id
    ensures files == [] ==> f.id == 1
    ensures files != [] ==> exists g :: g in files && g.id == f.id - 1
    ensures f.name == form.name.value && f.folder == form.folder.value
    ensures f.ownerEmail == form.ownerEmail.value && f.groupId == form.groupId.value
    ensures f.visibility == ParseVisibility(form.visibility) && f.filePath == path
  {
    var ids := Keys(files, FileId);
    assert forall g :: g in files ==> g.id in ids;
    File(NextId(ids), form.name.value, form.folder.value, ParseVisibility(form.visibility),
         path, form.ownerEmail.value, form.groupId.value)
  }

  /** Appending the new file keeps file ids unique. */
  lemma NewFileKeepsIdsUnique(files: seq<File>, form: UploadForm, path: string)
    requires HasUploadFields(form) && UniqueIds(Keys(files, FileId))
    ensures UniqueIds(Keys(files + [NewFile(files, form, path)], FileId))
  {
    KeysAppend(files, NewFile(files, form, path), FileId);
    NextIdKeepsUnique(Keys(files, FileId));
  }

  predicate FileVisible(allowed: seq<int>, email: string, f: File) {
    VisibleTo(allowed, email, f.groupId, f.ownerEmail, f.visibility)
  }

  /** getFilesByFolder: the caller's visible files whose parent is folderId. */
  function ListFilesInFolder(sups: seq<Supervisor>, studs: seq<Student>, files: seq<File>, folderId: int, email: string): (r: seq<File>)
    ensures forall f :: f in r <==>
      f in files && f.folder == folderId && FileVisible(AllowedGroups(sups, studs, email), email, f)
  {
    var allowed := AllowedGroups(sups, studs, email);
    Filter(files, (f: File) => f.folder == folderId && FileVisible(allowed, email, f))
  }

  /** searchFiles: the caller's visible files, in any folder, whose name the query matches. */
  function SearchFiles(sups: seq<Supervisor>, studs: seq<Student>, files: seq<File>, query: string, email: string): (r: seq<File>)
    ensures forall f :: f in r <==>
      f in files && Matches(query, f.name) && FileVisible(AllowedGroups(sups, studs, email), email, f)
  {
    var allowed := AllowedGroups(sups, studs, email);
    Filter(files, (f: File) => Matches(query, f.name) && FileVisible(allowed, email, f))
  }

  /** An email nobody carries lists and finds no file. */
  lemma UnknownEmailSeesNoFiles(sups: seq<Supervisor>, studs: seq<Student>, files: seq<File>, folderId: int, query: string, email: string)
    requires !Known(sups, studs, email)
    ensures ListFilesInFolder(sups, studs, files, folderId, email) == []
    ensures SearchFiles(sups, studs, files, query, email) == []
  {
    UnknownEmailFallsThrough(sups, studs, email, 0);
  }

  /** A supervisor with no groups lists and finds no file. */
  lemma NoGroupsSeesNoFiles(sups: seq<Supervisor>, studs: seq<Student>, files: seq<File>, s: Supervisor, folderId: int, query: string)
    requires UniqueGmails(sups) && s in sups && s.groups == []
    ensures ListFilesInFolder(sups, studs, files, folderId, s.gmail) == []
    ensures SearchFiles(sups, studs, files, query, s.gmail) == []
  {
    SupervisorWithoutGroups(sups, studs, s, 0);
  }

  /** `File.findOne({ id })`. */
  function FindFile(files: seq<File>, id: int): (r: Option<File>)
    ensures r.None? <==> forall f :: f in files ==> f.id != id
    ensures r.Some? ==> r.value in files && r.value.id == id
  {
    FindFirst(files, (f: File) => f.id == id)
  }

  /** What a download sends: the blob at path, offered under the record's name. */
  datatype Download = Download(path: string, servedAs: string)

  /** downloadFile: NotFound when no record has the id or its blob is not stored; otherwise
      the record's blob, named after the record rather than its path. No access check. */
  function DownloadFile(files: seq<File>, blobs: set<string>, id: int): (r: Result<Download>)
    ensures r.Err? ==> r.error == NotFound
    ensures (forall f :: f in files ==> f.id != id) ==> r.Err?
    ensures r.Ok? ==> r.value.path in blobs
    ensures r.Ok? ==> exists f :: f in files && f.id == id && r.value == Download(f.filePath, f.name)
  {
    match FindFile(files, id)
    case None => Err(NotFound)
    case Some(f) => if f.filePath in blobs then Ok(Download(f.filePath, f.name)) else Err(NotFound)
  }

  /** With unique ids, a download of a file's id is decided by that file's own blob. */
  lemma DownloadOfRecord(files: seq<File>, blobs: set<string>, f: File)
    requires UniqueIds(Keys(files, FileId)) && f in files
    ensures DownloadFile(files, blobs, f.id) == if f.filePath in blobs then Ok(Download(f.filePath, f.name)) else Err(NotFound)
  {
    var found := FindFile(files, f.id).value;
    var i :| 0 <= i < |files| && files[i] == f;
    var k :| 0 <= k < |files| && files[k] == found;
    assert Keys(files, FileId)[i] == Keys(files, FileId)[k];
  }

  /** Once a file record is removed, downloading its id is NotFound. */
  lemma DeletedFileNotFound(files: seq<File>, blobs: set<string>, id: int)
    requires UniqueIds(Keys(files, FileId))
    ensures DownloadFile(RemoveFirst(files, FileId, id), blobs, id) == Err(NotFound)
  {
    var rest := RemoveFirst(files, FileId, id);
    forall f | f in rest ensures f.id != id {
      var k :| 0 <= k < |rest| && rest[k] == f;
      assert Keys(rest, FileId)[k] == f.id;
    }
  }

  /** Uploading a file and then deleting it restores the file records and every folder counter. */
  lemma UploadThenDeleteRestores(files: seq<File>, folders: seq<Folder>, form: UploadForm, path: string)
    requires HasUploadFields(form) && UniqueIds(Keys(files, FileId))
    ensures var f := NewFile(files, form, path);
      && RemoveFirst(files + [f], FileId, f.id) == files
      && BumpFileCount(BumpFileCount(folders, form.folder.value, 1), f.folder, -1) == folders
  {
    var f := NewFile(files, form, path);
    KeysAppend(files, f, FileId);
    assert f.id !in Keys(files, FileId);
    assert FirstIndex(Keys(files + [f], FileId), f.id) == Some(|files|);
    assert RemoveAt(files + [f], |files|) == files;
    BumpRoundTrip(folders, form.folder.value, 1);
  }
}
