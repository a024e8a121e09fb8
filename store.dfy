/** The backend's document store as one object: the four collections the controllers read
    and write, and the set of blob paths on disk. Each mutating controller is a method. */
module Store {
  import opened Responses
  import opened Sequences
  import opened Records
  import opened Access
  import opened FolderController
  import opened FileController
  import opened AuthController

  class ResourceStore {
    var supervisors: seq<Supervisor>
    var students: seq<Student>
    var folders: seq<Folder>
    var files: seq<File>
    var blobs: set<string>

    /** The supervisor schema holds, and folder and file ids are unique. */
    ghost predicate Valid()
      reads this
    {
      && WellFormedSupervisors(supervisors)
      && UniqueIds(Keys(folders, FolderId))
      && UniqueIds(Keys(files, FileId))
    }

    constructor ()
      ensures Valid()
      ensures supervisors == [] && students == [] && folders == [] && files == [] && blobs == {}
    {
      supervisors, students, folders, files, blobs := [], [], [], [], {};
    }

    /** registerSupervisor: a save the schema refuses (a required field empty, the Gmail
        taken) answers ServerError and changes nothing; otherwise exactly one supervisor is
        appended and nothing else changes. */
    method RegisterSupervisor(name: string, interest: string, gmail: string, groups: GroupsField) returns (r: Result<Supervisor>)
      requires Valid()
      modifies this
      ensures Valid()
      ensures var s := SupervisorDocument(name, interest, gmail, Some(NormaliseGroups(groups)));
        if SaveCheck(old(supervisors), s).Pass? then r == Ok(s) && supervisors == old(supervisors) + [s]
        else r == Err(ServerError) && supervisors == old(supervisors)
      ensures students == old(students) && folders == old(folders) && files == old(files) && blobs == old(blobs)
    {
      var groupNumbers := NormaliseGroups(groups);
      var s := SupervisorDocument(name, interest, gmail, Some(groupNumbers));
      var check := SaveCheck(supervisors, s);
      if check.Fail? {
        return Err(ServerError);
      }
      SaveKeepsSupervisorsWellFormed(supervisors, s);
      supervisors := supervisors + [s];
      r := Ok(s);
    }

    /** registerStudent: exactly one student, with its single group, is appended. */
    method RegisterStudent(name: string, supervisor: string, gmail: string, groupId: int) returns (t: Student)
      requires Valid()
      modifies this
      ensures Valid()
      ensures t == Student(name, supervisor, gmail, groupId) && students == old(students) + [t]
      ensures supervisors == old(supervisors) && folders == old(folders) && files == old(files) && blobs == old(blobs)
    {
      t := Student(name, supervisor, gmail, groupId);
      students := students + [t];
    }

    /** createFolder: Forbidden and no change when the gate refuses; otherwise the new folder
        is appended after all existing ones, which stay as they were. */
    method CreateFolder(name: string, visibility: bool, ownerEmail: string, groupId: int) returns (r: Result<Folder>)
      requires Valid()
      modifies this
      ensures Valid()
      ensures CreateCheck(supervisors, students, ownerEmail, groupId).Fail? ==>
        r == Err(Forbidden) && folders == old(folders)
      ensures CreateCheck(supervisors, students, ownerEmail, groupId).Pass? ==>
        r == Ok(NewFolder(old(folders), name, visibility, ownerEmail, groupId)) && folders == old(folders) + [r.value]
      ensures supervisors == old(supervisors) && students == old(students) && files == old(files) && blobs == old(blobs)
    {
      var supervisor := FindSupervisor(supervisors, ownerEmail);
      var student := FindStudent(students, ownerEmail);
      if supervisor.Some? {
        if groupId !in supervisor.value.groups {
          return Err(Forbidden);
        }
      } else if student.Some? {
        if student.value.groupId != groupId {
          return Err(Forbidden);
        }
      }
      var newId := NextId(Keys(folders, FolderId));
      var folder := Folder(newId, name, visibility, ownerEmail, groupId, 0);
      NewFolderKeepsIdsUnique(folders, name, visibility, ownerEmail, groupId);
      folders := folders + [folder];
      r := Ok(folder);
    }

    /** updateFolder: Name and Visibility of the folder with that id are replaced, nothing else
        changes, and the updated record is returned; None and no change when no folder has
        the id. No ownership is checked. */
    method UpdateFolder(id: int, name: string, visibility: bool) returns (r: Option<Folder>)
      requires Valid()
      modifies this
      ensures Valid()
      ensures folders == Rename(old(folders), id, name, visibility)
      ensures r.None? <==> id !in Keys(old(folders), FolderId)
      ensures r.Some? ==> r.value in folders && r.value.id == id && r.value.name == name && r.value.visibility == visibility
      ensures supervisors == old(supervisors) && students == old(students) && files == old(files) && blobs == old(blobs)
    {
      var i := FirstIndex(Keys(folders, FolderId), id);
      if i.None? {
        return None;
      }
      var updated := folders[i.value].(name := name, visibility := visibility);
      folders := folders[i.value := updated];
      r := Some(updated);
    }

    /** deleteFolder: the folder with that id is removed; its files stay, with a parent id that
        no longer names a folder. No ownership is checked. */
    method DeleteFolder(id: int)
      requires Valid()
      modifies this
      ensures Valid()
      ensures folders == RemoveFirst(old(folders), FolderId, id)
      ensures supervisors == old(supervisors) && students == old(students) && files == old(files) && blobs == old(blobs)
    {
      folders := RemoveFirst(folders, FolderId, id);
    }

    /** uploadFile. The blob of the request is on disk before the checks run, rejected or not.
        A refused upload (BadRequest or Forbidden) adds no record and changes no counter;
        otherwise the new record is appended and its folder's counter goes up by one. */
    method UploadFile(upload: Option<string>, form: UploadForm) returns (r: Result<File>)
      requires Valid()
      modifies this
      ensures Valid()
      ensures blobs == old(blobs) + (if upload.Some? then {upload.value} else {})
      ensures CheckUpload(supervisors, students, upload, form).Fail? ==>
        r == Err(CheckUpload(supervisors, students, upload, form).error) && files == old(files) && folders == old(folders)
      ensures CheckUpload(supervisors, students, upload, form).Pass? ==>
        && r == Ok(NewFile(old(files), form, upload.value))
        && files == old(files) + [r.value]
        && folders == BumpFileCount(old(folders), form.folder.value, 1)
      ensures supervisors == old(supervisors) && students == old(students)
    {
      if upload.None? {
        return Err(BadRequest);
      }
      blobs := blobs + {upload.value};
      if !HasUploadFields(form) {
        return Err(BadRequest);
      }
      var ownerEmail, groupId := form.ownerEmail.value, form.groupId.value;
      var supervisor := FindSupervisor(supervisors, ownerEmail);
      var student := FindStudent(students, ownerEmail);
      if supervisor.Some? {
        if groupId !in supervisor.value.groups {
          return Err(Forbidden);
        }
      } else if student.Some? {
        if student.value.groupId != groupId {
          return Err(Forbidden);
        }
      }
      var newId := NextId(Keys(files, FileId));
      var file := File(newId, form.name.value, form.folder.value, ParseVisibility(form.visibility),
                       upload.value, ownerEmail, groupId);
      NewFileKeepsIdsUnique(files, form, upload.value);
      files := files + [file];
      folders := BumpFileCount(folders, form.folder.value, 1);
      r := Ok(file);
    }

    /** deleteFile: NotFound and no change when no record has the id; otherwise its blob is
        removed if present, its parent folder's counter goes down by one, and that record alone
        is removed. No ownership is checked. */
    method DeleteFile(id: int) returns (r: Outcome)
      requires Valid()
      modifies this
      ensures Valid()
      ensures FindFile(old(files), id).None? ==>
        r == Fail(NotFound) && files == old(files) && folders == old(folders) && blobs == old(blobs)
      ensures FindFile(old(files), id).Some? ==>
        && r == Pass
        && blobs == old(blobs) - {FindFile(old(files), id).value.filePath}
        && folders == BumpFileCount(old(folders), FindFile(old(files), id).value.folder, -1)
        && files == RemoveFirst(old(files), FileId, id)
      ensures supervisors == old(supervisors) && students == old(students)
    {
      var file := FindFile(files, id);
      if file.None? {
        return Fail(NotFound);
      }
      var path := file.value.filePath;
      var remaining := RemoveFirst(files, FileId, id);
      var counted := BumpFileCount(folders, file.value.folder, -1);
      assert UniqueIds(Keys(remaining, FileId));
      assert Keys(counted, FolderId) == Keys(folders, FolderId);
      if path in blobs {
        blobs := blobs - {path};
      }
      folders := counted;
      files := remaining;
      r := Pass;
    }

    // Two read-only endpoints, over the current collections.

    function GetFolders(email: string): seq<Folder>
      reads this
    {
      ListFolders(supervisors, students, folders, email)
    }

    function GetFilesByFolder(folderId: int, email: string): seq<File>
      reads this
    {
      ListFilesInFolder(supervisors, students, files, folderId, email)
    }
  }
}
