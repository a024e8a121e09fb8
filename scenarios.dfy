/** Request sequences run against a fresh store, each with the outcome the controllers give. */
module Scenarios {
  import opened Responses
  import opened Sequences
  import opened Records
  import opened FolderController
  import opened FileController
  import opened AuthController
  import opened Store

  /** The counter update on a store holding that one folder. */
  lemma BumpOnlyFolder(f: Folder, delta: int)
    ensures BumpFileCount([f], f.id, delta) == [f.(fileCount := f.fileCount + delta)]
  {
    var r := BumpFileCount([f], f.id, delta);
    assert UniqueIds(Keys([f], FolderId));
    assert r[0] == f.(fileCount := f.fileCount + delta);
  }

  /** A supervisor in groups 1 and 2 and two students of group 1 register. */
  method RegisteredStore() returns (st: ResourceStore)
    ensures fresh(st) && st.Valid()
    ensures st.supervisors == [Supervisor("A", "Systems", "a@x.com", [1, 2])]
    ensures st.students == [Student("B", "A", "b@x.com", 1), Student("C", "A", "c@x.com", 1)]
    ensures st.folders == [] && st.files == [] && st.blobs == {}
  {
    st := new ResourceStore();
    var a := st.RegisterSupervisor("A", "Systems", "a@x.com", GroupList([1, 2]));
    var b := st.RegisterStudent("B", "A", "b@x.com", 1);
    var c := st.RegisterStudent("C", "A", "c@x.com", 1);
  }

  /** Then the supervisor creates a private folder in group 1 (id 1, no files), and the first
      student uploads a private file into it (id 1, the folder now counts 1). */
  method SharedGroupStore() returns (st: ResourceStore, folder: Folder, file: File)
    ensures fresh(st) && st.Valid()
    ensures st.supervisors == [Supervisor("A", "Systems", "a@x.com", [1, 2])]
    ensures st.students == [Student("B", "A", "b@x.com", 1), Student("C", "A", "c@x.com", 1)]
    ensures folder.id == 1 && folder.fileCount == 0 && folder.ownerEmail == "a@x.com" && folder.groupId == 1
    ensures file.id == 1 && file.folder == 1 && !file.visibility && file.ownerEmail == "b@x.com" && file.groupId == 1
    ensures st.folders == [folder.(fileCount := 1)] && st.files == [file]
  {
    st := RegisteredStore();
    Access.SupervisorGate(st.supervisors, st.students, st.supervisors[0], 1);
    var created := st.CreateFolder("Papers", false, "a@x.com", 1);
    folder := created.value;
    var form := UploadForm(Some("draft.pdf"), Some(1), Text("false"), Some("b@x.com"), Some(1));
    Access.StudentGate(st.supervisors, st.students, 0, 1);
    assert CheckUpload(st.supervisors, st.students, Some("uploads/1-draft.pdf"), form) == Pass;
    var uploaded := st.UploadFile(Some("uploads/1-draft.pdf"), form);
    file := uploaded.value;
    assert file == NewFile([], form, "uploads/1-draft.pdf");
    BumpOnlyFolder(folder, 1);
  }

  /** In that store the supervisor lists the folder as its owner, while the second student,
      who owns nothing there, sees no file in it: the file is private. */
  method SharedGroupScenario() returns (count: int, ownerSees: seq<Folder>, peerSees: seq<File>)
    ensures count == 1
    ensures |ownerSees| == 1 && ownerSees[0].id == 1
    ensures peerSees == []
  {
    var st, folder, file := SharedGroupStore();
    count := st.folders[0].fileCount;
    Access.SupervisorGate(st.supervisors, st.students, st.supervisors[0], 1);
    ownerSees := st.GetFolders("a@x.com");
    assert folder.(fileCount := 1) in ownerSees;
    Access.StudentGate(st.supervisors, st.students, 1, 1);
    peerSees := st.GetFilesByFolder(1, "c@x.com");
    assert file !in peerSees;
  }

  /** A supervisor of group 1 registers and creates a public folder (id 1, no files). */
  method OneFolderStore() returns (st: ResourceStore, folder: Folder)
    ensures fresh(st) && st.Valid()
    ensures st.supervisors == [Supervisor("A", "Systems", "a@x.com", [1])] && st.students == []
    ensures folder.id == 1 && folder.fileCount == 0 && st.folders == [folder] && st.files == []
  {
    st := new ResourceStore();
    var a := st.RegisterSupervisor("A", "Systems", "a@x.com", SingleGroup(1));
    assert st.supervisors == [Supervisor("A", "Systems", "a@x.com", [1])];
    Access.SupervisorGate(st.supervisors, st.students, st.supervisors[0], 1);
    var created := st.CreateFolder("Old", true, "a@x.com", 1);
    folder := created.value;
  }

  /** The supervisor then uploads a file into that folder. */
  method OneFileStore() returns (st: ResourceStore, folder: Folder, file: File)
    ensures fresh(st) && st.Valid()
    ensures st.supervisors == [Supervisor("A", "Systems", "a@x.com", [1])] && st.students == []
    ensures folder.id == 1 && st.folders == [folder.(fileCount := 1)]
    ensures file.folder == 1 && st.files == [file]
  {
    st, folder := OneFolderStore();
    Access.SupervisorGate(st.supervisors, st.students, st.supervisors[0], 1);
    var form := UploadForm(Some("notes.txt"), Some(1), Flag(true), Some("a@x.com"), Some(1));
    assert CheckUpload(st.supervisors, st.students, Some("uploads/1-notes.txt"), form) == Pass;
    var uploaded := st.UploadFile(Some("uploads/1-notes.txt"), form);
    file := uploaded.value;
    BumpOnlyFolder(folder, 1);
  }

  /** Deleting that folder leaves its file behind; the folder created next reuses the highest
      id, so deleting the orphaned file lowers the new folder's counter to -1. */
  method OrphanedFileScenario() returns (firstId: int, reusedId: int, count: int)
    ensures firstId == 1 && reusedId == 1
    ensures count == -1
  {
    var st, first, file := OneFileStore();
    firstId := first.id;
    st.DeleteFolder(1);
    assert st.folders == [];
    Access.SupervisorGate(st.supervisors, st.students, st.supervisors[0], 1);
    var second := st.CreateFolder("New", true, "a@x.com", 1);
    reusedId := second.value.id;
    assert st.folders == [second.value];
    assert FindFile(st.files, file.id) == Some(file);
    var deleted := st.DeleteFile(file.id);
    BumpOnlyFolder(second.value, -1);
    count := st.folders[0].fileCount;
  }

  /** A student uploading into another group's folder is refused, yet the uploaded blob
      stays on disk and no record points at it. */
  method RefusedUploadScenario() returns (r: Result<File>, blobKept: bool, records: nat)
    ensures r == Err(Forbidden)
    ensures blobKept && records == 0
  {
    var st := new ResourceStore();
    var b := st.RegisterStudent("B", "A", "b@x.com", 1);
    var form := UploadForm(Some("draft.pdf"), Some(7), Absent, Some("b@x.com"), Some(2));
    r := st.UploadFile(Some("uploads/2-draft.pdf"), form);
    blobKept := "uploads/2-draft.pdf" in st.blobs;
    records := |st.files|;
  }
}
