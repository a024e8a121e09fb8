/** The four kinds of document the backend stores. Only the Supervisor schema
    (BACKEND/models/Supervisor.js) is part of this model; the Student, Folder and
    File shapes follow the fields the controllers read and write. */
module Records {
  import opened Responses
  import opened Sequences

  /** A supervisor: Name, Interest and Gmail are required, Gmail is unique,
      groups is a list of group numbers. */
  datatype Supervisor = Supervisor(name: string, interest: string, gmail: string, groups: seq<int>)

  /** A student belongs to exactly one group. */
  datatype Student = Student(name: string, supervisor: string, gmail: string, groupId: int)

  /** A folder; fileCount is its `File` counter. */
  datatype Folder = Folder(id: int, name: string, visibility: bool, ownerEmail: string, groupId: int, fileCount: int)

  /** An uploaded file; folder is the id of its parent folder, filePath where its blob lives. */
  datatype File = File(id: int, name: string, folder: int, visibility: bool, filePath: string, ownerEmail: string, groupId: int)

  function FolderId(f: Folder): int { f.id }

  function FileId(f: File): int { f.id }

  /** The supervisor document the schema builds: a missing groups list defaults to []. */
  function SupervisorDocument(name: string, interest: string, gmail: string, groups: Option<seq<int>>): (s: Supervisor)
    ensures s.name == name && s.interest == interest && s.gmail == gmail
    ensures groups.None? ==> s.groups == []
    ensures groups.Some? ==> s.groups == groups.value
  {
    Supervisor(name, interest, gmail, match groups case None => [] case Some(gs) => gs)
  }

  /** Mongoose's `required` on a String: the value must be present and non-empty. */
  predicate HasRequiredFields(s: Supervisor) {
    s.name != "" && s.interest != "" && s.gmail != ""
  }

  /** The unique index on Gmail. */
  predicate UniqueGmails(sups: seq<Supervisor>) {
    forall i, j :: 0 <= i < j < |sups| ==> sups[i].gmail != sups[j].gmail
  }

  /** What the schema guarantees of the supervisor collection. */
  predicate WellFormedSupervisors(sups: seq<Supervisor>) {
    UniqueGmails(sups) && forall s :: s in sups ==> HasRequiredFields(s)
  }

  /** `Supervisor.findOne({ Gmail: email })`. */
  function FindSupervisor(sups: seq<Supervisor>, email: string): (r: Option<Supervisor>)
    ensures r.None? <==> forall s :: s in sups ==> s.gmail != email
    ensures r.Some? ==> r.value in sups && r.value.gmail == email
  {
    FindFirst(sups, (s: Supervisor) => s.gmail == email)
  }

  /** `Student.findOne({ Gmail: email })`. */
  function FindStudent(studs: seq<Student>, email: string): (r: Option<Student>)
    ensures r.None? <==> forall t :: t in studs ==> t.gmail != email
    ensures r.Some? ==> r.value in studs && r.value.gmail == email
  {
    FindFirst(studs, (t: Student) => t.gmail == email)
  }

  /** Because Gmail is unique, at most one supervisor matches an email, and the lookup finds it. */
  lemma SupervisorLookupIsUnique(sups: seq<Supervisor>, s: Supervisor)
    requires UniqueGmails(sups) && s in sups
    ensures FindSupervisor(sups, s.gmail) == Some(s)
    ensures forall s' :: s' in sups && s'.gmail == s.gmail ==> s' == s
  {
    var found := FindSupervisor(sups, s.gmail);
    var i :| 0 <= i < |sups| && sups[i] == s;
    var k :| 0 <= k < |sups| && sups[k] == found.value;
    assert i == k;
    forall s' | s' in sups && s'.gmail == s.gmail ensures s' == s {
      var j :| 0 <= j < |sups| && sups[j] == s';
      assert j == i;
    }
  }

  /** The student found for an email is the earliest one carrying it. */
  lemma StudentLookupIsEarliest(studs: seq<Student>, i: nat)
    requires i < |studs|
    requires forall j :: 0 <= j < i ==> studs[j].gmail != studs[i].gmail
    ensures FindStudent(studs, studs[i].gmail) == Some(studs[i])
  {
    FindFirstIsEarliest(studs, (t: Student) => t.gmail == studs[i].gmail, i);
  }
}
