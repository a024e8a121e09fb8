/** The pure side of BACKEND/controllers/authController.js: the login lookup, the
    normalisation of a supervisor's groups, and the save rules of the Supervisor schema. */
module AuthController {
  import opened Responses
  import opened Records

  /** The groups field of a supervisor registration: an array, or a single value. */
  datatype GroupsField = GroupList(values: seq<int>) | SingleGroup(value: int)

  /** An array keeps its length and order; a single value becomes a one-element list. */
  function NormaliseGroups(groups: GroupsField): (r: seq<int>)
    ensures groups.GroupList? ==> |r| == |groups.values| && forall i :: 0 <= i < |r| ==> r[i] == groups.values[i]
    ensures groups.SingleGroup? ==> |r| == 1 && r[0] == groups.value
  {
    match groups
    case GroupList(gs) => gs
    case SingleGroup(g) => [g]
  }

  /** Whether the schema accepts saving s next to sups: the required fields are present and
      the Gmail is not taken. */
  function SaveCheck(sups: seq<Supervisor>, s: Supervisor): (r: Outcome)
    ensures r.Fail? ==> r.error == ServerError
    ensures r.Pass? <==> HasRequiredFields(s) && forall t :: t in sups ==> t.gmail != s.gmail
  {
    if !HasRequiredFields(s) then Fail(ServerError)
    else match FindSupervisor(sups, s.gmail)
      case Some(_) => Fail(ServerError)
      case None => Pass
  }

  /** A save the schema accepts keeps the collection well formed. */
  lemma SaveKeepsSupervisorsWellFormed(sups: seq<Supervisor>, s: Supervisor)
    requires WellFormedSupervisors(sups) && SaveCheck(sups, s).Pass?
    ensures WellFormedSupervisors(sups + [s])
  {
    var all := sups + [s];
    forall i, j | 0 <= i < j < |all| ensures all[i].gmail != all[j].gmail {
      if j == |sups| {
        assert all[i] in sups;
      }
    }
  }

  datatype Account = SupervisorAccount(supervisor: Supervisor) | StudentAccount(student: Student)

  /** A login reply: the account found and the userType exactly as requested. */
  datatype Session = Session(user: Account, userType: string)

  const SupervisorType: string := "supervisor"

  /** login: userType "supervisor" looks among supervisors only, any other userType among
      students only; NotFound when the chosen collection has no record with the email. */
  function Login(sups: seq<Supervisor>, studs: seq<Student>, email: string, userType: string): (r: Result<Session>)
    ensures r.Err? ==> r.error == NotFound
    ensures r.Ok? ==> r.value.userType == userType
    ensures userType == SupervisorType ==>
      && (r.Ok? <==> exists s :: s in sups && s.gmail == email)
      && (r.Ok? ==> r.value.user.SupervisorAccount? && r.value.user.supervisor in sups && r.value.user.supervisor.gmail == email)
    ensures userType != SupervisorType ==>
      && (r.Ok? <==> exists t :: t in studs && t.gmail == email)
      && (r.Ok? ==> r.value.user.StudentAccount? && r.value.user.student in studs && r.value.user.student.gmail == email)
  {
    if userType == SupervisorType then
      match FindSupervisor(sups, email)
      case Some(s) => Ok(Session(SupervisorAccount(s), userType))
      case None => Err(NotFound)
    else
      match FindStudent(studs, email)
      case Some(t) => Ok(Session(StudentAccount(t), userType))
      case None => Err(NotFound)
  }

  /** The login reply depends only on the collection userType selects. */
  lemma LoginReadsOneCollection(sups: seq<Supervisor>, studs: seq<Student>, sups': seq<Supervisor>, studs': seq<Student>, email: string, userType: string)
    ensures userType == SupervisorType ==> Login(sups, studs, email, userType) == Login(sups, studs', email, userType)
    ensures userType != SupervisorType ==> Login(sups, studs, email, userType) == Login(sups', studs, email, userType)
  {
  }

  /** With unique Gmails, a supervisor login returns that very supervisor. */
  lemma SupervisorLogin(sups: seq<Supervisor>, studs: seq<Student>, s: Supervisor)
    requires UniqueGmails(sups) && s in sups
    ensures Login(sups, studs, s.gmail, SupervisorType) == Ok(Session(SupervisorAccount(s), SupervisorType))
  {
    SupervisorLookupIsUnique(sups, s);
  }
}
