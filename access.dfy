/** The group-scoped access rules the folder and file controllers repeat:
    group resolution, the create-time gate, the listing filter and the name match. */
module Access {
  import opened Responses
  import opened Sequences
  import opened Records

  /** Whether any supervisor or student carries the email. */
  predicate Known(sups: seq<Supervisor>, studs: seq<Student>, email: string) {
    (exists s :: s in sups && s.gmail == email) || (exists t :: t in studs && t.gmail == email)
  }

  /** The groups an email may see: a supervisor's groups, checked first; else a student's
      single group; else none. */
  function AllowedGroups(sups: seq<Supervisor>, studs: seq<Student>, email: string): (r: seq<int>)
    ensures !Known(sups, studs, email) ==> r == []
    ensures (exists s :: s in sups && s.gmail == email) ==>
              exists s :: s in sups && s.gmail == email && r == s.groups
    ensures (forall s :: s in sups ==> s.gmail != email) && (exists t :: t in studs && t.gmail == email) ==>
              exists t :: t in studs && t.gmail == email && r == [t.groupId]
  {
    match FindSupervisor(sups, email)
    case Some(s) => s.groups
    case None =>
      match FindStudent(studs, email)
      case Some(t) => [t.groupId]
      case None => []
  }

  /** The gate before a folder or file is created. It rejects only an identity that exists
      and lacks the group; an email nobody carries falls through and is allowed. */
  function CreateCheck(sups: seq<Supervisor>, studs: seq<Student>, email: string, groupId: int): (r: Outcome)
    ensures r.Fail? ==> r.error == Forbidden
  {
    match FindSupervisor(sups, email)
    case Some(s) => if groupId in s.groups then Pass else Fail(Forbidden)
    case None =>
      match FindStudent(studs, email)
      case Some(t) => if t.groupId == groupId then Pass else Fail(Forbidden)
      case None => Pass
  }

  /** An item is listed iff its group is allowed and it is the caller's own or public. */
  predicate VisibleTo(allowed: seq<int>, email: string, groupId: int, ownerEmail: string, isPublic: bool): (v: bool)
    ensures v ==> groupId in allowed
    ensures allowed == [] ==> !v
    ensures isPublic ==> (v <==> groupId in allowed)
    ensures !isPublic ==> (v <==> groupId in allowed && ownerEmail == email)
  {
    groupId in allowed && (ownerEmail == email || isPublic)
  }

  /** The gate passes exactly for unknown emails and for groups the email may see. */
  lemma CreateCheckMatchesAllowedGroups(sups: seq<Supervisor>, studs: seq<Student>, email: string, groupId: int)
    ensures CreateCheck(sups, studs, email, groupId).Pass? <==>
            !Known(sups, studs, email) || groupId in AllowedGroups(sups, studs, email)
  {
  }

  /** An email nobody carries may create in any group, yet is allowed to see no group. */
  lemma UnknownEmailFallsThrough(sups: seq<Supervisor>, studs: seq<Student>, email: string, groupId: int)
    requires !Known(sups, studs, email)
    ensures CreateCheck(sups, studs, email, groupId) == Pass
    ensures AllowedGroups(sups, studs, email) == []
  {
  }

  /** A supervisor is judged by its own groups only, whatever the student collection holds. */
  lemma SupervisorGate(sups: seq<Supervisor>, studs: seq<Student>, s: Supervisor, groupId: int)
    requires UniqueGmails(sups) && s in sups
    ensures AllowedGroups(sups, studs, s.gmail) == s.groups
    ensures CreateCheck(sups, studs, s.gmail, groupId) == if groupId in s.groups then Pass else Fail(Forbidden)
  {
    SupervisorLookupIsUnique(sups, s);
  }

  /** A student with no supervisor of the same email may create only in its own group. */
  lemma StudentGate(sups: seq<Supervisor>, studs: seq<Student>, i: nat, groupId: int)
    requires i < |studs|
    requires forall s :: s in sups ==> s.gmail != studs[i].gmail
    requires forall j :: 0 <= j < i ==> studs[j].gmail != studs[i].gmail
    ensures AllowedGroups(sups, studs, studs[i].gmail) == [studs[i].groupId]
    ensures CreateCheck(sups, studs, studs[i].gmail, groupId) == if groupId == studs[i].groupId then Pass else Fail(Forbidden)
  {
    StudentLookupIsEarliest(studs, i);
  }

  /** A supervisor with no groups may see no group and is refused every create. */
  lemma SupervisorWithoutGroups(sups: seq<Supervisor>, studs: seq<Student>, s: Supervisor, groupId: int)
    requires UniqueGmails(sups) && s in sups && s.groups == []
    ensures AllowedGroups(sups, studs, s.gmail) == []
    ensures CreateCheck(sups, studs, s.gmail, groupId) == Fail(Forbidden)
  {
    SupervisorGate(sups, studs, s, groupId);
  }

  // Name search. The store matches `query` as a case-insensitive regular expression;
  // here it is a case-insensitive substring test on ASCII letters.

  function LowerChar(c: char): char {
    if 'A' <= c <= 'Z' then (c as int + 32) as char else c
  }

  function Lower(s: string): (r: string)
    ensures |r| == |s|
    ensures forall i :: 0 <= i < |s| ==> r[i] == LowerChar(s[i])
  {
    seq(|s|, i requires 0 <= i < |s| => LowerChar(s[i]))
  }

  /** q occurs somewhere in s. */
  predicate Occurs(q: string, s: string)
    decreases |s|
  {
    (|q| <= |s| && s[..|q|] == q) || (|s| > 0 && Occurs(q, s[1..]))
  }

  /** q sits at offset k of s. */
  predicate OccursAtOffset(q: string, s: string, k: nat) {
    k + |q| <= |s| && s[k..k + |q|] == q
  }

  /** An occurrence at some offset makes Occurs hold. */
  lemma {:induction false} OccursAt(q: string, s: string, k: nat)
    requires OccursAtOffset(q, s, k)
    ensures Occurs(q, s)
  {
    if k > 0 {
      assert s[1..][k - 1..k - 1 + |q|] == s[k..k + |q|];
      OccursAt(q, s[1..], k - 1);
    }
  }

  /** Occurs holds only when q sits at some offset of s; the offset is returned. */
  lemma {:induction false} OffsetOfOccurrence(q: string, s: string) returns (k: nat)
    requires Occurs(q, s)
    ensures OccursAtOffset(q, s, k)
    decreases |s|
  {
    if |q| <= |s| && s[..|q|] == q {
      k := 0;
    } else {
      var j := OffsetOfOccurrence(q, s[1..]);
      assert s[1..][j..j + |q|] == s[j + 1..j + 1 + |q|];
      k := j + 1;
    }
  }

  /** Occurs holds exactly when q sits at some offset of s. */
  lemma OccursIff(q: string, s: string)
    ensures Occurs(q, s) <==> exists k: nat :: OccursAtOffset(q, s, k)
  {
    if Occurs(q, s) {
      var k := OffsetOfOccurrence(q, s);
    }
    forall k: nat | OccursAtOffset(q, s, k)
      ensures Occurs(q, s)
    {
      OccursAt(q, s, k);
    }
  }

  /** The name filter of the search endpoints: the lowered query sits at some offset of the
      lowered name. */
  predicate Matches(query: string, name: string): (m: bool)
    ensures m <==> exists k: nat :: OccursAtOffset(Lower(query), Lower(name), k)
  {
    OccursIff(Lower(query), Lower(name));
    Occurs(Lower(query), Lower(name))
  }

  /** A query matches every name it occurs in, whatever the letter case on either side. */
  lemma MatchesAtOffset(query: string, name: string, k: nat)
    requires k + |query| <= |name| && Lower(name)[k..k + |query|] == Lower(query)
    ensures Matches(query, name)
  {
    OccursAt(Lower(query), Lower(name), k);
  }

  /** A matching query occurs in the name, letter case aside, at some offset. */
  lemma OffsetOfMatch(query: string, name: string) returns (k: nat)
    requires Matches(query, name)
    ensures k + |query| <= |name| && Lower(name)[k..k + |query|] == Lower(query)
  {
    k := OffsetOfOccurrence(Lower(query), Lower(name));
  }

  /** The empty query matches every name. */
  lemma EmptyQueryMatchesAll(name: string)
    ensures Matches("", name)
  {
    OccursAt(Lower(""), Lower(name), 0);
  }
}
