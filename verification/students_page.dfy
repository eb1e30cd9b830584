/**
 * The decisions of the students page (`app/dashboard/students/page.tsx`):
 * whether it asks the backend's admin child listing for synthetic data,
 * what it shows when that request fails, the name search and the status
 * counts and colours.
 */
module StudentsPage {
  import opened Wrappers
  import opened JsString
  import opened ApiTypes
  import opened SeqUtil
  import opened Auth
  import HybridClient
  import ConversationsPage

  /** A child as `/api/get_all_children_admin/` lists it. */
  datatype AdminChild = AdminChild(
    id: string,
    name: string,
    age: int,
    grade: string,
    lastActive: string,
    mood: real,
    status: string,
    conversationsToday: nat,
    parentEmail: string,
    createdAt: string)

  /** The body of that listing. */
  datatype AdminChildren = AdminChildren(children: seq<AdminChild>, count: nat, isMockData: bool)

  /** A row of the page. */
  datatype Student = Student(
    id: string,
    name: string,
    age: int,
    grade: string,
    lastActive: string,
    mood: real,
    status: string,
    conversationsToday: nat,
    parentEmail: Option<string>)

  /** The two students shown when loading fails. */
  const FallbackStudents: seq<Student> := [
    Student("1", "Emma Wilson", 7, "N/A", "2 hours ago", 8.5, "active", 3, None),
    Student("2", "Liam Johnson", 8, "N/A", "1 day ago", 7.2, "inactive", 0, None)]

  const LoadFailedMessage: string := "Failed to load student data"

  /** The page's state: the students shown and the error message, if any. */
  datatype State = State(students: seq<Student>, error: Option<string>)

  const InitialState: State := State([], None)

  /** How the listing request ended: a response, or a thrown error. */
  datatype Answer = Answered(response: ApiResponse<AdminChildren>) | Threw

  /** Only admins ask for their real data; educators and demo users ask for synthetic data. */
  predicate UseMockData(t: UserType) {
    t != Admin
  }

  /** The row the page builds from a listed child: every field but the creation date. */
  function ToStudent(c: AdminChild): Student {
    Student(c.id, c.name, c.age, c.grade, c.lastActive, c.mood, c.status, c.conversationsToday, Some(c.parentEmail))
  }

  function ToStudents(cs: seq<AdminChild>): (ss: seq<Student>)
    ensures |ss| == |cs|
    ensures forall i :: 0 <= i < |cs| ==> ss[i] == ToStudent(cs[i])
  {
    seq(|cs|, i requires 0 <= i < |cs| => ToStudent(cs[i]))
  }

  /**
   * `loadStudents`. `respond` gives the listing's answer for the flag the
   * page sends. Without a user nothing happens; a response whose error is
   * empty and which carries no data leaves the students as they were.
   */
  function LoadStudents(s: State, user: Option<Principal>, respond: bool -> Answer): (s': State)
  {
    if user.None? then s
    else
      match respond(UseMockData(GetUserType(user)))
      case Threw => State(FallbackStudents, Some(LoadFailedMessage))
      case Answered(r) =>
        if Truthy(r.error) then State(FallbackStudents, r.error)
        else if r.data.Some? then State(ToStudents(r.data.value.children), None)
        else State(s.students, None)
  }

  /**
   * What a load shows: nothing changes without a user; a failure (a thrown
   * error or an error in the response) shows the two fallback students and
   * an error; a success shows the listed children, one row each, in order.
   */
  lemma LoadStudentsSpec(s: State, user: Option<Principal>, respond: bool -> Answer)
    ensures user.None? ==> LoadStudents(s, user, respond) == s
    ensures user.Some? ==>
      var a := respond(UseMockData(GetUserType(user)));
      var s' := LoadStudents(s, user, respond);
      && (a.Threw? ==> s'.students == FallbackStudents && s'.error == Some(LoadFailedMessage))
      && (a.Answered? && Truthy(a.response.error) ==>
            s'.students == FallbackStudents && s'.error == a.response.error && |s'.students| == 2)
      && (a.Answered? && !Truthy(a.response.error) && a.response.data.Some? ==>
            var cs := a.response.data.value.children;
            && s'.error.None?
            && |s'.students| == |cs|
            && (forall i :: 0 <= i < |cs| ==>
                  s'.students[i].id == cs[i].id && s'.students[i].name == cs[i].name
                  && s'.students[i].status == cs[i].status && s'.students[i].mood == cs[i].mood))
      && (s'.error.None? <==> a.Answered? && !Truthy(a.response.error))
  {
  }

  /**
   * The page and the facade disagree about educators: this page asks for
   * synthetic students for them, while the facade sends their dashboard
   * calls to the backend. Demo users get synthetic data from both, admins
   * from neither.
   */
  lemma EducatorDisagreement(user: Option<Principal>)
    ensures GetUserType(user) == Educator ==>
      UseMockData(GetUserType(user))
      && HybridClient.RouteOf(GetUserType(user), HybridClient.ConversationsWithAnalytics) == HybridClient.ToBackend
    ensures GetUserType(user) != Educator ==>
      (UseMockData(GetUserType(user)) <==>
         HybridClient.RouteOf(GetUserType(user), HybridClient.ConversationsWithAnalytics) == HybridClient.ToMock)
  {
  }

  // ---------------------------------------------------------------------
  // Search, counts and colours
  // ---------------------------------------------------------------------

  predicate NameMatches(term: string, st: Student) {
    Includes(ToLower(st.name), ToLower(term))
  }

  /** `filteredStudents`: the students whose name contains the search term, ignoring case. */
  function FilterStudents(students: seq<Student>, term: string): (r: seq<Student>)
    ensures |r| <= |students|
    ensures forall st :: st in r ==> st in students && NameMatches(term, st)
  {
    Filter(students, (st: Student) => NameMatches(term, st))
  }

  /**
   * The search keeps exactly the matching students in their order, an
   * empty term keeps everyone, and terms equal up to case select the same.
   */
  lemma FilterStudentsSpec(students: seq<Student>, term: string, other: string)
    ensures Subsequence(FilterStudents(students, term), students)
    ensures forall st :: st in students && NameMatches(term, st) ==> st in FilterStudents(students, term)
    ensures FilterStudents(students, "") == students
    ensures ToLower(term) == ToLower(other) ==> FilterStudents(students, term) == FilterStudents(students, other)
  {
    FilterIsOrderedSelection(students, (st: Student) => NameMatches(term, st));
    forall i | 0 <= i < |students| ensures NameMatches("", students[i]) {
      ConversationsPage.EmptySearchMatches(students[i].name);
    }
    FilterKeepsAll(students, (st: Student) => NameMatches("", st));
    if ToLower(term) == ToLower(other) {
      FilterCongruent(students, (st: Student) => NameMatches(term, st), (st: Student) => NameMatches(other, st));
    }
  }

  /** "Active Today": the students whose status is `active`. */
  function ActiveToday(students: seq<Student>): nat {
    |Filter(students, (st: Student) => st.status == "active")|
  }

  /** "Need Attention": the students whose status is `needs_attention`. */
  function NeedAttention(students: seq<Student>): nat {
    |Filter(students, (st: Student) => st.status == "needs_attention")|
  }

  /**
   * No student is counted in both cards, so together they never exceed the
   * total; the fallback students count one active and none needing attention.
   */
  lemma StatusCountsSpec(students: seq<Student>)
    ensures ActiveToday(students) + NeedAttention(students) <= |students|
    ensures ActiveToday(FallbackStudents) == 1 && NeedAttention(FallbackStudents) == 0
  {
    DisjointFiltersFit(students, (st: Student) => st.status == "active", (st: Student) => st.status == "needs_attention");
    FallbackCounts();
  }

  lemma FallbackCounts()
    ensures ActiveToday(FallbackStudents) == 1 && NeedAttention(FallbackStudents) == 0
  {
    var f := FallbackStudents;
    assert f[1..][1..] == [];
    assert Filter(f[1..], (st: Student) => st.status == "active") == [];
    assert Filter(f[1..], (st: Student) => st.status == "needs_attention") == [];
  }

  /** `getStatusColor`. */
  function StatusColor(status: string): string {
    if status == "active" then "bg-green-100 text-green-800"
    else if status == "inactive" then "bg-gray-100 text-gray-800"
    else if status == "needs_attention" then "bg-yellow-100 text-yellow-800"
    else "bg-gray-100 text-gray-800"
  }

  /**
   * Active is green and needing attention yellow; every other status,
   * known or not, is grey like `inactive`.
   */
  lemma StatusColorSpec(status: string)
    ensures StatusColor(status) == "bg-green-100 text-green-800" <==> status == "active"
    ensures StatusColor(status) == "bg-yellow-100 text-yellow-800" <==> status == "needs_attention"
    ensures status != "active" && status != "needs_attention" ==> StatusColor(status) == StatusColor("inactive")
  {
  }

  /**
   * The mood colour of a student follows the same thresholds as on the
   * conversations page: green from 8, yellow from 6, red below.
   */
  lemma StudentMoodColor(st: Student)
    ensures ConversationsPage.MoodColor(st.mood) == "text-green-600" <==> st.mood >= 8.0
    ensures ConversationsPage.MoodColor(st.mood) == "text-yellow-600" <==> 6.0 <= st.mood < 8.0
    ensures ConversationsPage.MoodColor(st.mood) == "text-red-600" <==> st.mood < 6.0
  {
  }
}
