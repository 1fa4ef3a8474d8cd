/** The subject list of features/SubjectScreen.tsx: the catalogue subjects of
    the chosen (semester, branch) pair, or an empty-state message. */
module SubjectScreen {
  import opened Types
  import Seqs
  import DataService
  import BackendService

  /** The filter condition of the screen: semester first, then branch. */
  function Criteria(semester: Semester, branchId: string): Subject -> bool
  {
    (s: Subject) => s.semesterId == semester.id && s.branchId == branchId
  }

  /** The subjects of `catalogue` the screen keeps for the chosen pair, in
      their order. */
  function SubjectsOf(catalogue: seq<Subject>, semester: Semester, branchId: string): (r: seq<Subject>)
    ensures forall k :: 0 <= k < |r| ==> r[k].semesterId == semester.id && r[k].branchId == branchId
    ensures forall s :: s in r <==> s in catalogue && s.semesterId == semester.id && s.branchId == branchId
  {
    Seqs.FilterMembers(catalogue, Criteria(semester, branchId));
    Seqs.Filter(catalogue, Criteria(semester, branchId))
  }

  /** The screen keeps the catalogue order. */
  lemma SubjectsOfInOrder(catalogue: seq<Subject>, semester: Semester, branchId: string)
    ensures Seqs.SubsequenceOf(SubjectsOf(catalogue, semester, branchId), catalogue)
  {
    Seqs.FilterIsSubsequence(catalogue, Criteria(semester, branchId));
  }

  /** Each subject of the chosen semester and branch is shown as often as the
      catalogue holds it, and no other subject is shown at all. */
  lemma SubjectsOfCounts(catalogue: seq<Subject>, semester: Semester, branchId: string)
    ensures forall s :: multiset(SubjectsOf(catalogue, semester, branchId))[s] ==
              if s.semesterId == semester.id && s.branchId == branchId then multiset(catalogue)[s] else 0
  {
    Seqs.FilterMultiset(catalogue, Criteria(semester, branchId));
  }

  /** `semesterSubjects`: the catalogue table filtered on both keys. */
  function SemesterSubjects(semester: Semester, branchId: string): seq<Subject>
  {
    SubjectsOf(DataService.Subjects, semester, branchId)
  }

  /** What the screen body shows. */
  datatype Display = SubjectList(items: seq<Subject>) | NoSubjectsMessage

  function Render(semester: Semester, branchId: string): (d: Display)
    ensures d == NoSubjectsMessage <==> SemesterSubjects(semester, branchId) == []
    ensures d.SubjectList? ==> d.items == SemesterSubjects(semester, branchId) && |d.items| > 0
  {
    var items := SemesterSubjects(semester, branchId);
    if |items| > 0 then SubjectList(items) else NoSubjectsMessage
  }

  /** The screen lists exactly what the façade's `getSubjects` returns for the
      same keys, in the same order. */
  lemma SameAsGetSubjects(semester: Semester, branchId: string)
    ensures SemesterSubjects(semester, branchId) == BackendService.GetSubjects(branchId, semester.id)
  {
    SameAsSubjectsFor(DataService.Subjects, semester, branchId);
  }

  /** The same, for any catalogue. */
  lemma SameAsSubjectsFor(catalogue: seq<Subject>, semester: Semester, branchId: string)
    ensures SubjectsOf(catalogue, semester, branchId) == BackendService.SubjectsFor(catalogue, branchId, semester.id)
  {
    Seqs.FilterExtensional(catalogue, Criteria(semester, branchId),
      BackendService.SubjectKeys(branchId, semester.id));
  }

  /** With no branch selected the controller passes "" and nothing is listed. */
  lemma NoBranchListsNothing(semester: Semester)
    ensures SemesterSubjects(semester, "") == []
    ensures Render(semester, "") == NoSubjectsMessage
  {
    DataService.NoSubjectHasEmptyBranch();
    Seqs.FilterNone(DataService.Subjects, Criteria(semester, ""));
  }

  /** The third semester of CSE lists Data Structures and Digital Logic
      Design (entries 3 and 4 of the table), in catalogue order. */
  lemma CseThirdSemester(third: Semester)
    requires third.id == 3
    ensures SemesterSubjects(third, "cse") == DataService.Subjects[3..5]
  {
    var subjects := DataService.Subjects;
    var p := Criteria(third, "cse");
    assert subjects[0].semesterId == 1 && subjects[1].semesterId == 1 && subjects[2].semesterId == 1;
    assert subjects[3].semesterId == 3 && subjects[4].semesterId == 3 && subjects[5].branchId == "ece";
    assert subjects[6].branchId == "ece" && subjects[7].semesterId == 5 && subjects[8].semesterId == 5;
    assert subjects[9].branchId == "ece";
    forall k | 0 <= k < |subjects| ensures p(subjects[k]) <==> 3 <= k < 5 {
    }
    Seqs.FilterSlice(subjects, 3, 5, p);
  }

  /** The second semester of CSE has no subjects: the empty-state message. */
  lemma CseSecondSemester(second: Semester)
    requires second.id == 2
    ensures Render(second, "cse") == NoSubjectsMessage
  {
    var subjects := DataService.Subjects;
    forall i | 0 <= i < |subjects| ensures subjects[i].semesterId != 2 {
    }
    Seqs.FilterNone(subjects, Criteria(second, "cse"));
  }
}
