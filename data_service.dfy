/** The static catalogue of services/dataService.ts: branches, the generated
    semester list, the subject table, the note units of a subject and the
    book library. */
module DataService {
  import opened Types
  import Text

  const Branches: seq<Branch> := [
    Branch("cse", "Computer Science", "\U{1F4BB}"),
    Branch("ece", "Electronics & Comm.", "\U{1F4E1}"),
    Branch("me", "Mechanical Eng.", "\U{2699}\U{FE0F}"),
    Branch("ee", "Electrical Eng.", "\U{26A1}"),
    Branch("ce", "Civil Engineering", "\U{1F3D7}\U{FE0F}"),
    Branch("it", "Information Tech.", "\U{1F310}")
  ]

  /** The number of semesters `Array.from({ length: 8 }, …)` generates. */
  const SemesterCount: nat := 8

  /** The `i`-th generated semester (zero-based), as the comprehension builds it. */
  function MakeSemester(i: nat): Semester
  {
    Semester(i + 1, "Semester " + Text.NatToString(i + 1))
  }

  /** The generated semester list. */
  function Semesters(): (r: seq<Semester>)
    ensures |r| == SemesterCount
    ensures forall i :: 0 <= i < |r| ==> r[i].id == i + 1 && r[i].name == "Semester " + Text.NatToString(i + 1)
  {
    seq(SemesterCount, i requires 0 <= i => MakeSemester(i))
  }

  /** The generated names read "Semester 1" to "Semester 8": the decimal
      rendering of 1..8 is the single digit. */
  lemma SemesterNames()
    ensures forall i :: 0 <= i < |Semesters()| ==> Semesters()[i].name == "Semester " + [Text.DigitChar(i + 1)]
    ensures Semesters()[0].name == "Semester 1" && Semesters()[7].name == "Semester 8"
  {
  }

  const Subjects: seq<Subject> := [
    Subject("m1", 1, "cse", "Engineering Mathematics I", "MATH101"),
    Subject("c1", 1, "cse", "Programming in C", "CS102"),
    Subject("e1", 1, "cse", "Basic Electronics", "EC103"),
    Subject("ds", 3, "cse", "Data Structures", "CS301"),
    Subject("dld", 3, "cse", "Digital Logic Design", "CS302"),
    Subject("dc", 4, "ece", "Digital Communication", "EC401"),
    Subject("ae", 4, "ece", "Analog Electronics", "EC402"),
    Subject("os", 5, "cse", "Operating Systems", "CS501"),
    Subject("cn", 5, "cse", "Computer Networks", "CS502"),
    Subject("ss", 3, "ece", "Signals & Systems", "EC301")
  ]

  /** `b` is the id of a catalogued branch. */
  predicate IsBranchId(b: string)
  {
    exists i :: 0 <= i < |Branches| && Branches[i].id == b
  }

  /** `n` is the id of a generated semester. */
  predicate IsSemesterId(n: int)
  {
    exists i :: 0 <= i < |Semesters()| && Semesters()[i].id == n
  }

  /** Referential integrity of the subject table: every subject belongs to a
      catalogued branch and to a generated semester. */
  lemma SubjectsReferToCatalogue()
    ensures forall k :: 0 <= k < |Subjects| ==> IsBranchId(Subjects[k].branchId)
    ensures forall k :: 0 <= k < |Subjects| ==> 1 <= Subjects[k].semesterId <= SemesterCount
    ensures forall k :: 0 <= k < |Subjects| ==> IsSemesterId(Subjects[k].semesterId)
  {
    assert Branches[0].id == "cse" && Branches[1].id == "ece";
    forall k | 0 <= k < |Subjects|
      ensures IsSemesterId(Subjects[k].semesterId)
    {
      var n := Subjects[k].semesterId;
      assert Semesters()[n - 1].id == n;
    }
  }

  /** No subject has an empty branch id (the fallback the controller passes
      when no branch is selected). */
  lemma NoSubjectHasEmptyBranch()
    ensures forall k :: 0 <= k < |Subjects| ==> Subjects[k].branchId != ""
  {
    SubjectsReferToCatalogue();
    forall k | 0 <= k < |Subjects| ensures Subjects[k].branchId != "" {
      var i :| 0 <= i < |Branches| && Branches[i].id == Subjects[k].branchId;
    }
  }

  /** Subject ids are pairwise distinct, and so are branch ids. */
  lemma CatalogueIdsDistinct()
    ensures forall j, k :: 0 <= j < k < |Subjects| ==> Subjects[j].id != Subjects[k].id
    ensures forall j, k :: 0 <= j < k < |Branches| ==> Branches[j].id != Branches[k].id
  {
  }

  const DummyPdf := "https://www.w3.org/WAI/ER/tests/xhtml/testfiles/resources/pdf/dummy.pdf"

  /** The note units shown for a subject: a dedicated list for "dc", a generic
      five-unit list for every other id. */
  function GetNoteUnits(subjectId: string): (r: seq<NoteUnit>)
    ensures |r| == 5
    ensures forall k :: 0 <= k < |r| ==> r[k].subjectId == subjectId
  {
    if subjectId == "dc" then [
      NoteUnit("dc_u1", subjectId, "Unit 1: Sampling & Quantization", DummyPdf),
      NoteUnit("dc_u2", subjectId, "Unit 2: Waveform Coding (PCM, DPCM, ADM)", DummyPdf),
      NoteUnit("dc_u3", subjectId, "Unit 3: Baseband Shaping & Line Coding", DummyPdf),
      NoteUnit("dc_u4", subjectId, "Unit 4: Digital Modulation (ASK, FSK, PSK)", DummyPdf),
      NoteUnit("dc_u5", subjectId, "Unit 5: Information Theory & Error Control", DummyPdf)
    ]
    else [
      NoteUnit("u1", subjectId, "Unit 1: Fundamentals & Basics", DummyPdf),
      NoteUnit("u2", subjectId, "Unit 2: Advanced Applications", DummyPdf),
      NoteUnit("u3", subjectId, "Unit 3: Real-world Case Studies", DummyPdf),
      NoteUnit("u4", subjectId, "Unit 4: Future Trends", DummyPdf),
      NoteUnit("u5", subjectId, "Unit 5: Exam Preparation", DummyPdf)
    ]
  }

  /** Unit ids are "dc_u1".."dc_u5" for "dc" and "u1".."u5" otherwise, in order,
      and so pairwise distinct. */
  lemma NoteUnitIds(subjectId: string)
    ensures forall k :: 0 <= k < 5 ==>
      GetNoteUnits(subjectId)[k].id ==
        (if subjectId == "dc" then "dc_u" else "u") + [Text.DigitChar(k + 1)]
    ensures forall j, k :: 0 <= j < k < 5 ==> GetNoteUnits(subjectId)[j].id != GetNoteUnits(subjectId)[k].id
  {
  }

  const EngineeringBooks: seq<EngineeringBook> := [
    EngineeringBook("b1", "Modern Operating Systems", "Andrew S. Tanenbaum", "cse", DummyPdf, "bg-blue-900"),
    EngineeringBook("b2", "Introduction to Algorithms", "Cormen, Leiserson, Rivest", "cse", DummyPdf, "bg-indigo-900"),
    EngineeringBook("b3", "Digital Signal Processing", "John G. Proakis", "ece", DummyPdf, "bg-purple-900"),
    EngineeringBook("b4", "Signals and Systems", "Alan V. Oppenheim", "ece", DummyPdf, "bg-red-900"),
    EngineeringBook("b5", "Thermodynamics", "Yunus A. Cengel", "me", DummyPdf, "bg-green-900"),
    EngineeringBook("b6", "Theory of Machines", "R.S. Khurmi", "me", DummyPdf, "bg-orange-900")
  ]
}
