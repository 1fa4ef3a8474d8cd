/** The records of the application (types.ts), the user record the façade
    stores, and the view enumeration the controller switches on. */
module Types {

  /** An optional value; usable with `:-`, so that a failed step of a decoder
      stops the decoder. */
  datatype Option<T> = None | Some(value: T) {
    predicate IsFailure() { None? }

    function PropagateFailure<U>(): Option<U>
      requires None?
    {
      None
    }

    function Extract(): T
      requires Some?
    {
      value
    }
  }

  /** The closed set of screens (`AppView`). */
  datatype AppView =
    | HOME | BRANCHES | SEMESTERS | SUBJECTS | NOTES | CHAT
    | UPLOAD | LOGIN | PROFILE | FORMULAS | PAPERS | BOOKS

  /** The string value of each enumeration member. */
  function ViewName(v: AppView): (r: string)
    ensures |r| >= 4
  {
    match v
    case HOME => "HOME"
    case BRANCHES => "BRANCHES"
    case SEMESTERS => "SEMESTERS"
    case SUBJECTS => "SUBJECTS"
    case NOTES => "NOTES"
    case CHAT => "CHAT"
    case UPLOAD => "UPLOAD"
    case LOGIN => "LOGIN"
    case PROFILE => "PROFILE"
    case FORMULAS => "FORMULAS"
    case PAPERS => "PAPERS"
    case BOOKS => "BOOKS"
  }

  datatype Branch = Branch(id: string, name: string, icon: string)

  datatype Semester = Semester(id: int, name: string)

  datatype Subject = Subject(id: string, semesterId: int, branchId: string, title: string, code: string)

  datatype NoteUnit = NoteUnit(id: string, subjectId: string, title: string, pdfUrl: string)

  datatype EngineeringBook = EngineeringBook(
    id: string, title: string, author: string, branchId: string, pdfUrl: string, coverColor: string)

  datatype Role = UserRole | ModelRole

  /** `timestamp` is a `Date.now()` reading, a non-negative millisecond count. */
  datatype ChatMessage = ChatMessage(id: string, role: Role, text: string, timestamp: nat)

  datatype QuestionType = Theoretical | Numerical | Conceptual

  datatype GeneratedQuestion = GeneratedQuestion(id: string, text: string, marks: nat, qtype: QuestionType)

  /** One saved scan: the record `saveScanResult` prepends to the history. */
  datatype ScanRecord = ScanRecord(id: string, timestamp: nat, questions: seq<GeneratedQuestion>)

  /** The user record written by `login`; `avatar` is optional in the type the
      controller and the profile screen declare. */
  datatype User = User(name: string, email: string, avatar: Option<string>, authProvider: string, lastLogin: nat)

  /** The `Partial<{ name; email; avatar }>` argument of `updateProfile`:
      `None` is a field absent from the object. */
  datatype ProfileUpdate = ProfileUpdate(name: Option<string>, email: Option<string>, avatar: Option<string>)
}
