# Student StudyHub — a verified model of its state rules

Student StudyHub is a single-page study companion for engineering students.
It has a drill-down through branches, semesters, subjects and note units, a
library search, an AI tutor chat, a question generator that works from a
photographed page, and a profile page. The application is React markup around
a few deterministic rules. This project models those rules in Dafny and proves
what they guarantee.

- **The view-state controller** (`App.tsx`), module `App`: a class `Controller`
  with the six state cells of the application. They are the current view, the
  three drill-down selections, the signed-in user and the start-up flag. Every
  handler is a method over these cells. The header rules are pure functions:
  the back button and its target, the title, and the badge. So are the
  bottom-navigation rules.
- **The persistence façade** (`services/backendService.ts`), module
  `BackendService`: a class `Backend` whose one field is the local-storage map
  from key to text. Every façade method reads, writes or removes keys of that
  map. The records are stored as text. Module `Codec` gives a text encoding of
  the user, the chat transcript and the scan history, and proves that decoding
  what was written gives back the same record.
- **The catalogue** (`services/dataService.ts`), module `DataService`: the
  branch, subject and book tables, the generated semester list and the note
  units of a subject, with the referential invariants of the tables.
- **The subject list** (`features/SubjectScreen.tsx`) and **the library search**
  (`features/BooksScreen.tsx`), modules `SubjectScreen` and `BooksScreen`:
  order-preserving filters, module `Seqs`, and their empty-state choice.
- **The screen state machines**, modules `ChatScreen`, `UploadScreen` and
  `ProfileScreen`: classes holding each screen's state cells. The chat screen
  keeps its transcript in the façade.

Module `Text` states the JavaScript string operations the code uses: `trim`,
the `\s` class, ASCII `toLowerCase`/`toUpperCase`, `includes`, `charAt(0)`,
`replace` and the decimal rendering of a number.

Inputs from outside the program are parameters of the methods:

- the clock (`Date.now()`);
- the AI gateway's answer (`Some` result or `None` for a thrown error);
- the confirm dialog's answer;
- the file the browser's reader produced.

An `await` whose result the screen observes is split into two methods: the
part before the gateway call and the continuation. Between them the
loading/processing flag is visibly set.

## Model

| member | source | states |
|---|---|---|
| Types.ViewName | types.ts:2-15 | every view's string value is the enumeration member's own name, at least four letters long |
| App.HasBackButton | App.tsx:132 | the back button is shown on every view except HOME and PROFILE; `GoBack` requires it, and `BackTowardsHome` and `UnwindReachesHome` are stated over it |
| App.BackTarget | App.tsx:134-139 | the `onBack` case table (NOTES to SUBJECTS, SUBJECTS to SEMESTERS, SEMESTERS to BRANCHES, otherwise HOME); App.BackTowardsHome and App.UnwindReachesHome state the property it serves |
| App.BackTowardsHome | App.tsx:132-139 | wherever there is a back button, one press lowers the distance to HOME by exactly one; the target has a back button unless it is HOME |
| App.UnwindReachesHome | App.tsx:132-139 | from every view but PROFILE, pressing back as often as the view is deep reaches HOME, and further presses stay there |
| App.Title | App.tsx:146 | the title is "Student StudyHub" on HOME; on every other view it is as long as the view name (its letters are given by `App.TitleShape`) |
| App.TitleShape | App.tsx:146 | off HOME the title is as long as the view name, keeps its first character and lower-cases the rest (no view name has an underscore to replace) |
| App.TitleOfChat | App.tsx:146 | the CHAT view is titled "Chat" |
| App.HeaderBadge | App.tsx:153-157 | no user shows nothing; a user with a non-empty avatar shows that photo; otherwise the upper-cased first character of the name |
| App.GreetingName | App.tsx:83 | the home greeting is never empty: the user's name when there is a non-empty one, "Student" otherwise |
| App.SubjectScreenBranchId | App.tsx:97 | the subject screen gets the selected branch's id, or "" when no branch is selected |
| App.TabTarget | App.tsx:168-191 | Home opens HOME, Notes BRANCHES, Ask AI CHAT and Profile PROFILE (the partner property is `App.TabTargetActive`) |
| App.TabActive | App.tsx:168-191 | the highlight rule of the four tabs; Notes covers the whole drill-down (stated by `App.NotesTabActiveIff` and `App.TabTargetActive`) |
| App.NotesTabActiveIff | App.tsx:177 | the Notes tab is active exactly on BRANCHES, SEMESTERS, SUBJECTS and NOTES, and stays active while the back button climbs the drill-down |
| App.TabTargetActive | App.tsx:168-191 | tapping a tab opens a view on which that tab, and no other, is highlighted (Notes opens BRANCHES) |
| App.Controller.constructor | App.tsx:20-25 | the initial state is LOGIN with no user, no selections and start-up pending |
| App.Controller.Init | App.tsx:28-38 | a stored user is adopted and HOME shown; without one the view stays LOGIN; start-up is over either way and the store is untouched |
| App.Controller.NavigateTo | App.tsx:40-43 | the home screen's tiles switch to the chosen view |
| App.Controller.HandleLogin | App.tsx:51-55 | the façade's new user becomes the user, HOME is shown and the store holds that user |
| App.Controller.HandleLogout | App.tsx:45-49 | user, transcript and scans leave the store, the user is cleared and LOGIN shown; the three selections are left as they were |
| App.Controller.HandleUpdateAvatar | App.tsx:57-62 | the view and the start-up flag are kept; without a user nothing changes; otherwise the avatar is merged into the stored user and the merged user adopted |
| App.Controller.SelectBranch | App.tsx:85-88 | the branch is recorded and SEMESTERS shown; no other cell changes |
| App.Controller.SelectSemester | App.tsx:90-93 | the semester is recorded and SUBJECTS shown; no other cell changes |
| App.Controller.SelectSubject | App.tsx:98-101 | the subject is recorded and NOTES shown; no other cell changes |
| App.Controller.GoBack | App.tsx:132-139 | only where the back button is shown; the view becomes its back target, and the invariant (selections present where dereferenced) is kept |
| App.Controller.TapTab | App.tsx:168-191 | a tab (or the header badge of line 150, for Profile) switches to its view, which highlights the tapped tab |
| BackendService.Merge | services/backendService.ts:53 | every field present in the update takes the new value, every other field is kept |
| BackendService.MergeLaws | services/backendService.ts:53 | an empty update changes nothing; applying an update twice is applying it once |
| BackendService.SubjectsFor | services/backendService.ts:76-78 | a subject is returned exactly when it is in the catalogue with that branch id and that semester id |
| BackendService.GetSubjects | services/backendService.ts:76-78 | `getSubjects` is `SubjectsFor` over the catalogue table, so it inherits its membership and order properties |
| BackendService.SubjectsForInOrder | services/backendService.ts:77 | the result keeps catalogue order (an order-preserving subsequence) |
| BackendService.SubjectsForCounts | services/backendService.ts:77 | a subject of the requested branch and semester occurs in the result as often as in the catalogue; any other subject never occurs |
| BackendService.Backend.constructor | services/backendService.ts:11-16 | a façade over storage an earlier session left well formed |
| BackendService.Backend.GetCurrentUser | services/backendService.ts:20-23 | the stored user, and none exactly when the user key is absent or empty |
| BackendService.Backend.Login | services/backendService.ts:28-40 | the user record is built from name, email, the seeded avatar, "google" and the clock, overwrites any earlier one, and reads back |
| BackendService.LoginAvatarSeed | services/backendService.ts:30-34 | the avatar is the fixed prefix followed by the name with every whitespace character removed: the seed has no whitespace, holds every other character of the name exactly as often as the name does, in the name's order |
| BackendService.Backend.Logout | services/backendService.ts:42-48 | exactly the user, chat and scan keys are removed; reading them gives none, [] and []; the theme is kept |
| BackendService.LogoutClears | services/backendService.ts:42-48 | after logout nothing of the user reads back, the theme is unchanged, and a second logout changes nothing |
| BackendService.Backend.UpdateProfile | services/backendService.ts:50-56 | without a stored user: none and no write; otherwise the merge is returned, stored and read back |
| BackendService.Backend.GetThemePreference | services/backendService.ts:59-61 | true exactly when the theme key holds "dark" |
| BackendService.Backend.SetThemePreference | services/backendService.ts:63-65 | stores "dark" or "light", which reads back as the flag that was set |
| BackendService.ThemeRoundTrip | services/backendService.ts:59-65 | setting the theme flag and reading it gives the flag |
| BackendService.Backend.GetChatHistory | services/backendService.ts:85-88 | the stored transcript, [] when the key is absent or empty |
| BackendService.Backend.SaveChatHistory | services/backendService.ts:90-92 | the whole transcript is replaced and reads back unchanged |
| BackendService.Backend.GetScanHistory | services/backendService.ts:106-109 | the stored scan history, [] when the key is absent or empty |
| BackendService.Backend.SaveScanResult | services/backendService.ts:95-104 | the new record holds the given questions and is put in front of the old history, which grows by one |
| BackendService.SavesNewestFirst | services/backendService.ts:95-104 | after N saves the history is N longer, newest first: the K-th save sits at index N-K, the old history after them |
| BackendService.AfterOneMoreSave | services/backendService.ts:102 | one more save puts its record in front of the history so far |
| BackendService.StoreUser | services/backendService.ts:20-40 | writing a user record is what `getCurrentUser` reads back |
| BackendService.StoreChat | services/backendService.ts:85-92 | writing a transcript is what `getChatHistory` reads back |
| BackendService.StoreScans | services/backendService.ts:95-109 | writing a scan history is what `getScanHistory` reads back |
| Codec.DecodeEncodeUser | services/backendService.ts:20-40 | decoding the stored text of a user gives the same user |
| Codec.DecodeEncodeMessages | services/backendService.ts:85-92 | decoding a stored transcript gives the same messages in the same order |
| Codec.DecodeEncodeScans | services/backendService.ts:95-109 | decoding a stored scan history gives the same records in the same order |
| Codec.EncodingsNonEmpty | services/backendService.ts:20-23 | no stored record text is empty, so the truthiness test of the getters (also lines 87 and 108) never takes a record for an absent key |
| DataService.Semesters | services/dataService.ts:13-16 | eight semesters; entry i has id i+1 and name "Semester " followed by i+1 |
| DataService.SemesterNames | services/dataService.ts:15 | the names read "Semester 1" to "Semester 8", a single digit each |
| DataService.SubjectsReferToCatalogue | services/dataService.ts:4-38 | every subject names a catalogued branch and a generated semester (id 1 to 8) |
| DataService.NoSubjectHasEmptyBranch | services/dataService.ts:18-38 | no subject has the empty branch id |
| DataService.CatalogueIdsDistinct | services/dataService.ts:4-38 | subject ids are pairwise distinct, and so are branch ids |
| DataService.GetNoteUnits | services/dataService.ts:40-58 | exactly five units, each belonging to the requested subject |
| DataService.NoteUnitIds | services/dataService.ts:41-57 | the unit ids are dc_u1..dc_u5 for "dc" and u1..u5 otherwise, in order, so pairwise distinct |
| SubjectScreen.SubjectsOf | features/SubjectScreen.tsx:14 | every listed subject has the chosen semester and branch, and every catalogue subject with both is listed |
| SubjectScreen.SemesterSubjects | features/SubjectScreen.tsx:14 | `semesterSubjects` is `SubjectsOf` over the catalogue table; `SubjectScreen.SameAsGetSubjects` equates it with the façade's lookup |
| SubjectScreen.SubjectsOfInOrder | features/SubjectScreen.tsx:14 | the list keeps catalogue order |
| SubjectScreen.SubjectsOfCounts | features/SubjectScreen.tsx:14 | a subject of the chosen semester and branch is listed as often as the catalogue holds it; any other subject is never listed |
| SubjectScreen.Render | features/SubjectScreen.tsx:23-48 | the empty-state message is shown exactly when the filtered list is empty; otherwise the list is shown |
| SubjectScreen.SameAsGetSubjects | features/SubjectScreen.tsx:14 | the screen lists exactly what the façade's `getSubjects` (services/backendService.ts line 77) returns for the same keys, in the same order |
| SubjectScreen.SameAsSubjectsFor | features/SubjectScreen.tsx:14 | the screen's filter and the façade's (services/backendService.ts line 77) agree on every catalogue |
| SubjectScreen.NoBranchListsNothing | features/SubjectScreen.tsx:14 | with no branch selected (the "" that App.tsx line 97 passes) nothing is listed and the empty-state message is shown |
| SubjectScreen.CseThirdSemester | features/SubjectScreen.tsx:14 | third-semester CSE lists Data Structures then Digital Logic Design (services/dataService.ts lines 25-26) |
| SubjectScreen.CseSecondSemester | features/SubjectScreen.tsx:14-48 | second-semester CSE shows the empty-state message |
| BooksScreen.FilterBooks | features/BooksScreen.tsx:11-14 | a book is listed exactly when its lower-cased title or author includes the lower-cased term |
| BooksScreen.FilteredBooks | features/BooksScreen.tsx:11-14 | `filteredBooks` is `FilterBooks` over the library table, so it inherits its membership and order properties |
| BooksScreen.FilterBooksInOrder | features/BooksScreen.tsx:11 | the result keeps library order |
| BooksScreen.FilterBooksCounts | features/BooksScreen.tsx:11 | a matching book is listed as often as the library holds it; a non-matching book is never listed |
| BooksScreen.ShowsNoBooksMessage | features/BooksScreen.tsx:58-63 | the "No books found" message is shown exactly when nothing matches |
| BooksScreen.EmptyTermListsAll | features/BooksScreen.tsx:12-13 | the empty term lists every book |
| BooksScreen.CaseInsensitive | features/BooksScreen.tsx:12-13 | terms that differ only in ASCII letter case give the same result |
| BooksScreen.MatchesByAuthor | features/BooksScreen.tsx:13 | a term that occurs in the lower-cased author makes the book match |
| BooksScreen.TanenbaumFound | features/BooksScreen.tsx:11-14 | "tanenbaum" finds "Modern Operating Systems" by Andrew S. Tanenbaum (services/dataService.ts line 61) |
| ChatScreen.SendBlocked | features/ChatScreen.tsx:45 | the send guard: the trimmed input is empty, or a reply is pending (`ChatScreen.SendBlockedIff` reads it as "whitespace only") |
| ChatScreen.SendBlockedIff | features/ChatScreen.tsx:45 | sending (and the send button of line 145) is blocked exactly when the input is whitespace only or a reply is pending |
| ChatScreen.ExchangeIdsDistinct | features/ChatScreen.tsx:47-65 | a question sent at one clock reading and its reply at the same or a later one get different ids and different roles |
| ChatScreen.Chat.constructor | features/ChatScreen.tsx:17-29 | before the history is read the transcript is empty and nothing is pending |
| ChatScreen.Chat.LoadHistory | features/ChatScreen.tsx:17-27 | an empty stored history becomes the single welcome message (id "1", model role), a non-empty one is used unchanged; the store then holds the transcript |
| ChatScreen.Chat.EditInput | features/ChatScreen.tsx:138 | the input becomes the typed text |
| ChatScreen.Chat.Send | features/ChatScreen.tsx:44-56 | blocked: nothing changes; otherwise exactly one user message with the untrimmed input is appended, the input cleared, a reply marked pending, and the question handed on |
| ChatScreen.Chat.Reply | features/ChatScreen.tsx:58-77 | exactly one model message is appended, the answer or the apology; nothing is pending afterwards |
| ChatScreen.Chat.ClearHistory | features/ChatScreen.tsx:80-86 | confirmed: the transcript is the welcome message alone and is stored; unconfirmed: nothing changes |
| UploadScreen.ButtonState | features/UploadScreen.tsx:49-94 | the generate button is offered exactly when an image is shown and no questions are, and is disabled exactly while processing |
| UploadScreen.NoButtonWithQuestions | features/UploadScreen.tsx:91 | once questions are shown there is no generate button |
| UploadScreen.Upload.constructor | features/UploadScreen.tsx:9-11 | no image, no questions, not processing |
| UploadScreen.Upload.HandleFileChange | features/UploadScreen.tsx:14-24 | a chosen file replaces the image and empties the questions; no file changes nothing |
| UploadScreen.Upload.StartGenerate | features/UploadScreen.tsx:26-30 | without an image nothing happens and neither the gateway nor the store is reached; otherwise processing starts and the image goes to the gateway |
| UploadScreen.Upload.FinishGenerate | features/UploadScreen.tsx:30-39 | a result becomes the questions and exactly one scan holding them is put in front of the history; a failure changes neither; processing ends either way |
| UploadScreen.Upload.Reset | features/UploadScreen.tsx:84 | both reset buttons (also line 133) clear the image and the questions |
| ProfileScreen.AvatarForUpload | features/ProfileScreen.tsx:19-32 | the picked file's data URL goes to the avatar update exactly when a file was picked and it is at most 2 MiB |
| ProfileScreen.AvatarSizeBoundary | features/ProfileScreen.tsx:22 | a file of exactly 2 MiB passes, one byte more is rejected |
| ProfileScreen.AvatarShown | features/ProfileScreen.tsx:64-67 | a non-empty avatar shows the photo; otherwise the first character of the name |
| ProfileScreen.ButtonsMatchGuards | features/ProfileScreen.tsx:136-163 | the send and submit buttons (lines 136 and 163) are disabled exactly when the text is whitespace only (or, for feedback, while sending) |
| ProfileScreen.Profile.constructor | features/ProfileScreen.tsx:12-16 | modals closed, texts empty, not sending |
| ProfileScreen.Profile.OpenFeedbackModal | features/ProfileScreen.tsx:105 | the feedback modal opens |
| ProfileScreen.Profile.OpenSupportModal | features/ProfileScreen.tsx:100 | the support modal opens |
| ProfileScreen.Profile.CloseFeedbackModal | features/ProfileScreen.tsx:151 | the feedback modal closes |
| ProfileScreen.Profile.CloseSupportModal | features/ProfileScreen.tsx:123 | the support modal closes |
| ProfileScreen.Profile.EditFeedback | features/ProfileScreen.tsx:157 | the feedback text becomes the typed text |
| ProfileScreen.Profile.EditEnquiry | features/ProfileScreen.tsx:130 | the enquiry text becomes the typed text |
| ProfileScreen.Profile.HandleFeedbackSubmit | features/ProfileScreen.tsx:38-40 | whitespace-only feedback does nothing; otherwise sending starts |
| ProfileScreen.Profile.FeedbackTimerElapsed | features/ProfileScreen.tsx:41-46 | sending ends, the feedback modal closes and the text is cleared |
| ProfileScreen.Profile.HandleSupportSend | features/ProfileScreen.tsx:49-57 | a whitespace-only enquiry does nothing; otherwise a mail to the support address with the user's name in the subject is opened, the modal closes and the text is cleared |
| Text.Trim | features/ChatScreen.tsx:45 | the result is the slice of the input left once its leading and trailing whitespace is removed: everything before and after the slice is whitespace, and the slice neither starts nor ends with whitespace |
| Text.TrimEmptyIffBlank | features/ChatScreen.tsx:45 | `!s.trim()` holds exactly when the string is whitespace only (also features/ProfileScreen.tsx lines 39 and 50) |
| Text.RemoveWhitespace | services/backendService.ts:30 | the result has no whitespace, keeps every other character exactly as often as it occurs, and keeps their order |
| Text.Lower | features/BooksScreen.tsx:12-13 | same length, each character lower-cased (ASCII letters) |
| Text.LowerIdempotent | features/BooksScreen.tsx:12-13 | lower-casing twice is lower-casing once |
| Text.Includes | features/BooksScreen.tsx:12-13 | `includes`, tried at each start position in turn; `Text.IncludesIff` states what it computes |
| Text.IncludesIff | features/BooksScreen.tsx:12-13 | `includes` holds exactly when the term occurs at some index |
| Text.CharAt0 | App.tsx:156 | `charAt(0)`: "" for the empty string, otherwise the first character alone |
| Text.NatToStringInjective | features/ChatScreen.tsx:48 | different clock readings give different ids (also services/backendService.ts line 98) |
| Text.DigitsValueOfNatToString | features/ChatScreen.tsx:48 | reading back the decimal rendering of a number gives the number |

## Left out

- The AI gateway (`services/geminiService.ts`) is not part of this model. It calls an external SDK over the network. Its answers are the `outcome` parameters of `ChatScreen.Chat.Reply` and `UploadScreen.Upload.FinishGenerate`. A reply that cannot be parsed becomes an empty question list in the gateway, which is the outcome `Some([])` here.
- JSON: `JSON.stringify`/`JSON.parse` are replaced by the length-prefixed text encoding of module `Codec`. The application relies only on its round trip, which is proved.
- Malformed stored text, written by something other than the façade, is not modelled. The getters' `JSON.parse` would throw on it. `Backend.Valid` requires every record key to hold a decodable record.
- Multi-tab races on local storage are a concurrency matter and are not modelled. So is the interleaving of `async` calls: every `await` of the façade is taken as completing at once.
- Clock readings (`Date.now()`) are parameters. Two readings in one synchronous block are taken as equal: the id and timestamp of a question, and the id and timestamp of a reply. The question's reading (`Send`) and the reply's (`Reply`, after the gateway answered) are separate parameters. `saveScanResult`'s two readings are the separate parameters `idClock` and `clock`.
- `setTimeout` in the feedback form: the wait is the gap between `HandleFeedbackSubmit` and `FeedbackTimerElapsed`.
- `window.confirm` is the `confirmed` parameter of `ClearHistory`.
- `alert`, `window.scrollTo`, the chat's scroll-to-bottom effect, `FileReader` and the link click that opens the mail client are browser side effects and are left out. The reader's data URL is an input, and the mail is returned as a value.
- `ProfileScreen.Profile.HandleSupportSend`: `encodeURIComponent` is not modelled; the mail body is the raw enquiry.
- `ProfileScreen.AvatarShown`: the CSS `uppercase` on the initial is presentation and is left out. The header badge's `toUpperCase` is modelled, in `App.HeaderBadge`.
- `Text.CharAt0`, `App.HeaderBadge`, `ProfileScreen.AvatarShown`: strings are sequences of Unicode scalar values, not of UTF-16 code units. For a name that starts with a character outside the Basic Multilingual Plane (an emoji, say), `charAt(0)` yields a lone surrogate; the model yields the whole character.
- `Text.Lower`, `Text.Upper`: only ASCII letters change case; full Unicode case mapping is not modelled.
- The profile screen's two callbacks: `onUpdateAvatar` is `App.Controller.HandleUpdateAvatar`, fed the value `ProfileScreen.AvatarForUpload` returns; `onLogout` is `App.Controller.HandleLogout`.
- `features/LoginScreen.tsx` is not part of this model. It is timed animation; its only outcome, `onLogin(name, email)`, is `App.Controller.HandleLogin`.
- `features/HomeScreen.tsx`, `features/BranchScreen.tsx`, `features/SemesterScreen.tsx`, `features/NotesScreen.tsx`, `features/FormulasScreen.tsx` and `features/PapersScreen.tsx` only render and are not part of this model. Their callbacks are modelled in the controller and their data in `DataService`. The formula and paper tables are not modelled.
- `getBranches`, `getSemesters` and `getNoteUnits` of the façade return the catalogue unchanged. They are `DataService.Branches`, `DataService.Semesters` and `DataService.GetNoteUnits`.
- The chat screen lets a send happen before the history has loaded; the later load then replaces the transcript. The model keeps this: `Send` only persists once loaded, and `LoadHistory` overwrites the messages.
- `ProfileScreen.Profile.HandleFeedbackSubmit` does not test `isSubmitting`, as in the code: only the disabled button prevents a second submit.
- `BooksScreen.TanenbaumFound` is stated for the lower-case term only; upper- and mixed-case forms follow from `BooksScreen.CaseInsensitive`.
- `SubjectScreen.CseThirdSemester` states the result as a slice of the subject table rather than by titles: entries 3 and 4 of the table, Data Structures and Digital Logic Design.
- `App.TitleOfChat` is a single example title. `App.TitleShape` states the rule for every view.
- Marks of a generated question are natural numbers; the floating-point numbers JSON allows are not modelled.
