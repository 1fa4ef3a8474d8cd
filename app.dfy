/** The view-state controller of App.tsx: which screen is shown, the catalogue
    selections of the drill-down, the signed-in user and the one-shot start-up
    read, together with the header and navigation rules computed from the
    view. */
module App {
  import opened Types
  import Text
  import Codec
  import BackendService

  // ===== the header =====

  /** The header shows a back button on every view except HOME and PROFILE. */
  predicate HasBackButton(v: AppView)
  {
    v != HOME && v != PROFILE
  }

  /** The back button's target: one level up the drill-down, HOME otherwise.
      Its clauses only tabulate the `onBack` cases; the property the
      navigation relies on is stated by `BackTowardsHome` and
      `UnwindReachesHome`. */
  function BackTarget(v: AppView): (t: AppView)
    ensures v == NOTES ==> t == SUBJECTS
    ensures v == SUBJECTS ==> t == SEMESTERS
    ensures v == SEMESTERS ==> t == BRANCHES
    ensures v != NOTES && v != SUBJECTS && v != SEMESTERS ==> t == HOME
  {
    if v == NOTES then SUBJECTS
    else if v == SUBJECTS then SEMESTERS
    else if v == SEMESTERS then BRANCHES
    else HOME
  }

  /** How many back presses separate `v` from HOME. */
  function Depth(v: AppView): nat
  {
    match v
    case HOME => 0
    case SEMESTERS => 2
    case SUBJECTS => 3
    case NOTES => 4
    case _ => 1
  }

  /** The view after pressing back `presses` times, stopping where there is
      no back button. */
  function Unwind(v: AppView, presses: nat): AppView
    decreases presses
  {
    if presses == 0 || !HasBackButton(v) then v
    else Unwind(BackTarget(v), presses - 1)
  }

  /** Every back press moves one level closer to HOME. */
  lemma BackTowardsHome(v: AppView)
    requires HasBackButton(v)
    ensures Depth(v) >= 1 && Depth(BackTarget(v)) == Depth(v) - 1
    ensures HasBackButton(BackTarget(v)) <==> BackTarget(v) != HOME
  {
  }

  /** From any view but PROFILE, `Depth(v)` back presses lead to HOME, and
      further presses stay there. */
  lemma {:induction false} UnwindReachesHome(v: AppView, extra: nat)
    requires v != PROFILE
    ensures Unwind(v, Depth(v) + extra) == HOME
    decreases Depth(v)
  {
    if v != HOME {
      BackTowardsHome(v);
      UnwindReachesHome(BackTarget(v), extra);
    }
  }

  /** The header title: the product name on HOME, otherwise the view's name
      with the first letter kept and the rest lower-cased, its first
      underscore turned into a space. */
  function Title(v: AppView): (t: string)
    ensures v == HOME ==> t == "Student StudyHub"
    ensures v != HOME ==> |t| == |ViewName(v)|
  {
    if v == HOME then "Student StudyHub"
    else
      var name := ViewName(v);
      Text.CharAt0(name) + Text.ReplaceFirst(Text.Lower(name[1..]), '_', ' ')
  }

  /** Off HOME the title keeps the view name's first letter and lower-cases
      the rest; no view name has an underscore, so none is replaced. */
  lemma TitleShape(v: AppView)
    requires v != HOME
    ensures |Title(v)| == |ViewName(v)|
    ensures Title(v)[0] == ViewName(v)[0]
    ensures Title(v)[1..] == Text.Lower(ViewName(v)[1..])
  {
    var name := ViewName(v);
    assert '_' !in name;
    assert '_' !in Text.Lower(name[1..]);
  }

  /** A title as the user sees it. */
  lemma TitleOfChat()
    ensures Title(CHAT) == "Chat"
  {
    assert ViewName(CHAT) == "CHAT";
    assert Text.Lower("HAT") == "hat";
  }

  /** What the round badge at the right of the header shows. */
  datatype Badge = BadgePhoto(url: string) | BadgeLetter(letter: string) | BadgeEmpty

  /** `user?.avatar ? <img> : user?.name.charAt(0).toUpperCase()`. */
  function HeaderBadge(user: Option<User>): (b: Badge)
    ensures b.BadgeEmpty? <==> user.None?
    ensures b.BadgePhoto? <==> user.Some? && user.value.avatar.Some? && user.value.avatar.value != ""
    ensures b.BadgePhoto? ==> b.url == user.value.avatar.value
    ensures user.Some? && !b.BadgePhoto? ==> b == BadgeLetter(Text.Upper(Text.CharAt0(user.value.name)))
  {
    match user
    case None => BadgeEmpty
    case Some(u) =>
      if u.avatar.Some? && u.avatar.value != "" then BadgePhoto(u.avatar.value)
      else BadgeLetter(Text.Upper(Text.CharAt0(u.name)))
  }

  /** The greeting name the home screen receives: `user?.name || "Student"`. */
  function GreetingName(user: Option<User>): (n: string)
    ensures n != ""
    ensures user.Some? && user.value.name != "" ==> n == user.value.name
    ensures !(user.Some? && user.value.name != "") ==> n == "Student"
  {
    if user.Some? && user.value.name != "" then user.value.name else "Student"
  }

  /** The branch id the subject screen receives: `selectedBranch?.id || ''`. */
  function SubjectScreenBranchId(selected: Option<Branch>): (id: string)
    ensures selected.None? ==> id == ""
    ensures selected.Some? ==> id == selected.value.id
  {
    match selected
    case None => ""
    case Some(b) => b.id
  }

  // ===== the bottom navigation =====

  datatype NavTab = HomeTab | NotesTab | AskTab | ProfileTab

  /** The view a tab opens. */
  function TabTarget(t: NavTab): AppView
  {
    match t
    case HomeTab => HOME
    case NotesTab => BRANCHES
    case AskTab => CHAT
    case ProfileTab => PROFILE
  }

  /** Whether a tab is highlighted: Notes for the whole drill-down. */
  predicate TabActive(t: NavTab, v: AppView)
  {
    match t
    case HomeTab => v == HOME
    case NotesTab => v in [BRANCHES, SEMESTERS, SUBJECTS, NOTES]
    case AskTab => v == CHAT
    case ProfileTab => v == PROFILE
  }

  /** The Notes tab is active exactly on the four drill-down views, which are
      the views the back button unwinds one level at a time. */
  lemma NotesTabActiveIff(v: AppView)
    ensures TabActive(NotesTab, v) <==> v == BRANCHES || v == SEMESTERS || v == SUBJECTS || v == NOTES
    ensures TabActive(NotesTab, v) && v != BRANCHES ==> TabActive(NotesTab, BackTarget(v))
  {
  }

  /** Tapping a tab highlights that tab, and no other. */
  lemma TabTargetActive(t: NavTab, u: NavTab)
    ensures TabActive(t, TabTarget(t))
    ensures u != t ==> !TabActive(u, TabTarget(t))
  {
  }

  /** The views the home screen's tiles open. */
  predicate HomeTarget(v: AppView)
  {
    v == UPLOAD || v == BRANCHES || v == BOOKS || v == CHAT || v == FORMULAS || v == PAPERS
  }

  // ===== the controller =====

  class Controller {
    var view: AppView
    var selectedBranch: Option<Branch>
    var selectedSemester: Option<Semester>
    var selectedSubject: Option<Subject>
    var user: Option<User>
    var isInitializing: bool
    const backend: BackendService.Backend

    /** Before start-up LOGIN is set and nobody is signed in; after it the
        user in memory is the stored one and every view but LOGIN has a user;
        the subject and notes screens have the selections they dereference. */
    ghost predicate Valid()
      reads this, backend
    {
      && backend.Valid()
      && (isInitializing ==> user == None && view == LOGIN)
      && (!isInitializing ==> user == BackendService.UserIn(backend.store))
      && (!isInitializing && view != LOGIN ==> user.Some?)
      && (view == SUBJECTS || view == NOTES ==> selectedSemester.Some?)
      && (view == NOTES ==> selectedSubject.Some?)
    }

    /** The shell (header, content, navigation) is on screen. */
    ghost predicate InShell()
      reads this
    {
      !isInitializing && view != LOGIN
    }

    /** The initial state: LOGIN, nothing selected, no user, start-up pending. */
    constructor (backend: BackendService.Backend)
      requires backend.Valid()
      ensures Valid() && this.backend == backend
      ensures view == LOGIN && isInitializing && user == None
      ensures selectedBranch == None && selectedSemester == None && selectedSubject == None
    {
      this.backend := backend;
      view := LOGIN;
      selectedBranch := None;
      selectedSemester := None;
      selectedSubject := None;
      user := None;
      isInitializing := true;
    }

    /** `init`: a stored user is signed in and HOME shown; otherwise LOGIN
        stays. Start-up is over afterwards either way. */
    method Init()
      requires Valid() && isInitializing
      modifies this
      ensures Valid() && !isInitializing
      ensures user == BackendService.UserIn(backend.store)
      ensures user.Some? ==> view == HOME
      ensures user.None? ==> view == old(view)
      ensures backend.store == old(backend.store)
      ensures selectedBranch == old(selectedBranch) && selectedSemester == old(selectedSemester)
      ensures selectedSubject == old(selectedSubject)
    {
      var savedUser := backend.GetCurrentUser();
      if savedUser.Some? {
        user := savedUser;
        view := HOME;
      }
      isInitializing := false;
    }

    /** `navigateTo`, the home screen's callback. */
    method NavigateTo(target: AppView)
      requires Valid() && InShell() && view == HOME && HomeTarget(target)
      modifies this`view
      ensures Valid() && view == target
    {
      view := target;
    }

    /** `handleLogin`: the façade's new user is signed in and HOME shown. */
    method HandleLogin(name: string, email: string, now: nat)
      requires Valid() && !isInitializing && view == LOGIN
      modifies this, backend
      ensures Valid() && !isInitializing
      ensures user == Some(BackendService.LoginUser(name, email, now)) && view == HOME
      ensures backend.store == old(backend.store)[BackendService.UserKey := Codec.EncodeUser(user.value)]
      ensures selectedBranch == old(selectedBranch) && selectedSemester == old(selectedSemester)
      ensures selectedSubject == old(selectedSubject)
    {
      var loggedUser := backend.Login(name, email, now);
      user := Some(loggedUser);
      view := HOME;
    }

    /** `handleLogout`, the profile screen's callback: the session is removed
        from the store, the user cleared and LOGIN shown. The drill-down
        selections are left as they were. */
    method HandleLogout()
      requires Valid() && InShell() && view == PROFILE
      modifies this, backend
      ensures Valid() && !isInitializing
      ensures user == None && view == LOGIN
      ensures backend.store == old(backend.store) - {BackendService.UserKey, BackendService.ChatKey, BackendService.ScanKey}
      ensures selectedBranch == old(selectedBranch) && selectedSemester == old(selectedSemester)
      ensures selectedSubject == old(selectedSubject)
    {
      backend.Logout();
      user := None;
      view := LOGIN;
    }

    /** `handleUpdateAvatar`: without a user nothing happens; otherwise the
        avatar is merged into the stored user and the result adopted. */
    method HandleUpdateAvatar(newAvatar: string)
      requires Valid() && !isInitializing
      modifies this`user, backend
      ensures Valid() && view == old(view) && isInitializing == old(isInitializing)
      ensures old(user).None? ==> user == None && backend.store == old(backend.store)
      ensures old(user).Some? ==>
        && user == Some(BackendService.Merge(old(user).value, ProfileUpdate(None, None, Some(newAvatar))))
        && user.value.avatar == Some(newAvatar)
        && backend.store == old(backend.store)[BackendService.UserKey := Codec.EncodeUser(user.value)]
      ensures selectedBranch == old(selectedBranch) && selectedSemester == old(selectedSemester)
      ensures selectedSubject == old(selectedSubject)
    {
      if user.Some? {
        var updated := backend.UpdateProfile(ProfileUpdate(None, None, Some(newAvatar)));
        assert updated.Some?;
        user := updated;
      }
    }

    /** The branch screen's `onSelect`: record the branch, show SEMESTERS. */
    method SelectBranch(b: Branch)
      requires Valid() && InShell() && view == BRANCHES
      modifies this`selectedBranch, this`view
      ensures Valid() && selectedBranch == Some(b) && view == SEMESTERS
    {
      selectedBranch := Some(b);
      view := SEMESTERS;
    }

    /** The semester screen's `onSelect`: record the semester, show SUBJECTS. */
    method SelectSemester(s: Semester)
      requires Valid() && InShell() && view == SEMESTERS
      modifies this`selectedSemester, this`view
      ensures Valid() && selectedSemester == Some(s) && view == SUBJECTS
    {
      selectedSemester := Some(s);
      view := SUBJECTS;
    }

    /** The subject screen's `onSelect`: record the subject, show NOTES. */
    method SelectSubject(s: Subject)
      requires Valid() && InShell() && view == SUBJECTS
      modifies this`selectedSubject, this`view
      ensures Valid() && selectedSubject == Some(s) && view == NOTES
    {
      selectedSubject := Some(s);
      view := NOTES;
    }

    /** The header's back button. */
    method GoBack()
      requires Valid() && InShell() && HasBackButton(view)
      modifies this`view
      ensures Valid() && view == BackTarget(old(view))
    {
      if view == NOTES {
        view := SUBJECTS;
      } else if view == SUBJECTS {
        view := SEMESTERS;
      } else if view == SEMESTERS {
        view := BRANCHES;
      } else {
        view := HOME;
      }
    }

    /** A bottom tab, or the header's profile badge (which opens PROFILE like
        the Profile tab). */
    method TapTab(t: NavTab)
      requires Valid() && InShell()
      modifies this`view
      ensures Valid() && view == TabTarget(t) && TabActive(t, view)
    {
      view := TabTarget(t);
    }
  }
}
