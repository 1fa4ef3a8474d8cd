/** The persistence façade of services/backendService.ts. Local storage is a
    map from key to text; each record is stored as the text of its encoding
    (module Codec) and read back by decoding it. */
module BackendService {
  import opened Types
  import Codec
  import Text
  import Seqs
  import DataService

  const UserKey := "eh_user"
  const ChatKey := "eh_chat_history"
  const ScanKey := "eh_scan_history"
  const ThemeKey := "eh_theme"

  /** The avatar service URL that `login` appends the seed to. */
  const AvatarPrefix := "https://api.dicebear.com/7.x/avataaars/svg?seed="

  // ===== reading the store =====

  /** `localStorage.getItem(key)`: `None` is `null`. */
  function GetItem(m: map<string, string>, key: string): Option<string>
  {
    if key in m then Some(m[key]) else None
  }

  /** The `data ? … : …` test: `null` and the empty string are both falsy. */
  predicate Truthy(data: Option<string>)
  {
    data.Some? && data.value != ""
  }

  /** What `getCurrentUser` returns for store `m`. */
  function UserIn(m: map<string, string>): Option<User>
  {
    var data := GetItem(m, UserKey);
    if Truthy(data) then Codec.DecodeUser(data.value) else None
  }

  /** What `getChatHistory` returns for store `m`. */
  function ChatIn(m: map<string, string>): seq<ChatMessage>
  {
    var data := GetItem(m, ChatKey);
    if Truthy(data) then
      match Codec.DecodeMessages(data.value)
      case Some(ms) => ms
      case None => []
    else []
  }

  /** What `getScanHistory` returns for store `m`. */
  function ScansIn(m: map<string, string>): seq<ScanRecord>
  {
    var data := GetItem(m, ScanKey);
    if Truthy(data) then
      match Codec.DecodeScans(data.value)
      case Some(rs) => rs
      case None => []
    else []
  }

  /** What `getThemePreference` returns for store `m`. */
  predicate ThemeIn(m: map<string, string>)
  {
    GetItem(m, ThemeKey) == Some("dark")
  }

  /** Every record key that holds text holds the encoding of a record of its
      kind: the store only ever receives what this façade wrote. */
  predicate WellFormed(m: map<string, string>)
  {
    && (Truthy(GetItem(m, UserKey)) ==> Codec.DecodeUser(m[UserKey]).Some?)
    && (Truthy(GetItem(m, ChatKey)) ==> Codec.DecodeMessages(m[ChatKey]).Some?)
    && (Truthy(GetItem(m, ScanKey)) ==> Codec.DecodeScans(m[ScanKey]).Some?)
  }

  // ===== the records written =====

  /** The user `login(name, email)` creates at time `now`. */
  function LoginUser(name: string, email: string, now: nat): User
  {
    User(name, email, Some(AvatarPrefix + Text.RemoveWhitespace(name)), "google", now)
  }

  /** `{ ...user, ...updates }`: every field present in `updates` wins. */
  function Merge(u: User, updates: ProfileUpdate): (r: User)
    ensures updates.name.Some? ==> r.name == updates.name.value
    ensures updates.name.None? ==> r.name == u.name
    ensures updates.email.Some? ==> r.email == updates.email.value
    ensures updates.email.None? ==> r.email == u.email
    ensures updates.avatar.Some? ==> r.avatar == updates.avatar
    ensures updates.avatar.None? ==> r.avatar == u.avatar
    ensures r.authProvider == u.authProvider && r.lastLogin == u.lastLogin
  {
    User(
      match updates.name case Some(n) => n case None => u.name,
      match updates.email case Some(e) => e case None => u.email,
      match updates.avatar case Some(a) => Some(a) case None => u.avatar,
      u.authProvider,
      u.lastLogin)
  }

  /** The text `setThemePreference` stores. */
  function ThemeValue(isDark: bool): string
  {
    if isDark then "dark" else "light"
  }

  /** The record `saveScanResult` creates: `Date.now().toString()` as id. */
  function NewScan(questions: seq<GeneratedQuestion>, idClock: nat, clock: nat): ScanRecord
  {
    ScanRecord(Text.NatToString(idClock), clock, questions)
  }

  // ===== subject lookup =====

  /** The filter condition of `getSubjects`: branch first, then semester. */
  function SubjectKeys(branchId: string, semesterId: int): Subject -> bool
  {
    (s: Subject) => s.branchId == branchId && s.semesterId == semesterId
  }

  /** The subjects of `catalogue` that `getSubjects` keeps, in their order. */
  function SubjectsFor(catalogue: seq<Subject>, branchId: string, semesterId: int): (r: seq<Subject>)
    ensures forall s :: s in r <==> s in catalogue && s.branchId == branchId && s.semesterId == semesterId
  {
    Seqs.FilterMembers(catalogue, SubjectKeys(branchId, semesterId));
    Seqs.Filter(catalogue, SubjectKeys(branchId, semesterId))
  }

  /** `getSubjects` keeps the catalogue order. */
  lemma SubjectsForInOrder(catalogue: seq<Subject>, branchId: string, semesterId: int)
    ensures Seqs.SubsequenceOf(SubjectsFor(catalogue, branchId, semesterId), catalogue)
  {
    Seqs.FilterIsSubsequence(catalogue, SubjectKeys(branchId, semesterId));
  }

  /** Each matching subject is listed as often as the catalogue holds it, and
      no other subject is listed at all. */
  lemma SubjectsForCounts(catalogue: seq<Subject>, branchId: string, semesterId: int)
    ensures forall s :: multiset(SubjectsFor(catalogue, branchId, semesterId))[s] ==
              if s.branchId == branchId && s.semesterId == semesterId then multiset(catalogue)[s] else 0
  {
    Seqs.FilterMultiset(catalogue, SubjectKeys(branchId, semesterId));
  }

  /** `getSubjects(branchId, semesterId)` over the catalogue table. */
  function GetSubjects(branchId: string, semesterId: int): seq<Subject>
  {
    SubjectsFor(DataService.Subjects, branchId, semesterId)
  }

  // ===== the façade =====

  class Backend {
    /** The contents of local storage. */
    var store: map<string, string>

    ghost predicate Valid()
      reads this
    {
      WellFormed(store)
    }

    /** A façade over storage left by an earlier session. */
    constructor (initial: map<string, string>)
      requires WellFormed(initial)
      ensures Valid() && store == initial
    {
      store := initial;
    }

    /** `getCurrentUser`: the stored user, or none when the key is absent or empty. */
    method GetCurrentUser() returns (u: Option<User>)
      requires Valid()
      ensures u == UserIn(store)
      ensures u.Some? <==> Truthy(GetItem(store, UserKey))
    {
      var data := GetItem(store, UserKey);
      if Truthy(data) {
        u := Codec.DecodeUser(data.value);
      } else {
        u := None;
      }
    }

    /** `login(name, email)`: creates the user record, overwriting any earlier one. */
    method Login(name: string, email: string, now: nat) returns (u: User)
      requires Valid()
      modifies this
      ensures Valid()
      ensures u == LoginUser(name, email, now)
      ensures store == old(store)[UserKey := Codec.EncodeUser(u)]
      ensures UserIn(store) == Some(u)
    {
      var seed := Text.RemoveWhitespace(name);
      u := User(name, email, Some(AvatarPrefix + seed), "google", now);
      store := store[UserKey := Codec.EncodeUser(u)];
      StoreUser(old(store), u);
    }

    /** `logout`: removes the user, the chat transcript and the scan history. */
    method Logout()
      requires Valid()
      modifies this
      ensures Valid()
      ensures store == old(store) - {UserKey, ChatKey, ScanKey}
      ensures UserIn(store) == None && ChatIn(store) == [] && ScansIn(store) == []
      ensures ThemeIn(store) == ThemeIn(old(store))
    {
      store := store - {UserKey};
      store := store - {ChatKey};
      store := store - {ScanKey};
      assert store == old(store) - {UserKey, ChatKey, ScanKey};
      LogoutClears(old(store));
    }

    /** `updateProfile(updates)`: merges onto the stored user; none, and no
        write, when no user is stored. */
    method UpdateProfile(updates: ProfileUpdate) returns (r: Option<User>)
      requires Valid()
      modifies this
      ensures Valid()
      ensures old(UserIn(store)).None? ==> r.None? && store == old(store)
      ensures old(UserIn(store)).Some? ==>
        && r == Some(Merge(old(UserIn(store)).value, updates))
        && store == old(store)[UserKey := Codec.EncodeUser(r.value)]
      ensures r.Some? ==> UserIn(store) == r
    {
      var user := GetCurrentUser();
      if user.None? {
        return None;
      }
      var updated := Merge(user.value, updates);
      store := store[UserKey := Codec.EncodeUser(updated)];
      StoreUser(old(store), updated);
      r := Some(updated);
    }

    /** `getThemePreference`: true exactly when "dark" is stored. */
    method GetThemePreference() returns (isDark: bool)
      ensures isDark <==> ThemeKey in store && store[ThemeKey] == "dark"
    {
      isDark := GetItem(store, ThemeKey) == Some("dark");
    }

    /** `setThemePreference(isDark)`. */
    method SetThemePreference(isDark: bool)
      requires Valid()
      modifies this
      ensures Valid()
      ensures store == old(store)[ThemeKey := ThemeValue(isDark)]
      ensures ThemeIn(store) == isDark
    {
      store := store[ThemeKey := ThemeValue(isDark)];
    }

    /** `getChatHistory`: the stored transcript, or [] when the key is absent or empty. */
    method GetChatHistory() returns (ms: seq<ChatMessage>)
      requires Valid()
      ensures ms == ChatIn(store)
      ensures !Truthy(GetItem(store, ChatKey)) ==> ms == []
      ensures Truthy(GetItem(store, ChatKey)) ==> Codec.DecodeMessages(store[ChatKey]) == Some(ms)
    {
      var data := GetItem(store, ChatKey);
      if Truthy(data) {
        ms := Codec.DecodeMessages(data.value).value;
      } else {
        ms := [];
      }
    }

    /** `saveChatHistory(messages)`: replaces the whole transcript. */
    method SaveChatHistory(messages: seq<ChatMessage>)
      requires Valid()
      modifies this
      ensures Valid()
      ensures store == old(store)[ChatKey := Codec.EncodeMessages(messages)]
      ensures ChatIn(store) == messages
    {
      store := store[ChatKey := Codec.EncodeMessages(messages)];
      StoreChat(old(store), messages);
    }

    /** `getScanHistory`: the stored history, or [] when the key is absent or empty. */
    method GetScanHistory() returns (rs: seq<ScanRecord>)
      requires Valid()
      ensures rs == ScansIn(store)
      ensures !Truthy(GetItem(store, ScanKey)) ==> rs == []
      ensures Truthy(GetItem(store, ScanKey)) ==> Codec.DecodeScans(store[ScanKey]) == Some(rs)
    {
      var data := GetItem(store, ScanKey);
      if Truthy(data) {
        rs := Codec.DecodeScans(data.value).value;
      } else {
        rs := [];
      }
    }

    /** `saveScanResult(questions)`: reads the history and writes it back with a
        new record in front. `idClock` and `clock` are the two `Date.now()`
        readings (id and timestamp). */
    method SaveScanResult(questions: seq<GeneratedQuestion>, idClock: nat, clock: nat) returns (r: ScanRecord)
      requires Valid()
      modifies this
      ensures Valid()
      ensures r == NewScan(questions, idClock, clock) && r.questions == questions
      ensures store == old(store)[ScanKey := Codec.EncodeScans([r] + old(ScansIn(store)))]
      ensures ScansIn(store) == [r] + old(ScansIn(store))
      ensures |ScansIn(store)| == |old(ScansIn(store))| + 1
    {
      var history := GetScanHistory();
      r := ScanRecord(Text.NatToString(idClock), clock, questions);
      store := store[ScanKey := Codec.EncodeScans([r] + history)];
      StoreScans(old(store), [r] + history);
    }
  }

  // ===== properties of the store operations =====

  /** Writing a user record: it is what `getCurrentUser` reads back, and the
      store stays well formed. */
  lemma StoreUser(m: map<string, string>, u: User)
    requires WellFormed(m)
    ensures UserIn(m[UserKey := Codec.EncodeUser(u)]) == Some(u)
    ensures WellFormed(m[UserKey := Codec.EncodeUser(u)])
  {
    Codec.DecodeEncodeUser(u);
    Codec.EncodingsNonEmpty(u, [], []);
  }

  /** Writing a transcript: it is what `getChatHistory` reads back. */
  lemma StoreChat(m: map<string, string>, ms: seq<ChatMessage>)
    requires WellFormed(m)
    ensures ChatIn(m[ChatKey := Codec.EncodeMessages(ms)]) == ms
    ensures WellFormed(m[ChatKey := Codec.EncodeMessages(ms)])
  {
    Codec.DecodeEncodeMessages(ms);
    Codec.EncodingsNonEmpty(User("", "", None, "", 0), ms, []);
  }

  /** Writing a scan history: it is what `getScanHistory` reads back. */
  lemma StoreScans(m: map<string, string>, rs: seq<ScanRecord>)
    requires WellFormed(m)
    ensures ScansIn(m[ScanKey := Codec.EncodeScans(rs)]) == rs
    ensures WellFormed(m[ScanKey := Codec.EncodeScans(rs)])
  {
    Codec.DecodeEncodeScans(rs);
    Codec.EncodingsNonEmpty(User("", "", None, "", 0), [], rs);
  }

  /** After logout nothing of the user remains, the theme is kept, and a
      second logout changes nothing. */
  lemma LogoutClears(m: map<string, string>)
    requires WellFormed(m)
    ensures var m' := m - {UserKey, ChatKey, ScanKey};
      && UserIn(m') == None && ChatIn(m') == [] && ScansIn(m') == []
      && ThemeIn(m') == ThemeIn(m) && WellFormed(m')
      && m' - {UserKey, ChatKey, ScanKey} == m'
  {
  }

  /** The theme flag reads back what was set. */
  lemma ThemeRoundTrip(m: map<string, string>, isDark: bool)
    ensures ThemeIn(m[ThemeKey := ThemeValue(isDark)]) == isDark
  {
  }

  /** The avatar of a fresh login is the prefix followed by the name with
      every whitespace character removed: the seed has no whitespace, keeps
      every other character of the name as often as it occurs there, and in
      the name's order. */
  lemma LoginAvatarSeed(name: string, email: string, now: nat)
    ensures var u := LoginUser(name, email, now);
      && u.avatar.Some?
      && u.avatar.value[..|AvatarPrefix|] == AvatarPrefix
      && var seed := u.avatar.value[|AvatarPrefix|..];
         && seed == Text.RemoveWhitespace(name)
         && (forall k :: 0 <= k < |seed| ==> !Text.IsJsWhitespace(seed[k]))
         && (forall c :: !Text.IsJsWhitespace(c) ==> multiset(seed)[c] == multiset(name)[c])
         && Seqs.SubsequenceOf(seed, name)
  {
    var u := LoginUser(name, email, now);
    assert u.avatar.value[|AvatarPrefix|..] == Text.RemoveWhitespace(name);
  }

  /** An update without fields leaves the user as it is; applying the same
      update twice is applying it once. */
  lemma MergeLaws(u: User, updates: ProfileUpdate)
    ensures Merge(u, ProfileUpdate(None, None, None)) == u
    ensures Merge(Merge(u, updates), updates) == Merge(u, updates)
  {
  }

  /** The scan history after the saves `saves` (oldest first) on top of `h`. */
  function AfterSaves(h: seq<ScanRecord>, saves: seq<ScanRecord>): seq<ScanRecord>
  {
    if saves == [] then h else [saves[|saves| - 1]] + AfterSaves(h, saves[..|saves| - 1])
  }

  /** N saves make the history N longer, newest first: index i holds save
      N - i (counting from 1), so the K-th save sits at index N - K. */
  lemma {:induction false} SavesNewestFirst(h: seq<ScanRecord>, saves: seq<ScanRecord>)
    ensures |AfterSaves(h, saves)| == |h| + |saves|
    ensures forall i :: 0 <= i < |saves| ==> AfterSaves(h, saves)[i] == saves[|saves| - 1 - i]
    ensures AfterSaves(h, saves)[|saves|..] == h
  {
    if saves != [] {
      var init := saves[..|saves| - 1];
      SavesNewestFirst(h, init);
      forall i | 1 <= i < |saves|
        ensures AfterSaves(h, saves)[i] == saves[|saves| - 1 - i]
      {
        assert AfterSaves(h, saves)[i] == AfterSaves(h, init)[i - 1];
      }
    }
  }

  /** One more `saveScanResult` is one more save in `AfterSaves`. */
  lemma AfterOneMoreSave(h: seq<ScanRecord>, saves: seq<ScanRecord>, r: ScanRecord)
    ensures AfterSaves(h, saves + [r]) == [r] + AfterSaves(h, saves)
  {
    assert (saves + [r])[..|saves|] == saves;
  }
}
