/** The textual form of the records kept in local storage. The application
    writes `JSON.stringify(x)` and reads `JSON.parse(text)`; the only property
    it relies on is that reading back what was written gives the same value.
    This module stands in for JSON with a length-prefixed text encoding and
    PROVES that round trip for every stored record type (user, chat transcript,
    scan history).

    Layout: a number is its decimal digits followed by ':'; a string is its
    length as a number followed by its characters; an optional string is '-'
    (absent) or '+' and the string; a list is its length followed by its
    elements; a record is its fields in declaration order. */
module Codec {
  import opened Types
  import Text

  // ===== numbers =====

  function EncNat(n: nat): string
  {
    Text.NatToString(n) + ":"
  }

  /** Index of the first ':' in `s`, if any. */
  function IndexOfColon(s: string): (r: Option<nat>)
    ensures r.None? ==> ':' !in s
    ensures r.Some? ==> r.value < |s| && s[r.value] == ':' && ':' !in s[..r.value]
  {
    if s == [] then None
    else if s[0] == ':' then Some(0)
    else
      match IndexOfColon(s[1..])
      case None => None
      case Some(k) => Some(k + 1)
  }

  predicate AllDigits(s: string)
  {
    forall i :: 0 <= i < |s| ==> Text.IsDigit(s[i])
  }

  function DecNat(s: string): Option<(nat, string)>
  {
    var k :- IndexOfColon(s);
    var p := s[..k];
    if p != [] && AllDigits(p) then Some((Text.DigitsValue(p), s[k + 1..])) else None
  }

  lemma {:induction false} IndexOfColonAfter(a: string, b: string)
    requires ':' !in a
    ensures IndexOfColon(a + ":" + b) == Some(|a|)
  {
    if a != [] {
      assert (a + ":" + b)[1..] == a[1..] + ":" + b;
      IndexOfColonAfter(a[1..], b);
    }
  }

  lemma DecNatEnc(n: nat, rest: string)
    ensures DecNat(EncNat(n) + rest) == Some((n, rest))
  {
    var d := Text.NatToString(n);
    var s := EncNat(n) + rest;
    assert s == d + ":" + rest;
    assert forall i :: 0 <= i < |d| ==> d[i] != ':';
    IndexOfColonAfter(d, rest);
    assert s[..|d|] == d;
    assert s[|d| + 1..] == rest;
    Text.DigitsValueOfNatToString(n);
  }

  // ===== strings =====

  function EncStr(x: string): string
  {
    EncNat(|x|) + x
  }

  function DecStr(s: string): Option<(string, string)>
  {
    var (n, r) :- DecNat(s);
    if n <= |r| then Some((r[..n], r[n..])) else None
  }

  lemma DecStrEnc(x: string, rest: string)
    ensures DecStr(EncStr(x) + rest) == Some((x, rest))
  {
    assert EncStr(x) + rest == EncNat(|x|) + (x + rest);
    DecNatEnc(|x|, x + rest);
    assert (x + rest)[..|x|] == x;
    assert (x + rest)[|x|..] == rest;
  }

  function EncOptStr(x: Option<string>): string
  {
    match x
    case None => "-"
    case Some(v) => "+" + EncStr(v)
  }

  function DecOptStr(s: string): Option<(Option<string>, string)>
  {
    if s == [] then None
    else if s[0] == '-' then Some((None, s[1..]))
    else if s[0] == '+' then
      var (v, r) :- DecStr(s[1..]);
      Some((Some(v), r))
    else None
  }

  lemma DecOptStrEnc(x: Option<string>, rest: string)
    ensures DecOptStr(EncOptStr(x) + rest) == Some((x, rest))
  {
    match x
    case None =>
      assert (EncOptStr(x) + rest)[1..] == rest;
    case Some(v) =>
      assert (EncOptStr(x) + rest)[1..] == EncStr(v) + rest;
      DecStrEnc(v, rest);
  }

  // ===== enumerations =====

  function EncRole(r: Role): string
  {
    match r
    case UserRole => "u"
    case ModelRole => "m"
  }

  function DecRole(s: string): Option<(Role, string)>
  {
    if s == [] then None
    else if s[0] == 'u' then Some((UserRole, s[1..]))
    else if s[0] == 'm' then Some((ModelRole, s[1..]))
    else None
  }

  lemma DecRoleEnc(r: Role, rest: string)
    ensures DecRole(EncRole(r) + rest) == Some((r, rest))
  {
    assert (EncRole(r) + rest)[1..] == rest;
  }

  function EncQuestionType(t: QuestionType): string
  {
    match t
    case Theoretical => "T"
    case Numerical => "N"
    case Conceptual => "C"
  }

  function DecQuestionType(s: string): Option<(QuestionType, string)>
  {
    if s == [] then None
    else if s[0] == 'T' then Some((Theoretical, s[1..]))
    else if s[0] == 'N' then Some((Numerical, s[1..]))
    else if s[0] == 'C' then Some((Conceptual, s[1..]))
    else None
  }

  lemma DecQuestionTypeEnc(t: QuestionType, rest: string)
    ensures DecQuestionType(EncQuestionType(t) + rest) == Some((t, rest))
  {
    assert (EncQuestionType(t) + rest)[1..] == rest;
  }

  // ===== user =====

  function EncUserFields(u: User): string
  {
    EncStr(u.name) + (EncStr(u.email) + (EncOptStr(u.avatar) + (EncStr(u.authProvider) + EncNat(u.lastLogin))))
  }

  function DecUserFields(s: string): Option<(User, string)>
  {
    var (name, r1) :- DecStr(s);
    var (email, r2) :- DecStr(r1);
    var (avatar, r3) :- DecOptStr(r2);
    var (provider, r4) :- DecStr(r3);
    var (last, r5) :- DecNat(r4);
    Some((User(name, email, avatar, provider, last), r5))
  }

  lemma DecUserFieldsEnc(u: User, rest: string)
    ensures DecUserFields(EncUserFields(u) + rest) == Some((u, rest))
  {
    var t4 := EncNat(u.lastLogin) + rest;
    var t3 := EncStr(u.authProvider) + t4;
    var t2 := EncOptStr(u.avatar) + t3;
    var t1 := EncStr(u.email) + t2;
    assert EncUserFields(u) + rest == EncStr(u.name) + t1;
    DecStrEnc(u.name, t1);
    DecStrEnc(u.email, t2);
    DecOptStrEnc(u.avatar, t3);
    DecStrEnc(u.authProvider, t4);
    DecNatEnc(u.lastLogin, rest);
  }

  /** The stored text of a user record. */
  function EncodeUser(u: User): string
  {
    EncUserFields(u)
  }

  /** Reading a stored user record; `None` when the text is not one. */
  function DecodeUser(s: string): Option<User>
  {
    var (u, r) :- DecUserFields(s);
    if r == [] then Some(u) else None
  }

  /** Reading back a stored user gives the same user. */
  lemma DecodeEncodeUser(u: User)
    ensures DecodeUser(EncodeUser(u)) == Some(u)
  {
    DecUserFieldsEnc(u, "");
    assert EncUserFields(u) + "" == EncUserFields(u);
  }

  // ===== chat transcript =====

  function EncMessage(m: ChatMessage): string
  {
    EncStr(m.id) + (EncRole(m.role) + (EncStr(m.text) + EncNat(m.timestamp)))
  }

  function DecMessage(s: string): Option<(ChatMessage, string)>
  {
    var (id, r1) :- DecStr(s);
    var (role, r2) :- DecRole(r1);
    var (text, r3) :- DecStr(r2);
    var (ts, r4) :- DecNat(r3);
    Some((ChatMessage(id, role, text, ts), r4))
  }

  lemma DecMessageEnc(m: ChatMessage, rest: string)
    ensures DecMessage(EncMessage(m) + rest) == Some((m, rest))
  {
    var t3 := EncNat(m.timestamp) + rest;
    var t2 := EncStr(m.text) + t3;
    var t1 := EncRole(m.role) + t2;
    assert EncMessage(m) + rest == EncStr(m.id) + t1;
    DecStrEnc(m.id, t1);
    DecRoleEnc(m.role, t2);
    DecStrEnc(m.text, t3);
    DecNatEnc(m.timestamp, rest);
  }

  function EncMessageItems(ms: seq<ChatMessage>): string
  {
    if ms == [] then "" else EncMessage(ms[0]) + EncMessageItems(ms[1..])
  }

  function DecMessageItems(k: nat, s: string): Option<(seq<ChatMessage>, string)>
  {
    if k == 0 then Some(([], s))
    else
      var (m, r1) :- DecMessage(s);
      var (ms, r2) :- DecMessageItems(k - 1, r1);
      Some(([m] + ms, r2))
  }

  /** One step of reading a list: an item, then the remaining items. */
  lemma DecMessageItemsStep(k: nat, s: string, x: ChatMessage, r1: string, xs: seq<ChatMessage>, r2: string)
    requires k > 0 && DecMessage(s) == Some((x, r1)) && DecMessageItems(k - 1, r1) == Some((xs, r2))
    ensures DecMessageItems(k, s) == Some(([x] + xs, r2))
  {
  }

  lemma {:induction false} DecMessageItemsEnc(ms: seq<ChatMessage>, rest: string)
    ensures DecMessageItems(|ms|, EncMessageItems(ms) + rest) == Some((ms, rest))
  {
    if ms != [] {
      var tail := EncMessageItems(ms[1..]) + rest;
      assert EncMessageItems(ms) + rest == EncMessage(ms[0]) + tail;
      DecMessageEnc(ms[0], tail);
      DecMessageItemsEnc(ms[1..], rest);
      DecMessageItemsStep(|ms|, EncMessageItems(ms) + rest, ms[0], tail, ms[1..], rest);
      assert [ms[0]] + ms[1..] == ms;
    } else {
      assert EncMessageItems(ms) + rest == rest;
    }
  }

  /** The stored text of a chat transcript. */
  function EncodeMessages(ms: seq<ChatMessage>): string
  {
    EncNat(|ms|) + EncMessageItems(ms)
  }

  /** Reading a stored chat transcript; `None` when the text is not one. */
  function DecodeMessages(s: string): Option<seq<ChatMessage>>
  {
    var (k, r1) :- DecNat(s);
    var (ms, r2) :- DecMessageItems(k, r1);
    if r2 == [] then Some(ms) else None
  }

  /** Reading back a stored transcript gives the same messages in the same order. */
  lemma DecodeEncodeMessages(ms: seq<ChatMessage>)
    ensures DecodeMessages(EncodeMessages(ms)) == Some(ms)
  {
    DecNatEnc(|ms|, EncMessageItems(ms));
    DecMessageItemsEnc(ms, "");
    assert EncMessageItems(ms) + "" == EncMessageItems(ms);
  }

  // ===== generated questions and scan history =====

  function EncQuestion(q: GeneratedQuestion): string
  {
    EncStr(q.id) + (EncStr(q.text) + (EncNat(q.marks) + EncQuestionType(q.qtype)))
  }

  function DecQuestion(s: string): Option<(GeneratedQuestion, string)>
  {
    var (id, r1) :- DecStr(s);
    var (text, r2) :- DecStr(r1);
    var (marks, r3) :- DecNat(r2);
    var (qtype, r4) :- DecQuestionType(r3);
    Some((GeneratedQuestion(id, text, marks, qtype), r4))
  }

  lemma DecQuestionEnc(q: GeneratedQuestion, rest: string)
    ensures DecQuestion(EncQuestion(q) + rest) == Some((q, rest))
  {
    var t3 := EncQuestionType(q.qtype) + rest;
    var t2 := EncNat(q.marks) + t3;
    var t1 := EncStr(q.text) + t2;
    assert EncQuestion(q) + rest == EncStr(q.id) + t1;
    DecStrEnc(q.id, t1);
    DecStrEnc(q.text, t2);
    DecNatEnc(q.marks, t3);
    DecQuestionTypeEnc(q.qtype, rest);
  }

  function EncQuestionItems(qs: seq<GeneratedQuestion>): string
  {
    if qs == [] then "" else EncQuestion(qs[0]) + EncQuestionItems(qs[1..])
  }

  function DecQuestionItems(k: nat, s: string): Option<(seq<GeneratedQuestion>, string)>
  {
    if k == 0 then Some(([], s))
    else
      var (q, r1) :- DecQuestion(s);
      var (qs, r2) :- DecQuestionItems(k - 1, r1);
      Some(([q] + qs, r2))
  }

  /** One step of reading a list: an item, then the remaining items. */
  lemma DecQuestionItemsStep(k: nat, s: string, x: GeneratedQuestion, r1: string, xs: seq<GeneratedQuestion>, r2: string)
    requires k > 0 && DecQuestion(s) == Some((x, r1)) && DecQuestionItems(k - 1, r1) == Some((xs, r2))
    ensures DecQuestionItems(k, s) == Some(([x] + xs, r2))
  {
  }

  lemma {:induction false} DecQuestionItemsEnc(qs: seq<GeneratedQuestion>, rest: string)
    ensures DecQuestionItems(|qs|, EncQuestionItems(qs) + rest) == Some((qs, rest))
  {
    if qs != [] {
      var tail := EncQuestionItems(qs[1..]) + rest;
      assert EncQuestionItems(qs) + rest == EncQuestion(qs[0]) + tail;
      DecQuestionEnc(qs[0], tail);
      DecQuestionItemsEnc(qs[1..], rest);
      DecQuestionItemsStep(|qs|, EncQuestionItems(qs) + rest, qs[0], tail, qs[1..], rest);
      assert [qs[0]] + qs[1..] == qs;
    } else {
      assert EncQuestionItems(qs) + rest == rest;
    }
  }

  function EncScan(r: ScanRecord): string
  {
    EncStr(r.id) + (EncNat(r.timestamp) + (EncNat(|r.questions|) + EncQuestionItems(r.questions)))
  }

  function DecScan(s: string): Option<(ScanRecord, string)>
  {
    var (id, r1) :- DecStr(s);
    var (ts, r2) :- DecNat(r1);
    var (k, r3) :- DecNat(r2);
    var (qs, r4) :- DecQuestionItems(k, r3);
    Some((ScanRecord(id, ts, qs), r4))
  }

  lemma DecScanEnc(r: ScanRecord, rest: string)
    ensures DecScan(EncScan(r) + rest) == Some((r, rest))
  {
    var t3 := EncQuestionItems(r.questions) + rest;
    var t2 := EncNat(|r.questions|) + t3;
    var t1 := EncNat(r.timestamp) + t2;
    assert EncScan(r) + rest == EncStr(r.id) + t1;
    DecStrEnc(r.id, t1);
    DecNatEnc(r.timestamp, t2);
    DecNatEnc(|r.questions|, t3);
    DecQuestionItemsEnc(r.questions, rest);
  }

  function EncScanItems(rs: seq<ScanRecord>): string
  {
    if rs == [] then "" else EncScan(rs[0]) + EncScanItems(rs[1..])
  }

  function DecScanItems(k: nat, s: string): Option<(seq<ScanRecord>, string)>
  {
    if k == 0 then Some(([], s))
    else
      var (r, r1) :- DecScan(s);
      var (rs, r2) :- DecScanItems(k - 1, r1);
      Some(([r] + rs, r2))
  }

  /** One step of reading a list: an item, then the remaining items. */
  lemma DecScanItemsStep(k: nat, s: string, x: ScanRecord, r1: string, xs: seq<ScanRecord>, r2: string)
    requires k > 0 && DecScan(s) == Some((x, r1)) && DecScanItems(k - 1, r1) == Some((xs, r2))
    ensures DecScanItems(k, s) == Some(([x] + xs, r2))
  {
  }

  /** The text of a non-empty list is the first item's text, then the rest. */
  lemma EncScanItemsCons(rs: seq<ScanRecord>, rest: string)
    requires rs != []
    ensures EncScanItems(rs) + rest == EncScan(rs[0]) + (EncScanItems(rs[1..]) + rest)
  {
  }

  lemma {:induction false} DecScanItemsEnc(rs: seq<ScanRecord>, rest: string)
    ensures DecScanItems(|rs|, EncScanItems(rs) + rest) == Some((rs, rest))
  {
    if rs != [] {
      var tail := EncScanItems(rs[1..]) + rest;
      EncScanItemsCons(rs, rest);
      DecScanEnc(rs[0], tail);
      DecScanItemsEnc(rs[1..], rest);
      DecScanItemsStep(|rs|, EncScanItems(rs) + rest, rs[0], tail, rs[1..], rest);
      assert [rs[0]] + rs[1..] == rs;
    } else {
      assert EncScanItems(rs) + rest == rest;
    }
  }

  /** The stored text of a scan history. */
  function EncodeScans(rs: seq<ScanRecord>): string
  {
    EncNat(|rs|) + EncScanItems(rs)
  }

  /** Reading a stored scan history; `None` when the text is not one. */
  function DecodeScans(s: string): Option<seq<ScanRecord>>
  {
    var (k, r1) :- DecNat(s);
    var (rs, r2) :- DecScanItems(k, r1);
    if r2 == [] then Some(rs) else None
  }

  /** Reading back a stored scan history gives the same records in the same order. */
  lemma DecodeEncodeScans(rs: seq<ScanRecord>)
    ensures DecodeScans(EncodeScans(rs)) == Some(rs)
  {
    DecNatEnc(|rs|, EncScanItems(rs));
    DecScanItemsEnc(rs, "");
    assert EncScanItems(rs) + "" == EncScanItems(rs);
  }

  /** No encoding is the empty string, so the `data ? JSON.parse(data) : …`
      test of the getters never mistakes a stored record for an absent one. */
  lemma EncodingsNonEmpty(u: User, ms: seq<ChatMessage>, rs: seq<ScanRecord>)
    ensures EncodeUser(u) != [] && EncodeMessages(ms) != [] && EncodeScans(rs) != []
  {
    assert |EncStr(u.name)| > 0;
  }
}
