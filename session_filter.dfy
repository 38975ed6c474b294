/**
 * processLogs: parses "user timestamp action" lines into a per-user record of the last
 * sign-in and last sign-out time, keeps the users whose span is at most maxSpan and sorts
 * them by the integer value of their id.
 */
module SessionFilter {
  import opened Wrappers
  import opened JsStrings
  import opened Sorting

  /** The characters Python's str.split() with no argument splits on. */
  predicate IsPySpace(c: char) {
    c == '\t' || c == '\n' || c == '\U{000B}' || c == '\U{000C}' || c == '\r'
    || ('\U{001C}' <= c <= '\U{001F}') || c == ' ' || c == '\U{0085}' || c == '\U{00A0}'
    || c == '\U{1680}' || ('\U{2000}' <= c <= '\U{200A}') || c == '\U{2028}' || c == '\U{2029}'
    || c == '\U{202F}' || c == '\U{205F}' || c == '\U{3000}'
  }

  /** The longest prefix of s without white space. */
  function WordPrefix(s: string): (r: string)
    ensures |r| <= |s| && r == s[..|r|]
    ensures forall i :: 0 <= i < |r| ==> !IsPySpace(r[i])
    ensures |r| == |s| || IsPySpace(s[|r|])
  {
    if s != [] && !IsPySpace(s[0]) then
      var t := WordPrefix(s[1..]);
      assert [s[0]] + t == s[..|t| + 1];
      [s[0]] + t
    else []
  }

  /** line.split(): the maximal runs of non-space characters. */
  function Tokens(s: string): (r: seq<string>)
    ensures forall k :: 0 <= k < |r| ==> r[k] != [] && forall i :: 0 <= i < |r[k]| ==> !IsPySpace(r[k][i])
    decreases |s|
  {
    if s == [] then []
    else if IsPySpace(s[0]) then Tokens(s[1..])
    else
      var w := WordPrefix(s);
      [w] + Tokens(s[|w|..])
  }

  /** ASCII digits with single underscores between them, as int() reads a run of digits:
      a digit, then either nothing or, after an optional underscore, more digit groups. */
  predicate IsDigitGroups(t: string)
    decreases |t|
  {
    |t| > 0 && IsDigit(t[0]) &&
    (|t| == 1 || IsDigitGroups(t[1..]) || (t[1] == '_' && IsDigitGroups(t[2..])))
  }

  /** Dropping the underscores of digit groups leaves only digits. */
  lemma {:induction false} GroupsDigits(t: string)
    requires IsDigitGroups(t)
    ensures forall i :: 0 <= i < |Without(t, '_')| ==> IsDigit(Without(t, '_')[i])
    decreases |t|
  {
    var rest := Without(t[1..], '_');
    if |t| > 1 {
      if IsDigitGroups(t[1..]) {
        GroupsDigits(t[1..]);
      } else {
        GroupsDigits(t[2..]);
        assert t[1..][1..] == t[2..];
        assert rest == Without(t[2..], '_');
      }
    }
    assert Without(t, '_') == [t[0]] + rest;
  }

  /** A non-empty run of digits is digit groups. */
  lemma {:induction false} DigitsAreGroups(t: string)
    requires AllDigits(t)
    ensures IsDigitGroups(t)
    decreases |t|
  {
    if |t| > 1 {
      DigitsAreGroups(t[1..]);
    }
  }

  /** The value of digit groups: the digits read with the underscores left out. */
  function GroupsValue(t: string): nat
    requires IsDigitGroups(t)
  {
    GroupsDigits(t);
    DigitsValue(Without(t, '_'))
  }

  /** The text int() accepts: an optional sign and digit groups of ASCII digits. */
  predicate IsIntLiteral(t: string) {
    IsDigitGroups(t) || (|t| >= 2 && (t[0] == '+' || t[0] == '-') && IsDigitGroups(t[1..]))
  }

  function IntValue(t: string): int
    requires IsIntLiteral(t)
  {
    if IsDigitGroups(t) then GroupsValue(t)
    else if t[0] == '-' then -(GroupsValue(t[1..]) as int)
    else GroupsValue(t[1..])
  }

  /** Plain digits are an integer literal worth their decimal value. */
  lemma DigitsLiteral(t: string)
    requires AllDigits(t)
    ensures IsIntLiteral(t) && IntValue(t) == DigitsValue(t)
  {
    DigitsAreGroups(t);
    NoUnderscore(t);
  }

  /** `1_000` reads as 1000. */
  lemma UnderscoreLiteral()
    ensures IsIntLiteral("1_000") && IntValue("1_000") == 1000
  {
    assert IsDigitGroups("1_000") by {
      assert "1_000"[2..] == "000" && "000"[1..] == "00" && "00"[1..] == "0";
    }
    assert Without("1_000", '_') == "1000" by {
      assert "1_000"[1..] == "_000";
      assert "_000"[1..] == "000";
      NoUnderscore("000");
    }
    assert DigitsValue("1000") == 1000 by {
      assert "1000"[..3] == "100";
      assert "100"[..2] == "10";
      assert "10"[..1] == "1";
      assert "1"[..0] == "";
    }
  }

  /** A doubled, leading or trailing underscore is refused. */
  lemma MisplacedUnderscores()
    ensures !IsIntLiteral("1__000") && !IsIntLiteral("_1") && !IsIntLiteral("1_")
  {
    assert "1__000"[1..] == "__000" && "1__000"[2..] == "_000";
    assert "_1"[1..] == "1";
    assert "1_"[1..] == "_" && "1_"[2..] == "";
  }

  /** A string of digits has no underscore to drop. */
  lemma {:induction false} NoUnderscore(t: string)
    requires forall i :: 0 <= i < |t| ==> IsDigit(t[i])
    ensures Without(t, '_') == t
  {
    if t != [] {
      NoUnderscore(t[1..]);
    }
  }

  /** A line processLogs can read: at least three fields and an integer timestamp. */
  predicate WellFormed(line: string) {
    var parts := Tokens(line);
    |parts| >= 3 && IsIntLiteral(parts[1])
  }

  datatype Entry = Entry(user: string, time: int, action: string)

  function Parse(line: string): Entry
    requires WellFormed(line)
  {
    var parts := Tokens(line);
    Entry(parts[0], IntValue(parts[1]), parts[2])
  }

  function ParseAll(logs: seq<string>): (es: seq<Entry>)
    requires forall i :: 0 <= i < |logs| ==> WellFormed(logs[i])
    ensures |es| == |logs|
  {
    if logs == [] then [] else ParseAll(logs[..|logs| - 1]) + [Parse(logs[|logs| - 1])]
  }

  /** A user's record: the last sign-in time and the last sign-out time seen so far. */
  datatype Session = Session(signIn: Option<int>, signOut: Option<int>)

  /** The effect of one line on the table of records. */
  function Record(m: map<string, Session>, e: Entry): map<string, Session> {
    var cur := if e.user in m then m[e.user] else Session(None, None);
    if e.action == "sign-in" then m[e.user := cur.(signIn := Some(e.time))]
    else if e.action == "sign-out" then m[e.user := cur.(signOut := Some(e.time))]
    else m[e.user := cur]
  }

  /** Record as the source performs it: create an empty record if needed, then set a field. */
  lemma RecordInSteps(m: map<string, Session>, e: Entry)
    ensures var m1 := if e.user in m then m else m[e.user := Session(None, None)];
            Record(m, e) == if e.action == "sign-in" then m1[e.user := m1[e.user].(signIn := Some(e.time))]
                            else if e.action == "sign-out" then m1[e.user := m1[e.user].(signOut := Some(e.time))]
                            else m1
  {
    var m1 := if e.user in m then m else m[e.user := Session(None, None)];
    if e.user in m {
      assert m1 == m[e.user := m[e.user]];
    }
  }

  /** user_sessions after reading every entry of es. */
  function Sessions(es: seq<Entry>): map<string, Session> {
    if es == [] then map[] else Record(Sessions(es[..|es| - 1]), es[|es| - 1])
  }

  /** The keys of user_sessions in insertion order: each user where it first appears. */
  function FirstSeen(es: seq<Entry>): seq<string> {
    if es == [] then []
    else
      var o := FirstSeen(es[..|es| - 1]);
      if es[|es| - 1].user in o then o else o + [es[|es| - 1].user]
  }

  predicate Qualifies(s: Session, maxSpan: int) {
    s.signIn.Some? && s.signOut.Some? && s.signOut.value - s.signIn.value <= maxSpan
  }

  /** valid_users before the sort: the qualifying users in key order. */
  function ValidUsers(order: seq<string>, m: map<string, Session>, maxSpan: int): (r: seq<string>)
    ensures forall u :: u in r <==> u in order && u in m && Qualifies(m[u], maxSpan)
    ensures NoDups(order) ==> NoDups(r)
  {
    if order == [] then []
    else
      var u := order[|order| - 1];
      var front := ValidUsers(order[..|order| - 1], m, maxSpan);
      assert forall v :: v in order <==> v in order[..|order| - 1] || v == u by {
        assert order == order[..|order| - 1] + [u];
      }
      front + (if u in m && Qualifies(m[u], maxSpan) then [u] else [])
  }

  /** The sort key int(x), for the ids the precondition of ProcessLogs admits. */
  function Key(u: string): int {
    if IsIntLiteral(u) then IntValue(u) else 0
  }

  function NumericLe(a: string, b: string): bool {
    Key(a) <= Key(b)
  }

  /** What processLogs returns for the parsed lines es. */
  function Expected(es: seq<Entry>, maxSpan: int): seq<string> {
    SortBy(ValidUsers(FirstSeen(es), Sessions(es), maxSpan), NumericLe)
  }

  /** Some line names user u. */
  predicate Named(es: seq<Entry>, u: string) {
    exists k :: 0 <= k < |es| && es[k].user == u
  }

  lemma NamedSnoc(es: seq<Entry>, u: string)
    requires es != []
    ensures Named(es, u) <==> Named(es[..|es| - 1], u) || es[|es| - 1].user == u
  {
    var front := es[..|es| - 1];
    if Named(es, u) {
      var k :| 0 <= k < |es| && es[k].user == u;
      if k < |front| { assert front[k].user == u; }
    }
    if Named(front, u) {
      var k :| 0 <= k < |front| && front[k].user == u;
      assert es[k].user == u;
    }
  }

  lemma {:induction false} SessionsKeys(es: seq<Entry>)
    ensures forall u :: u in Sessions(es) <==> u in FirstSeen(es)
    ensures forall u :: u in FirstSeen(es) <==> Named(es, u)
    ensures NoDups(FirstSeen(es))
  {
    if es != [] {
      SessionsKeys(es[..|es| - 1]);
      forall u ensures Named(es, u) <==> Named(es[..|es| - 1], u) || es[|es| - 1].user == u {
        NamedSnoc(es, u);
      }
    }
  }

  lemma NumericLeTotal()
    ensures TotalPreorder(NumericLe)
  {
  }

  /** The k-th parsed entry is the k-th line parsed. */
  lemma {:induction false} ParseAllAt(logs: seq<string>, k: int)
    requires forall j :: 0 <= j < |logs| ==> WellFormed(logs[j])
    requires 0 <= k < |logs|
    ensures ParseAll(logs)[k] == Parse(logs[k])
  {
    var n := |logs| - 1;
    if k < n {
      ParseAllAt(logs[..n], k);
    }
  }

  /** Reading one more entry applies Record to the table and appends a new user to the
      key order; a user has a record exactly when it is already in the key order. */
  lemma ReadStep(es: seq<Entry>, i: int)
    requires 0 <= i < |es|
    ensures var e := es[i];
      Sessions(es[..i + 1]) == Record(Sessions(es[..i]), e) &&
      FirstSeen(es[..i + 1]) ==
        (if e.user in FirstSeen(es[..i]) then FirstSeen(es[..i]) else FirstSeen(es[..i]) + [e.user]) &&
      (e.user in Sessions(es[..i]) <==> e.user in FirstSeen(es[..i]))
  {
    assert es[..i + 1][..i] == es[..i];
    SessionsKeys(es[..i]);
  }

  /** The first loop of processLogs: fills user_sessions line by line. */
  method ReadRecords(logs: seq<string>) returns (sessions: map<string, Session>, order: seq<string>)
    requires forall i :: 0 <= i < |logs| ==> WellFormed(logs[i])
    ensures sessions == Sessions(ParseAll(logs))
    ensures order == FirstSeen(ParseAll(logs))
  {
    ghost var es := ParseAll(logs);
    sessions := map[];
    order := [];
    var i := 0;
    while i < |logs|
      invariant 0 <= i <= |logs|
      invariant sessions == Sessions(es[..i])
      invariant order == FirstSeen(es[..i])
    {
      ReadStep(es, i);
      ParseAllAt(logs, i);
      var entry := Parse(logs[i]);
      var userId, timestamp, action := entry.user, entry.time, entry.action;
      RecordInSteps(sessions, entry);
      if userId !in sessions {
        sessions := sessions[userId := Session(None, None)];
        order := order + [userId];
      }
      if action == "sign-in" {
        sessions := sessions[userId := sessions[userId].(signIn := Some(timestamp))];
      } else if action == "sign-out" {
        sessions := sessions[userId := sessions[userId].(signOut := Some(timestamp))];
      }
      i := i + 1;
    }
    assert es[..|logs|] == es;
  }

  /** One more key joins the valid users exactly when its record qualifies. */
  lemma ValidStep(order: seq<string>, m: map<string, Session>, maxSpan: int, k: int, next: int)
    requires 0 <= k < |order| && next == k + 1
    ensures ValidUsers(order[..next], m, maxSpan) ==
      ValidUsers(order[..k], m, maxSpan) +
        (if order[k] in m && Qualifies(m[order[k]], maxSpan) then [order[k]] else [])
  {
    assert order[..next][..k] == order[..k];
  }

  /** The second loop of processLogs: keeps the users whose record qualifies, in key order. */
  method KeepQualifying(order: seq<string>, sessions: map<string, Session>, maxSpan: int)
    returns (valid: seq<string>)
    requires forall u :: u in order ==> u in sessions
    ensures valid == ValidUsers(order, sessions, maxSpan)
  {
    valid := [];
    var k := 0;
    while k < |order|
      invariant 0 <= k <= |order|
      invariant valid == ValidUsers(order[..k], sessions, maxSpan)
    {
      var userId := order[k];
      var session := sessions[userId];
      ghost var valid0, k0 := valid, k;
      if session.signIn.Some? && session.signOut.Some? {
        if session.signOut.value - session.signIn.value <= maxSpan {
          valid := valid + [userId];
        }
      }
      k := k + 1;
      ValidStep(order, sessions, maxSpan, k0, k);
    }
    assert order[..|order|] == order;
  }

  /**
   * processLogs: one pass fills the records in a dictionary, a second keeps the qualifying
   * users in key order, and a stable sort orders them by int(id). The second precondition is
   * the source's own demand: int() is applied to every qualifying id and raises otherwise.
   */
  method ProcessLogs(logs: seq<string>, maxSpan: int) returns (validUsers: seq<string>)
    requires forall i :: 0 <= i < |logs| ==> WellFormed(logs[i])
    requires forall u :: u in Sessions(ParseAll(logs)) && Qualifies(Sessions(ParseAll(logs))[u], maxSpan)
               ==> IsIntLiteral(u)
    ensures validUsers == Expected(ParseAll(logs), maxSpan)
    ensures forall u :: u in validUsers <==> u in Sessions(ParseAll(logs)) && Qualifies(Sessions(ParseAll(logs))[u], maxSpan)
    ensures NoDups(validUsers)
    ensures forall i :: 0 <= i < |validUsers| ==> IsIntLiteral(validUsers[i])
    ensures forall i, j :: 0 <= i < j < |validUsers| ==> Key(validUsers[i]) <= Key(validUsers[j])
  {
    var sessions, order := ReadRecords(logs);
    assert forall u :: u in order ==> u in sessions by {
      SessionsKeys(ParseAll(logs));
    }
    var valid := KeepQualifying(order, sessions, maxSpan);
    validUsers := SortBy(valid, NumericLe);
    ResultProperties(ParseAll(logs), maxSpan);
  }

  lemma ResultProperties(es: seq<Entry>, maxSpan: int)
    requires forall u :: u in Sessions(es) && Qualifies(Sessions(es)[u], maxSpan) ==> IsIntLiteral(u)
    ensures var r := Expected(es, maxSpan);
      && (forall u :: u in r <==> u in Sessions(es) && Qualifies(Sessions(es)[u], maxSpan))
      && NoDups(r)
      && (forall i :: 0 <= i < |r| ==> IsIntLiteral(r[i]))
      && (forall i, j :: 0 <= i < j < |r| ==> Key(r[i]) <= Key(r[j]))
  {
    ExpectedProperties(es, maxSpan);
  }

  /** The result holds exactly the qualifying users, once each, ordered by int(id). */
  lemma ExpectedProperties(es: seq<Entry>, maxSpan: int)
    ensures forall u :: u in Expected(es, maxSpan) <==> u in Sessions(es) && Qualifies(Sessions(es)[u], maxSpan)
    ensures NoDups(Expected(es, maxSpan))
    ensures SortedBy(Expected(es, maxSpan), NumericLe)
  {
    var valid := ValidUsers(FirstSeen(es), Sessions(es), maxSpan);
    var r := Expected(es, maxSpan);
    SessionsKeys(es);
    PermutationNoDups(valid, r);
    NumericLeTotal();
    SortBySorted(valid, NumericLe);
    forall u ensures u in r <==> u in valid {
      assert u in r <==> u in multiset(r);
      assert u in valid <==> u in multiset(valid);
    }
  }

  /** The last time recorded for user u and action a, found by scanning the lines backwards. */
  function LastTime(es: seq<Entry>, u: string, a: string): Option<int> {
    if es == [] then None
    else if es[|es| - 1].user == u && es[|es| - 1].action == a then Some(es[|es| - 1].time)
    else LastTime(es[..|es| - 1], u, a)
  }

  /**
   * Last write wins: a user's record holds the timestamp of the LAST sign-in line and of the
   * LAST sign-out line for that user, and every user named on some line has a record.
   */
  lemma {:induction false} LastWriteWins(es: seq<Entry>, u: string)
    requires Named(es, u)
    ensures u in Sessions(es)
    ensures Sessions(es)[u] == Session(LastTime(es, u, "sign-in"), LastTime(es, u, "sign-out"))
  {
    var front := es[..|es| - 1];
    var last := es[|es| - 1];
    NamedSnoc(es, u);
    if last.user != u {
      LastWriteWins(front, u);
    } else if Named(front, u) {
      LastWriteWins(front, u);
    } else {
      SessionsKeys(front);
      assert u !in Sessions(front);
      NoEntryNoTime(front, u, "sign-in");
      NoEntryNoTime(front, u, "sign-out");
    }
  }

  lemma {:induction false} NoEntryNoTime(es: seq<Entry>, u: string, a: string)
    requires forall k :: 0 <= k < |es| ==> es[k].user != u
    ensures LastTime(es, u, a) == None
  {
    if es != [] {
      NoEntryNoTime(es[..|es| - 1], u, a);
    }
  }

  lemma {:induction false} NoActionNoTime(es: seq<Entry>, u: string, a: string)
    requires forall k :: 0 <= k < |es| && es[k].user == u ==> es[k].action != a
    ensures LastTime(es, u, a) == None
  {
    if es != [] {
      NoActionNoTime(es[..|es| - 1], u, a);
    }
  }

  /**
   * A user without a sign-in line (for instance one whose lines all carry some other action)
   * has a record but never qualifies, so it is never returned.
   */
  lemma NoSignInNotReturned(es: seq<Entry>, u: string, maxSpan: int)
    requires Named(es, u)
    requires forall k :: 0 <= k < |es| && es[k].user == u ==> es[k].action != "sign-in"
    ensures u in Sessions(es)
    ensures u !in Expected(es, maxSpan)
  {
    LastWriteWins(es, u);
    NoActionNoTime(es, u, "sign-in");
    var v := ValidUsers(FirstSeen(es), Sessions(es), maxSpan);
    assert u !in v;
    assert u !in multiset(v);
  }

  /**
   * Stability: ids with the same integer value (such as "01" and "1") keep the order in which
   * they were first seen.
   */
  lemma SameValueKeepsOrder(es: seq<Entry>, maxSpan: int, e: string)
    ensures ClassOf(Expected(es, maxSpan), e, NumericLe)
         == ClassOf(ValidUsers(FirstSeen(es), Sessions(es), maxSpan), e, NumericLe)
  {
    NumericLeTotal();
    SortByStable(ValidUsers(FirstSeen(es), Sessions(es), maxSpan), e, NumericLe);
  }
}
