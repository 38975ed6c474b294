// The deterministic part of the AI decision: which prompt purposes are known, the
// cleaning and format validation of the provider's reply, and the rules by which
// the prompt shows other players' roles and the recent history. The provider call
// itself is I/O; its reply is a parameter (`None` for a failed call or an unknown
// provider).

module AiUtils {
  import opened Wrappers
  import opened JsStrings
  import opened GameModel

  const PURPOSES := [
    "WEREWOLF_TARGET", "GUARD_PROTECT", "SEER_CHECK", "WITCH_SAVE_CHOICE",
    "WITCH_POISON_CHOICE", "HUNTER_SHOOT", "DISCUSSION_STATEMENT", "VOTE_PLAYER"]

  predicate EndsWith(s: string, suffix: string) {
    |suffix| <= |s| && s[|s| - |suffix|..] == suffix
  }

  /** Purposes whose answer is a player id. */
  predicate IsIdPurpose(purpose: string) {
    EndsWith(purpose, "_TARGET") || purpose == "SEER_CHECK" || purpose == "GUARD_PROTECT"
    || purpose == "VOTE_PLAYER"
  }

  /** Purposes whose answer is yes, no or an id. */
  predicate IsChoicePurpose(purpose: string) {
    purpose == "WITCH_SAVE_CHOICE" || purpose == "HUNTER_SHOOT" || purpose == "WITCH_POISON_CHOICE"
  }

  /** The regular expression /^(yes|no|\d+)$/i. */
  predicate IsChoiceForm(text: string) {
    ToLower(text) == "yes" || ToLower(text) == "no" || AllDigits(text)
  }

  /** Every newline turned into a space, character by character. */
  function Spaced(s: string): (r: string)
    ensures |r| == |s|
    ensures forall i :: 0 <= i < |s| ==> r[i] == if s[i] == '\n' then ' ' else s[i]
  {
    if s == [] then [] else [if s[0] == '\n' then ' ' else s[0]] + Spaced(s[1..])
  }

  /** The reply with every backtick removed, every newline made a space, then trimmed. */
  function Clean(raw: string): (r: string)
    ensures r == Trim(Spaced(Without(raw, '`')))
    ensures '`' !in r && '\n' !in r
  {
    CleanSteps(raw);
    SpacedChars(Without(raw, '`'));
    Trim(ReplaceAll(ReplaceAll(raw, "`", ""), "\n", " "))
  }

  /** The two global replaces are the character-wise reference definitions. */
  lemma CleanSteps(raw: string)
    ensures ReplaceAll(ReplaceAll(raw, "`", ""), "\n", " ") == Spaced(Without(raw, '`'))
  {
    var noTicks := ReplaceAll(raw, "`", "");
    ReplaceCharByNothing(raw, '`');
    ReplaceCharByChar(noTicks, '\n', ' ');
  }

  lemma SpacedChars(s: string)
    requires '`' !in s
    ensures '`' !in Spaced(s) && '\n' !in Spaced(s)
  {
    forall i | 0 <= i < |s| ensures Spaced(s)[i] != '`' {
      assert s[i] in s;
    }
  }

  lemma {:induction false} AbsentChar(s: string, c: char)
    requires c !in s
    ensures !Contains(s, [c])
  {
    forall i | 0 <= i <= |s| ensures !OccursAt(s, [c], i) {
      if i + 1 <= |s| {
        assert s[i..i + 1] == [s[i]];
        assert s[i] in s;
      }
    }
  }

  /** Cleaning a cleaned reply changes nothing. */
  lemma {:induction false} CleanIdempotent(raw: string)
    ensures Clean(Clean(raw)) == Clean(raw)
  {
    var r := Clean(raw);
    AbsentChar(r, '`');
    ReplaceAllAbsent(r, "`", "");
    AbsentChar(r, '\n');
    ReplaceAllAbsent(r, "\n", " ");
    TrimIdempotent(Spaced(Without(raw, '`')));
  }

  /** Format validation of the cleaned text (the end of `getAIDecision`). An id purpose
      keeps an all-digit text and otherwise takes its first digit run; a choice purpose
      keeps yes, no (in any case) or digits, and otherwise looks for "yes", then "no",
      then a digit run; any other purpose returns the text as it is. */
  function Validate(purpose: string, text: string): (r: Option<string>)
    ensures IsIdPurpose(purpose) ==>
      (r.None? <==> NoDigits(text)) &&
      (r.Some? ==> AllDigits(r.value)) &&
      (AllDigits(text) ==> r == Some(text))
    ensures !IsIdPurpose(purpose) && IsChoicePurpose(purpose) ==>
      (r.Some? ==> IsChoiceForm(r.value)) &&
      (IsChoiceForm(text) ==> r == Some(text)) &&
      (r.None? <==> !IsChoiceForm(text) && !Contains(ToLower(text), "yes")
                    && !Contains(ToLower(text), "no") && NoDigits(text))
    ensures !IsIdPurpose(purpose) && !IsChoicePurpose(purpose) ==> r == Some(text)
  {
    if IsIdPurpose(purpose) then
      if AllDigits(text) then
        assert !NoDigits(text) by { assert IsDigit(text[0]); }
        Some(text)
      else FirstDigitRun(text)
    else if IsChoicePurpose(purpose) then
      if IsChoiceForm(text) then Some(text)
      else if Contains(ToLower(text), "yes") then Some("yes")
      else if Contains(ToLower(text), "no") then Some("no")
      else
        var run := FirstDigitRun(text);
        assert run.Some? ==> IsChoiceForm(run.value);
        run
    else Some(text)
  }

  /** What `getAIDecision` returns for a purpose and the provider's raw reply. */
  function Decide(purpose: string, raw: Option<string>): (r: Option<string>)
    ensures purpose !in PURPOSES ==> r == None
    ensures raw == None || raw == Some("") ==> r == None
    ensures purpose in PURPOSES && raw.Some? && raw.value != "" ==>
      r == Validate(purpose, Clean(raw.value))
  {
    if purpose !in PURPOSES then None
    else if raw.None? || raw.value == "" then None
    else Validate(purpose, Clean(raw.value))
  }

  /** An answer to an id question is never anything but a run of ASCII digits, so
      `parseInt` reads it back as the number it spells. */
  lemma IdAnswerParses(purpose: string, raw: Option<string>)
    requires IsIdPurpose(purpose) && Decide(purpose, raw).Some?
    ensures ParseIntJs(Decide(purpose, raw)) == Some(DigitsValue(Decide(purpose, raw).value))
  {
    ParseIntOfDigits(Decide(purpose, raw).value);
  }

  lemma DiscussionPurpose()
    ensures "DISCUSSION_STATEMENT" in PURPOSES
    ensures !IsIdPurpose("DISCUSSION_STATEMENT") && !IsChoicePurpose("DISCUSSION_STATEMENT")
  {
    assert "DISCUSSION_STATEMENT"[13..] != "_TARGET" by {
      assert "DISCUSSION_STATEMENT"[13] == 'A';
    }
    assert |"DISCUSSION_STATEMENT"| == 20;
  }

  /** A discussion statement is the cleaned reply, unchanged by cleaning again. */
  lemma StatementIsClean(raw: string)
    requires raw != ""
    ensures Decide("DISCUSSION_STATEMENT", Some(raw)) == Some(Clean(raw))
    ensures Clean(Decide("DISCUSSION_STATEMENT", Some(raw)).value) ==
      Decide("DISCUSSION_STATEMENT", Some(raw)).value
  {
    DiscussionPurpose();
    assert Validate("DISCUSSION_STATEMENT", Clean(raw)) == Some(Clean(raw));
    CleanIdempotent(raw);
  }

  // ---------------------------------------------------------------- prompt assembly

  const UNKNOWN_ROLE := "Unknown Role"
  const TEAMMATE := ROLES.werewolf + " (your teammate)"

  /** The role of player p as shown to the AI `viewer`: its own role, a fellow wolf
      for a wolf, the seer's last result for the seer, a revealed role, and otherwise
      "Unknown Role". */
  function RoleDisplay(viewer: Player, p: Player, seerLastCheck: Option<SeerCheck>): (r: string)
    ensures p.id == viewer.id ==> r == p.role
    ensures p.id != viewer.id ==>
      (r == TEAMMATE && viewer.role == ROLES.werewolf && p.role == ROLES.werewolf)
      || (viewer.role == ROLES.seer && seerLastCheck.Some? && seerLastCheck.value.targetId == p.id
          && r == seerLastCheck.value.targetRole)
      || (p.revealedRole == Some(r) && r != "")
      || r == UNKNOWN_ROLE
  {
    if p.id == viewer.id then p.role
    else if viewer.role == ROLES.werewolf && p.role == ROLES.werewolf then TEAMMATE
    else if viewer.role == ROLES.seer && seerLastCheck.Some? && seerLastCheck.value.targetId == p.id then
      seerLastCheck.value.targetRole
    else if p.revealedRole.Some? && p.revealedRole.value != "" then p.revealedRole.value
    else UNKNOWN_ROLE
  }

  /** A viewer that is neither a wolf nor the seer learns nothing about another
      player whose role has not been revealed. */
  lemma NoLeak(viewer: Player, p: Player, seerLastCheck: Option<SeerCheck>)
    requires p.id != viewer.id
    requires viewer.role != ROLES.werewolf && viewer.role != ROLES.seer
    requires p.revealedRole.None?
    ensures RoleDisplay(viewer, p, seerLastCheck) == UNKNOWN_ROLE
  {
  }

  datatype RosterLine = RosterLine(id: int, isHuman: bool, shownRole: string)

  /** "Current alive players": one line per alive player, in seat order. */
  function Roster(ps: seq<Player>, viewer: Player, seerLastCheck: Option<SeerCheck>): (r: seq<RosterLine>)
    ensures |r| == |AlivePlayers(ps)|
    ensures forall i :: 0 <= i < |r| ==>
      r[i] == RosterLine(AlivePlayers(ps)[i].id, AlivePlayers(ps)[i].isHuman,
                         RoleDisplay(viewer, AlivePlayers(ps)[i], seerLastCheck))
  {
    if ps == [] then []
    else if ps[0].isAlive then
      [RosterLine(ps[0].id, ps[0].isHuman, RoleDisplay(viewer, ps[0], seerLastCheck))]
      + Roster(ps[1..], viewer, seerLastCheck)
    else Roster(ps[1..], viewer, seerLastCheck)
  }

  /** The ids of the alive werewolves other than the viewer, for a wolf's prompt. */
  function Teammates(ps: seq<Player>, viewer: Player): (r: seq<int>)
    ensures forall id :: id in r <==>
      exists p :: p in ps && p.role == ROLES.werewolf && p.id != viewer.id && p.isAlive && p.id == id
  {
    if ps == [] then []
    else
      var rest := Teammates(ps[1..], viewer);
      assert forall p :: p in ps <==> p == ps[0] || p in ps[1..];
      if ps[0].role == ROLES.werewolf && ps[0].id != viewer.id && ps[0].isAlive then [ps[0].id] + rest
      else rest
  }

  /** A game log entry as the prompt sees it. */
  datatype LogLine = LogLine(timestamp: string, logType: string, text: string)

  /** Who a history line is attributed to: the human's id for human lines, and the
      asking AI's own id for every AI line, whichever AI spoke it. */
  function Attribution(logType: string, humanId: int, selfId: int): string {
    if logType == "human" then "Player " + IntToString(humanId)
    else if logType == "ai" then "Player " + IntToString(selfId)
    else "System"
  }

  function FormatLine(l: LogLine, humanId: int, selfId: int): string {
    l.timestamp + " [" + Attribution(l.logType, humanId, selfId) + "] " + l.text
  }

  function FormatAll(history: seq<LogLine>, humanId: int, selfId: int): (r: seq<string>)
    ensures |r| == |history|
    ensures forall i :: 0 <= i < |r| ==> r[i] == FormatLine(history[i], humanId, selfId)
  {
    if history == [] then []
    else [FormatLine(history[0], humanId, selfId)] + FormatAll(history[1..], humanId, selfId)
  }

  const HISTORY_WINDOW := 20

  /** `history.map(format).slice(-20)`: the last twenty entries, oldest first. */
  function HistoryWindow(history: seq<LogLine>, humanId: int, selfId: int): (r: seq<string>)
    ensures |r| == if |history| < HISTORY_WINDOW then |history| else HISTORY_WINDOW
    ensures forall i :: 0 <= i < |r| ==>
      r[i] == FormatLine(history[|history| - |r| + i], humanId, selfId)
  {
    var all := FormatAll(history, humanId, selfId);
    if |all| <= HISTORY_WINDOW then all
    else
      var r := all[|all| - HISTORY_WINDOW..];
      assert forall i :: 0 <= i < |r| ==> r[i] == all[|all| - HISTORY_WINDOW + i];
      r
  }

  /** One more log entry slides the window: the oldest line drops out once it is full. */
  lemma {:induction false} WindowSlides(history: seq<LogLine>, l: LogLine, humanId: int, selfId: int)
    requires |history| >= HISTORY_WINDOW
    ensures HistoryWindow(history + [l], humanId, selfId) ==
      HistoryWindow(history, humanId, selfId)[1..] + [FormatLine(l, humanId, selfId)]
  {
    var a := HistoryWindow(history + [l], humanId, selfId);
    var b := HistoryWindow(history, humanId, selfId)[1..] + [FormatLine(l, humanId, selfId)];
    assert |a| == |b|;
    forall i | 0 <= i < |a| ensures a[i] == b[i] {
      if i < |a| - 1 {
        assert (history + [l])[|history| + 1 - HISTORY_WINDOW + i] == history[|history| - HISTORY_WINDOW + i + 1];
      }
    }
  }
}
