// The response check of the tuning tool's test runner: a raw AI reply is classified
// against the kind of answer the scenario's action asks for, giving at most one analysis
// line; and the display label of an action.

module TestRunner {
  import opened Wrappers
  import opened JsStrings
  import PromptEditor

  /** How a reply is judged. */
  datatype Verdict = Correct | OutOfRange | FormatError | Sufficient | Short

  /** One analysis line: the verdict and the text shown for it. */
  datatype Line = Line(verdict: Verdict, text: string)

  const SEER_CHECK := "SEER_CHECK"
  const GUARD_PROTECT := "GUARD_PROTECT"
  const VOTE_PLAYER := "VOTE_PLAYER"
  const HUNTER_SHOOT := "HUNTER_SHOOT"
  const DISCUSSION_STATEMENT := "DISCUSSION_STATEMENT"

  /** `s.endsWith(suffix)` */
  predicate EndsWith(s: string, suffix: string) {
    |suffix| <= |s| && s[|s| - |suffix|..] == suffix
  }

  /** Actions answered with a player id. */
  predicate IsIdAction(action: string) {
    EndsWith(action, "_TARGET") || action == SEER_CHECK || action == GUARD_PROTECT || action == VOTE_PLAYER
  }

  /** Actions answered with yes/no or a player id. */
  predicate IsChoiceAction(action: string) {
    Contains(action, "CHOICE") || action == HUNTER_SHOOT
  }

  /** `/^(yes|no|是|否)$/i`: the case-insensitive match folds ASCII letters only. */
  predicate IsYesNo(response: string) {
    var r := ToLower(response);
    r == "yes" || r == "no" || r == "是" || r == "否"
  }

  /** `response.length`: UTF-16 code units, two for a character outside the BMP. */
  function Utf16Length(s: string): (n: nat)
    ensures |s| <= n <= 2 * |s|
  {
    if s == [] then 0 else (if s[0] as int > 0xFFFF then 2 else 1) + Utf16Length(s[1..])
  }

  /** `analyzeResponse()`: `None` for a missing or empty reply (`null` is returned), and
      otherwise the list of analysis lines. */
  function AnalyzeResponse(response: Option<string>, action: string): (r: Option<seq<Line>>)
    ensures r.None? <==> response.None? || response.value == ""
    ensures r.Some? ==> |r.value| <= 1
  {
    if response.None? || response.value == "" then None
    else
      var reply := response.value;
      var isNumeric := AllDigits(reply);
      if IsIdAction(action) then
        if isNumeric then
          var playerId := DigitsValue(reply);
          if 1 <= playerId <= 8 then Some([Line(Correct, "✅ 格式正确: 玩家ID " + NatToString(playerId))])
          else Some([Line(OutOfRange, "⚠️ 玩家ID超出范围: " + NatToString(playerId))])
        else Some([Line(FormatError, "❌ 格式错误: 应该是数字ID，得到 \"" + reply + "\"")])
      else if IsChoiceAction(action) then
        if IsYesNo(reply) then Some([Line(Correct, "✅ 格式正确: " + reply)])
        else if isNumeric then Some([Line(Correct, "✅ 格式正确: 选择玩家 " + reply)])
        else Some([Line(FormatError, "❌ 格式错误: 应该是是/否或玩家ID，得到 \"" + reply + "\"")])
      else if action == DISCUSSION_STATEMENT then
        var n := Utf16Length(reply);
        if n > 10 then Some([Line(Sufficient, "✅ 发言内容充足: " + NatToString(n) + " 字符")])
        else Some([Line(Short, "⚠️ 发言较短: " + NatToString(n) + " 字符")])
      else Some([])
  }

  /** The verdict on a non-empty reply, when the action is recognised. */
  function VerdictOf(reply: string, action: string): Option<Verdict>
    requires reply != ""
  {
    var r := AnalyzeResponse(Some(reply), action).value;
    if r == [] then None else Some(r[0].verdict)
  }

  /** Each recognised action gives exactly one line, any other action none. */
  lemma OneLinePerRecognisedAction(reply: string, action: string)
    requires reply != ""
    ensures |AnalyzeResponse(Some(reply), action).value| == 1 <==>
      IsIdAction(action) || IsChoiceAction(action) || action == DISCUSSION_STATEMENT
  {
  }

  /** For an id action, an all-digit reply naming 1 to 8 is correct, another all-digit
      reply is out of range and anything else is a format error. */
  lemma IdActionRule(reply: string, action: string)
    requires reply != "" && IsIdAction(action)
    ensures VerdictOf(reply, action) == Some(Correct) <==> AllDigits(reply) && 1 <= DigitsValue(reply) <= 8
    ensures VerdictOf(reply, action) == Some(OutOfRange) <==> AllDigits(reply) && !(1 <= DigitsValue(reply) <= 8)
    ensures VerdictOf(reply, action) == Some(FormatError) <==> !AllDigits(reply)
    ensures AllDigits(reply) ==> ParseIntJs(Some(reply)) == Some(DigitsValue(reply))
  {
    if AllDigits(reply) {
      ParseIntOfDigits(reply);
    }
  }

  /** Player 0 is judged out of range, although the game numbers its players from 0. */
  lemma PlayerZeroFlagged()
    ensures VerdictOf("0", VOTE_PLAYER) == Some(OutOfRange)
  {
    assert AllDigits("0") && DigitsValue("0") == 0;
  }

  /** For a choice action (not also an id action), a yes/no reply in any letter case or
      an all-digit reply is correct and anything else is a format error. */
  lemma ChoiceActionRule(reply: string, action: string)
    requires reply != "" && !IsIdAction(action) && IsChoiceAction(action)
    ensures VerdictOf(reply, action) == Some(Correct) <==> IsYesNo(reply) || AllDigits(reply)
    ensures VerdictOf(reply, action) == Some(FormatError) <==> !IsYesNo(reply) && !AllDigits(reply)
  {
  }

  /** A yes/no match ignores the letter case. */
  lemma YesNoIgnoresCase(reply: string)
    ensures IsYesNo(reply) <==> IsYesNo(ToLower(reply))
  {
    assert ToLower(ToLower(reply)) == ToLower(reply);
  }

  /** A discussion statement of more than ten UTF-16 code units is sufficient, a shorter
      one short. */
  lemma DiscussionRule(reply: string)
    requires reply != ""
    ensures VerdictOf(reply, DISCUSSION_STATEMENT) == Some(Sufficient) <==> Utf16Length(reply) > 10
    ensures VerdictOf(reply, DISCUSSION_STATEMENT) == Some(Short) <==> Utf16Length(reply) <= 10
  {
    DiscussionIsPlain();
  }

  lemma DiscussionIsPlain()
    ensures !IsIdAction(DISCUSSION_STATEMENT) && !IsChoiceAction(DISCUSSION_STATEMENT)
  {
    assert DISCUSSION_STATEMENT[|DISCUSSION_STATEMENT| - 7] != "_TARGET"[0];
    assert 'H' !in DISCUSSION_STATEMENT;
    forall i | 0 <= i <= |DISCUSSION_STATEMENT| ensures !OccursAt(DISCUSSION_STATEMENT, "CHOICE", i) {
      if i + 6 <= |DISCUSSION_STATEMENT| {
        assert DISCUSSION_STATEMENT[i..i + 6][1] == DISCUSSION_STATEMENT[i + 1];
      }
    }
  }

  const ACTION_LABELS: map<string, string> := map[
    "WEREWOLF_TARGET" := "狼人选择目标",
    "GUARD_PROTECT" := "守卫保护",
    "SEER_CHECK" := "预言家查验",
    "WITCH_SAVE_CHOICE" := "女巫救人选择",
    "WITCH_POISON_CHOICE" := "女巫毒人选择",
    "HUNTER_SHOOT" := "猎人开枪",
    "DISCUSSION_STATEMENT" := "讨论发言",
    "VOTE_PLAYER" := "投票选择"
  ]

  /** `getActionLabel(action)`: `actionMap[action] || action` */
  function ActionLabel(action: string): string {
    PromptEditor.LookupOr(ACTION_LABELS, action, action)
  }

  /** The eight known actions get their label, every other action string itself. */
  lemma ActionLabelRule(action: string)
    ensures ActionLabel(action) == if action in ACTION_LABELS then ACTION_LABELS[action] else action
  {
    assert PromptEditor.NoEmptyEntry(ACTION_LABELS);
  }
}
