// The log store of the game: an append-only list of entries with increasing ids, and
// the rules that decide which entries a player's screen and an AI's prompt may show.
// Timestamps, the free-form metadata object and the console echo are not modelled.

module LogManager {
  import opened Wrappers
  import opened JsStrings
  import opened GameModel
  import opened Sorting

  // ---------------------------------------------------------------- constants

  const PUBLIC := "PUBLIC"
  const PRIVATE := "PRIVATE"
  const SYSTEM := "SYSTEM"
  const AI_ONLY := "AI_ONLY"
  const UI_ONLY := "UI_ONLY"

  const GAME_FLOW := "GAME_FLOW"
  const NIGHT_ACTIONS := "NIGHT_ACTIONS"
  const DEATHS := "DEATHS"
  const VOTING := "VOTING"
  const ROLE_INFO := "ROLE_INFO"
  const ROUND_SUMMARY := "ROUND_SUMMARY"
  const DEBUG := "DEBUG"

  /** A log entry: its id, text, type ('system', 'ai', 'human', ...), category, visibility
      level, and the roles and player ids a PRIVATE entry is shown to. */
  datatype LogEntry = LogEntry(
    id: int,
    message: string,
    logType: string,
    category: string,
    visibility: string,
    visibleToRoles: seq<string>,
    visibleToPlayers: seq<int>)

  /** What the getters hand out for an entry: text, type and category. */
  datatype LogView = LogView(text: string, logType: string, category: string)

  // ---------------------------------------------------------------- visibility

  /** `isVisibleToPlayer`: PUBLIC to everyone; PRIVATE to a listed role or a listed
      player; SYSTEM to nobody; AI_ONLY to every player but the human; UI_ONLY to the
      human only; an unknown level to nobody. */
  predicate IsVisibleToPlayer(e: LogEntry, playerId: int, playerRole: string, humanPlayerId: int) {
    if e.visibility == PUBLIC then true
    else if e.visibility == PRIVATE then playerRole in e.visibleToRoles || playerId in e.visibleToPlayers
    else if e.visibility == SYSTEM then false
    else if e.visibility == AI_ONLY then playerId != humanPlayerId
    else if e.visibility == UI_ONLY then playerId == humanPlayerId
    else false
  }

  /** `isVisibleToAI`: never UI_ONLY or SYSTEM; PRIVATE only to a listed role (the
      player list does not count); everything else, unknown levels included. */
  predicate IsVisibleToAI(e: LogEntry, aiPlayerRole: string) {
    if e.visibility == UI_ONLY || e.visibility == SYSTEM then false
    else if e.visibility == PRIVATE then aiPlayerRole in e.visibleToRoles
    else true
  }

  /** What an AI prompt may include, an AI player's own screen shows too. */
  lemma AIViewOnAIScreen(e: LogEntry, playerId: int, role: string, humanPlayerId: int)
    requires playerId != humanPlayerId
    requires e.visibility in [PUBLIC, PRIVATE, SYSTEM, AI_ONLY, UI_ONLY]
    ensures IsVisibleToAI(e, role) ==> IsVisibleToPlayer(e, playerId, role, humanPlayerId)
  {
  }

  /** The AI-only and UI-only levels split the table: each such entry is shown either to
      the human or to the other players, never to both; no AI prompt includes a UI-only
      or a SYSTEM entry, and no player sees a SYSTEM entry. */
  lemma AudiencesSplit(e: LogEntry, aiId: int, role: string, humanRole: string, humanPlayerId: int)
    requires aiId != humanPlayerId
    ensures e.visibility == AI_ONLY ==>
      IsVisibleToPlayer(e, aiId, role, humanPlayerId) && !IsVisibleToPlayer(e, humanPlayerId, humanRole, humanPlayerId)
    ensures e.visibility == UI_ONLY ==>
      !IsVisibleToPlayer(e, aiId, role, humanPlayerId) && IsVisibleToPlayer(e, humanPlayerId, humanRole, humanPlayerId) &&
      !IsVisibleToAI(e, role)
    ensures e.visibility == SYSTEM ==>
      !IsVisibleToPlayer(e, aiId, role, humanPlayerId) && !IsVisibleToPlayer(e, humanPlayerId, humanRole, humanPlayerId) &&
      !IsVisibleToAI(e, role)
  {
  }

  /** A PRIVATE entry reaches a player through its role or its id, and an AI prompt
      through the role alone. */
  lemma PrivateAudience(e: LogEntry, playerId: int, role: string, humanPlayerId: int)
    requires e.visibility == PRIVATE
    ensures IsVisibleToPlayer(e, playerId, role, humanPlayerId) <==>
      (role in e.visibleToRoles || playerId in e.visibleToPlayers)
    ensures IsVisibleToAI(e, role) <==> role in e.visibleToRoles
  {
  }

  // ---------------------------------------------------------------- filters

  /** `Array.prototype.filter`. */
  function Filter<T(!new)>(s: seq<T>, keep: T -> bool): (r: seq<T>)
    ensures |r| <= |s|
    ensures forall x :: x in r <==> x in s && keep(x)
  {
    if s == [] then []
    else (if keep(s[0]) then [s[0]] else []) + Filter(s[1..], keep)
  }

  /** Ids strictly increase along the list. */
  predicate IdsIncreasing(s: seq<LogEntry>) {
    forall i, j :: 0 <= i < j < |s| ==> s[i].id < s[j].id
  }

  /** A filter keeps the order of what it keeps. */
  lemma {:induction false} FilterKeepsOrder(s: seq<LogEntry>, keep: LogEntry -> bool)
    requires IdsIncreasing(s)
    ensures IdsIncreasing(Filter(s, keep))
  {
    if s != [] {
      assert IdsIncreasing(s[1..]);
      FilterKeepsOrder(s[1..], keep);
      var rest := Filter(s[1..], keep);
      forall x | x in rest ensures s[0].id < x.id {
        var k :| 0 <= k < |s[1..]| && s[1..][k] == x;
        assert s[k + 1] == x;
      }
    }
  }

  function View(e: LogEntry): LogView {
    LogView(e.message, e.logType, e.category)
  }

  function Views(s: seq<LogEntry>): (r: seq<LogView>)
    ensures |r| == |s| && forall i :: 0 <= i < |s| ==> r[i] == View(s[i])
  {
    seq(|s|, i requires 0 <= i < |s| => View(s[i]))
  }

  /** The entries a player's screen shows, in list order. */
  function ForPlayer(logs: seq<LogEntry>, playerId: int, role: string, humanPlayerId: int): seq<LogEntry> {
    Filter(logs, (e: LogEntry) => IsVisibleToPlayer(e, playerId, role, humanPlayerId))
  }

  /** `getUILogsForPlayer`: the views of the entries the player may see. */
  function UILogsForPlayer(logs: seq<LogEntry>, playerId: int, role: string, humanPlayerId: int): seq<LogView> {
    Views(ForPlayer(logs, playerId, role, humanPlayerId))
  }

  /** The player's screen shows exactly the entries visible to the player, in the order
      they were logged. */
  lemma UILogsRule(logs: seq<LogEntry>, playerId: int, role: string, humanPlayerId: int)
    requires IdsIncreasing(logs)
    ensures var f := ForPlayer(logs, playerId, role, humanPlayerId);
      (forall e :: e in f <==> e in logs && IsVisibleToPlayer(e, playerId, role, humanPlayerId)) &&
      IdsIncreasing(f)
  {
    FilterKeepsOrder(logs, (e: LogEntry) => IsVisibleToPlayer(e, playerId, role, humanPlayerId));
  }

  /** The comparison `a.id - b.id` of the AI getter's sort. */
  predicate ById(a: LogEntry, b: LogEntry) {
    a.id <= b.id
  }

  /** `getAILogsForRole`: the entries the role may see, sorted by id; the role-specific
      enhancement returns its input, so both settings of its flag agree. */
  function AILogsForRole(logs: seq<LogEntry>, role: string, includeRoleSpecificInfo: bool): seq<LogView> {
    var visible := SortBy(Filter(logs, (e: LogEntry) => IsVisibleToAI(e, role)), ById);
    Views(visible)
  }

  /** On a list logged in id order the sort changes nothing: the AI sees the entries the
      role may see, in the order they were logged. */
  lemma AILogsInLogOrder(logs: seq<LogEntry>, role: string, includeRoleSpecificInfo: bool)
    requires IdsIncreasing(logs)
    ensures AILogsForRole(logs, role, includeRoleSpecificInfo) == Views(Filter(logs, (e: LogEntry) => IsVisibleToAI(e, role)))
  {
    var f := Filter(logs, (e: LogEntry) => IsVisibleToAI(e, role));
    FilterKeepsOrder(logs, (e: LogEntry) => IsVisibleToAI(e, role));
    assert SortedBy(f, ById);
    SortByOfSorted(f, ById);
  }

  /** `getLogsByCategory`: the entries of the category, restricted to what the player may
      see when the player id, role and human id are all given. */
  function LogsByCategory(logs: seq<LogEntry>, category: string, playerId: Option<int>,
                          playerRole: Option<string>, humanPlayerId: Option<int>): seq<LogEntry>
  {
    var ofCategory := Filter(logs, (e: LogEntry) => e.category == category);
    if playerId.Some? && playerRole.Some? && humanPlayerId.Some? then
      Filter(ofCategory, (e: LogEntry) => IsVisibleToPlayer(e, playerId.value, playerRole.value, humanPlayerId.value))
    else ofCategory
  }

  /** Only entries of the category come back; the visibility filter applies exactly when
      all three player arguments are given. */
  lemma CategoryRule(logs: seq<LogEntry>, category: string, playerId: Option<int>,
                     playerRole: Option<string>, humanPlayerId: Option<int>)
    ensures var r := LogsByCategory(logs, category, playerId, playerRole, humanPlayerId);
      (forall e :: e in r ==> e in logs && e.category == category) &&
      (playerId.Some? && playerRole.Some? && humanPlayerId.Some? ==>
         forall e :: e in r <==>
           e in logs && e.category == category &&
           IsVisibleToPlayer(e, playerId.value, playerRole.value, humanPlayerId.value)) &&
      (playerId.None? || playerRole.None? || humanPlayerId.None? ==>
         forall e :: e in r <==> e in logs && e.category == category)
  {
  }

  // ---------------------------------------------------------------- night actions

  /** The message, roles and players of the PRIVATE entry `addNightActionLog` writes for
      an action type, or nothing for an unknown type. A wolf kill is told to the wolves
      only; the other actions to their role and the acting player. */
  function NightActionEntry(actionType: string, playerId: int, targetId: int, reason: string)
    : Option<(string, seq<string>, seq<int>)>
  {
    var t := IntToString(targetId);
    if actionType == "werewolf_kill" then Some(("你们攻击了玩家 " + t, [ROLES.werewolf], []))
    else if actionType == "guard_protect" then Some(("你守护了玩家 " + t, [ROLES.guard], [playerId]))
    else if actionType == "seer_check" then Some(("你查验了玩家 " + t + "，结果是：" + reason, [ROLES.seer], [playerId]))
    else if actionType == "witch_save" then Some(("你使用解药救了玩家 " + t, [ROLES.witch], [playerId]))
    else if actionType == "witch_poison" then Some(("你使用毒药毒了玩家 " + t, [ROLES.witch], [playerId]))
    else None
  }

  /** The role each known night action belongs to. */
  function NightActionRole(actionType: string): Option<string> {
    if actionType == "werewolf_kill" then Some(ROLES.werewolf)
    else if actionType == "guard_protect" then Some(ROLES.guard)
    else if actionType == "seer_check" then Some(ROLES.seer)
    else if actionType in ["witch_save", "witch_poison"] then Some(ROLES.witch)
    else None
  }

  /** A night action's entry is written exactly for the five known types. Shown as a
      PRIVATE entry, it reaches a player exactly when the player has the action's role or,
      for every action but the wolf kill, is the acting player; an AI prompt includes it
      exactly for the action's role. */
  lemma NightActionAudience(actionType: string, playerId: int, targetId: int, reason: string,
                            id: int, viewerId: int, viewerRole: string, humanPlayerId: int)
    ensures NightActionEntry(actionType, playerId, targetId, reason).Some? <==> NightActionRole(actionType).Some?
    ensures var n := NightActionEntry(actionType, playerId, targetId, reason);
      n.Some? ==>
        var e := LogEntry(id, n.value.0, "ai", NIGHT_ACTIONS, PRIVATE, n.value.1, n.value.2);
        var role := NightActionRole(actionType).value;
        (IsVisibleToPlayer(e, viewerId, viewerRole, humanPlayerId) <==>
           viewerRole == role || (actionType != "werewolf_kill" && viewerId == playerId)) &&
        (IsVisibleToAI(e, viewerRole) <==> viewerRole == role)
  {
  }

  // ---------------------------------------------------------------- the store

  /** The id of the entry `addLog` appends when the counter stands at `counter`. */
  function NextId(counter: int): int {
    counter + 1
  }

  class LogStore {
    var logs: seq<LogEntry>
    var logIdCounter: int

    /** The counter equals the number of entries, and the k-th entry has id k + 1. */
    predicate Valid()
      reads this
    {
      logIdCounter == |logs| && forall i :: 0 <= i < |logs| ==> logs[i].id == i + 1
    }

    constructor()
      ensures logs == [] && logIdCounter == 0 && Valid()
    {
      logs := [];
      logIdCounter := 0;
    }

    /** `addLog`: bumps the counter, appends one entry with the new count as its id and
        returns that id; ids thus run 1, 2, 3, ... in call order. */
    method AddLog(message: string, logType: string, category: string, visibility: string,
                  visibleToRoles: seq<string>, visibleToPlayers: seq<int>) returns (id: int)
      modifies this
      ensures id == NextId(old(logIdCounter)) && logIdCounter == id
      ensures logs == old(logs) + [LogEntry(id, message, logType, category, visibility, visibleToRoles, visibleToPlayers)]
      ensures old(Valid()) ==> Valid() && id == |logs|
    {
      logIdCounter := logIdCounter + 1;
      id := logIdCounter;
      logs := logs + [LogEntry(id, message, logType, category, visibility, visibleToRoles, visibleToPlayers)];
    }

    /** `addPublicLog`: a PUBLIC entry. */
    method AddPublicLog(message: string, logType: string, category: string) returns (id: int)
      modifies this
      ensures id == NextId(old(logIdCounter)) && logIdCounter == id
      ensures logs == old(logs) + [LogEntry(id, message, logType, category, PUBLIC, [], [])]
      ensures old(Valid()) ==> Valid()
    {
      id := AddLog(message, logType, category, PUBLIC, [], []);
    }

    /** `addPrivateLog`: a PRIVATE entry for the given roles and players. */
    method AddPrivateLog(message: string, visibleToRoles: seq<string>, visibleToPlayers: seq<int>,
                         logType: string, category: string) returns (id: int)
      modifies this
      ensures id == NextId(old(logIdCounter)) && logIdCounter == id
      ensures logs == old(logs) + [LogEntry(id, message, logType, category, PRIVATE, visibleToRoles, visibleToPlayers)]
      ensures old(Valid()) ==> Valid()
    {
      id := AddLog(message, logType, category, PRIVATE, visibleToRoles, visibleToPlayers);
    }

    /** `addSystemLog`: a SYSTEM entry. */
    method AddSystemLog(message: string, logType: string, category: string) returns (id: int)
      modifies this
      ensures id == NextId(old(logIdCounter)) && logIdCounter == id
      ensures logs == old(logs) + [LogEntry(id, message, logType, category, SYSTEM, [], [])]
      ensures old(Valid()) ==> Valid()
    {
      id := AddLog(message, logType, category, SYSTEM, [], []);
    }

    /** `addAIOnlyLog`: an AI_ONLY entry. */
    method AddAIOnlyLog(message: string, logType: string, category: string) returns (id: int)
      modifies this
      ensures id == NextId(old(logIdCounter)) && logIdCounter == id
      ensures logs == old(logs) + [LogEntry(id, message, logType, category, AI_ONLY, [], [])]
      ensures old(Valid()) ==> Valid()
    {
      id := AddLog(message, logType, category, AI_ONLY, [], []);
    }

    /** `addUIOnlyLog`: a UI_ONLY entry. */
    method AddUIOnlyLog(message: string, logType: string, category: string) returns (id: int)
      modifies this
      ensures id == NextId(old(logIdCounter)) && logIdCounter == id
      ensures logs == old(logs) + [LogEntry(id, message, logType, category, UI_ONLY, [], [])]
      ensures old(Valid()) ==> Valid()
    {
      id := AddLog(message, logType, category, UI_ONLY, [], []);
    }

    /** `addNightActionLog`: one PRIVATE night-action entry of type 'ai' for a known
        action type, nothing for an unknown one. */
    method AddNightActionLog(actionType: string, playerId: int, targetId: int, reason: string)
      modifies this
      ensures var n := NightActionEntry(actionType, playerId, targetId, reason);
        if n.Some? then
          logIdCounter == NextId(old(logIdCounter)) &&
          logs == old(logs) + [LogEntry(logIdCounter, n.value.0, "ai", NIGHT_ACTIONS, PRIVATE, n.value.1, n.value.2)]
        else logs == old(logs) && logIdCounter == old(logIdCounter)
      ensures old(Valid()) ==> Valid()
    {
      var n := NightActionEntry(actionType, playerId, targetId, reason);
      if n.Some? {
        var _ := AddPrivateLog(n.value.0, n.value.1, n.value.2, "ai", NIGHT_ACTIONS);
      }
    }

    /** `addDeathAnnouncement`: the public message alone, under DEATHS; the ids of the
        dead are not recorded. */
    method AddDeathAnnouncement(deadPlayerIds: seq<int>, publicMessage: string)
      modifies this
      ensures logIdCounter == NextId(old(logIdCounter))
      ensures logs == old(logs) + [LogEntry(logIdCounter, publicMessage, "system", DEATHS, PUBLIC, [], [])]
      ensures old(Valid()) ==> Valid()
    {
      var _ := AddPublicLog(publicMessage, "system", DEATHS);
    }

    /** `addVotingLog`: a public VOTING entry, typed 'ai' when a voter role is given (a
        non-empty string) and 'human' otherwise. */
    method AddVotingLog(voterId: int, targetId: int, voterRole: Option<string>)
      modifies this
      ensures logIdCounter == NextId(old(logIdCounter))
      ensures var ai := voterRole.Some? && voterRole.value != "";
        logs == old(logs) + [LogEntry(logIdCounter, VoteMessage(voterId, targetId, ai),
                                      if ai then "ai" else "human", VOTING, PUBLIC, [], [])]
      ensures old(Valid()) ==> Valid()
    {
      if voterRole.Some? && voterRole.value != "" {
        var _ := AddPublicLog(VoteMessage(voterId, targetId, true), "ai", VOTING);
      } else {
        var _ := AddPublicLog(VoteMessage(voterId, targetId, false), "human", VOTING);
      }
    }

    /** `addRoundSummary`: a public ROUND_SUMMARY entry headed by the round number. */
    method AddRoundSummary(roundNumber: int, summary: string)
      modifies this
      ensures logIdCounter == NextId(old(logIdCounter))
      ensures logs == old(logs) + [LogEntry(logIdCounter, "=== 第" + IntToString(roundNumber) + "轮总结 ===\n" + summary,
                                            "system", ROUND_SUMMARY, PUBLIC, [], [])]
      ensures old(Valid()) ==> Valid()
    {
      var _ := AddPublicLog("=== 第" + IntToString(roundNumber) + "轮总结 ===\n" + summary, "system", ROUND_SUMMARY);
    }

    /** `clearLogs`: no entries and the counter back at 0, so the next id is 1. */
    method ClearLogs()
      modifies this
      ensures logs == [] && logIdCounter == 0 && NextId(logIdCounter) == 1 && Valid()
    {
      logs := [];
      logIdCounter := 0;
    }

    function GetUILogsForPlayer(playerId: int, playerRole: string, humanPlayerId: int): seq<LogView>
      reads this
    {
      UILogsForPlayer(logs, playerId, playerRole, humanPlayerId)
    }

    function GetAILogsForRole(aiPlayerRole: string, includeRoleSpecificInfo: bool): seq<LogView>
      reads this
    {
      AILogsForRole(logs, aiPlayerRole, includeRoleSpecificInfo)
    }

    function GetLogsByCategory(category: string, playerId: Option<int>, playerRole: Option<string>,
                               humanPlayerId: Option<int>): seq<LogEntry>
      reads this
    {
      LogsByCategory(logs, category, playerId, playerRole, humanPlayerId)
    }
  }

  /** The text of a vote entry: the voter and the target for an AI, the target alone for
      the human. */
  function VoteMessage(voterId: int, targetId: int, ai: bool): string {
    if ai then "玩家 " + IntToString(voterId) + " 投票给玩家 " + IntToString(targetId)
    else "你投票给了玩家 " + IntToString(targetId)
  }

  /** A store whose invariant holds lists its entries in id order, so both getters keep
      the order of logging. */
  lemma ValidInIdOrder(logs: seq<LogEntry>, counter: int)
    requires counter == |logs| && forall i :: 0 <= i < |logs| ==> logs[i].id == i + 1
    ensures IdsIncreasing(logs)
  {
  }
}
