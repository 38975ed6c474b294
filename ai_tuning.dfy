// The AI tuning tool's own state and operations: the scenario list, the current and the
// edited scenario, saving the edited scenario into the list (replacing the one with the
// same id, or appending), and the default scenario the tool starts with.

module AITuning {
  import opened Wrappers
  import opened GameModel
  import opened JsonValues
  import ScenarioManager

  /** `scenarios.findIndex(s => s.id === id)` */
  function ScenarioIndex(scenarios: seq<Json>, id: Json): (k: int)
    ensures -1 <= k < |scenarios|
    ensures k >= 0 ==> Get(scenarios[k], "id") == id && forall j :: 0 <= j < k ==> Get(scenarios[j], "id") != id
    ensures k < 0 ==> forall j :: 0 <= j < |scenarios| ==> Get(scenarios[j], "id") != id
  {
    if scenarios == [] then -1
    else if Get(scenarios[0], "id") == id then 0
    else
      var k := ScenarioIndex(scenarios[1..], id);
      if k < 0 then -1 else k + 1
  }

  /** `{ ...editingScenario, id: editingScenario.id || Date.now() }` */
  function ToSave(editing: Json, now: int): Json {
    var id := Get(editing, "id");
    JObj(Spread(editing)["id" := if Truthy(id) then id else JNum(now)])
  }

  /** The list after saving `s`: it replaces the first scenario with its id, or is
      appended when there is none. */
  function Upsert(scenarios: seq<Json>, s: Json): seq<Json> {
    var k := ScenarioIndex(scenarios, Get(s, "id"));
    if k >= 0 then scenarios[k := s] else scenarios + [s]
  }

  /** Saving grows the list by at most one: the scenario with the same id is replaced
      where it stands and everything else is left alone, or the scenario is appended when
      no id matches; either way the saved scenario is in the list. */
  lemma UpsertRule(scenarios: seq<Json>, s: Json)
    ensures var r := Upsert(scenarios, s);
      s in r && |scenarios| <= |r| <= |scenarios| + 1
      && ((exists j :: 0 <= j < |scenarios| && Get(scenarios[j], "id") == Get(s, "id")) <==> |r| == |scenarios|)
      && (|r| == |scenarios| ==> exists k :: (0 <= k < |r| && r[k] == s && Get(scenarios[k], "id") == Get(s, "id")
            && forall j :: 0 <= j < |r| && j != k ==> r[j] == scenarios[j]))
      && (|r| == |scenarios| + 1 ==> r == scenarios + [s])
  {
    var k := ScenarioIndex(scenarios, Get(s, "id"));
    var r := Upsert(scenarios, s);
    if k >= 0 {
      assert r[k] == s;
    } else {
      assert r[|scenarios|] == s;
    }
  }

  /** Saving twice in a row changes nothing the second time. */
  lemma UpsertIdempotent(scenarios: seq<Json>, s: Json)
    ensures Upsert(Upsert(scenarios, s), s) == Upsert(scenarios, s)
  {
    var k := ScenarioIndex(scenarios, Get(s, "id"));
    var r := Upsert(scenarios, s);
    if k >= 0 {
      assert r[k] == s;
      var k2 := ScenarioIndex(r, Get(s, "id"));
      assert forall j :: 0 <= j < k ==> r[j] == scenarios[j];
      assert k2 == k;
    } else {
      assert r[|scenarios|] == s;
      var k2 := ScenarioIndex(r, Get(s, "id"));
      assert forall j :: 0 <= j < |scenarios| ==> r[j] == scenarios[j];
      assert k2 == |scenarios|;
    }
  }

  /** The saved copy keeps the edited scenario's truthy id and otherwise takes `now`;
      every other field is the edited one's. */
  lemma ToSaveRule(editing: Json, now: int)
    requires editing.JObj?
    ensures Get(ToSave(editing, now), "id") == if Truthy(Get(editing, "id")) then Get(editing, "id") else JNum(now)
    ensures forall k :: k != "id" ==> Get(ToSave(editing, now), k) == Get(editing, k)
  {
  }

  // The default scenario.

  const DEFAULT_NAME := "默认测试场景"
  const DEFAULT_DESCRIPTION := "一个基础的测试场景"
  const DISCUSSION := "DISCUSSION"

  /** The role of the player at index i of the default scenario. */
  function DefaultRole(i: int): string {
    if i < 2 then ROLES.werewolf
    else if i == 2 then ROLES.seer
    else if i == 3 then ROLES.witch
    else if i == 4 then ROLES.hunter
    else if i == 5 then ROLES.guard
    else ROLES.villager
  }

  /** The player at index i: ids start at 1, the witch is dead with that role revealed,
      the second player is the human. */
  function DefaultPlayer(i: int): Json {
    JObj(map[
      "id" := JNum(i + 1),
      "role" := JStr(DefaultRole(i)),
      "isAlive" := JBool(i != 3),
      "isHuman" := JBool(i == 1),
      "revealedRole" := if i == 3 then JStr(ROLES.witch) else JNull,
      "votes" := JNum(0),
      "isProtected" := JBool(false),
      "isTargetedByWolf" := JBool(false),
      "isHealedByWitch" := JBool(false)])
  }

  function Entry(timestamp: string, entryType: string, text: string, category: string): Json {
    JObj(map["timestamp" := JStr(timestamp), "type" := JStr(entryType), "text" := JStr(text), "category" := JStr(category)])
  }

  const DEFAULT_HISTORY: seq<Json> := [
    Entry("10:00:00", "system", "第1轮夜晚，狼人攻击了玩家2", "NIGHT_ACTIONS"),
    Entry("10:00:30", "system", "女巫使用解药救了玩家2", "NIGHT_ACTIONS"),
    Entry("10:01:00", "system", "第1轮白天，没有玩家死亡", "GAME_FLOW"),
    Entry("10:02:00", "ai", "我觉得玩家5很可疑，他昨晚的发言有问题", "DISCUSSION"),
    Entry("10:03:00", "human", "玩家6昨天投票行为很奇怪", "DISCUSSION"),
    Entry("10:04:00", "system", "投票结果：玩家8被淘汰，身份是平民", "VOTING"),
    Entry("10:05:00", "system", "第2轮夜晚，狼人攻击了玩家4", "NIGHT_ACTIONS"),
    Entry("10:05:30", "system", "玩家4（女巫）死亡", "DEATHS"),
    Entry("10:06:00", "system", "第3轮白天开始", "GAME_FLOW")
  ]

  const DEFAULT_SPECIAL_STATES: Json := JObj(map[
    "witchPotions" := JObj(map["antidote" := JBool(false), "poison" := JBool(true)]),
    "guardLastProtectedId" := JNum(2),
    "seerLastCheck" := JObj(map["targetId" := JNum(5), "targetRole" := JStr(ROLES.villager)]),
    "werewolfTargetId" := JNull,
    "playerToPoisonId" := JNull,
    "hunterTargetId" := JNull])

  function Target(playerId: int, role: string, action: string): Json {
    JObj(map["playerId" := JNum(playerId), "role" := JStr(role), "action" := JStr(action)])
  }

  const DEFAULT_TARGETS: seq<Json> := [
    Target(1, ROLES.werewolf, "DISCUSSION_STATEMENT"),
    Target(2, ROLES.seer, "DISCUSSION_STATEMENT"),
    Target(5, ROLES.guard, "VOTE_PLAYER")
  ]

  /** `Array.from({ length: PLAYER_COUNT }, …)` */
  function DefaultPlayers(): (ps: seq<Json>)
    ensures |ps| == PLAYER_COUNT && forall i :: 0 <= i < |ps| ==> ps[i] == DefaultPlayer(i)
  {
    seq(PLAYER_COUNT, i => DefaultPlayer(i))
  }

  function DefaultGameState(): Json {
    JObj(map[
      "round" := JNum(3),
      "phase" := JStr(DISCUSSION),
      "players" := JArr(DefaultPlayers()),
      "gameHistory" := JArr(DEFAULT_HISTORY),
      "specialStates" := DEFAULT_SPECIAL_STATES])
  }

  /** `createDefaultScenario()`, with `now` for `Date.now()`. */
  function DefaultScenario(now: int): Json {
    JObj(map[
      "id" := JNum(now),
      "name" := JStr(DEFAULT_NAME),
      "description" := JStr(DEFAULT_DESCRIPTION),
      "gameState" := DefaultGameState(),
      "testTargets" := JArr(DEFAULT_TARGETS)])
  }

  lemma DefaultFields(now: int)
    ensures Get(DefaultScenario(now), "gameState") == DefaultGameState()
    ensures Get(DefaultScenario(now), "name") == JStr(DEFAULT_NAME)
    ensures Get(DefaultScenario(now), "testTargets") == JArr(DEFAULT_TARGETS)
    ensures Get(DefaultGameState(), "players") == JArr(DefaultPlayers())
    ensures Get(DefaultGameState(), "gameHistory") == JArr(DEFAULT_HISTORY)
  {
  }

  /** The default scenario passes `validateScenario`. */
  lemma DefaultIsValid(now: int)
    ensures ScenarioManager.ValidScenario(DefaultScenario(now))
  {
    DefaultFields(now);
    ScenarioManager.ValidShape(DefaultScenario(now));
  }

  lemma PlayerId(i: int)
    ensures Get(DefaultPlayer(i), "id") == JNum(i + 1)
  {
  }

  lemma PlayerRole(i: int)
    ensures Get(DefaultPlayer(i), "role") == JStr(DefaultRole(i))
  {
  }

  lemma PlayerFlags(i: int)
    ensures Get(DefaultPlayer(i), "isAlive") == JBool(i != 3)
    ensures Get(DefaultPlayer(i), "isHuman") == JBool(i == 1)
  {
  }

  lemma PlayerRevealed(i: int)
    ensures Get(DefaultPlayer(i), "revealedRole") == if i == 3 then JStr(ROLES.witch) else JNull
  {
  }

  /** The default players: eight of them with ids 1 to 8; player 4 alone is dead, with
      the witch role revealed; player 2 alone is human. */
  lemma DefaultPlayerFlags()
    ensures |DefaultPlayers()| == 8
    ensures forall i :: 0 <= i < 8 ==> Get(DefaultPlayers()[i], "id") == JNum(i + 1)
    ensures forall i :: 0 <= i < 8 ==> (Truthy(Get(DefaultPlayers()[i], "isAlive")) <==> Get(DefaultPlayers()[i], "id") != JNum(4))
    ensures forall i :: 0 <= i < 8 ==> (Truthy(Get(DefaultPlayers()[i], "isHuman")) <==> Get(DefaultPlayers()[i], "id") == JNum(2))
    ensures Get(DefaultPlayers()[3], "revealedRole") == JStr(ROLES.witch)
  {
    forall i | 0 <= i < 8
      ensures Get(DefaultPlayers()[i], "id") == JNum(i + 1)
      ensures Truthy(Get(DefaultPlayers()[i], "isAlive")) <==> i != 3
      ensures Truthy(Get(DefaultPlayers()[i], "isHuman")) <==> i == 1
    {
      PlayerId(i);
      PlayerFlags(i);
    }
    PlayerRevealed(3);
  }

  /** Players 1 and 2 are werewolves, 3 the seer, 4 the witch, 5 the hunter, 6 the
      guard, 7 and 8 villagers. */
  lemma DefaultPlayerRoles()
    ensures Get(DefaultPlayers()[0], "role") == JStr(ROLES.werewolf) && Get(DefaultPlayers()[1], "role") == JStr(ROLES.werewolf)
    ensures Get(DefaultPlayers()[2], "role") == JStr(ROLES.seer) && Get(DefaultPlayers()[3], "role") == JStr(ROLES.witch)
    ensures Get(DefaultPlayers()[4], "role") == JStr(ROLES.hunter) && Get(DefaultPlayers()[5], "role") == JStr(ROLES.guard)
    ensures Get(DefaultPlayers()[6], "role") == JStr(ROLES.villager) && Get(DefaultPlayers()[7], "role") == JStr(ROLES.villager)
  {
    PlayerRole(0); PlayerRole(1); PlayerRole(2); PlayerRole(3);
    PlayerRole(4); PlayerRole(5); PlayerRole(6); PlayerRole(7);
  }

  lemma TargetFields(playerId: int, role: string, action: string)
    ensures Get(Target(playerId, role, action), "playerId") == JNum(playerId)
    ensures Get(Target(playerId, role, action), "role") == JStr(role)
  {
  }

  /** Two of the default test targets record a role the targeted player does not have:
      player 2 is listed as the seer but is a werewolf, player 5 as the guard but is the
      hunter. Player 1's entry is right. */
  lemma DefaultTargetRoles()
    ensures Get(DEFAULT_TARGETS[0], "playerId") == Get(DefaultPlayers()[0], "id")
    ensures Get(DEFAULT_TARGETS[0], "role") == Get(DefaultPlayers()[0], "role")
    ensures Get(DEFAULT_TARGETS[1], "playerId") == Get(DefaultPlayers()[1], "id")
    ensures Get(DEFAULT_TARGETS[1], "role") != Get(DefaultPlayers()[1], "role")
    ensures Get(DEFAULT_TARGETS[2], "playerId") == Get(DefaultPlayers()[4], "id")
    ensures Get(DEFAULT_TARGETS[2], "role") != Get(DefaultPlayers()[4], "role")
  {
    TargetFields(1, ROLES.werewolf, "DISCUSSION_STATEMENT");
    TargetFields(2, ROLES.seer, "DISCUSSION_STATEMENT");
    TargetFields(5, ROLES.guard, "VOTE_PLAYER");
    PlayerId(0); PlayerId(1); PlayerId(4);
    PlayerRole(0); PlayerRole(1); PlayerRole(4);
    assert ROLES.seer[0] != ROLES.werewolf[0];
    assert ROLES.guard[0] != ROLES.hunter[0];
  }

  /** The tool's scenario state. */
  class TuningTool {
    var scenarios: seq<Json>
    var currentScenario: Json
    var editingScenario: Json

    /** The empty list, and the default scenario as both the current and the edited one
        once the start-up effect has run. */
    constructor(now: int)
      ensures scenarios == [] && currentScenario == DefaultScenario(now) && editingScenario == DefaultScenario(now)
    {
      scenarios := [];
      currentScenario := DefaultScenario(now);
      editingScenario := DefaultScenario(now);
    }

    /** `saveCurrentScenario`: nothing without an edited scenario; otherwise the saved
        copy is written into the list and becomes the current scenario. */
    method SaveCurrentScenario(now: int)
      modifies this
      ensures !Truthy(old(editingScenario)) ==>
        scenarios == old(scenarios) && currentScenario == old(currentScenario)
      ensures Truthy(old(editingScenario)) ==>
        scenarios == Upsert(old(scenarios), ToSave(old(editingScenario), now))
        && currentScenario == ToSave(old(editingScenario), now)
      ensures editingScenario == old(editingScenario)
    {
      if Truthy(editingScenario) {
        var toSave := ToSave(editingScenario, now);
        var existingIndex := ScenarioIndex(scenarios, Get(toSave, "id"));
        if existingIndex >= 0 {
          var updated := scenarios;
          updated := updated[existingIndex := toSave];
          scenarios := updated;
        } else {
          scenarios := scenarios + [toSave];
        }
        currentScenario := toSave;
      }
    }
  }
}
