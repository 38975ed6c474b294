// The scenario composer of the tuning tool: spread updates of the edited scenario and
// of its game state, replacing a player by id, adding and removing history entries, and
// adding, editing and removing test targets.

module ScenarioComposer {
  import opened Wrappers
  import opened JsStrings
  import opened JsonValues

  /** `updateScenarioField(field, value)`: `{...prev, [field]: value}` */
  function UpdateScenarioField(prev: Json, field: string, value: Json): Json {
    JObj(Spread(prev)[field := value])
  }

  /** `updateGameStateField(field, value)`: the same one level down, in `gameState`. */
  function UpdateGameStateField(prev: Json, field: string, value: Json): Json {
    JObj(Spread(prev)["gameState" := JObj(Spread(Get(prev, "gameState"))[field := value])])
  }

  /** Both updates set exactly one field and keep every other one. */
  lemma FieldUpdates(prev: Json, field: string, value: Json)
    requires prev.JObj? && Get(prev, "gameState").JObj?
    ensures Get(UpdateScenarioField(prev, field, value), field) == value
    ensures forall k :: k != field ==> Get(UpdateScenarioField(prev, field, value), k) == Get(prev, k)
    ensures var next := UpdateGameStateField(prev, field, value);
      Get(Get(next, "gameState"), field) == value
      && (forall k :: k != field ==> Get(Get(next, "gameState"), k) == Get(Get(prev, "gameState"), k))
      && (forall k :: k != "gameState" ==> Get(next, k) == Get(prev, k))
  {
    SpreadSet(prev, field, value);
    SpreadSet(Get(prev, "gameState"), field, value);
  }

  /** `players.map(p => p.id === updated.id ? updated : p)` */
  function ReplaceById(players: seq<Json>, updated: Json): (r: seq<Json>)
    ensures |r| == |players|
    ensures forall i :: 0 <= i < |r| ==>
      r[i] == if Get(players[i], "id") == Get(updated, "id") then updated else players[i]
  {
    if players == [] then []
    else
      var first := if Get(players[0], "id") == Get(updated, "id") then updated else players[0];
      [first] + ReplaceById(players[1..], updated)
  }

  /** `updatePlayer(updated)`; `None` is a throw when the players are not an array. */
  function UpdatePlayer(prev: Json, updated: Json): Option<Json> {
    var gs := Get(prev, "gameState");
    var players := Get(gs, "players");
    if !players.JArr? then None
    else Some(UpdateGameStateField(prev, "players", JArr(ReplaceById(players.items, updated))))
  }

  /** The player list keeps its length; the entries with the updated player's id become
      it, every other entry and every other field stays. */
  lemma UpdatePlayerRule(prev: Json, updated: Json)
    requires prev.JObj? && Get(prev, "gameState").JObj? && Get(Get(prev, "gameState"), "players").JArr?
    ensures UpdatePlayer(prev, updated).Some?
    ensures var next := UpdatePlayer(prev, updated).value;
      var before := Get(Get(prev, "gameState"), "players").items;
      var after := Get(Get(next, "gameState"), "players");
      after.JArr? && |after.items| == |before|
      && (forall i :: 0 <= i < |before| && Get(before[i], "id") == Get(updated, "id") ==> after.items[i] == updated)
      && (forall i :: 0 <= i < |before| && Get(before[i], "id") != Get(updated, "id") ==> after.items[i] == before[i])
      && (forall k :: k != "players" ==> Get(Get(next, "gameState"), k) == Get(Get(prev, "gameState"), k))
      && (forall k :: k != "gameState" ==> Get(next, k) == Get(prev, k))
  {
    var players := Get(Get(prev, "gameState"), "players").items;
    FieldUpdates(prev, "players", JArr(ReplaceById(players, updated)));
  }

  /** The history-entry draft of the editor. */
  datatype Draft = Draft(timestamp: string, entryType: string, text: string, category: string)

  const GAME_FLOW := "GAME_FLOW"

  /** The reset draft, stamped with `clock` for the current time. */
  function EmptyDraft(clock: string): Draft {
    Draft(clock, "system", "", GAME_FLOW)
  }

  function DraftValue(d: Draft): Json {
    JObj(map["timestamp" := JStr(d.timestamp), "type" := JStr(d.entryType),
             "text" := JStr(d.text), "category" := JStr(d.category)])
  }

  lemma DraftText(d: Draft)
    ensures Get(DraftValue(d), "text") == JStr(d.text)
  {
  }

  /** `addHistoryEntry`: the new history and the draft afterwards, or `None` when the
      button does nothing. */
  function AddHistoryEntry(history: seq<Json>, draft: Draft, clock: string): Option<(seq<Json>, Draft)> {
    if Trim(draft.text) != "" then Some((history + [DraftValue(draft)], EmptyDraft(clock)))
    else None
  }

  /** An entry is added exactly when its text is not blank after trimming, and then the
      draft starts over empty. */
  lemma AddHistoryRule(history: seq<Json>, draft: Draft, clock: string)
    ensures AddHistoryEntry(history, draft, clock).Some? <==> !IsBlank(draft.text)
    ensures AddHistoryEntry(history, draft, clock).Some? ==>
      var (h, d) := AddHistoryEntry(history, draft, clock).value;
      h[..|history|] == history && |h| == |history| + 1 && Get(h[|history|], "text") == JStr(draft.text)
      && d.text == "" && d.entryType == "system" && d.category == GAME_FLOW
  {
    if AddHistoryEntry(history, draft, clock).Some? {
      DraftText(draft);
      var h := history + [DraftValue(draft)];
      assert h[..|history|] == history;
    }
  }

  /** `copy.splice(index, 1)`: a negative index counts from the end; an index past the
      end removes nothing. */
  function SpliceOne<T>(s: seq<T>, index: int): seq<T> {
    var start := if index < 0 then (if |s| + index < 0 then 0 else |s| + index)
                 else (if index > |s| then |s| else index);
    if start < |s| then s[..start] + s[start + 1..] else s
  }

  /** `removeHistoryEntry` and `removeTarget` drop exactly the element at an index of the
      list, and nothing at an index past its end. */
  lemma SpliceRule<T>(s: seq<T>, index: int)
    ensures 0 <= index < |s| ==>
      |SpliceOne(s, index)| == |s| - 1
      && (forall i :: 0 <= i < index ==> SpliceOne(s, index)[i] == s[i])
      && (forall i :: index <= i < |s| - 1 ==> SpliceOne(s, index)[i] == s[i + 1])
    ensures index >= |s| ==> SpliceOne(s, index) == s
  {
  }

  const DISCUSSION_STATEMENT := "DISCUSSION_STATEMENT"

  /** `targets.find(t => t.playerId === id)` finds something. */
  predicate Targeted(targets: seq<Json>, id: Json) {
    exists t :: t in targets && Get(t, "playerId") == id
  }

  /** The players `addTestTarget` may pick: alive and not yet targeted. */
  function Available(players: seq<Json>, targets: seq<Json>): (r: seq<Json>)
    ensures |r| <= |players|
    ensures forall p :: p in r <==> p in players && Truthy(Get(p, "isAlive")) && !Targeted(targets, Get(p, "id"))
  {
    if players == [] then []
    else
      (if Truthy(Get(players[0], "isAlive")) && !Targeted(targets, Get(players[0], "id")) then [players[0]] else [])
      + Available(players[1..], targets)
  }

  function NewTarget(p: Json): Json {
    JObj(map["playerId" := Get(p, "id"), "role" := Get(p, "role"), "action" := JStr(DISCUSSION_STATEMENT)])
  }

  /** `addTestTarget` */
  function AddTestTarget(targets: seq<Json>, players: seq<Json>): seq<Json> {
    var available := Available(players, targets);
    if |available| > 0 then targets + [NewTarget(available[0])] else targets
  }

  /** The first available player is the first alive player, in list order, that no
      target names. */
  lemma {:induction false} FirstAvailable(players: seq<Json>, targets: seq<Json>)
    requires |Available(players, targets)| > 0
    ensures exists k :: (0 <= k < |players| && players[k] == Available(players, targets)[0]
      && Truthy(Get(players[k], "isAlive")) && !Targeted(targets, Get(players[k], "id"))
      && forall j :: 0 <= j < k ==> !Truthy(Get(players[j], "isAlive")) || Targeted(targets, Get(players[j], "id")))
  {
    var p := players[0];
    if !(Truthy(Get(p, "isAlive")) && !Targeted(targets, Get(p, "id"))) {
      FirstAvailable(players[1..], targets);
      var k :| 0 <= k < |players[1..]| && players[1..][k] == Available(players[1..], targets)[0]
        && Truthy(Get(players[1..][k], "isAlive")) && !Targeted(targets, Get(players[1..][k], "id"))
        && forall j :: 0 <= j < k ==> !Truthy(Get(players[1..][j], "isAlive")) || Targeted(targets, Get(players[1..][j], "id"));
      assert players[k + 1] == players[1..][k];
      forall j | 0 <= j < k + 1
        ensures !Truthy(Get(players[j], "isAlive")) || Targeted(targets, Get(players[j], "id"))
      {
        if j > 0 {
          assert players[j] == players[1..][j - 1];
        }
      }
    }
  }

  /** Adding a target appends one for an alive, untargeted player, with that player's
      role and a discussion action; when every alive player is targeted already the list
      is unchanged. */
  lemma AddTargetRule(targets: seq<Json>, players: seq<Json>)
    ensures (exists p :: p in players && Truthy(Get(p, "isAlive")) && !Targeted(targets, Get(p, "id"))) ==>
      exists p :: p in players && Truthy(Get(p, "isAlive")) && !Targeted(targets, Get(p, "id"))
        && AddTestTarget(targets, players) == targets + [NewTarget(p)]
    ensures (forall p :: p in players ==> !Truthy(Get(p, "isAlive")) || Targeted(targets, Get(p, "id"))) ==>
      AddTestTarget(targets, players) == targets
  {
    var available := Available(players, targets);
    if |available| > 0 {
      assert available[0] in available;
    }
    if exists p :: p in players && Truthy(Get(p, "isAlive")) && !Targeted(targets, Get(p, "id")) {
      var p :| p in players && Truthy(Get(p, "isAlive")) && !Targeted(targets, Get(p, "id"));
      assert p in available;
    }
  }

  /** `players.find(p => p.id === parseInt(value))` */
  function FindPlayer(players: seq<Json>, value: Json): (r: Option<Json>)
    ensures r.Some? ==> r.value in players && ParseIntOf(value).Some? && Get(r.value, "id") == JNum(ParseIntOf(value).value)
    ensures r.None? ==> ParseIntOf(value).None? || forall p :: p in players ==> Get(p, "id") != JNum(ParseIntOf(value).value)
  {
    var n := ParseIntOf(value);
    if n.None? || players == [] then None
    else if Get(players[0], "id") == JNum(n.value) then Some(players[0])
    else FindPlayer(players[1..], value)
  }

  /** The role an update copies: that of the player a new player id names, if any. */
  function CopiedRole(players: seq<Json>, field: string, value: Json): (r: Option<Json>)
    ensures r.Some? <==> field == "playerId" && FindPlayer(players, value).Some?
    ensures r.Some? ==> r.value == Get(FindPlayer(players, value).value, "role")
  {
    var player := if field == "playerId" then FindPlayer(players, value) else None;
    if player.Some? then Some(Get(player.value, "role")) else None
  }

  /** The fields of an updated target: the field is set and a copied role, if any, is
      written over the role. */
  function Retarget(fields: map<string, Json>, field: string, value: Json, role: Option<Json>): map<string, Json> {
    var changed := fields[field := value];
    if role.Some? then changed["role" := role.value] else changed
  }

  /** `updateTarget(index, field, value)` at an index of the list. */
  function UpdateTarget(targets: seq<Json>, players: seq<Json>, index: nat, field: string, value: Json): (r: seq<Json>)
    requires index < |targets|
    ensures |r| == |targets|
  {
    targets[index := JObj(Retarget(Spread(targets[index]), field, value, CopiedRole(players, field, value)))]
  }

  /** The new fields: every field other than the role is kept, the field holds the
      value unless it is the role and a role was copied, and the role is the copied
      one, else the value when the field is the role, else kept. */
  lemma RetargetRule(fields: map<string, Json>, field: string, value: Json, role: Option<Json>)
    ensures var m := Retarget(fields, field, value, role);
      field in m
      && (field != "role" || role.None? ==> m[field] == value)
      && (forall k :: k != field && k != "role" ==> (k in m <==> k in fields))
      && (forall k :: k != field && k != "role" && k in fields ==> m[k] == fields[k])
      && (role.Some? ==> m["role"] == role.value)
      && (role.None? && field != "role" ==>
            ("role" in m <==> "role" in fields) && ("role" in fields ==> m["role"] == fields["role"]))
  {
  }

  /** Updating a target sets one field of that target alone; a new player id also takes
      the role of the player with that id, when there is one. */
  lemma UpdateTargetRule(targets: seq<Json>, players: seq<Json>, index: nat, field: string, value: Json)
    requires index < |targets| && targets[index].JObj?
    ensures var r := UpdateTarget(targets, players, index, field, value);
      (forall i :: 0 <= i < |targets| && i != index ==> r[i] == targets[i])
      && (field != "role" ==> Get(r[index], field) == value)
      && (forall k :: k != field && k != "role" ==> Get(r[index], k) == Get(targets[index], k))
      && (field == "playerId" && FindPlayer(players, value).Some? ==>
            Get(r[index], "role") == Get(FindPlayer(players, value).value, "role"))
      && (field != "role" && (field != "playerId" || FindPlayer(players, value).None?) ==>
            Get(r[index], "role") == Get(targets[index], "role"))
      && (field == "role" ==> Get(r[index], "role") == value)
  {
    var fields := targets[index].fields;
    var role := CopiedRole(players, field, value);
    RetargetRule(fields, field, value, role);
    if role.Some? {
      assert field != "role" by { assert field[0] != "role"[0]; }
    }
    assert UpdateTarget(targets, players, index, field, value)[index] == JObj(Retarget(fields, field, value, role));
  }
}
