// Shared game data: role names, phases, the player record and the lookups that the
// game logic performs on the player list (findIndex, find, filter by liveness).

module GameModel {
  import opened Wrappers

  /** The six role strings of one edition of the game. The hook-based app uses the
      English keys; the legacy single-file app uses Chinese names. */
  datatype RoleNames = RoleNames(
    werewolf: string, seer: string, witch: string,
    hunter: string, guard: string, villager: string)

  const ROLES := RoleNames("WEREWOLF", "SEER", "WITCH", "HUNTER", "GUARD", "VILLAGER")

  const LEGACY_ROLES := RoleNames(
    "\U{72FC}\U{4EBA}",             // werewolf
    "\U{9884}\U{8A00}\U{5BB6}",     // seer
    "\U{5973}\U{5DEB}",             // witch
    "\U{730E}\U{4EBA}",             // hunter
    "\U{5B88}\U{536B}",             // guard
    "\U{5E73}\U{6C11}")             // villager

  const PLAYER_COUNT := 8

  /** Two werewolves, one of each special role, two villagers. */
  function Distribution(n: RoleNames): (d: seq<string>)
    ensures |d| == PLAYER_COUNT
  {
    [n.werewolf, n.werewolf, n.seer, n.witch, n.hunter, n.guard, n.villager, n.villager]
  }

  datatype Phase =
    | Setup | ShowRoleModal | NightStart | WerewolvesAct | GuardActs | SeerActs
    | WitchActsSave | WitchActsPoison | NightResolution | DayStart | HunterMayAct
    | Discussion | Voting | VoteResults | GameOver

  /** A player record. Display name, AI system prompt and the unused vote counter
      are presentational and not modelled. */
  datatype Player = Player(
    id: int,
    role: string,
    isHuman: bool,
    isAlive: bool,
    isProtected: bool,
    isTargetedByWolf: bool,
    isHealedByWitch: bool,
    revealedRole: Option<string>)

  /** The initial record every new player is spread from, with its id, role and
      human flag filled in. */
  function NewPlayer(id: int, role: string, isHuman: bool): Player {
    Player(id, role, isHuman, true, false, false, false, None)
  }

  datatype Winner = Draw | Villagers | Werewolves

  datatype WinResult = WinResult(gameOver: bool, winner: Option<Winner>)

  /** What the seer learnt last night. */
  datatype SeerCheck = SeerCheck(targetId: int, targetRole: string)

  /** Ids are pairwise distinct. */
  predicate UniqueIds(ps: seq<Player>) {
    forall i, j :: 0 <= i < j < |ps| ==> ps[i].id != ps[j].id
  }

  predicate HasId(ps: seq<Player>, id: int) {
    exists i | 0 <= i < |ps| :: ps[i].id == id
  }

  /** `players.findIndex(p => p.id === id)`: the first index holding `id`, or -1. */
  function IndexOfId(ps: seq<Player>, id: int): (k: int)
    ensures -1 <= k < |ps|
    ensures k == -1 <==> !HasId(ps, id)
    ensures k >= 0 ==> ps[k].id == id && forall i :: 0 <= i < k ==> ps[i].id != id
  {
    if |ps| == 0 then -1
    else if ps[0].id == id then 0
    else
      var k := IndexOfId(ps[1..], id);
      assert HasId(ps, id) ==> HasId(ps[1..], id) by {
        if HasId(ps, id) {
          var i :| 0 <= i < |ps| && ps[i].id == id;
          assert ps[1..][i - 1].id == id;
        }
      }
      if k == -1 then -1 else k + 1
  }

  /** `players.find(p => p.id === id)`. */
  function FindById(ps: seq<Player>, id: int): (r: Option<Player>)
    ensures r.None? <==> !HasId(ps, id)
    ensures r.Some? ==> r.value.id == id && r.value in ps
    ensures r.Some? ==>
      exists k :: 0 <= k < |ps| && ps[k] == r.value &&
        forall i :: 0 <= i < k ==> ps[i].id != id
  {
    var k := IndexOfId(ps, id);
    if k == -1 then None else Some(ps[k])
  }

  /** `players.find(p => p.id === id)?.isAlive` read as a boolean. */
  predicate IsAliveId(ps: seq<Player>, id: int) {
    var r := FindById(ps, id);
    r.Some? && r.value.isAlive
  }

  /** With unique ids, the record found for an id is the one at any index holding it. */
  lemma FindUnique(ps: seq<Player>, i: int)
    requires UniqueIds(ps) && 0 <= i < |ps|
    ensures IndexOfId(ps, ps[i].id) == i
    ensures FindById(ps, ps[i].id) == Some(ps[i])
  {
  }

  /** `players.filter(p => p.isAlive)`. */
  function AlivePlayers(ps: seq<Player>): (r: seq<Player>)
    ensures |r| <= |ps|
    ensures forall p :: p in r <==> p in ps && p.isAlive
  {
    if |ps| == 0 then []
    else if ps[0].isAlive then [ps[0]] + AlivePlayers(ps[1..])
    else AlivePlayers(ps[1..])
  }

  /** The filter distributes over concatenation, so the alive records keep their list order. */
  lemma {:induction false} AlivePlayersAppend(a: seq<Player>, b: seq<Player>)
    ensures AlivePlayers(a + b) == AlivePlayers(a) + AlivePlayers(b)
  {
    if a == [] {
      assert a + b == b;
    } else {
      assert (a + b)[1..] == a[1..] + b;
      AlivePlayersAppend(a[1..], b);
    }
  }

  /** `players.filter(p => p.role === role)`. */
  function WithRole(ps: seq<Player>, role: string): (r: seq<Player>)
    ensures |r| <= |ps|
    ensures forall p :: p in r <==> p in ps && p.role == role
  {
    if |ps| == 0 then []
    else if ps[0].role == role then [ps[0]] + WithRole(ps[1..], role)
    else WithRole(ps[1..], role)
  }

  /** `players.filter(p => p.role !== role)`. */
  function WithoutRole(ps: seq<Player>, role: string): (r: seq<Player>)
    ensures |r| <= |ps|
    ensures forall p :: p in r <==> p in ps && p.role != role
  {
    if |ps| == 0 then []
    else if ps[0].role != role then [ps[0]] + WithoutRole(ps[1..], role)
    else WithoutRole(ps[1..], role)
  }

  /** Filtering by a role and by its complement splits a list in two. */
  lemma {:induction false} RolePartition(ps: seq<Player>, role: string)
    ensures |WithRole(ps, role)| + |WithoutRole(ps, role)| == |ps|
  {
    if |ps| > 0 {
      RolePartition(ps[1..], role);
    }
  }

  /** `players.find(p => p.isHuman)`. */
  function Human(ps: seq<Player>): (r: Option<Player>)
    ensures r.Some? ==> r.value in ps && r.value.isHuman
    ensures r.None? <==> forall p :: p in ps ==> !p.isHuman
    ensures r.Some? ==>
      exists k :: 0 <= k < |ps| && ps[k] == r.value &&
        forall i :: 0 <= i < k ==> !ps[i].isHuman
  {
    if |ps| == 0 then None
    else if ps[0].isHuman then Some(ps[0])
    else Human(ps[1..])
  }

  /** The index of the first alive player, or -1 (`findIndex(p => p.isAlive)`). */
  function FirstAliveIndex(ps: seq<Player>): (k: int)
    ensures -1 <= k < |ps|
    ensures k == -1 <==> forall p :: p in ps ==> !p.isAlive
    ensures k >= 0 ==> ps[k].isAlive && forall i :: 0 <= i < k ==> !ps[i].isAlive
  {
    if |ps| == 0 then -1
    else if ps[0].isAlive then 0
    else
      var k := FirstAliveIndex(ps[1..]);
      if k == -1 then -1 else k + 1
  }

  /** The id of the first alive player (`find(p => p.isAlive)?.id`). */
  function FirstAliveId(ps: seq<Player>): (r: Option<int>)
    ensures r.None? <==> forall p :: p in ps ==> !p.isAlive
    ensures r.Some? ==> exists p :: p in ps && p.isAlive && p.id == r.value
    ensures r.Some? ==>
      exists k :: 0 <= k < |ps| && ps[k].isAlive && ps[k].id == r.value &&
        forall i :: 0 <= i < k ==> !ps[i].isAlive
  {
    var k := FirstAliveIndex(ps);
    if k == -1 then None else Some(ps[k].id)
  }
}
