// The game state kept by the hook-based app and the rule operations on it: the win
// check with its wrapper, night resolution, the vote tally, speaker rotation, AI voting
// and game initialisation. Every operation is specified by a function from the state
// before to the state after; the `Game` class holds the whole state as one record and
// its methods are proved to move it exactly as those functions say.

module GameLogic {
  import opened Wrappers
  import opened JsStrings
  import opened GameModel
  import opened GameUtils
  import opened AiUtils

  datatype Potions = Potions(antidote: bool, poison: bool)

  /** Every state variable of the game (the log itself is not modelled). */
  datatype State = State(
    players: seq<Player>,
    humanPlayerId: int,
    gamePhase: Phase,
    showRoleModal: bool,
    witchPotions: Potions,
    guardLastProtectedId: Option<int>,
    seerLastCheck: Option<SeerCheck>,
    werewolfTargetId: Option<int>,
    playerToPoisonId: Option<int>,
    hunterTargetId: Option<int>,
    pendingDeathPlayerIds: seq<int>,
    currentPlayerSpeakingId: int,
    currentVotes: map<int, Option<int>>,
    winner: Option<Winner>,
    isProcessingStep: bool)

  /** The values the state starts with before any game is set up. */
  const INITIAL := State([], 0, Setup, false, Potions(true, true), None, None, None, None,
                         None, [], 0, map[], None, false)

  // ---------------------------------------------------------------- win check wrapper

  /** `checkWinConditionWrapper`: when the check says the game is over and no winner is
      recorded yet, record the winner and move to GAME_OVER, answering false; otherwise
      change nothing and answer true. */
  function WinCheck(s: State, ps: seq<Player>, wolf: string): (State, bool) {
    var r := CheckWinCondition(ps, wolf);
    if r.gameOver && s.winner.None? then
      (s.(winner := r.winner, gamePhase := GameOver), false)
    else
      (s, true)
  }

  /** Once a winner is recorded the wrapper never replaces it; a game that stops has a
      winner and sits in GAME_OVER; a game that goes on is left exactly as it was. */
  lemma WinnerIsFinal(s: State, ps: seq<Player>, wolf: string)
    ensures s.winner.Some? ==> WinCheck(s, ps, wolf) == (s, true)
    ensures !WinCheck(s, ps, wolf).1 ==>
      WinCheck(s, ps, wolf).0.winner.Some? && WinCheck(s, ps, wolf).0.gamePhase == GameOver
    ensures WinCheck(s, ps, wolf).1 ==> WinCheck(s, ps, wolf).0 == s
    ensures !WinCheck(s, ps, wolf).1 <==> s.winner.None? && CheckWinCondition(ps, wolf).gameOver
  {
  }

  // ---------------------------------------------------------------- night resolution

  /** A player who dies: not alive any more and the role revealed. */
  function Kill(p: Player): (q: Player)
    ensures !q.isAlive && q.revealedRole == Some(p.role)
    ensures q.(isAlive := p.isAlive, revealedRole := p.revealedRole) == p
  {
    p.(isAlive := false, revealedRole := Some(p.role))
  }

  /** The wolves' victim, if the target is found alive and neither protected by the
      guard (checked first) nor healed by the witch. */
  function WolfDeaths(ps: seq<Player>, wolfTarget: Option<int>): seq<int> {
    if wolfTarget.None? then []
    else
      var v := FindById(ps, wolfTarget.value);
      if v.Some? && v.value.isAlive && !v.value.isProtected && !v.value.isHealedByWitch
      then [wolfTarget.value]
      else []
  }

  /** The ids to kill tonight, in order: an alive poison target is added after the wolf
      victim, and a player both bitten and poisoned is filtered out first and listed once. */
  function NightDeaths(ps: seq<Player>, wolfTarget: Option<int>, poisonTarget: Option<int>)
    : seq<int>
  {
    var wolf := WolfDeaths(ps, wolfTarget);
    if poisonTarget.Some? && IsAliveId(ps, poisonTarget.value) then
      (if poisonTarget.value in wolf then [] else wolf) + [poisonTarget.value]
    else wolf
  }

  /** Whether index `i` is the one `findIndex` reaches for its id and that id is listed. */
  predicate Hit(ps: seq<Player>, ids: seq<int>, i: int)
    requires 0 <= i < |ps|
  {
    ps[i].id in ids && IndexOfId(ps, ps[i].id) == i
  }

  function KillAt(ps: seq<Player>, ids: seq<int>, i: int): Player
    requires 0 <= i < |ps|
  {
    if Hit(ps, ids, i) then Kill(ps[i]) else ps[i]
  }

  /** The list with the first record of every listed id killed and all else unchanged. */
  function KillListed(ps: seq<Player>, ids: seq<int>): seq<Player> {
    seq(|ps|, i requires 0 <= i < |ps| => KillAt(ps, ids, i))
  }

  /** `resolveNightActions`: kill tonight's victims, record exactly them as the pending
      deaths, run the win check on the new list and, if play goes on, move to DAY_START. */
  function ResolveNight(s: State, names: RoleNames): State {
    var deaths := NightDeaths(s.players, s.werewolfTargetId, s.playerToPoisonId);
    var ps := KillListed(s.players, deaths);
    var r := WinCheck(s.(players := ps, pendingDeathPlayerIds := deaths), ps, names.werewolf);
    if r.1 then r.0.(gamePhase := DayStart) else r.0
  }

  /** An alive poison target when there is one, else nobody. */
  function PoisonOnly(ps: seq<Player>, poisonTarget: Option<int>): seq<int> {
    if poisonTarget.Some? && IsAliveId(ps, poisonTarget.value) then [poisonTarget.value] else []
  }

  /** The death list never names anyone twice, names only alive players, and names
      only the wolf target and the poison target. */
  lemma NightDeathsShape(ps: seq<Player>, wolfTarget: Option<int>, poisonTarget: Option<int>)
    ensures var d := NightDeaths(ps, wolfTarget, poisonTarget);
      |d| <= 2 && (|d| == 2 ==> d[0] != d[1]) &&
      (forall x :: x in d ==> IsAliveId(ps, x)) &&
      (forall x :: x in d ==> Some(x) == wolfTarget || Some(x) == poisonTarget)
  {
  }

  /** A wolf target who is protected, or unprotected but healed, survives the wolves:
      only the poison can kill that night. */
  lemma {:induction false} WolfTargetSpared(ps: seq<Player>, id: int, poisonTarget: Option<int>)
    requires IsAliveId(ps, id)
    requires FindById(ps, id).value.isProtected || FindById(ps, id).value.isHealedByWitch
    ensures NightDeaths(ps, Some(id), poisonTarget) == PoisonOnly(ps, poisonTarget)
  {
  }

  /** An alive, unprotected, unhealed wolf target dies. */
  lemma UnprotectedTargetDies(ps: seq<Player>, id: int, poisonTarget: Option<int>)
    requires IsAliveId(ps, id)
    requires !FindById(ps, id).value.isProtected && !FindById(ps, id).value.isHealedByWitch
    ensures id in NightDeaths(ps, Some(id), poisonTarget)
  {
  }

  /** No wolf target, or one who is missing or already dead, kills nobody. */
  lemma NoWolfDeath(ps: seq<Player>, wolfTarget: Option<int>, poisonTarget: Option<int>)
    requires wolfTarget.None? || !IsAliveId(ps, wolfTarget.value)
    ensures NightDeaths(ps, wolfTarget, poisonTarget) == PoisonOnly(ps, poisonTarget)
  {
  }

  /** An alive poison target dies whatever protects or heals them, and is listed last. */
  lemma PoisonOverrides(ps: seq<Player>, wolfTarget: Option<int>, id: int)
    requires IsAliveId(ps, id)
    ensures var d := NightDeaths(ps, wolfTarget, Some(id)); |d| > 0 && d[|d| - 1] == id
  {
  }

  /** The kill of one more id on a list where the earlier ids are already killed. */
  lemma KillStep(ps: seq<Player>, ids: seq<int>, d: int)
    requires d !in ids && IsAliveId(ps, d)
    ensures var u := KillListed(ps, ids);
      var k := IndexOfId(u, d);
      k != -1 && u[k].isAlive && u[k := Kill(u[k])] == KillListed(ps, ids + [d])
  {
    var u := KillListed(ps, ids);
    SameIds(ps, u, d);
    var k := IndexOfId(ps, d);
    KillOneMore(ps, ids, d, k);
  }

  /** Killing the record `findIndex` reaches for a new id `d` extends the kill list by `d`. */
  lemma KillOneMore(ps: seq<Player>, ids: seq<int>, d: int, k: int)
    requires d !in ids && 0 <= k < |ps| && k == IndexOfId(ps, d)
    ensures KillListed(ps, ids)[k] == ps[k]
    ensures KillListed(ps, ids)[k := Kill(ps[k])] == KillListed(ps, ids + [d])
  {
    var u := KillListed(ps, ids);
    var v := KillListed(ps, ids + [d]);
    forall i | 0 <= i < |ps| ensures u[k := Kill(ps[k])][i] == v[i] {
      if i != k && ps[i].id == d {
        assert !Hit(ps, ids + [d], i);
      }
    }
  }

  /** Lists whose records carry the same ids in the same places agree on `findIndex`. */
  lemma {:induction false} SameIds(ps: seq<Player>, qs: seq<Player>, id: int)
    requires |ps| == |qs| && forall i :: 0 <= i < |ps| ==> ps[i].id == qs[i].id
    ensures IndexOfId(ps, id) == IndexOfId(qs, id)
  {
    if |ps| > 0 && ps[0].id != id {
      SameIds(ps[1..], qs[1..], id);
    }
  }

  /** With unique ids, night resolution kills exactly the players on the death list,
      each of whom was alive, reveals their roles, leaves every other record as it was
      and records exactly them as the pending deaths. */
  lemma {:induction false} NightOutcome(s: State, names: RoleNames)
    requires UniqueIds(s.players)
    ensures var deaths := NightDeaths(s.players, s.werewolfTargetId, s.playerToPoisonId);
      var t := ResolveNight(s, names);
      t.pendingDeathPlayerIds == deaths && |t.players| == |s.players| &&
      forall i :: 0 <= i < |s.players| ==>
        t.players[i] == (if s.players[i].id in deaths then Kill(s.players[i]) else s.players[i]) &&
        (s.players[i].id in deaths ==> s.players[i].isAlive)
  {
    var deaths := NightDeaths(s.players, s.werewolfTargetId, s.playerToPoisonId);
    NightDeathsShape(s.players, s.werewolfTargetId, s.playerToPoisonId);
    forall i | 0 <= i < |s.players|
      ensures s.players[i].id in deaths ==> Hit(s.players, deaths, i) && s.players[i].isAlive
    {
      FindUnique(s.players, i);
    }
  }

  // ---------------------------------------------------------------- vote tally

  /** The number of voters among `voters` whose recorded vote is for `id`. */
  function Tally(votes: map<int, Option<int>>, voters: set<int>, id: int): nat {
    |set v | v in voters && v in votes && votes[v] == Some(id)|
  }

  /** The number of votes cast for `id` (null votes count for nobody). */
  function Count(votes: map<int, Option<int>>, id: int): nat {
    Tally(votes, votes.Keys, id)
  }

  lemma TallyStep(votes: map<int, Option<int>>, done: set<int>, v: int, id: int)
    requires v in votes && v !in done
    ensures Tally(votes, done + {v}, id) ==
      Tally(votes, done, id) + (if votes[v] == Some(id) then 1 else 0)
  {
    var a := set u | u in done && u in votes && votes[u] == Some(id);
    var b := set u | u in done + {v} && u in votes && votes[u] == Some(id);
    if votes[v] == Some(id) {
      assert b == a + {v};
    } else {
      assert b == a;
    }
  }

  /** The ids of the alive players, which are the keys of the tally. */
  function AliveIdSet(ps: seq<Player>): set<int> {
    set p | p in ps && p.isAlive :: p.id
  }

  /** The highest number of votes an alive player holds, 0 when nobody holds one. */
  function MaxVotes(ps: seq<Player>, votes: map<int, Option<int>>): (m: nat)
    ensures forall i :: 0 <= i < |ps| && ps[i].isAlive ==> Count(votes, ps[i].id) <= m
    ensures m > 0 ==>
      exists i :: 0 <= i < |ps| && ps[i].isAlive && Count(votes, ps[i].id) == m
  {
    if |ps| == 0 then 0
    else
      var n := |ps| - 1;
      var before := MaxVotes(ps[..n], votes);
      assert forall i :: 0 <= i < n ==> ps[..n][i] == ps[i];
      if ps[n].isAlive && Count(votes, ps[n].id) > before then Count(votes, ps[n].id)
      else before
  }

  /** The alive players, in list order, holding exactly `m` votes; nobody when `m` is 0. */
  function LeadersAt(ps: seq<Player>, votes: map<int, Option<int>>, m: nat): (r: seq<int>)
    ensures forall x :: x in r <==>
      m > 0 && exists i :: 0 <= i < |ps| && ps[i].isAlive && ps[i].id == x && Count(votes, x) == m
  {
    if |ps| == 0 || m == 0 then []
    else
      var n := |ps| - 1;
      assert forall i :: 0 <= i < n ==> ps[..n][i] == ps[i];
      LeadersAt(ps[..n], votes, m) +
        (if ps[n].isAlive && Count(votes, ps[n].id) == m then [ps[n].id] else [])
  }

  /** The leaders of a concatenation are those of each part, so leaders keep their list
      order. */
  lemma {:induction false} LeadersAtAppend(a: seq<Player>, b: seq<Player>,
                                           votes: map<int, Option<int>>, m: nat)
    ensures LeadersAt(a + b, votes, m) == LeadersAt(a, votes, m) + LeadersAt(b, votes, m)
    decreases |b|
  {
    if b == [] {
      assert a + b == a;
    } else if m > 0 {
      var n := |b| - 1;
      assert (a + b)[..|a + b| - 1] == a + b[..n];
      assert (a + b)[|a + b| - 1] == b[n];
      LeadersAtAppend(a, b[..n], votes, m);
    }
  }

  /** The player voted out: the only leader, when there is exactly one and the maximum
      is above zero. */
  function Eliminated(ps: seq<Player>, votes: map<int, Option<int>>): Option<int> {
    var m := MaxVotes(ps, votes);
    var leaders := LeadersAt(ps, votes, m);
    if |leaders| == 1 && m > 0 then Some(leaders[0]) else None
  }

  /** The record `findIndex` reaches for `id` marked dead with its role revealed. */
  function EliminateId(ps: seq<Player>, id: int): seq<Player> {
    var k := IndexOfId(ps, id);
    if k == -1 then ps else ps[k := Kill(ps[k])]
  }

  /** `resolveVoting`: eliminate the voted-out player, run the win check and, if play
      goes on, move to HUNTER_MAY_ACT (clearing the hunter's target) when that player is
      a dead hunter and to NIGHT_START otherwise; the votes are always emptied. */
  function ResolveVote(s: State, names: RoleNames): State {
    ApplyVerdict(s, names, Eliminated(s.players, s.currentVotes))
  }

  /** The part of `resolveVoting` after the tally, for the verdict `e`. */
  function ApplyVerdict(s: State, names: RoleNames, e: Option<int>): State {
    var ps := if e.Some? then EliminateId(s.players, e.value) else s.players;
    var r := WinCheck(s.(players := ps), ps, names.werewolf);
    var t :=
      if !r.1 then r.0
      else
        var found := if e.Some? then FindById(ps, e.value) else None;
        if found.Some? && found.value.role == names.hunter && !found.value.isAlive
        then r.0.(hunterTargetId := None, gamePhase := HunterMayAct)
        else r.0.(gamePhase := NightStart);
    t.(currentVotes := map[])
  }

  /** Above the maximum there are no leaders. */
  lemma LeadersAbove(ps: seq<Player>, votes: map<int, Option<int>>, m: nat)
    requires MaxVotes(ps, votes) < m
    ensures LeadersAt(ps, votes, m) == []
  {
  }

  /** Where no alive player holds exactly `m` votes there are no leaders at `m`. */
  lemma NoLeaders(ps: seq<Player>, votes: map<int, Option<int>>, m: nat)
    requires forall j :: 0 <= j < |ps| && ps[j].isAlive ==> Count(votes, ps[j].id) != m
    ensures LeadersAt(ps, votes, m) == []
  {
  }

  /** With unique ids, a player who alone holds `m > 0` votes is the only leader at `m`. */
  lemma {:induction false} SoleLeader(ps: seq<Player>, votes: map<int, Option<int>>, m: nat, i: int)
    requires UniqueIds(ps) && 0 <= i < |ps| && m > 0
    requires ps[i].isAlive && Count(votes, ps[i].id) == m
    requires forall j :: 0 <= j < |ps| && j != i && ps[j].isAlive ==> Count(votes, ps[j].id) != m
    ensures LeadersAt(ps, votes, m) == [ps[i].id]
    decreases |ps|
  {
    var n := |ps| - 1;
    var init := ps[..n];
    assert forall j :: 0 <= j < n ==> init[j] == ps[j];
    if i == n {
      NoLeaders(init, votes, m);
      assert LeadersAt(ps, votes, m) == LeadersAt(init, votes, m) + [ps[n].id];
    } else {
      SoleLeader(init, votes, m, i);
    }
  }

  /** A player is voted out exactly when, among players with unique ids, they are alive,
      hold at least one vote, and every other alive player holds fewer. */
  lemma UniquePlurality(ps: seq<Player>, votes: map<int, Option<int>>, i: int)
    requires UniqueIds(ps) && 0 <= i < |ps|
    ensures Eliminated(ps, votes) == Some(ps[i].id) <==> Plurality(ps, votes, i)
  {
    if Eliminated(ps, votes) == Some(ps[i].id) {
      WinnerHasPlurality(ps, votes, i);
    }
    if Plurality(ps, votes, i) {
      PluralityWins(ps, votes, i);
    }
  }

  /** Player `i` is alive, holds a vote, and every other alive player holds fewer. */
  predicate Plurality(ps: seq<Player>, votes: map<int, Option<int>>, i: int)
    requires 0 <= i < |ps|
  {
    ps[i].isAlive && Count(votes, ps[i].id) > 0 &&
    forall j :: 0 <= j < |ps| && j != i && ps[j].isAlive ==>
      Count(votes, ps[j].id) < Count(votes, ps[i].id)
  }

  lemma WinnerHasPlurality(ps: seq<Player>, votes: map<int, Option<int>>, i: int)
    requires UniqueIds(ps) && 0 <= i < |ps|
    requires Eliminated(ps, votes) == Some(ps[i].id)
    ensures Plurality(ps, votes, i)
  {
    var m := MaxVotes(ps, votes);
    var leaders := LeadersAt(ps, votes, m);
    assert leaders[0] in leaders;
    var k :| 0 <= k < |ps| && ps[k].isAlive && ps[k].id == ps[i].id && Count(votes, ps[k].id) == m;
    assert k == i;
    assert forall j :: 0 <= j < |ps| && j != i && ps[j].isAlive ==> Count(votes, ps[j].id) < m;
  }

  lemma PluralityWins(ps: seq<Player>, votes: map<int, Option<int>>, i: int)
    requires UniqueIds(ps) && 0 <= i < |ps|
    requires Plurality(ps, votes, i)
    ensures Eliminated(ps, votes) == Some(ps[i].id)
  {
    var m := MaxVotes(ps, votes);
    assert m == Count(votes, ps[i].id);
    SoleLeader(ps, votes, m, i);
  }

  /** A tie at the top, or no vote for any alive player, eliminates nobody. */
  lemma {:induction false} TieEliminatesNobody(ps: seq<Player>, votes: map<int, Option<int>>, i: int, j: int)
    requires UniqueIds(ps) && 0 <= i < |ps| && 0 <= j < |ps| && i != j
    requires ps[i].isAlive && ps[j].isAlive
    requires Count(votes, ps[i].id) == Count(votes, ps[j].id) == MaxVotes(ps, votes)
    ensures Eliminated(ps, votes) == None
  {
    var e := Eliminated(ps, votes);
    if e.Some? {
      var leaders := LeadersAt(ps, votes, MaxVotes(ps, votes));
      assert leaders[0] in leaders;
      var k :| 0 <= k < |ps| && ps[k].isAlive && ps[k].id == e.value;
      UniquePlurality(ps, votes, k);
      assert false;
    }
  }

  /** The voted-out player, if any, is an alive player. */
  lemma EliminatedIsAlive(ps: seq<Player>, votes: map<int, Option<int>>)
    ensures Eliminated(ps, votes).Some? ==>
      exists i :: 0 <= i < |ps| && ps[i].isAlive && ps[i].id == Eliminated(ps, votes).value
  {
    var leaders := LeadersAt(ps, votes, MaxVotes(ps, votes));
    if |leaders| > 0 {
      assert leaders[0] in leaders;
    }
  }

  /** With unique ids, eliminating an alive player's id changes only that player's record. */
  lemma EliminateOne(ps: seq<Player>, i: int)
    requires UniqueIds(ps) && 0 <= i < |ps|
    ensures var u := EliminateId(ps, ps[i].id);
      |u| == |ps| && FindById(u, ps[i].id) == Some(Kill(ps[i])) &&
      forall j :: 0 <= j < |ps| ==> u[j] == (if j == i then Kill(ps[i]) else ps[j])
  {
    FindUnique(ps, i);
    SameIds(ps, EliminateId(ps, ps[i].id), ps[i].id);
  }

  lemma VotePlayers(s: State, names: RoleNames, e: Option<int>)
    ensures var t := ApplyVerdict(s, names, e);
      t.players == (if e.Some? then EliminateId(s.players, e.value) else s.players) &&
      t.currentVotes == map[]
  {
  }

  /** Voting always empties the votes and changes at most the voted-out player's record,
      who ends dead with the role revealed. */
  lemma {:induction false} VoteOutcome(s: State, names: RoleNames)
    requires UniqueIds(s.players)
    ensures var t := ResolveVote(s, names);
      var e := Eliminated(s.players, s.currentVotes);
      t.currentVotes == map[] && |t.players| == |s.players| &&
      forall i :: 0 <= i < |s.players| ==>
        t.players[i] == (if Some(s.players[i].id) == e then Kill(s.players[i]) else s.players[i])
  {
    var e := Eliminated(s.players, s.currentVotes);
    VotePlayers(s, names, e);
    EliminatedIsAlive(s.players, s.currentVotes);
    if e.Some? {
      var i :| 0 <= i < |s.players| && s.players[i].isAlive && s.players[i].id == e.value;
      EliminateOne(s.players, i);
    }
  }

  lemma VotePhaseFound(s: State, names: RoleNames, e: Option<int>)
    ensures var t := ApplyVerdict(s, names, e);
      var found := if e.Some? then FindById(t.players, e.value) else None;
      var goesOn := s.winner.Some? || !CheckWinCondition(t.players, names.werewolf).gameOver;
      t.gamePhase == (if !goesOn then GameOver
        else if found.Some? && found.value.role == names.hunter && !found.value.isAlive
        then HunterMayAct else NightStart)
  {
  }

  /** After voting, a game the win check stops is in GAME_OVER; otherwise it moves to
      HUNTER_MAY_ACT exactly when the voted-out player was the hunter, and to NIGHT_START
      in every other case. */
  lemma {:induction false} VotePhase(s: State, names: RoleNames)
    requires UniqueIds(s.players)
    ensures var t := ResolveVote(s, names);
      var e := Eliminated(s.players, s.currentVotes);
      var goesOn := s.winner.Some? || !CheckWinCondition(t.players, names.werewolf).gameOver;
      var hunterOut := (exists i :: 0 <= i < |s.players| && Some(s.players[i].id) == e &&
                                    s.players[i].role == names.hunter);
      t.gamePhase == (if !goesOn then GameOver else if hunterOut then HunterMayAct else NightStart)
  {
    var e := Eliminated(s.players, s.currentVotes);
    VotePlayers(s, names, e);
    VotePhaseFound(s, names, e);
    EliminatedIsAlive(s.players, s.currentVotes);
    if e.Some? {
      var i :| 0 <= i < |s.players| && s.players[i].isAlive && s.players[i].id == e.value;
      EliminateOne(s.players, i);
      forall j | 0 <= j < |s.players| && Some(s.players[j].id) == e ensures j == i {}
    }
  }

  // ---------------------------------------------------------------- speaker rotation

  /** `handleNextSpeaker`: nothing once there is a winner; with nobody alive, or after
      the last alive player in list order, move to VOTING; otherwise hand the turn to the
      alive player after the current speaker, or to the first alive player when the
      current speaker is not among the alive. */
  function NextSpeaker(s: State): State {
    if s.winner.Some? then s
    else
      var alive := AlivePlayers(s.players);
      if |alive| == 0 then s.(gamePhase := Voting)
      else
        var order := IndexOfId(alive, s.currentPlayerSpeakingId);
        if order == -1 then s.(currentPlayerSpeakingId := alive[0].id)
        else if order < |alive| - 1 then s.(currentPlayerSpeakingId := alive[order + 1].id)
        else s.(gamePhase := Voting)
  }

  /** The speaker rotation only ever touches the speaker and the phase; a new speaker is
      always an alive player, and the phase can only become VOTING. */
  lemma SpeakerIsAlive(s: State)
    ensures var t := NextSpeaker(s);
      t == s.(currentPlayerSpeakingId := t.currentPlayerSpeakingId, gamePhase := t.gamePhase) &&
      (t.gamePhase == s.gamePhase || t.gamePhase == Voting) &&
      (t.currentPlayerSpeakingId != s.currentPlayerSpeakingId ==>
        exists p :: p in s.players && p.isAlive && p.id == t.currentPlayerSpeakingId)
  {
    var alive := AlivePlayers(s.players);
    if s.winner.None? && |alive| > 0 {
      var order := IndexOfId(alive, s.currentPlayerSpeakingId);
      assert alive[0] in alive;
      if 0 <= order < |alive| - 1 {
        assert alive[order + 1] in alive;
      }
    }
  }

  /** With unique ids and no winner, the turn passes from the `j`-th alive player to
      the next one, or to VOTING after the last. */
  lemma NextStep(s: State, j: int)
    requires s.winner.None? && UniqueIds(s.players)
    requires 0 <= j < |AlivePlayers(s.players)|
    requires s.currentPlayerSpeakingId == AlivePlayers(s.players)[j].id
    ensures var alive := AlivePlayers(s.players);
      NextSpeaker(s) == if j < |alive| - 1 then s.(currentPlayerSpeakingId := alive[j + 1].id)
                        else s.(gamePhase := Voting)
  {
    AliveUnique(s.players);
    UniqueIndex(AlivePlayers(s.players), j);
  }

  /** A current speaker who is not among the alive hands the turn to the first alive
      player. */
  lemma DeadSpeakerSkipped(s: State)
    requires s.winner.None? && |AlivePlayers(s.players)| > 0
    requires forall p :: p in s.players && p.isAlive ==> p.id != s.currentPlayerSpeakingId
    ensures NextSpeaker(s) == s.(currentPlayerSpeakingId := AlivePlayers(s.players)[0].id)
  {
  }

  /** The alive players of a list with unique ids have unique ids. */
  lemma {:induction false} AliveUnique(ps: seq<Player>)
    requires UniqueIds(ps)
    ensures UniqueIds(AlivePlayers(ps))
  {
    if |ps| > 0 {
      AliveUnique(ps[1..]);
      var r := AlivePlayers(ps[1..]);
      if ps[0].isAlive {
        forall j | 0 <= j < |r| ensures r[j].id != ps[0].id {
          assert r[j] in ps[1..];
        }
      }
    }
  }

  lemma UniqueIndex(ps: seq<Player>, i: int)
    requires UniqueIds(ps) && 0 <= i < |ps|
    ensures IndexOfId(ps, ps[i].id) == i
  {
    FindUnique(ps, i);
  }

  // ---------------------------------------------------------------- AI voting

  /** The alive players the program plays (`isAlive && !isHuman`), in list order. */
  function AliveAIs(ps: seq<Player>): (r: seq<Player>)
    ensures forall p :: p in r <==> p in ps && p.isAlive && !p.isHuman
  {
    if |ps| == 0 then []
    else (if ps[0].isAlive && !ps[0].isHuman then [ps[0]] else []) + AliveAIs(ps[1..])
  }

  /** The filter distributes over concatenation, so the alive AIs keep their list order. */
  lemma {:induction false} AliveAIsAppend(a: seq<Player>, b: seq<Player>)
    ensures AliveAIs(a + b) == AliveAIs(a) + AliveAIs(b)
  {
    if a == [] {
      assert a + b == b;
    } else {
      assert (a + b)[1..] == a[1..] + b;
      AliveAIsAppend(a[1..], b);
    }
  }

  /** The alive players other than `id`, in list order. */
  function AliveOthers(ps: seq<Player>, id: int): (r: seq<Player>)
    ensures forall p :: p in r <==> p in ps && p.isAlive && p.id != id
  {
    if |ps| == 0 then []
    else (if ps[0].isAlive && ps[0].id != id then [ps[0]] else []) + AliveOthers(ps[1..], id)
  }

  /** The filter distributes over concatenation, so the other alive players keep their list
      order. */
  lemma {:induction false} AliveOthersAppend(a: seq<Player>, b: seq<Player>, id: int)
    ensures AliveOthers(a + b, id) == AliveOthers(a, id) + AliveOthers(b, id)
  {
    if a == [] {
      assert a + b == b;
    } else {
      assert (a + b)[1..] == a[1..] + b;
      AliveOthersAppend(a[1..], b, id);
    }
  }

  /** One AI's vote: its normalised reply read with parseInt when that names an alive
      player other than itself; otherwise a uniform draw among the other alive players;
      an abstention (null) when there is nobody else alive. */
  function AIVote(ps: seq<Player>, ai: Player, reply: Option<string>, draw: real): (r: Option<int>)
    requires IsDraw(draw)
    ensures r.Some? ==> r.value != ai.id && exists p :: p in ps && p.isAlive && p.id == r.value
    ensures r.None? <==> forall p :: p in ps && p.isAlive ==> p.id == ai.id
    ensures var t := ParseIntJs(Decide("VOTE_PLAYER", reply));
      t.Some? && IsAliveId(ps, t.value) && t.value != ai.id ==> r == t
    ensures var t := ParseIntJs(Decide("VOTE_PLAYER", reply));
      var others := AliveOthers(ps, ai.id);
      !(t.Some? && IsAliveId(ps, t.value) && t.value != ai.id) && |others| > 0 ==>
        r == Some(others[Scale(draw, |others|)].id)
  {
    var target := ParseIntJs(Decide("VOTE_PLAYER", reply));
    var others := AliveOthers(ps, ai.id);
    if target.Some? && IsAliveId(ps, target.value) && target.value != ai.id then
      assert FindById(ps, target.value).value in others;
      target
    else if |others| > 0 then
      assert others[Scale(draw, |others|)] in others;
      Some(others[Scale(draw, |others|)].id)
    else
      None
  }

  predicate Draws(draws: seq<real>, n: nat) {
    |draws| >= n && forall k :: 0 <= k < |draws| ==> IsDraw(draws[k])
  }

  /** The votes collected from the AIs in `ais` that had not voted yet, the k-th AI
      answering `replies[k]` and drawing `draws[k]`. */
  function NewVotes(ps: seq<Player>, votes: map<int, Option<int>>, ais: seq<Player>,
                    replies: seq<Option<string>>, draws: seq<real>): map<int, Option<int>>
    requires |replies| >= |ais| && Draws(draws, |ais|)
  {
    if |ais| == 0 then map[]
    else
      var n := |ais| - 1;
      var before := NewVotes(ps, votes, ais[..n], replies, draws);
      if ais[n].id in votes then before
      else before[ais[n].id := AIVote(ps, ais[n], replies[n], draws[n])]
  }

  /** `handleAIVoting`: every alive AI without a vote casts one; earlier votes stay. */
  function AIVoting(s: State, replies: seq<Option<string>>, draws: seq<real>): State
    requires |replies| >= |AliveAIs(s.players)| && Draws(draws, |AliveAIs(s.players)|)
  {
    s.(currentVotes :=
         s.currentVotes + NewVotes(s.players, s.currentVotes, AliveAIs(s.players), replies, draws))
  }

  /** The new votes come exactly from the listed AIs that had not voted, and each is an
      abstention or a vote for an alive player other than the voter. */
  lemma {:induction false} NewVotesValid(ps: seq<Player>, votes: map<int, Option<int>>,
                                         ais: seq<Player>, replies: seq<Option<string>>, draws: seq<real>)
    requires |replies| >= |ais| && Draws(draws, |ais|)
    ensures var nv := NewVotes(ps, votes, ais, replies, draws);
      (forall id :: id in nv <==> id !in votes && exists a :: a in ais && a.id == id) &&
      (forall id :: id in nv && nv[id].Some? ==>
         nv[id].value != id && exists p :: p in ps && p.isAlive && p.id == nv[id].value)
  {
    if |ais| > 0 {
      var n := |ais| - 1;
      NewVotesValid(ps, votes, ais[..n], replies, draws);
      assert ais == ais[..n] + [ais[n]];
    }
  }

  /** After AI voting the earlier votes are unchanged, every alive AI has voted, and
      every vote an AI cast here is an abstention or names an alive player other than
      itself. */
  lemma AIVotingOutcome(s: State, replies: seq<Option<string>>, draws: seq<real>)
    requires |replies| >= |AliveAIs(s.players)| && Draws(draws, |AliveAIs(s.players)|)
    ensures var t := AIVoting(s, replies, draws);
      t == s.(currentVotes := t.currentVotes) &&
      (forall id :: id in s.currentVotes ==>
         (id in t.currentVotes && t.currentVotes[id] == s.currentVotes[id])) &&
      (forall p :: p in s.players && p.isAlive && !p.isHuman ==> p.id in t.currentVotes) &&
      (forall id :: id in t.currentVotes && id !in s.currentVotes && t.currentVotes[id].Some? ==>
         t.currentVotes[id].value != id &&
         exists p :: p in s.players && p.isAlive && p.id == t.currentVotes[id].value)
  {
    NewVotesValid(s.players, s.currentVotes, AliveAIs(s.players), replies, draws);
  }

  // ---------------------------------------------------------------- initialisation

  /** `initializeGameWrapper` once the players are dealt: show the role card, refill both
      potions, forget every target, check, pending death and vote, give the first turn to
      the first alive player (0 if none), clear the winner and move to SHOW_ROLE_MODAL. */
  function Initialized(s: State, ps: seq<Player>, humanId: int): State {
    var first := FirstAliveId(ps);
    s.(players := ps, humanPlayerId := humanId, showRoleModal := true,
       witchPotions := Potions(true, true), guardLastProtectedId := None,
       seerLastCheck := None, werewolfTargetId := None, playerToPoisonId := None,
       hunterTargetId := None, pendingDeathPlayerIds := [],
       currentPlayerSpeakingId := if first.Some? then first.value else 0,
       currentVotes := map[], winner := None, gamePhase := ShowRoleModal)
  }

  /** A freshly dealt table has unique ids, player 0 speaks first, and the game is on,
      in either edition of the role names. */
  lemma {:induction false} FreshDeal(s: State, ps: seq<Player>, humanId: int, names: RoleNames)
    requires DistinctWolf(names)
    requires |ps| == PLAYER_COUNT && Seated(ps, humanId)
    requires multiset(Roles(ps)) == multiset(Distribution(names))
    ensures var t := Initialized(s, ps, humanId);
      UniqueIds(t.players) && t.currentPlayerSpeakingId == 0 &&
      !CheckWinCondition(t.players, names.werewolf).gameOver
  {
    SeatedAlive(ps, humanId);
    InitialDealGoesOn(ps, names);
  }

  /** Seated players all start alive with ids 0, 1, 2, ... so player 0 is first alive. */
  lemma SeatedAlive(ps: seq<Player>, humanId: int)
    requires |ps| > 0 && Seated(ps, humanId)
    ensures UniqueIds(ps) && FirstAliveId(ps) == Some(0)
    ensures forall p :: p in ps ==> p.isAlive
  {
    assert ps[0].isAlive;
    forall p | p in ps ensures p.isAlive {
      var i :| 0 <= i < |ps| && ps[i] == p;
    }
  }

  /** The tally of `resolveVoting`: every alive id starts at zero and each vote for
      one of them adds one, so each alive id ends with the number of votes cast for it. */
  method Tallies(ps: seq<Player>, votes: map<int, Option<int>>) returns (counts: map<int, nat>)
    ensures counts.Keys == AliveIdSet(ps)
    ensures forall id :: id in counts ==> counts[id] == Count(votes, id)
  {
    counts := map id | id in AliveIdSet(ps) :: 0;
    var rest := votes.Keys;
    while rest != {}
      invariant rest <= votes.Keys
      invariant counts.Keys == AliveIdSet(ps)
      invariant forall id :: id in counts ==> counts[id] == Tally(votes, votes.Keys - rest, id)
      decreases rest
    {
      if forall u :: u !in rest {
        assert false;
      }
      var v :| v in rest;
      var done := votes.Keys - rest;
      forall id | id in counts
        ensures Tally(votes, done + {v}, id) ==
          Tally(votes, done, id) + (if votes[v] == Some(id) then 1 else 0)
      {
        TallyStep(votes, done, v, id);
      }
      var target := votes[v];
      if target.Some? && target.value in counts {
        counts := counts[target.value := counts[target.value] + 1];
      }
      assert votes.Keys - (rest - {v}) == done + {v};
      rest := rest - {v};
    }
    assert votes.Keys - rest == votes.Keys;
  }

  /** The scan of `resolveVoting` as a function of the players scanned so far: the
      highest count and the leaders holding it, a higher count starting a new list and
      an equal positive count joining it. */
  function Scan(ps: seq<Player>, votes: map<int, Option<int>>): (nat, seq<int>) {
    if |ps| == 0 then (0, [])
    else
      var n := |ps| - 1;
      var (m, leaders) := Scan(ps[..n], votes);
      var c := Count(votes, ps[n].id);
      if ps[n].isAlive && c > m then (c, [ps[n].id])
      else if ps[n].isAlive && c == m && m > 0 then (m, leaders + [ps[n].id])
      else (m, leaders)
  }

  /** The scan finds the maximum and exactly the leaders at it, in list order. */
  lemma {:induction false} ScanIsLeaders(ps: seq<Player>, votes: map<int, Option<int>>)
    ensures Scan(ps, votes) == (MaxVotes(ps, votes), LeadersAt(ps, votes, MaxVotes(ps, votes)))
  {
    if |ps| > 0 {
      var n := |ps| - 1;
      var init := ps[..n];
      var m := MaxVotes(init, votes);
      var c := Count(votes, ps[n].id);
      var id := ps[n].id;
      calc {
        Scan(ps, votes);
      == { assert ps[..n] == init; }
        if ps[n].isAlive && c > Scan(init, votes).0 then (c, [id])
        else if ps[n].isAlive && c == Scan(init, votes).0 && Scan(init, votes).0 > 0
        then (Scan(init, votes).0, Scan(init, votes).1 + [id])
        else Scan(init, votes);
      == { ScanIsLeaders(init, votes); }
        if ps[n].isAlive && c > m then (c, [id])
        else if ps[n].isAlive && c == m && m > 0 then (m, LeadersAt(init, votes, m) + [id])
        else (m, LeadersAt(init, votes, m));
      == { if ps[n].isAlive && c > m {
             LeadersAbove(init, votes, c);
             assert LeadersAt(init, votes, c) + [id] == [id];
           }
           LastPlayer(ps, votes); }
        (MaxVotes(ps, votes), LeadersAt(ps, votes, MaxVotes(ps, votes)));
      }
    }
  }

  /** How the last player of a list extends the maximum and the leaders at any count. */
  lemma LastPlayer(ps: seq<Player>, votes: map<int, Option<int>>)
    requires |ps| > 0
    ensures var n := |ps| - 1;
      var init := ps[..n];
      var m := MaxVotes(init, votes);
      var c := Count(votes, ps[n].id);
      var top := MaxVotes(ps, votes);
      top == (if ps[n].isAlive && c > m then c else m) &&
      LeadersAt(ps, votes, top) ==
        (if ps[n].isAlive && c > m then LeadersAt(init, votes, c) + [ps[n].id]
         else if ps[n].isAlive && c == m && m > 0 then LeadersAt(init, votes, m) + [ps[n].id]
         else LeadersAt(init, votes, m))
  {
    var n := |ps| - 1;
    var init := ps[..n];
    var m := MaxVotes(init, votes);
    var c := Count(votes, ps[n].id);
    var top := MaxVotes(ps, votes);
    assert LeadersAt(ps, votes, top) == LeadersAt(init, votes, top) +
      (if top > 0 && ps[n].isAlive && c == top then [ps[n].id] else []);
    if !(ps[n].isAlive && c >= m && (c > m || m > 0)) {
      assert LeadersAt(init, votes, top) + [] == LeadersAt(init, votes, top);
    }
  }

  /** The scan of `resolveVoting` over the players in list order: a higher count
      replaces the leaders, an equal positive count joins them. */
  method ScanLeaders(ps: seq<Player>, votes: map<int, Option<int>>, counts: map<int, nat>)
    returns (maxVotes: nat, leaders: seq<int>)
    requires counts.Keys == AliveIdSet(ps)
    requires forall id :: id in counts ==> counts[id] == Count(votes, id)
    ensures maxVotes == MaxVotes(ps, votes)
    ensures leaders == LeadersAt(ps, votes, maxVotes)
  {
    maxVotes := 0;
    leaders := [];
    var i := 0;
    while i < |ps|
      invariant 0 <= i <= |ps|
      invariant (maxVotes, leaders) == Scan(ps[..i], votes)
    {
      var p := ps[i];
      assert ps[..i + 1][..i] == ps[..i];
      if p.isAlive {
        assert p in ps;
        var count := counts[p.id];
        if count > maxVotes {
          maxVotes := count;
          leaders := [p.id];
        } else if count == maxVotes && maxVotes > 0 {
          leaders := leaders + [p.id];
        }
      }
      i := i + 1;
    }
    assert ps[..i] == ps;
    ScanIsLeaders(ps, votes);
  }

  /** One more AI extends the collected votes as the loop of `handleAIVoting` does. */
  lemma NewVotesStep(ps: seq<Player>, votes: map<int, Option<int>>, ais: seq<Player>,
                     replies: seq<Option<string>>, draws: seq<real>, i: int)
    requires 0 <= i < |ais| && |replies| >= |ais| && Draws(draws, |ais|)
    ensures var before := NewVotes(ps, votes, ais[..i], replies, draws);
      NewVotes(ps, votes, ais[..i + 1], replies, draws) ==
        if ais[i].id in votes then before
        else before[ais[i].id := AIVote(ps, ais[i], replies[i], draws[i])]
  {
    assert ais[..i + 1][..i] == ais[..i];
  }

  /** The body of the loop of `handleAIVoting` for one AI: read its reply as a player id,
      keep it if it names an alive player other than itself, otherwise draw one of the
      other alive players, and abstain when there is none. */
  method ChooseVote(ps: seq<Player>, ai: Player, reply: Option<string>, draw: real)
    returns (vote: Option<int>)
    requires IsDraw(draw)
    ensures vote == AIVote(ps, ai, reply, draw)
  {
    var target := ParseIntJs(Decide("VOTE_PLAYER", reply));
    if target.Some? && IsAliveId(ps, target.value) && target.value != ai.id {
      return target;
    }
    var possible := AliveOthers(ps, ai.id);
    if |possible| > 0 {
      vote := Some(possible[Scale(draw, |possible|)].id);
    } else {
      vote := None;
    }
  }

  /** The loop of `handleAIVoting`: each alive AI that has not voted asks for a vote,
      keeps it if it names an alive player other than itself, and otherwise draws one. */
  method CollectAIVotes(ps: seq<Player>, votes: map<int, Option<int>>,
                        replies: seq<Option<string>>, draws: seq<real>)
    returns (newVotes: map<int, Option<int>>, anyNewVotes: bool)
    requires |replies| >= |AliveAIs(ps)| && Draws(draws, |AliveAIs(ps)|)
    ensures newVotes == NewVotes(ps, votes, AliveAIs(ps), replies, draws)
    ensures !anyNewVotes ==> newVotes == map[]
  {
    var ais := AliveAIs(ps);
    newVotes := map[];
    anyNewVotes := false;
    var i := 0;
    while i < |ais|
      invariant 0 <= i <= |ais|
      invariant newVotes == NewVotes(ps, votes, ais[..i], replies, draws)
      invariant !anyNewVotes ==> newVotes == map[]
    {
      var ai := ais[i];
      NewVotesStep(ps, votes, ais, replies, draws, i);
      if ai.id !in votes {
        var vote := ChooseVote(ps, ai, replies[i], draws[i]);
        newVotes := newVotes[ai.id := vote];
        anyNewVotes := true;
      }
      i := i + 1;
    }
    assert ais[..i] == ais;
  }

  /** The count of `resolveVoting`: tally, scan for the leaders, and name the one
      player voted out when a single leader holds a positive count. */
  method Verdict(ps: seq<Player>, votes: map<int, Option<int>>) returns (eliminated: Option<int>)
    ensures eliminated == Eliminated(ps, votes)
  {
    var counts := Tallies(ps, votes);
    var maxVotes, leaders := ScanLeaders(ps, votes, counts);
    eliminated := None;
    if |leaders| == 1 && maxVotes > 0 {
      eliminated := Some(leaders[0]);
    }
  }

  // ---------------------------------------------------------------- the game object

  /** The hook's state. The hook keeps one `useState` variable per field of `State`
      (the processing flag is a ref); a step reads the values the render started with
      and its setters take effect together, so the object holds them as one record that
      each method replaces. Every method leaves `state` where its specifying function
      says. */
  class Game {
    const names: RoleNames
    var state: State

    constructor(names: RoleNames)
      ensures this.names == names && state == INITIAL
    {
      this.names := names;
      state := INITIAL;
    }

    method CheckWinConditionWrapper(ps: seq<Player>) returns (stillOn: bool)
      modifies this
      ensures (state, stillOn) == WinCheck(old(state), ps, names.werewolf)
    {
      var result := CheckWinCondition(ps, names.werewolf);
      if result.gameOver && state.winner.None? {
        state := state.(winner := result.winner, gamePhase := GameOver);
        return false;
      }
      return true;
    }

    method ResolveNightActions()
      modifies this
      ensures state == ResolveNight(old(state), names)
    {
      var ps := state.players;
      var deaths := NightDeaths(ps, state.werewolfTargetId, state.playerToPoisonId);
      NightDeathsShape(ps, state.werewolfTargetId, state.playerToPoisonId);
      var updated := ps;
      var actualDead: seq<int> := [];
      var i := 0;
      while i < |deaths|
        invariant 0 <= i <= |deaths|
        invariant updated == KillListed(ps, deaths[..i])
        invariant actualDead == deaths[..i]
        invariant state == old(state)
      {
        assert deaths[i] !in deaths[..i] && deaths[i] in deaths;
        KillStep(ps, deaths[..i], deaths[i]);
        var k := IndexOfId(updated, deaths[i]);
        if k != -1 && updated[k].isAlive {
          updated := updated[k := Kill(updated[k])];
          actualDead := actualDead + [deaths[i]];
        }
        assert deaths[..i + 1] == deaths[..i] + [deaths[i]];
        i := i + 1;
      }
      assert deaths[..i] == deaths;
      state := state.(players := updated, pendingDeathPlayerIds := actualDead);
      var stillOn := CheckWinConditionWrapper(updated);
      if stillOn {
        state := state.(gamePhase := DayStart);
      }
    }

    method ResolveVoting()
      modifies this
      ensures state == ResolveVote(old(state), names)
    {
      var ps := state.players;
      var eliminated := Verdict(ps, state.currentVotes);
      var updated := ps;
      if eliminated.Some? {
        var k := IndexOfId(updated, eliminated.value);
        if k != -1 {
          updated := updated[k := Kill(updated[k])];
        }
      }
      assert updated == if eliminated.Some? then EliminateId(ps, eliminated.value) else ps;
      state := state.(players := updated);
      var stillOn := CheckWinConditionWrapper(updated);
      assert (state, stillOn) == WinCheck(old(state).(players := updated), updated, names.werewolf);
      if stillOn {
        var found := if eliminated.Some? then FindById(updated, eliminated.value) else None;
        if found.Some? && found.value.role == names.hunter && !found.value.isAlive {
          state := state.(hunterTargetId := None, gamePhase := HunterMayAct);
        } else {
          state := state.(gamePhase := NightStart);
        }
      }
      assert state.(currentVotes := map[]) == ApplyVerdict(old(state), names, eliminated);
      state := state.(currentVotes := map[]);
    }

    method HandleNextSpeaker()
      modifies this
      ensures state == NextSpeaker(old(state))
    {
      if state.winner.Some? {
        return;
      }
      var alive := AlivePlayers(state.players);
      if |alive| == 0 {
        state := state.(gamePhase := Voting);
        return;
      }
      var speaker := state.currentPlayerSpeakingId;
      var order := -1;
      var i := 0;
      while i < |alive|
        invariant 0 <= i <= |alive|
        invariant forall j :: 0 <= j < i ==> alive[j].id != speaker
        invariant state == old(state)
      {
        if alive[i].id == speaker {
          order := i;
          break;
        }
        i := i + 1;
      }
      assert order == IndexOfId(alive, speaker);
      if order == -1 {
        state := state.(currentPlayerSpeakingId := alive[0].id);
      } else if order < |alive| - 1 {
        state := state.(currentPlayerSpeakingId := alive[order + 1].id);
      } else {
        state := state.(gamePhase := Voting);
      }
    }

    method HandleAIVoting(replies: seq<Option<string>>, draws: seq<real>)
      requires |replies| >= |AliveAIs(state.players)| && Draws(draws, |AliveAIs(state.players)|)
      modifies this
      ensures state == AIVoting(old(state), replies, draws)
    {
      var newVotes, anyNewVotes := CollectAIVotes(state.players, state.currentVotes, replies, draws);
      if anyNewVotes {
        state := state.(currentVotes := state.currentVotes + newVotes);
      } else {
        assert state.currentVotes + newVotes == state.currentVotes;
      }
    }

    method InitializeGameWrapper(config: GameConfig, humanDraw: real, draws: seq<real>)
      requires IsDraw(humanDraw) && Draws(draws, PLAYER_COUNT)
      modifies this
      ensures var ps := state.players;
        |ps| == PLAYER_COUNT && Seated(ps, state.humanPlayerId) &&
        state.humanPlayerId == Scale(humanDraw, PLAYER_COUNT) &&
        (ChoosesRole(config) ==> ps[state.humanPlayerId].role == config.selectedRole.value) &&
        (KeepsDistribution(names, config) ==>
           multiset(Roles(ps)) == multiset(Distribution(names)))
      ensures state == Initialized(old(state), state.players, state.humanPlayerId)
    {
      var newPlayers, humanId := InitializePlayers(names, config, humanDraw, draws);
      state := Initialized(state, newPlayers, humanId);
    }
  }
}
