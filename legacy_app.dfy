// The older single-file app. It keeps the same game state and the same night, vote
// and speaker rules as the hook-based app, so those run on a `Game` whose role names
// are the Chinese ones (`LEGACY_ROLES`). What differs is modelled here: the win check
// written as three guarded tests, the deal, the human's actions (whose role branches
// do match here, since this app deals the Chinese names, and whose refused vote throws
// before the processing flag is released), and a DAY_START step that forgets the
// pending deaths.

module LegacyApp {
  import opened Wrappers
  import opened GameModel
  import opened GameUtils
  import opened GameLogic
  import opened PhaseManager
  import opened AppActions

  // ---------------------------------------------------------------- win check

  /** `checkWinCondition` of the older app: each of the three outcomes is declared only
      while no winner is recorded, so with a winner already set every test fails and the
      game is reported as going on. */
  function LegacyCheck(s: State, ps: seq<Player>): (State, bool) {
    var alive := AlivePlayers(ps);
    var wolves := WithRole(alive, LEGACY_ROLES.werewolf);
    var others := WithoutRole(alive, LEGACY_ROLES.werewolf);
    if |alive| == 0 && s.winner.None? then (s.(winner := Some(Draw), gamePhase := GameOver), false)
    else if |wolves| == 0 && s.winner.None? then (s.(winner := Some(Villagers), gamePhase := GameOver), false)
    else if |wolves| >= |others| && s.winner.None? then
      (s.(winner := Some(Werewolves), gamePhase := GameOver), false)
    else (s, true)
  }

  /** The guarded tests decide exactly as the hook's wrapper around the shared win
      condition does, for every state and every list of players. */
  lemma LegacyCheckIsWinCheck(s: State, ps: seq<Player>)
    ensures LegacyCheck(s, ps) == WinCheck(s, ps, LEGACY_ROLES.werewolf)
  {
  }

  // ---------------------------------------------------------------- deal

  /** `initializeGame`: a Fisher-Yates shuffle of the role distribution, a human seat
      drawn from the eight, players numbered by seat, and every other part of the state
      reset for the role reveal. The roles dealt, seat by seat, are the Fisher-Yates order
      of the distribution for the given draws (so a permutation of it),
      exactly one seat is human, and the deal never ends the game. */
  method InitializeGame(g: Game, humanDraw: real, draws: seq<real>)
    requires g.names == LEGACY_ROLES
    requires IsDraw(humanDraw) && Draws(draws, PLAYER_COUNT)
    modifies g
    ensures var ps := g.state.players;
      |ps| == PLAYER_COUNT && Seated(ps, g.state.humanPlayerId) &&
      g.state.humanPlayerId == Scale(humanDraw, PLAYER_COUNT) &&
      multiset(Roles(ps)) == multiset(Distribution(LEGACY_ROLES)) &&
      !CheckWinCondition(ps, LEGACY_ROLES.werewolf).gameOver
    ensures Roles(g.state.players) == FisherYates(Distribution(LEGACY_ROLES), draws)
    ensures g.state == Initialized(old(g.state), g.state.players, g.state.humanPlayerId)
  {
    var roles := ShuffleArray(Distribution(LEGACY_ROLES), draws);
    var humanId := Scale(humanDraw, PLAYER_COUNT);
    var ps := DealSeats(g.names, roles, humanId, None);
    DealtMultiset(ps, roles, humanId, None);
    assert Roles(ps) == roles;
    SeatedAlive(ps, humanId);
    EditionsDistinctWolf();
    InitialDealGoesOn(ps, LEGACY_ROLES);
    g.state := Initialized(g.state, ps, humanId);
  }

  // ---------------------------------------------------------------- player action

  /** The human may act: it exists and is alive, or it is a dead hunter (by the Chinese
      name) in HUNTER_MAY_ACT. */
  predicate LegacyMayAct(s: State) {
    var h := Human(s.players);
    h.Some? && (h.value.isAlive || (h.value.role == LEGACY_ROLES.hunter && s.gamePhase == HunterMayAct))
  }

  /** `handlePlayerAction` of the older app: the same branches as the hook-based app,
      with the Chinese role names; a refused target releases the flag and changes nothing,
      except a refused vote, which throws and leaves the flag set. */
  function LegacyPlayerAction(s: State, actionType: string, target: Option<int>,
                              replies: seq<Option<string>>, draws: seq<real>): State
    requires AppActions.Enough(s, replies, draws)
  {
    if s.winner.Some? || s.isProcessingStep then s
    else if !LegacyMayAct(s) then s
    else
      var r := Branch(s, LEGACY_ROLES, Human(s.players).value, actionType, target, replies, draws);
      if r.Some? then r.value.(isProcessingStep := false)
      else if s.gamePhase == Voting then s.(isProcessingStep := true)
      else s
  }

  /** Nothing happens while there is a winner or a step holds the flag, nor for a human
      who may not act. */
  lemma LegacyActionGate(s: State, actionType: string, target: Option<int>,
                         replies: seq<Option<string>>, draws: seq<real>)
    requires AppActions.Enough(s, replies, draws)
    ensures (s.winner.Some? || s.isProcessingStep || !LegacyMayAct(s)) ==>
      LegacyPlayerAction(s, actionType, target, replies, draws) == s
  {
  }

  /** The human's turn in a night phase of its own role, with the gate open. */
  predicate OwnTurn(s: State, role: string, phase: Phase) {
    s.winner.None? && !s.isProcessingStep && s.gamePhase == phase &&
    Human(s.players).Some? && Human(s.players).value.isAlive && Human(s.players).value.role == role
  }

  /** A human wolf's target is taken exactly when it is an alive player, and the guard
      comes next; any other target changes nothing. */
  lemma LegacyWolfRule(s: State, target: Option<int>, replies: seq<Option<string>>, draws: seq<real>)
    requires AppActions.Enough(s, replies, draws) && OwnTurn(s, LEGACY_ROLES.werewolf, WerewolvesAct)
    ensures var t := LegacyPlayerAction(s, "", target, replies, draws);
      (t.gamePhase == GuardActs <==> AliveTarget(s.players, target)) &&
      (AliveTarget(s.players, target) ==> t.werewolfTargetId == target && t.players == s.players) &&
      (!AliveTarget(s.players, target) ==> t == s)
  {
    var h := Human(s.players).value;
    assert Branch(s, LEGACY_ROLES, h, "", target, replies, draws) == WolfAction(s, h, target);
    if AliveTarget(s.players, target) {
      Takes(s, "", target, replies, draws);
    } else {
      Refuses(s, "", target, replies, draws);
    }
  }

  /** A human guard cannot protect last night's player: that, a missing target or a dead
      or unknown one changes nothing; an accepted one is protected and remembered, and the
      seer comes next. */
  lemma LegacyGuardRule(s: State, target: Option<int>, replies: seq<Option<string>>, draws: seq<real>)
    requires AppActions.Enough(s, replies, draws) && OwnTurn(s, LEGACY_ROLES.guard, GuardActs)
    ensures var t := LegacyPlayerAction(s, "", target, replies, draws);
      var ok := AliveTarget(s.players, target) && target != s.guardLastProtectedId;
      (t.gamePhase == SeerActs <==> ok) &&
      (ok ==> t.guardLastProtectedId == target && t.players == MarkProtected(s.players, target.value)) &&
      (!ok ==> t == s)
  {
    var h := Human(s.players).value;
    assert Branch(s, LEGACY_ROLES, h, "", target, replies, draws) == GuardAction(s, h, target);
    if GuardAction(s, h, target).Some? {
      Takes(s, "", target, replies, draws);
    } else {
      Refuses(s, "", target, replies, draws);
    }
  }

  /** A human seer learns the true role of an alive target, and the witch comes next; any
      other target changes nothing. */
  lemma LegacySeerRule(s: State, target: Option<int>, replies: seq<Option<string>>, draws: seq<real>)
    requires AppActions.Enough(s, replies, draws) && OwnTurn(s, LEGACY_ROLES.seer, SeerActs)
    ensures var t := LegacyPlayerAction(s, "", target, replies, draws);
      (t.gamePhase == WitchActsSave <==> AliveTarget(s.players, target)) &&
      (AliveTarget(s.players, target) ==>
         t.seerLastCheck.Some? && t.seerLastCheck.value.targetId == target.value &&
         (exists p :: p in s.players && p.id == target.value && p.role == t.seerLastCheck.value.targetRole)) &&
      (!AliveTarget(s.players, target) ==> t == s)
  {
    var h := Human(s.players).value;
    assert Branch(s, LEGACY_ROLES, h, "", target, replies, draws) == SeerAction(s, h, target);
    if AliveTarget(s.players, target) {
      Takes(s, "", target, replies, draws);
      var p := FindById(s.players, target.value).value;
      assert p in s.players;
    } else {
      Refuses(s, "", target, replies, draws);
    }
  }

  /** A human witch with the poison left cannot poison their own player, a dead or an unknown
      player: those change nothing; otherwise the target is poisoned, the poison spent,
      and the night is resolved next. */
  lemma LegacyPoisonRule(s: State, target: Option<int>, replies: seq<Option<string>>, draws: seq<real>)
    requires AppActions.Enough(s, replies, draws) && OwnTurn(s, LEGACY_ROLES.witch, WitchActsPoison)
    requires s.witchPotions.poison && target.Some?
    ensures var t := LegacyPlayerAction(s, USE_POISON, target, replies, draws);
      var ok := AliveTarget(s.players, target) && target.value != Human(s.players).value.id;
      (t.gamePhase == NightResolution <==> ok) &&
      (ok ==> t.playerToPoisonId == target && !t.witchPotions.poison &&
              t.witchPotions.antidote == s.witchPotions.antidote) &&
      (!ok ==> t == s)
  {
    var h := Human(s.players).value;
    assert Branch(s, LEGACY_ROLES, h, USE_POISON, target, replies, draws) == PoisonAction(s, h, USE_POISON, target);
    if PoisonAction(s, h, USE_POISON, target).Some? {
      Takes(s, USE_POISON, target, replies, draws);
    }
  }

  /** A dead human hunter cannot shoot their own player, a dead or an unknown player: those change
      nothing; a shot kills the target, is recorded, and either ends the game or leads to
      the discussion. */
  lemma LegacyHunterRule(s: State, target: Option<int>, replies: seq<Option<string>>, draws: seq<real>)
    requires AppActions.Enough(s, replies, draws) && UniqueIds(s.players)
    requires s.winner.None? && !s.isProcessingStep && s.gamePhase == HunterMayAct
    requires Human(s.players).Some? && !Human(s.players).value.isAlive
    requires Human(s.players).value.role == LEGACY_ROLES.hunter
    requires target.Some?
    ensures var t := LegacyPlayerAction(s, HUNTER_SHOOT, target, replies, draws);
      var ok := AliveTarget(s.players, target) && target.value != Human(s.players).value.id;
      (ok ==> t.hunterTargetId == target && t.players == ShootAll(s.players, target.value) &&
              (t.gamePhase == Discussion || (t.gamePhase == GameOver && t.winner.Some?))) &&
      (!ok ==> t == s)
  {
    var h := Human(s.players).value;
    HunterFound(s.players, h);
    var r := HunterAction(s, LEGACY_ROLES, h, HUNTER_SHOOT, target);
    assert Branch(s, LEGACY_ROLES, h, HUNTER_SHOOT, target, replies, draws) == r;
    if AliveTarget(s.players, target) && target.value != h.id {
      var shot := ShootAll(s.players, target.value);
      WinnerIsFinal(s.(players := shot, hunterTargetId := target), shot, LEGACY_ROLES.werewolf);
      Takes(s, HUNTER_SHOOT, target, replies, draws);
    }
  }

  /** With the gate open and a branch that accepts, the action is the branch's state with
      the flag released. */
  lemma Takes(s: State, actionType: string, target: Option<int>, replies: seq<Option<string>>,
              draws: seq<real>)
    requires AppActions.Enough(s, replies, draws)
    requires s.winner.None? && !s.isProcessingStep && LegacyMayAct(s)
    requires Branch(s, LEGACY_ROLES, Human(s.players).value, actionType, target, replies, draws).Some?
    ensures LegacyPlayerAction(s, actionType, target, replies, draws) ==
      Branch(s, LEGACY_ROLES, Human(s.players).value, actionType, target, replies, draws).value
        .(isProcessingStep := false)
  {
  }

  /** With the gate open and a branch that refuses outside the voting phase, nothing
      changes. */
  lemma Refuses(s: State, actionType: string, target: Option<int>, replies: seq<Option<string>>,
                draws: seq<real>)
    requires AppActions.Enough(s, replies, draws)
    requires s.winner.None? && !s.isProcessingStep && LegacyMayAct(s) && s.gamePhase != Voting
    requires Branch(s, LEGACY_ROLES, Human(s.players).value, actionType, target, replies, draws).None?
    ensures LegacyPlayerAction(s, actionType, target, replies, draws) == s
  {
  }

  /** With unique ids, the dead human hunter's own record is the first dead hunter record
      with its id. */
  lemma {:induction false} HunterFound(ps: seq<Player>, h: Player)
    requires UniqueIds(ps) && h in ps && !h.isAlive && h.role == LEGACY_ROLES.hunter
    ensures DeadHunterRecord(ps, h.id) == Some(h)
  {
    if ps[0] != h {
      assert ps[0].id != h.id by {
        var j :| 0 <= j < |ps| && ps[j] == h;
        assert j != 0;
      }
      assert UniqueIds(ps[1..]) by {
        forall i, j | 0 <= i < j < |ps| - 1 ensures ps[1..][i].id != ps[1..][j].id {
          assert ps[1..][i] == ps[i + 1] && ps[1..][j] == ps[j + 1];
        }
      }
      HunterFound(ps[1..], h);
    }
  }

  /** A refused vote (a missing, unknown or dead target, or the human) throws after the
      flag was set: nothing else changes and the flag stays set, so no further step or
      action runs. */
  lemma RefusedVoteKeepsFlag(s: State, target: Option<int>, replies: seq<Option<string>>, draws: seq<real>)
    requires AppActions.Enough(s, replies, draws)
    requires s.winner.None? && !s.isProcessingStep && s.gamePhase == Voting
    requires Human(s.players).Some? && Human(s.players).value.isAlive
    requires !AliveTarget(s.players, target) || target.value == Human(s.players).value.id
    ensures var t := LegacyPlayerAction(s, "", target, replies, draws);
      t == s.(isProcessingStep := true) && t.isProcessingStep &&
      forall a, x, rs, ds | AppActions.Enough(t, rs, ds) :: LegacyPlayerAction(t, a, x, rs, ds) == t
  {
  }

  /** An accepted vote is recorded, the AI votes are collected, the flag is released and
      the phase stays VOTING. */
  lemma LegacyVoteRule(s: State, target: Option<int>, replies: seq<Option<string>>, draws: seq<real>)
    requires AppActions.Enough(s, replies, draws) && UniqueIds(s.players)
    requires s.winner.None? && !s.isProcessingStep && s.gamePhase == Voting
    requires Human(s.players).Some? && Human(s.players).value.isAlive
    requires AliveTarget(s.players, target) && target.value != Human(s.players).value.id
    ensures var h := Human(s.players).value;
      var t := LegacyPlayerAction(s, "", target, replies, draws);
      t.gamePhase == Voting && !t.isProcessingStep && t.players == s.players &&
      h.id in t.currentVotes && t.currentVotes[h.id] == target &&
      (forall p :: p in s.players && p.isAlive && !p.isHuman ==> p.id in t.currentVotes)
  {
    var h := Human(s.players).value;
    VoteRecorded(s, h, target, replies, draws);
    AppActions.BranchVoting(s, LEGACY_ROLES, h, "", target, replies, draws);
    Takes(s, "", target, replies, draws);
  }

  /** `handlePlayerAction` of the older app on the game `g`. */
  method LegacyHandlePlayerAction(g: Game, actionType: string, target: Option<int>,
                                  replies: seq<Option<string>>, draws: seq<real>)
    requires g.names == LEGACY_ROLES && AppActions.Enough(g.state, replies, draws)
    modifies g
    ensures g.state == LegacyPlayerAction(old(g.state), actionType, target, replies, draws)
  {
    var s := g.state;
    if s.winner.Some? || s.isProcessingStep {
      return;
    }
    g.state := g.state.(isProcessingStep := true);
    var human := Human(s.players);
    if human.None? || (!human.value.isAlive && !(human.value.role == LEGACY_ROLES.hunter && s.gamePhase == HunterMayAct)) {
      g.state := g.state.(isProcessingStep := false);
      return;
    }
    var h := human.value;
    if s.gamePhase == Voting && h.isAlive {
      AppActions.BranchVoting(s, LEGACY_ROLES, h, actionType, target, replies, draws);
      if !AliveTarget(s.players, target) || target.value == h.id {
        return;
      }
      var aiVotes, _ := CollectAIVotes(s.players, s.currentVotes, replies, draws);
      g.state := s.(currentVotes := s.currentVotes[h.id := target] + aiVotes);
      Takes(s, actionType, target, replies, draws);
    } else {
      var r := Branch(s, g.names, h, actionType, target, replies, draws);
      g.state := if r.Some? then r.value else s;
      if r.Some? {
        Takes(s, actionType, target, replies, draws);
      } else if s.gamePhase != Voting {
        Refuses(s, actionType, target, replies, draws);
      }
    }
    g.state := g.state.(isProcessingStep := false);
  }

  // ---------------------------------------------------------------- day start

  /** DAY_START of the older app: as in the hook-based app, but the pending deaths are
      forgotten at the end of the step. */
  function LegacyDayStart(s: State): State {
    DayStartStep(s, LEGACY_ROLES).(pendingDeathPlayerIds := [])
  }

  /** A hunter among last night's dead gets to shoot; otherwise the first alive player
      speaks. Either way no pending death is left, where the hook-based step keeps them. */
  lemma LegacyDayStartRule(s: State)
    ensures var t := LegacyDayStart(s);
      t.pendingDeathPlayerIds == [] && t.players == s.players &&
      (t.gamePhase == HunterMayAct <==> HunterDied(s, LEGACY_ROLES.hunter)) &&
      (t.gamePhase == HunterMayAct ==> t.hunterTargetId.None?) &&
      (t.gamePhase != HunterMayAct ==>
         t.gamePhase == Discussion && t.currentPlayerSpeakingId == FirstSpeaker(s.players)) &&
      DayStartStep(s, LEGACY_ROLES).pendingDeathPlayerIds == s.pendingDeathPlayerIds
  {
  }

  /** On the game `g`. */
  method LegacyDayStartOn(g: Game)
    requires g.names == LEGACY_ROLES
    modifies g
    ensures g.state == LegacyDayStart(old(g.state))
  {
    var s := g.state;
    if HunterDied(s, LEGACY_ROLES.hunter) {
      g.state := s.(hunterTargetId := None, gamePhase := HunterMayAct);
    } else {
      g.state := s.(currentPlayerSpeakingId := FirstSpeaker(s.players), gamePhase := Discussion);
    }
    g.state := g.state.(pendingDeathPlayerIds := []);
  }
}
