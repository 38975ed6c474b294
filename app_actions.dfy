// The human player's actions in the hook-based app: `handlePlayerAction`, which checks
// the chosen target against the phase's rules and records it, and
// `handleSpeechSubmission`. The role branches compare the human's role with the
// Chinese role names of the older edition, while the hook-based game deals the English
// role keys, so in this app those branches are never taken; the model keeps the
// comparisons as written and proves what they lead to.

module AppActions {
  import opened Wrappers
  import opened JsStrings
  import opened GameModel
  import opened AiUtils
  import opened GameLogic
  import opened PhaseManager

  const USE_ANTIDOTE := "USE_ANTIDOTE"
  const SKIP_ANTIDOTE := "SKIP_ANTIDOTE"
  const USE_POISON := "USE_POISON"
  const SKIP_POISON := "SKIP_POISON"
  const HUNTER_SHOOT := "HUNTER_SHOOT"

  /** The role the refusal check compares with (an English key). */
  const HUNTER_KEY := "HUNTER"

  /** The human may act: there is a human and it is alive, or it is a dead hunter (by
      the English key) in HUNTER_MAY_ACT. */
  predicate MayAct(s: State) {
    var h := Human(s.players);
    h.Some? && (h.value.isAlive || (h.value.role == HUNTER_KEY && s.gamePhase == HunterMayAct))
  }

  /** The first record with the human's id that is a dead hunter by the Chinese name. */
  function DeadHunterRecord(ps: seq<Player>, id: int): (r: Option<Player>)
    ensures r.Some? ==> r.value in ps && r.value.id == id && r.value.role == LEGACY_ROLES.hunter &&
                        !r.value.isAlive
  {
    if |ps| == 0 then None
    else if ps[0].id == id && ps[0].role == LEGACY_ROLES.hunter && !ps[0].isAlive then Some(ps[0])
    else DeadHunterRecord(ps[1..], id)
  }

  /** A target that `find` reaches and that is alive. */
  predicate AliveTarget(ps: seq<Player>, target: Option<int>) {
    target.Some? && IsAliveId(ps, target.value)
  }

  /** The werewolf branch: record an alive target and move on to the guard. */
  function WolfAction(s: State, h: Player, target: Option<int>): Option<State> {
    if h.role != LEGACY_ROLES.werewolf then Some(s)
    else if !AliveTarget(s.players, target) then None
    else Some(s.(werewolfTargetId := target, gamePhase := GuardActs))
  }

  /** The guard branch: refuse last night's choice and dead or unknown targets, protect
      the rest and move on to the seer. */
  function GuardAction(s: State, h: Player, target: Option<int>): Option<State> {
    if h.role != LEGACY_ROLES.guard then Some(s)
    else if target.None? || target == s.guardLastProtectedId then None
    else if !AliveTarget(s.players, target) then None
    else Some(s.(players := MarkProtected(s.players, target.value), guardLastProtectedId := target,
                 gamePhase := SeerActs))
  }

  /** The seer branch: check an alive target's role and move on to the witch. */
  function SeerAction(s: State, h: Player, target: Option<int>): Option<State> {
    if h.role != LEGACY_ROLES.seer then Some(s)
    else if !AliveTarget(s.players, target) then None
    else Some(s.(seerLastCheck := Some(SeerCheck(target.value, FindById(s.players, target.value).value.role)),
                 gamePhase := WitchActsSave))
  }

  /** The antidote branch: heal the wolves' victim when asked to, the antidote is left,
      and the victim is found alive with a truthy id (player 0 cannot be healed); then,
      whoever the human is, move on to the poison. */
  function SaveAction(s: State, h: Player, actionType: string): State {
    var v := Victim(s);
    var heal := h.role == LEGACY_ROLES.witch && actionType == USE_ANTIDOTE && s.witchPotions.antidote &&
                v.Some? && v.value.isAlive && s.werewolfTargetId.value != 0;
    var t := if heal then s.(players := MarkHealed(s.players, s.werewolfTargetId.value),
                             witchPotions := s.witchPotions.(antidote := false))
             else s;
    t.(gamePhase := WitchActsPoison)
  }

  /** The poison branch: poison an alive target other than the witch when asked to and
      the poison is left, or forget the poison target when skipping (or with none left);
      then move on to the night's resolution. */
  function PoisonAction(s: State, h: Player, actionType: string, target: Option<int>): Option<State> {
    if h.role != LEGACY_ROLES.witch then Some(s.(gamePhase := NightResolution))
    else if actionType == USE_POISON && target.Some? && s.witchPotions.poison then
      if !AliveTarget(s.players, target) || target.value == h.id then None
      else Some(s.(playerToPoisonId := target, witchPotions := s.witchPotions.(poison := false),
                   gamePhase := NightResolution))
    else if actionType == SKIP_POISON || !s.witchPotions.poison then
      Some(s.(playerToPoisonId := None, gamePhase := NightResolution))
    else Some(s.(gamePhase := NightResolution))
  }

  /** The hunter branch: a dead human hunter (by the Chinese name) shooting an alive
      player other than the hunter kills every record with that id, records the shot and
      runs the win check, which ends the action if the game is over; otherwise move on
      to the discussion. */
  function HunterAction(s: State, names: RoleNames, h: Player, actionType: string, target: Option<int>)
    : Option<State>
  {
    var hunter := DeadHunterRecord(s.players, h.id);
    if hunter.Some? && actionType == HUNTER_SHOOT && target.Some? then
      if !AliveTarget(s.players, target) || target.value == hunter.value.id then None
      else
        var shot := ShootAll(s.players, target.value);
        var w := WinCheck(s.(players := shot, hunterTargetId := target), shot, names.werewolf);
        if !w.1 then Some(w.0) else Some(w.0.(gamePhase := Discussion))
    else Some(s.(gamePhase := Discussion))
  }

  /** The AI voters have enough replies and draws. */
  predicate Enough(s: State, replies: seq<Option<string>>, draws: seq<real>) {
    |replies| >= |AliveAIs(s.players)| && Draws(draws, |AliveAIs(s.players)|)
  }

  /** The vote branch: an alive human votes for an alive player other than itself; the
      vote is recorded and the missing AI votes are collected against the votes as they
      were before the human's, leaving the phase to the next step. */
  function VoteAction(s: State, h: Player, target: Option<int>, replies: seq<Option<string>>,
                      draws: seq<real>): Option<State>
    requires Enough(s, replies, draws)
  {
    if !h.isAlive then Some(s)
    else if !AliveTarget(s.players, target) || target.value == h.id then None
    else
      var aiVotes := NewVotes(s.players, s.currentVotes, AliveAIs(s.players), replies, draws);
      Some(s.(currentVotes := s.currentVotes[h.id := target] + aiVotes))
  }

  /** The switch of `handlePlayerAction` on the phase, for the human `h`: the branch's
      new state, or `None` for a refused target. Phases without a branch change nothing. */
  function Branch(s: State, names: RoleNames, h: Player, actionType: string, target: Option<int>,
                  replies: seq<Option<string>>, draws: seq<real>): Option<State>
    requires Enough(s, replies, draws)
  {
    match s.gamePhase
    case WerewolvesAct => WolfAction(s, h, target)
    case GuardActs => GuardAction(s, h, target)
    case SeerActs => SeerAction(s, h, target)
    case WitchActsSave => Some(SaveAction(s, h, actionType))
    case WitchActsPoison => PoisonAction(s, h, actionType, target)
    case HunterMayAct => HunterAction(s, names, h, actionType, target)
    case Voting => VoteAction(s, h, target, replies, draws)
    case _ => Some(s)
  }

  /** `handlePlayerAction`: nothing while there is a winner or another step holds the
      flag; a human who may not act is refused; otherwise the phase's branch runs. A
      refused target leaves the state as it was, and every path ends with the flag
      released. */
  function PlayerAction(s: State, names: RoleNames, actionType: string, target: Option<int>,
                        replies: seq<Option<string>>, draws: seq<real>): State
    requires Enough(s, replies, draws)
  {
    if s.winner.Some? || s.isProcessingStep then s
    else if !MayAct(s) then s
    else
      var r := Branch(s, names, Human(s.players).value, actionType, target, replies, draws);
      if r.Some? then r.value.(isProcessingStep := false) else s
  }

  /** In the voting phase the switch takes the vote branch. */
  lemma BranchVoting(s: State, names: RoleNames, h: Player, actionType: string, target: Option<int>,
                     replies: seq<Option<string>>, draws: seq<real>)
    requires Enough(s, replies, draws) && s.gamePhase == Voting
    ensures Branch(s, names, h, actionType, target, replies, draws) == VoteAction(s, h, target, replies, draws)
  {
  }

  /** With the gate open, the action is the branch's state with the flag released, or no
      change when the branch refuses. */
  lemma ActionOutcome(s: State, names: RoleNames, actionType: string, target: Option<int>,
                      replies: seq<Option<string>>, draws: seq<real>)
    requires Enough(s, replies, draws) && s.winner.None? && !s.isProcessingStep && MayAct(s)
    ensures var r := Branch(s, names, Human(s.players).value, actionType, target, replies, draws);
      PlayerAction(s, names, actionType, target, replies, draws) ==
        if r.Some? then r.value.(isProcessingStep := false) else s
  {
  }

  // ---------------------------------------------------------------- properties

  /** The hook edition's role keys are none of the Chinese names. */
  predicate HookRole(role: string) {
    role == ROLES.werewolf || role == ROLES.seer || role == ROLES.witch ||
    role == ROLES.hunter || role == ROLES.guard || role == ROLES.villager
  }

  lemma HookRolesAreNotLegacy(role: string)
    requires HookRole(role)
    ensures role != LEGACY_ROLES.werewolf && role != LEGACY_ROLES.seer && role != LEGACY_ROLES.witch &&
            role != LEGACY_ROLES.hunter && role != LEGACY_ROLES.guard
  {
    assert role[0] in "WSHGV";
    assert LEGACY_ROLES.werewolf[0] !in "WSHGV";
    assert LEGACY_ROLES.seer[0] !in "WSHGV";
    assert LEGACY_ROLES.witch[0] !in "WSHGV";
    assert LEGACY_ROLES.hunter[0] !in "WSHGV";
    assert LEGACY_ROLES.guard[0] !in "WSHGV";
  }

  /** With a winner, or while the flag is held, an action changes nothing; any action
      that gets past that check ends with the flag released; a human who may not act
      changes nothing at all. */
  lemma ActionGate(s: State, names: RoleNames, actionType: string, target: Option<int>,
                   replies: seq<Option<string>>, draws: seq<real>)
    requires Enough(s, replies, draws)
    ensures var t := PlayerAction(s, names, actionType, target, replies, draws);
      (s.winner.Some? || s.isProcessingStep ==> t == s) &&
      (!s.isProcessingStep ==> !t.isProcessingStep) &&
      (s.winner.None? && !MayAct(s) ==> t == s)
  {
  }

  /** In the hook edition the wolf, guard and seer branches never match, so an action in
      those phases changes nothing. */
  lemma NightRolesNeverMatch(s: State, names: RoleNames, actionType: string, target: Option<int>,
                             replies: seq<Option<string>>, draws: seq<real>)
    requires Enough(s, replies, draws)
    requires s.winner.None? && !s.isProcessingStep && MayAct(s)
    requires s.gamePhase == WerewolvesAct || s.gamePhase == GuardActs || s.gamePhase == SeerActs
    requires HookRole(Human(s.players).value.role)
    ensures PlayerAction(s, names, actionType, target, replies, draws) == s
  {
    HookRolesAreNotLegacy(Human(s.players).value.role);
  }

  /** In the hook edition the antidote phase always moves to the poison phase and the
      poison phase to the night's resolution, with nothing else changed. */
  lemma WitchRoleNeverMatches(s: State, names: RoleNames, actionType: string, target: Option<int>,
                              replies: seq<Option<string>>, draws: seq<real>)
    requires Enough(s, replies, draws)
    requires s.winner.None? && !s.isProcessingStep && MayAct(s)
    requires s.gamePhase == WitchActsSave || s.gamePhase == WitchActsPoison
    requires HookRole(Human(s.players).value.role)
    ensures var t := PlayerAction(s, names, actionType, target, replies, draws);
      t == s.(gamePhase := if s.gamePhase == WitchActsSave then WitchActsPoison else NightResolution)
  {
    HookRolesAreNotLegacy(Human(s.players).value.role);
  }

  /** In the hook edition the hunter's phase always moves to the discussion, with
      nothing else changed: no record is a hunter by the Chinese name. */
  lemma HunterRoleNeverMatches(s: State, names: RoleNames, actionType: string, target: Option<int>,
                               replies: seq<Option<string>>, draws: seq<real>)
    requires Enough(s, replies, draws)
    requires s.winner.None? && !s.isProcessingStep && MayAct(s) && s.gamePhase == HunterMayAct
    requires forall p :: p in s.players ==> HookRole(p.role)
    ensures PlayerAction(s, names, actionType, target, replies, draws) == s.(gamePhase := Discussion)
  {
    var h := Human(s.players).value;
    NoLegacyHunter(s.players, h.id);
    assert Branch(s, names, h, actionType, target, replies, draws) == HunterAction(s, names, h, actionType, target);
    ActionOutcome(s, names, actionType, target, replies, draws);
  }

  /** Where every role is a hook role, no record is a hunter by the Chinese name. */
  lemma NoLegacyHunter(ps: seq<Player>, id: int)
    requires forall p :: p in ps ==> HookRole(p.role)
    ensures DeadHunterRecord(ps, id).None?
  {
    var r := DeadHunterRecord(ps, id);
    if r.Some? {
      HookRolesAreNotLegacy(r.value.role);
    }
  }

  /** A vote by an alive human is refused (changing nothing) when the target is missing,
      unknown, dead or the human; an accepted vote is recorded, every earlier vote of
      another player is kept, every alive AI has a vote, and the phase and the players
      are left alone. */
  lemma VoteRule(s: State, names: RoleNames, actionType: string, target: Option<int>,
                 replies: seq<Option<string>>, draws: seq<real>)
    requires Enough(s, replies, draws) && UniqueIds(s.players)
    requires s.winner.None? && !s.isProcessingStep && s.gamePhase == Voting
    requires Human(s.players).Some? && Human(s.players).value.isAlive
    ensures var h := Human(s.players).value;
      var t := PlayerAction(s, names, actionType, target, replies, draws);
      ((!AliveTarget(s.players, target) || target.value == h.id) ==> t == s) &&
      ((AliveTarget(s.players, target) && target.value != h.id) ==>
         t.gamePhase == Voting && t.players == s.players &&
         h.id in t.currentVotes && t.currentVotes[h.id] == target &&
         (forall id :: id in s.currentVotes && id != h.id ==>
            id in t.currentVotes && t.currentVotes[id] == s.currentVotes[id]) &&
         (forall p :: p in s.players && p.isAlive && !p.isHuman ==> p.id in t.currentVotes))
  {
    var h := Human(s.players).value;
    assert MayAct(s);
    BranchVoting(s, names, h, actionType, target, replies, draws);
    ActionOutcome(s, names, actionType, target, replies, draws);
    if AliveTarget(s.players, target) && target.value != h.id {
      VoteRecorded(s, h, target, replies, draws);
    }
  }

  lemma VoteRecorded(s: State, h: Player, target: Option<int>, replies: seq<Option<string>>,
                     draws: seq<real>)
    requires Enough(s, replies, draws) && UniqueIds(s.players)
    requires h in s.players && h.isHuman && h.isAlive
    requires AliveTarget(s.players, target) && target.value != h.id
    ensures var t := VoteAction(s, h, target, replies, draws).value;
      t.gamePhase == s.gamePhase && t.players == s.players &&
      h.id in t.currentVotes && t.currentVotes[h.id] == target &&
      (forall id :: id in s.currentVotes && id != h.id ==>
         id in t.currentVotes && t.currentVotes[id] == s.currentVotes[id]) &&
      (forall p :: p in s.players && p.isAlive && !p.isHuman ==> p.id in t.currentVotes)
  {
    var aiVotes := NewVotes(s.players, s.currentVotes, AliveAIs(s.players), replies, draws);
    NewVotesValid(s.players, s.currentVotes, AliveAIs(s.players), replies, draws);
    if h.id in aiVotes {
      var a :| a in AliveAIs(s.players) && a.id == h.id;
      HumanIsNoAI(s.players, h, a);
    }
  }

  /** With unique ids, the human shares its id with no AI. */
  lemma HumanIsNoAI(ps: seq<Player>, h: Player, a: Player)
    requires UniqueIds(ps) && h in ps && a in ps && h.isHuman && !a.isHuman
    ensures h.id != a.id
  {
    var i :| 0 <= i < |ps| && ps[i] == h;
    var j :| 0 <= j < |ps| && ps[j] == a;
    assert i != j;
    if i < j {} else {}
  }

  // ---------------------------------------------------------------- on the game

  /** `handlePlayerAction` on the game `g`. */
  method HandlePlayerAction(g: Game, actionType: string, target: Option<int>,
                            replies: seq<Option<string>>, draws: seq<real>)
    requires Enough(g.state, replies, draws)
    modifies g
    ensures g.state == PlayerAction(old(g.state), g.names, actionType, target, replies, draws)
  {
    var s := g.state;
    if s.winner.Some? || s.isProcessingStep {
      return;
    }
    g.state := g.state.(isProcessingStep := true);
    var human := Human(s.players);
    if human.None? || (!human.value.isAlive && !(human.value.role == HUNTER_KEY && s.gamePhase == HunterMayAct)) {
      g.state := g.state.(isProcessingStep := false);
      return;
    }
    var h := human.value;
    var r: Option<State>;
    if s.gamePhase == Voting && h.isAlive && AliveTarget(s.players, target) && target.value != h.id {
      var aiVotes, _ := CollectAIVotes(s.players, s.currentVotes, replies, draws);
      r := Some(s.(currentVotes := s.currentVotes[h.id := target] + aiVotes));
      BranchVoting(s, g.names, h, actionType, target, replies, draws);
    } else {
      r := Branch(s, g.names, h, actionType, target, replies, draws);
    }
    assert r == Branch(s, g.names, h, actionType, target, replies, draws);
    ActionOutcome(s, g.names, actionType, target, replies, draws);
    if r.Some? {
      g.state := r.value;
    } else {
      g.state := s;
    }
    g.state := g.state.(isProcessingStep := false);
  }

  /** `handleSpeechSubmission`: the speech is logged when it is not blank after
      trimming (otherwise a skip is logged), the draft is cleared and the turn passes. */
  method HandleSpeechSubmission(g: Game, speech: string) returns (spoken: Option<string>, draft: string)
    modifies g
    ensures spoken == (if Trim(speech) != "" then Some(speech) else None)
    ensures draft == ""
    ensures g.state == NextSpeaker(old(g.state))
  {
    if Trim(speech) != "" {
      spoken := Some(speech);
    } else {
      spoken := None;
    }
    draft := "";
    g.HandleNextSpeaker();
  }
}
