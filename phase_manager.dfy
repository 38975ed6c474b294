// One run of the phase manager's effect (`executeCurrentStep`): a switch on the game
// phase that asks at most one AI for a decision, updates the game state through its
// setters and usually moves to the next phase. A run reads the state the render started
// with and its setters take effect together, so a step is a function from the state
// before to the state after; `ExecuteCurrentStep` performs it on a `Game` and is proved
// to move the game exactly as `Step` says.

module PhaseManager {
  import opened Wrappers
  import opened JsStrings
  import opened GameModel
  import opened GameUtils
  import opened AiUtils
  import opened GameLogic

  /** What the outside world supplies to one step: the AI provider's raw reply to the
      one decision the step asks for, the raw replies of the AI voters in order and the
      random draws of their fallback votes. */
  datatype Replies = Replies(decision: Option<string>, votes: seq<Option<string>>, draws: seq<real>)

  /** Enough voter replies and draws for every alive AI (only VOTING uses them). */
  predicate Enough(s: State, r: Replies) {
    |r.votes| >= |AliveAIs(s.players)| && Draws(r.draws, |AliveAIs(s.players)|)
  }

  // ---------------------------------------------------------------- helpers

  /** The human player holds `role` and is alive. */
  predicate HumanActs(ps: seq<Player>, role: string) {
    var h := Human(ps);
    h.Some? && h.value.role == role && h.value.isAlive
  }

  /** The alive AI players holding `role`, in list order. */
  function AliveAIsWith(ps: seq<Player>, role: string): (r: seq<Player>)
    ensures forall p :: p in r <==> p in ps && p.isAlive && !p.isHuman && p.role == role
  {
    WithRole(AliveAIs(ps), role)
  }

  /** Every player with the night marks (protected, bitten, healed) cleared. */
  function ClearNightMarks(ps: seq<Player>): (r: seq<Player>) {
    seq(|ps|, i requires 0 <= i < |ps| =>
      ps[i].(isProtected := false, isTargetedByWolf := false, isHealedByWitch := false))
  }

  /** Every player with id `id` marked protected. */
  function MarkProtected(ps: seq<Player>, id: int): (r: seq<Player>) {
    seq(|ps|, i requires 0 <= i < |ps| =>
      if ps[i].id == id then ps[i].(isProtected := true) else ps[i])
  }

  /** Every player with id `id` marked healed by the witch. */
  function MarkHealed(ps: seq<Player>, id: int): (r: seq<Player>) {
    seq(|ps|, i requires 0 <= i < |ps| =>
      if ps[i].id == id then ps[i].(isHealedByWitch := true) else ps[i])
  }

  /** Every player with id `id` shot: dead with the role revealed. */
  function ShootAll(ps: seq<Player>, id: int): (r: seq<Player>) {
    seq(|ps|, i requires 0 <= i < |ps| => if ps[i].id == id then Kill(ps[i]) else ps[i])
  }

  /** The first speaker of a discussion: the first alive player, or 0 when none is. */
  function FirstSpeaker(ps: seq<Player>): int {
    var f := FirstAliveId(ps);
    if f.Some? then f.value else 0
  }

  /** The wolves' victim as `find` returns it (nobody when there is no target). */
  function Victim(s: State): Option<Player> {
    if s.werewolfTargetId.Some? then FindById(s.players, s.werewolfTargetId.value) else None
  }

  /** A hunter who has fallen and may still shoot: dead, and either among last night's
      dead or the recorded hunter target. */
  predicate Fallen(s: State, p: Player, hunter: string) {
    p.role == hunter && !p.isAlive &&
    (p.id in s.pendingDeathPlayerIds || s.hunterTargetId == Some(p.id))
  }

  /** The first AI player that is a fallen hunter. */
  function FallenAIHunter(s: State, ps: seq<Player>, hunter: string): (r: Option<Player>)
    ensures r.Some? ==> r.value in ps && !r.value.isHuman && Fallen(s, r.value, hunter)
    ensures r.None? ==> forall p :: p in ps && !p.isHuman ==> !Fallen(s, p, hunter)
  {
    if |ps| == 0 then None
    else if !ps[0].isHuman && Fallen(s, ps[0], hunter) then Some(ps[0])
    else FallenAIHunter(s, ps[1..], hunter)
  }

  /** The human may still vote: alive, and the recorded vote is falsy in JavaScript
      (missing, null, or a vote for player 0). */
  predicate HumanCanVote(ps: seq<Player>, votes: map<int, Option<int>>) {
    var h := Human(ps);
    h.Some? && h.value.isAlive &&
    !(h.value.id in votes && votes[h.value.id].Some? && votes[h.value.id].value != 0)
  }

  /** Every alive player has a key in the vote record. */
  predicate AllVoted(ps: seq<Player>, votes: map<int, Option<int>>) {
    forall p :: p in ps && p.isAlive ==> p.id in votes
  }

  // ---------------------------------------------------------------- the phases

  /** NIGHT_START, once the role card is closed: forget both targets, clear every
      player's night marks and call the wolves. */
  function NightStartStep(s: State): State {
    if s.showRoleModal then s
    else s.(werewolfTargetId := None, playerToPoisonId := None,
            players := ClearNightMarks(s.players), gamePhase := WerewolvesAct)
  }

  /** WEREWOLVES_ACT. An alive human wolf without a target waits. Otherwise the first
      alive AI wolf, when there is one and no target yet, names a target that is kept
      if it is an alive player. The phase moves on only when a target was already set
      at the start of the step, or when no wolf is left to choose one. */
  function WerewolvesActStep(s: State, names: RoleNames, reply: Option<string>): State {
    var ps := s.players;
    if HumanActs(ps, names.werewolf) && s.werewolfTargetId.None? then s
    else
      var wolves := AliveAIsWith(ps, names.werewolf);
      var target := ParseIntJs(Decide("WEREWOLF_TARGET", reply));
      var t := if |wolves| > 0 && s.werewolfTargetId.None? &&
                  target.Some? && IsAliveId(ps, target.value)
               then s.(werewolfTargetId := target) else s;
      if s.werewolfTargetId.Some? || (|wolves| == 0 && !HumanActs(ps, names.werewolf))
      then t.(gamePhase := GuardActs) else t
  }

  /** GUARD_ACTS. An alive human guard waits. Otherwise the first alive AI guard names a
      player, protected when it is alive and not last night's choice; then the seer. */
  function GuardActsStep(s: State, names: RoleNames, reply: Option<string>): State {
    var ps := s.players;
    if HumanActs(ps, names.guard) then s
    else
      var guards := AliveAIsWith(ps, names.guard);
      var target := ParseIntJs(Decide("GUARD_PROTECT", reply));
      var t := if |guards| > 0 && target.Some? && target != s.guardLastProtectedId &&
                  IsAliveId(ps, target.value)
               then s.(players := MarkProtected(ps, target.value), guardLastProtectedId := target)
               else s;
      t.(gamePhase := SeerActs)
  }

  /** SEER_ACTS. An alive human seer waits. Otherwise the first alive AI seer names a
      player; an alive one has its role recorded as the seer's last check; then the
      witch. */
  function SeerActsStep(s: State, names: RoleNames, reply: Option<string>): State {
    var ps := s.players;
    if HumanActs(ps, names.seer) then s
    else
      var seers := AliveAIsWith(ps, names.seer);
      var target := ParseIntJs(Decide("SEER_CHECK", reply));
      var t := if |seers| > 0 && target.Some? && IsAliveId(ps, target.value)
               then s.(seerLastCheck := Some(SeerCheck(target.value, FindById(ps, target.value).value.role)))
               else s;
      t.(gamePhase := WitchActsSave)
  }

  /** The antidote can be used: it is unspent and the wolves' victim is alive. */
  predicate Savable(s: State) {
    var v := Victim(s);
    s.witchPotions.antidote && v.Some? && v.value.isAlive
  }

  /** WITCH_ACTS_SAVE. An alive human witch waits while the antidote can be used and
      otherwise moves to the poison. Without one, an alive AI witch heals the victim
      (spending the antidote) when the antidote can be used and the decision is exactly
      "yes"; then the poison. */
  function WitchSaveStep(s: State, names: RoleNames, reply: Option<string>): State {
    var ps := s.players;
    if HumanActs(ps, names.witch) then
      if Savable(s) then s else s.(gamePhase := WitchActsPoison)
    else
      var witches := AliveAIsWith(ps, names.witch);
      var t := if |witches| > 0 && Savable(s) && Decide("WITCH_SAVE_CHOICE", reply) == Some("yes")
               then s.(players := MarkHealed(ps, s.werewolfTargetId.value),
                       witchPotions := s.witchPotions.(antidote := false))
               else s;
      t.(gamePhase := WitchActsPoison)
  }

  /** WITCH_ACTS_POISON. An alive human witch waits. Otherwise an alive AI witch with the
      poison unspent names a target; one that is not "no", parses as a number, is alive
      and is not the witch is poisoned, spending the poison; then the night ends. */
  function WitchPoisonStep(s: State, names: RoleNames, reply: Option<string>): State {
    var ps := s.players;
    if HumanActs(ps, names.witch) then s
    else
      var witches := AliveAIsWith(ps, names.witch);
      var choice := Decide("WITCH_POISON_CHOICE", reply);
      var target := ParseIntJs(choice);
      var t := if |witches| > 0 && s.witchPotions.poison && choice != Some("no") && choice.Some? &&
                  target.Some? && IsAliveId(ps, target.value) && target.value != witches[0].id
               then s.(playerToPoisonId := target, witchPotions := s.witchPotions.(poison := false))
               else s;
      t.(gamePhase := NightResolution)
  }

  /** A hunter is among last night's dead. */
  predicate HunterDied(s: State, hunter: string) {
    exists p :: p in s.players && p.id in s.pendingDeathPlayerIds && !p.isAlive && p.role == hunter
  }

  /** DAY_START: a hunter among last night's dead gets to shoot (with no target yet);
      otherwise the discussion starts with the first alive player. The pending deaths are
      left as they are. */
  function DayStartStep(s: State, names: RoleNames): State {
    if HunterDied(s, names.hunter) then s.(hunterTargetId := None, gamePhase := HunterMayAct)
    else s.(currentPlayerSpeakingId := FirstSpeaker(s.players), gamePhase := Discussion)
  }

  /** The human is a fallen hunter. */
  predicate HumanHunterFallen(s: State, hunter: string) {
    var h := Human(s.players);
    h.Some? && Fallen(s, h.value, hunter)
  }

  /** HUNTER_MAY_ACT. A fallen human hunter waits. Otherwise the first fallen AI hunter
      names a target; one that is not "no", parses as a number, is alive and is not the
      hunter is shot (every record with that id) and becomes the hunter target, and the
      win check runs on the new list, ending the step if the game is over. Otherwise the
      discussion starts with the first player alive at the start of the step. */
  function HunterStep(s: State, names: RoleNames, reply: Option<string>): State {
    var ps := s.players;
    var discuss := s.(currentPlayerSpeakingId := FirstSpeaker(ps), gamePhase := Discussion);
    if HumanHunterFallen(s, names.hunter) then s
    else
      var hunter := FallenAIHunter(s, ps, names.hunter);
      var r := Decide("HUNTER_SHOOT", reply);
      var target := ParseIntJs(r);
      if hunter.Some? && r != Some("no") && target.Some? && IsAliveId(ps, target.value) &&
         target.value != hunter.value.id then
        var shot := ShootAll(ps, target.value);
        var w := WinCheck(s.(players := shot, hunterTargetId := target), shot, names.werewolf);
        if !w.1 then w.0
        else w.0.(currentPlayerSpeakingId := FirstSpeaker(ps), gamePhase := Discussion)
      else discuss
  }

  /** DISCUSSION: a human speaker whose turn it is is waited for; an AI speaker speaks
      and the turn passes on; a dead or unknown speaker is skipped while someone is
      alive; with nobody alive the vote starts. */
  function DiscussionStep(s: State): State {
    var speaker := FindById(s.players, s.currentPlayerSpeakingId);
    if speaker.Some? && speaker.value.isAlive then
      if speaker.value.isHuman then s else NextSpeaker(s)
    else if |AlivePlayers(s.players)| > 0 then NextSpeaker(s)
    else s.(gamePhase := Voting)
  }

  /** VOTING: wait while the human can still vote; otherwise collect the missing AI
      votes; once every alive player has a vote, count them. */
  function VotingStep(s: State, r: Replies): State
    requires Enough(s, r)
  {
    if HumanCanVote(s.players, s.currentVotes) then s
    else if !AllVoted(s.players, s.currentVotes) then AIVoting(s, r.votes, r.draws)
    else s.(gamePhase := VoteResults)
  }

  /** The switch on the phase. SETUP, SHOW_ROLE_MODAL and GAME_OVER do nothing. */
  function PhaseStep(s: State, names: RoleNames, r: Replies): State
    requires Enough(s, r)
  {
    match s.gamePhase
    case NightStart => NightStartStep(s)
    case WerewolvesAct => WerewolvesActStep(s, names, r.decision)
    case GuardActs => GuardActsStep(s, names, r.decision)
    case SeerActs => SeerActsStep(s, names, r.decision)
    case WitchActsSave => WitchSaveStep(s, names, r.decision)
    case WitchActsPoison => WitchPoisonStep(s, names, r.decision)
    case NightResolution => ResolveNight(s, names)
    case DayStart => DayStartStep(s, names)
    case HunterMayAct => HunterStep(s, names, r.decision)
    case Discussion => DiscussionStep(s)
    case Voting => VotingStep(s, r)
    case VoteResults => ResolveVote(s, names)
    case _ => s
  }

  /** Whether the effect runs a step at all: there are players (or the game is being set
      up), there is no winner, and no other step holds the processing flag (which SETUP
      and SHOW_ROLE_MODAL ignore). */
  predicate Runs(s: State) {
    (|s.players| > 0 || s.gamePhase == Setup || s.gamePhase == ShowRoleModal) &&
    s.winner.None? &&
    !(s.isProcessingStep && s.gamePhase != Setup && s.gamePhase != ShowRoleModal)
  }

  /** One run of the effect: take the processing flag, perform the phase's step and
      release the flag. */
  function Step(s: State, names: RoleNames, r: Replies): State
    requires Enough(s, r)
  {
    if !Runs(s) then s
    else PhaseStep(s.(isProcessingStep := true), names, r).(isProcessingStep := false)
  }

  // ---------------------------------------------------------------- properties

  /** The phases a step can move to from each phase. */
  function Successors(p: Phase): set<Phase> {
    match p
    case NightStart => {WerewolvesAct}
    case WerewolvesAct => {GuardActs}
    case GuardActs => {SeerActs}
    case SeerActs => {WitchActsSave}
    case WitchActsSave => {WitchActsPoison}
    case WitchActsPoison => {NightResolution}
    case NightResolution => {DayStart, GameOver}
    case DayStart => {HunterMayAct, Discussion}
    case HunterMayAct => {Discussion, GameOver}
    case Discussion => {Voting}
    case Voting => {VoteResults}
    case VoteResults => {HunterMayAct, NightStart, GameOver}
    case _ => {}
  }

  /** Every phase has its successors: a step stays in its phase or moves along the
      night, day and vote cycle, ending the game only where a win check runs; night
      resolution, day start and vote results never stay where they are. */
  lemma StepSuccessor(s: State, names: RoleNames, r: Replies)
    requires Enough(s, r)
    ensures var t := Step(s, names, r);
      t.gamePhase == s.gamePhase || t.gamePhase in Successors(s.gamePhase)
    ensures Runs(s) && (s.gamePhase == NightResolution || s.gamePhase == DayStart ||
                        s.gamePhase == VoteResults) ==>
      Step(s, names, r).gamePhase in Successors(s.gamePhase)
  {
    if Runs(s) {
      var s1 := s.(isProcessingStep := true);
      match s.gamePhase {
        case NightResolution =>
          var deaths := NightDeaths(s1.players, s1.werewolfTargetId, s1.playerToPoisonId);
          var ps := KillListed(s1.players, deaths);
          WinnerIsFinal(s1.(players := ps, pendingDeathPlayerIds := deaths), ps, names.werewolf);
        case HunterMayAct =>
          HunterPhase(s1, names, r.decision);
        case Discussion =>
          SpeakerIsAlive(s1);
        case VoteResults =>
          VotePhaseFound(s1, names, Eliminated(s1.players, s1.currentVotes));
        case _ =>
      }
    }
  }

  lemma HunterPhase(s: State, names: RoleNames, reply: Option<string>)
    requires s.gamePhase == HunterMayAct
    ensures HunterStep(s, names, reply).gamePhase in {HunterMayAct, Discussion, GameOver}
  {
    var ps := s.players;
    var hunter := FallenAIHunter(s, ps, names.hunter);
    var target := ParseIntJs(Decide("HUNTER_SHOOT", reply));
    if target.Some? {
      var shot := ShootAll(ps, target.value);
      WinnerIsFinal(s.(players := shot, hunterTargetId := target), shot, names.werewolf);
    }
  }

  /** Once a winner is recorded, or while another step holds the flag outside set-up,
      a step changes nothing; a step that runs always ends with the flag released. */
  lemma StepGate(s: State, names: RoleNames, r: Replies)
    requires Enough(s, r)
    ensures s.winner.Some? ==> Step(s, names, r) == s
    ensures s.isProcessingStep && s.gamePhase != Setup && s.gamePhase != ShowRoleModal ==>
      Step(s, names, r) == s
    ensures Runs(s) ==> !Step(s, names, r).isProcessingStep
  {
  }

  /** NIGHT_START with the role card closed keeps every player's id, role, life and
      revealed role, clears every night mark, forgets both targets and calls the wolves. */
  lemma NightStartClears(s: State, names: RoleNames, r: Replies)
    requires Enough(s, r) && Runs(s) && s.gamePhase == NightStart && !s.showRoleModal
    ensures var t := Step(s, names, r);
      t.gamePhase == WerewolvesAct && t.werewolfTargetId.None? && t.playerToPoisonId.None? &&
      |t.players| == |s.players| &&
      forall i :: 0 <= i < |s.players| ==>
        t.players[i] == s.players[i].(isProtected := false, isTargetedByWolf := false,
                                      isHealedByWitch := false)
  {
  }

  /** The AI guard never protects last night's choice or a dead player, and GUARD_ACTS
      moves to SEER_ACTS whether or not a protection was applied (unless an alive human
      guard is the one to act). */
  lemma GuardRule(s: State, names: RoleNames, r: Replies)
    requires Enough(s, r) && Runs(s) && s.gamePhase == GuardActs
    ensures var t := Step(s, names, r);
      (t.guardLastProtectedId != s.guardLastProtectedId ==>
         t.guardLastProtectedId.Some? && IsAliveId(s.players, t.guardLastProtectedId.value) &&
         t.players == MarkProtected(s.players, t.guardLastProtectedId.value)) &&
      (t.guardLastProtectedId == s.guardLastProtectedId ==> t.players == s.players) &&
      t.gamePhase == (if HumanActs(s.players, names.guard) then GuardActs else SeerActs)
  {
  }

  /** The AI witch spends the antidote only when it was unspent, the wolves' victim was
      alive and the decision was exactly "yes", and then heals exactly the victim. */
  lemma WitchSaveRule(s: State, names: RoleNames, r: Replies)
    requires Enough(s, r) && Runs(s) && s.gamePhase == WitchActsSave
    ensures var t := Step(s, names, r);
      (t.witchPotions != s.witchPotions ==>
         !HumanActs(s.players, names.witch) && Savable(s) &&
         Decide("WITCH_SAVE_CHOICE", r.decision) == Some("yes") &&
         t.witchPotions == Potions(false, s.witchPotions.poison) &&
         t.players == MarkHealed(s.players, s.werewolfTargetId.value)) &&
      (t.witchPotions == s.witchPotions ==> t.players == s.players)
  {
  }

  /** The AI witch poisons only with the poison unspent, only an alive player and never
      the witch, which spends the poison; without an alive human witch the night then ends. */
  lemma WitchPoisonRule(s: State, names: RoleNames, r: Replies)
    requires Enough(s, r) && Runs(s) && s.gamePhase == WitchActsPoison
    ensures var t := Step(s, names, r);
      (t.playerToPoisonId != s.playerToPoisonId || t.witchPotions != s.witchPotions ==>
         s.witchPotions.poison && !t.witchPotions.poison &&
         t.witchPotions.antidote == s.witchPotions.antidote &&
         t.playerToPoisonId.Some? && IsAliveId(s.players, t.playerToPoisonId.value) &&
         exists w :: w in s.players && w.isAlive && !w.isHuman && w.role == names.witch &&
                     w.id != t.playerToPoisonId.value) &&
      t.players == s.players &&
      t.gamePhase == (if HumanActs(s.players, names.witch) then WitchActsPoison else NightResolution)
  {
    var t := Step(s, names, r);
    if t.playerToPoisonId != s.playerToPoisonId || t.witchPotions != s.witchPotions {
      var witches := AliveAIsWith(s.players, names.witch);
      assert witches[0] in witches;
    }
  }

  /** DAY_START moves to HUNTER_MAY_ACT exactly when a hunter is among last night's dead,
      and otherwise to DISCUSSION with the first alive player speaking; the pending deaths
      are never cleared here. */
  lemma DayStartRule(s: State, names: RoleNames, r: Replies)
    requires Enough(s, r) && Runs(s) && s.gamePhase == DayStart
    ensures var t := Step(s, names, r);
      t.pendingDeathPlayerIds == s.pendingDeathPlayerIds && t.players == s.players &&
      (t.gamePhase == HunterMayAct <==> HunterDied(s, names.hunter)) &&
      (t.gamePhase == HunterMayAct ==> t.hunterTargetId.None?) &&
      (t.gamePhase != HunterMayAct ==>
         t.gamePhase == Discussion && t.currentPlayerSpeakingId == FirstSpeaker(s.players))
  {
  }

  /** The AI hunter only ever shoots an alive player other than the hunter, killing that
      player and recording the shot. */
  lemma HunterShotRule(s: State, names: RoleNames, r: Replies)
    requires Enough(s, r) && Runs(s) && s.gamePhase == HunterMayAct
    ensures var t := Step(s, names, r);
      t.players != s.players ==>
        !HumanHunterFallen(s, names.hunter) &&
        t.hunterTargetId.Some? && IsAliveId(s.players, t.hunterTargetId.value) &&
        t.players == ShootAll(s.players, t.hunterTargetId.value) &&
        exists h :: h in s.players && !h.isHuman && Fallen(s, h, names.hunter) &&
                    h.id != t.hunterTargetId.value
  {
    var s1 := s.(isProcessingStep := true);
    HunterShot(s1, names, r.decision);
  }

  lemma HunterShot(s: State, names: RoleNames, reply: Option<string>)
    ensures var t := HunterStep(s, names, reply);
      t.players != s.players ==>
        !HumanHunterFallen(s, names.hunter) &&
        t.hunterTargetId.Some? && IsAliveId(s.players, t.hunterTargetId.value) &&
        t.players == ShootAll(s.players, t.hunterTargetId.value) &&
        exists h :: h in s.players && !h.isHuman && Fallen(s, h, names.hunter) &&
                    h.id != t.hunterTargetId.value
  {
    var ps := s.players;
    var hunter := FallenAIHunter(s, ps, names.hunter);
    var choice := Decide("HUNTER_SHOOT", reply);
    var target := ParseIntJs(choice);
    if !HumanHunterFallen(s, names.hunter) && hunter.Some? && choice != Some("no") &&
       target.Some? && IsAliveId(ps, target.value) && target.value != hunter.value.id {
      var shot := ShootAll(ps, target.value);
      WinnerIsFinal(s.(players := shot, hunterTargetId := target), shot, names.werewolf);
      assert hunter.value in ps;
    }
  }

  /** VOTING moves on to the count only when every alive player has a vote, and a human
      whose recorded vote is for player 0 is still waited for: the check reads the vote's
      truthiness. */
  lemma VotingRule(s: State, names: RoleNames, r: Replies)
    requires Enough(s, r) && Runs(s) && s.gamePhase == Voting
    ensures var t := Step(s, names, r);
      (t.gamePhase == VoteResults ==> AllVoted(s.players, s.currentVotes)) &&
      (t.gamePhase == VoteResults <==>
         !HumanCanVote(s.players, s.currentVotes) && AllVoted(s.players, s.currentVotes))
    ensures var h := Human(s.players);
      (h.Some? && h.value.isAlive && h.value.id in s.currentVotes &&
       s.currentVotes[h.value.id] == Some(0)) ==>
        Step(s, names, r) == s.(isProcessingStep := false)
  {
  }

  /** With an AI wolf to act and no target yet, the step records the target but stays in
      WEREWOLVES_ACT; the next step, seeing the target, moves on. A reply that names no
      alive player leaves everything but the flag as it was. */
  lemma WolvesWaitForTarget(s: State, names: RoleNames, r: Replies)
    requires Enough(s, r) && Runs(s) && s.gamePhase == WerewolvesAct
    requires s.werewolfTargetId.None? && |AliveAIsWith(s.players, names.werewolf)| > 0
    ensures var t := Step(s, names, r);
      var target := ParseIntJs(Decide("WEREWOLF_TARGET", r.decision));
      t.gamePhase == WerewolvesAct &&
      ((!HumanActs(s.players, names.werewolf) && target.Some? && IsAliveId(s.players, target.value))
         ==> t == s.(werewolfTargetId := target, isProcessingStep := false)) &&
      ((target.None? || !IsAliveId(s.players, target.value)) ==> t == s.(isProcessingStep := false))
  {
    var s1 := s.(isProcessingStep := true);
    assert PhaseStep(s1, names, r) == WerewolvesActStep(s1, names, r.decision);
  }

  // ---------------------------------------------------------------- the step on a game

  /** `executeCurrentStep` on the game `g`: each phase's work is done through the game's
      own operations (night resolution, speaker rotation, AI voting, vote resolution,
      win-check wrapper) and state updates. */
  method ExecuteCurrentStep(g: Game, r: Replies)
    requires Enough(g.state, r)
    modifies g
    ensures g.state == Step(old(g.state), g.names, r)
  {
    var s := g.state;
    if !(|s.players| > 0 || s.gamePhase == Setup || s.gamePhase == ShowRoleModal) {
      return;
    }
    if s.winner.Some? {
      return;
    }
    if s.isProcessingStep && s.gamePhase != Setup && s.gamePhase != ShowRoleModal {
      return;
    }
    g.state := g.state.(isProcessingStep := true);
    match g.state.gamePhase {
      case NightStart =>
        g.state := NightStartStep(g.state);
      case WerewolvesAct =>
        g.state := WerewolvesActStep(g.state, g.names, r.decision);
      case GuardActs =>
        g.state := GuardActsStep(g.state, g.names, r.decision);
      case SeerActs =>
        g.state := SeerActsStep(g.state, g.names, r.decision);
      case WitchActsSave =>
        g.state := WitchSaveStep(g.state, g.names, r.decision);
      case WitchActsPoison =>
        g.state := WitchPoisonStep(g.state, g.names, r.decision);
      case NightResolution =>
        g.ResolveNightActions();
      case DayStart =>
        g.state := DayStartStep(g.state, g.names);
      case HunterMayAct =>
        HunterMayActOn(g, r.decision);
      case Discussion =>
        DiscussionOn(g);
      case Voting =>
        VotingOn(g, r);
      case VoteResults =>
        g.ResolveVoting();
      case _ =>
    }
    g.state := g.state.(isProcessingStep := false);
  }

  /** HUNTER_MAY_ACT on the game: the shot goes through the game's win-check wrapper. */
  method HunterMayActOn(g: Game, reply: Option<string>)
    modifies g
    ensures g.state == HunterStep(old(g.state), g.names, reply)
  {
    var s := g.state;
    var ps := s.players;
    if HumanHunterFallen(s, g.names.hunter) {
      return;
    }
    var hunter := FallenAIHunter(s, ps, g.names.hunter);
    var choice := Decide("HUNTER_SHOOT", reply);
    var target := ParseIntJs(choice);
    if hunter.Some? && choice != Some("no") && target.Some? && IsAliveId(ps, target.value) &&
       target.value != hunter.value.id {
      var shot := ShootAll(ps, target.value);
      g.state := g.state.(players := shot, hunterTargetId := target);
      var stillOn := g.CheckWinConditionWrapper(shot);
      if !stillOn {
        return;
      }
    }
    g.state := g.state.(currentPlayerSpeakingId := FirstSpeaker(ps), gamePhase := Discussion);
  }

  /** DISCUSSION on the game: the turn passes through the game's speaker rotation. */
  method DiscussionOn(g: Game)
    modifies g
    ensures g.state == DiscussionStep(old(g.state))
  {
    var speaker := FindById(g.state.players, g.state.currentPlayerSpeakingId);
    if speaker.Some? && speaker.value.isAlive {
      if !speaker.value.isHuman {
        g.HandleNextSpeaker();
      }
    } else if |AlivePlayers(g.state.players)| > 0 {
      g.HandleNextSpeaker();
    } else {
      g.state := g.state.(gamePhase := Voting);
    }
  }

  /** VOTING on the game: missing votes are collected through the game's AI voting. */
  method VotingOn(g: Game, r: Replies)
    requires Enough(g.state, r)
    modifies g
    ensures g.state == VotingStep(old(g.state), r)
  {
    var ps := g.state.players;
    var h := Human(ps);
    var votes := g.state.currentVotes;
    var humanCanVote := h.Some? && h.value.isAlive &&
      !(h.value.id in votes && votes[h.value.id].Some? && votes[h.value.id].value != 0);
    if humanCanVote {
      return;
    }
    var allVoted := forall p :: p in ps && p.isAlive ==> p.id in votes;
    if !allVoted {
      g.HandleAIVoting(r.votes, r.draws);
    } else {
      g.state := g.state.(gamePhase := VoteResults);
    }
  }
}
