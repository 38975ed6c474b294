# Werewolf game core, modelled in Dafny

This project models the rules core of the Werewolf ("狼人杀") web game, an eight-player
game of two werewolves against six villagers. One seat is human and the other seven are
played by an AI model. The modelled parts are:

- **Game rules** (`GameModel`, `GameUtils`, `GameLogic`):
  - the win condition and the Fisher-Yates shuffle;
  - the initial deal of roles;
  - night resolution, the vote count and the speaker rotation;
  - AI voting and game initialisation.
- **The game state** (`GameLogic.Game`): a class holding all fifteen pieces of React
  state as one record. Each method updates that record and is proved to do exactly
  what its specification function says.
- **The phase machine** (`PhaseManager`): one run of the effect that advances the game,
  as a function from state to state, plus a method on `Game` that performs it.
- **The human's actions** (`AppActions`, `LegacyApp`): `handlePlayerAction` and
  `handleSpeechSubmission` in the hook-based app (`src/App.jsx`), and the parts of the
  older single-file app (`app.jsx`) that differ from it.
- **AI decision cleaning** (`AiUtils`): how the provider's raw reply is cleaned and
  validated, and how the prompt shows other players' roles and the recent history.
- **The log store** (`LogManager`): an append-only list of entries with increasing ids,
  and the visibility rules for a player's screen and an AI's prompt.
- **The translation context** (`Language`): `t`, `tr`, `tp` and `switchLanguage`.
- **The tuning tool**:
  - the scenario list of `AITuningTool` (`AITuning`);
  - `ScenarioManager`: import, duplicate, delete, validate, the search-and-sort list and
    the scenario statistics;
  - `ScenarioComposer`: field updates, the history, and the test targets;
  - `PromptEditor`: the dotted-path update, the preview and the helper lookups;
  - `TestRunner`: the response check.
- **`processLogs`** (`SessionFilter`): the Python sign-in/sign-out session filter.

Shared helper modules:

- `Wrappers`: `Option`.
- `JsStrings`: JavaScript `trim`, `parseInt`, `split`, global replace and `toLowerCase`
  on ASCII letters.
- `JsonValues`: parsed JSON values with `undefined`, property reads, truthiness and
  `String()`.
- `Sorting`: a stable insertion sort by a comparator.

**Randomness and AI replies are parameters.**

- Each `Math.random()` draw is a real in [0, 1).
- Each AI reply is the provider's raw reply, as an `Option<string>` where `None` is a
  failed call.
- A clock reading (`Date.now()`) is an integer parameter.

**React's batched setters.** Within one run of an effect or one action, every read sees
the values the render started with, and every setter takes effect together afterwards.
So each step is modelled as a function from the state before to the state after.

**Roles are strings.** The model keeps roles as strings because the code compares them
as strings:

- The hook-based app deals the English role keys (`WEREWOLF`, …).
- Its `handlePlayerAction` compares the human's role with the Chinese names of the older
  edition (`狼人`, …).
- The model keeps those comparisons as written. The lemmas `AppActions.NightRolesNeverMatch`,
  `AppActions.WitchRoleNeverMatches` and `AppActions.HunterRoleNeverMatches` state what
  follows from them.

## Model

| member | source | states |
|---|---|---|
| GameModel.Distribution | src/constants/gameConstants.js:12-16 | the role distribution of an edition: two wolves, one seer, witch, hunter and guard, two villagers |
| GameModel.IndexOfId | src/hooks/useGameLogic.js:111 | `findIndex` by id: the first index holding the id, or -1 when no record has it |
| GameModel.FindById | src/hooks/useGameLogic.js:70 | `find` by id: the record at the first index holding the id, or none exactly when no record has it |
| GameModel.FindUnique | src/hooks/useGameLogic.js:70 | with unique ids, the record found for an id is the one at any index holding that id |
| GameModel.AlivePlayers | src/utils/gameUtils.js:86 | `filter(p => p.isAlive)`: exactly the alive records, never more than the list |
| GameModel.AlivePlayersAppend | src/utils/gameUtils.js:86 | the filter of a concatenation is the concatenation of the filters, so the alive records keep their list order |
| GameModel.RolePartition | src/utils/gameUtils.js:92-93 | the two role filters split the alive players: the counts add up to the whole |
| GameModel.Human | src/App.jsx:76 | `find(p => p.isHuman)`: the record at the first human index, or none exactly when nobody is human |
| GameModel.WithRole | src/utils/gameUtils.js:92 | `filter(p => p.role === role)`: exactly the records holding the role, never more than the list |
| GameModel.FirstAliveId | src/hooks/useGameLogic.js:259-260 | the id of the record at the first alive index, or none exactly when nobody is alive |
| GameModel.FirstAliveIndex | src/hooks/useGameLogic.js:259-260 | the index of the first alive record, or -1 exactly when nobody is alive |
| GameUtils.CheckWinCondition | src/utils/gameUtils.js:85-104 | a draw with nobody alive, a villager win with no wolf alive, a wolf win when the wolves are at least as many as the others, else the game goes on |
| GameUtils.WinConditionMeaning | src/utils/gameUtils.js:85-104 | a draw exactly when nobody is alive; a villager win exactly when someone lives and no living player is a wolf; a wolf win exactly when wolves live and are at least as many as the others; the game goes on exactly when living wolves are outnumbered |
| GameUtils.OngoingGame | src/utils/gameUtils.js:95-103 | while the game goes on, at least one wolf and two others are alive and the wolves are outnumbered |
| GameUtils.WolvesWinAtParity | src/utils/gameUtils.js:99-101 | the game is over once the living wolves are at least half of the living |
| GameUtils.ShuffleArray | src/utils/gameUtils.js:17-24 | the array loop computes `FisherYates` of the input for the draws, so the result is a permutation of the input; the input is untouched |
| GameUtils.FisherYates | src/utils/gameUtils.js:17-24 | the shuffle for the draws: a permutation of the input, of the same length |
| GameUtils.FisherYatesFrom | src/utils/gameUtils.js:19-22 | exchanging position k with floor(draws[k] × (k + 1)) for k from i down to 1 permutes the list |
| GameUtils.SwappedIsSwap | src/utils/gameUtils.js:21 | `[a[i], a[j]] = [a[j], a[i]]`: a list is the swap exactly when it holds the two entries exchanged and every other entry kept |
| GameUtils.SwapPermutes | src/utils/gameUtils.js:21 | a swap is a permutation |
| GameUtils.PoolBase | src/utils/gameUtils.js:27-46 | the pool before shuffling is the distribution less one copy of a chosen role that it holds, else the whole distribution |
| GameUtils.RolePool | src/utils/gameUtils.js:27-46 | the pool the players are dealt from is a permutation of that base pool |
| GameUtils.AiRole | src/utils/gameUtils.js:61-69 | an AI seat takes the head of the pool, or, with an empty pool, the distribution entry at its position among the AI seats |
| GameUtils.SeatRole | src/utils/gameUtils.js:49-70 | one seat's role, and the pool left after it |
| GameUtils.DealSeats | src/utils/gameUtils.js:48-80 | the eight seats in order: the human seat takes the chosen role when there is one, every other seat takes the pool's head |
| GameUtils.InitializePlayers | src/utils/gameUtils.js:26-83 | the human seat is floor(draw × 8); players 0..7 are alive, the human alone is human, and the dealt roles are a permutation of the distribution |
| GameUtils.DealtMultiset | src/utils/gameUtils.js:48-80 | with a pool as large as the seats drawing from it, the dealt roles are the pool plus the chosen role |
| GameUtils.DealtOrder | src/utils/gameUtils.js:52-59 | with a chosen role, the dealt roles are the pool with the chosen role slotted in at the human's seat |
| GameUtils.InitialDealGoesOn | src/utils/gameUtils.js:85-104 | a fresh deal never ends the game: two wolves against six |
| GameUtils.WolvesInDistribution | src/constants/gameConstants.js:12-16 | each edition's distribution holds its werewolf string exactly twice |
| GameUtils.EditionsDistinctWolf | src/constants/gameConstants.js:2-9 | in both editions the werewolf string differs from every other role string |
| GameUtils.WolfCount | src/utils/gameUtils.js:92 | the number of players holding a role is that role's multiplicity among the players' roles |
| GameLogic.WinnerIsFinal | src/hooks/useGameLogic.js:48-63 | a recorded winner is never replaced; a stopped game has a winner and sits in GAME_OVER; a game that goes on is unchanged |
| GameLogic.Kill | src/hooks/useGameLogic.js:112-115 | a killed player is not alive, has the role revealed and keeps everything else |
| GameLogic.NightDeathsShape | src/hooks/useGameLogic.js:67-98 | the death list has no repeats, names only alive players, and names only the wolf and poison targets |
| GameLogic.WolfTargetSpared | src/hooks/useGameLogic.js:72-77 | a protected wolf target, or an unprotected but healed one, is not killed by the wolves |
| GameLogic.UnprotectedTargetDies | src/hooks/useGameLogic.js:77-80 | an alive, unprotected, unhealed wolf target is on the death list |
| GameLogic.NoWolfDeath | src/hooks/useGameLogic.js:81-85 | no wolf target, or a missing or dead one, puts nobody on the list |
| GameLogic.PoisonOverrides | src/hooks/useGameLogic.js:87-98 | an alive poison target dies whatever protects or heals them, and is listed last |
| GameLogic.NightOutcome | src/hooks/useGameLogic.js:100-127 | night resolution kills exactly the listed players, who were alive, reveals their roles, leaves the rest alone, records them as the pending deaths and then runs the win check |
| GameLogic.ResolveNight | src/hooks/useGameLogic.js:65-129 | night resolution as a function of the state; no ensures of its own, stated by NightOutcome, NightDeathsShape and WinnerIsFinal |
| GameLogic.NightDeaths | src/hooks/useGameLogic.js:67-98 | the death list; no ensures of its own, stated by NightDeathsShape, WolfTargetSpared, UnprotectedTargetDies, NoWolfDeath and PoisonOverrides |
| GameLogic.MaxVotes | src/hooks/useGameLogic.js:144-154 | the highest vote count an alive player holds, 0 with no votes |
| GameLogic.LeadersAt | src/hooks/useGameLogic.js:144-154 | the ids of the alive players holding exactly the given positive count, and none for count 0 |
| GameLogic.LeadersAtAppend | src/hooks/useGameLogic.js:144-154 | the leaders of a concatenation are those of each part, so the leaders keep their list order |
| GameLogic.SoleLeader | src/hooks/useGameLogic.js:160-161 | a player alone at a positive count is the only leader |
| GameLogic.UniquePlurality | src/hooks/useGameLogic.js:131-172 | a player is voted out exactly when they are alive, hold a vote and every other alive player holds fewer |
| GameLogic.TieEliminatesNobody | src/hooks/useGameLogic.js:168-172 | a tie at the top, or no votes, eliminates nobody |
| GameLogic.EliminatedIsAlive | src/hooks/useGameLogic.js:160-161 | the voted-out player is an alive player |
| GameLogic.EliminateOne | src/hooks/useGameLogic.js:162-167 | eliminating an id changes only that player's record |
| GameLogic.VoteOutcome | src/hooks/useGameLogic.js:156-187 | the votes are cleared, and only the voted-out record changes (dead, role revealed) |
| GameLogic.VotePhase | src/hooks/useGameLogic.js:176-186 | after the vote: GAME_OVER if the win check stops the game, else HUNTER_MAY_ACT exactly when the voted-out player was the hunter, else NIGHT_START |
| GameLogic.ResolveVote | src/hooks/useGameLogic.js:131-189 | vote resolution as a function of the state; no ensures of its own, stated by UniquePlurality, VoteOutcome and VotePhase |
| GameLogic.SpeakerIsAlive | src/hooks/useGameLogic.js:191-233 | the rotation touches only the speaker and the phase; a new speaker is alive; the phase can only become VOTING |
| GameLogic.NextStep | src/hooks/useGameLogic.js:210-222 | from the j-th alive speaker the turn passes to the next alive player, or to VOTING after the last |
| GameLogic.DeadSpeakerSkipped | src/hooks/useGameLogic.js:211-213 | a speaker who is not alive hands the turn to the first alive player |
| GameLogic.NextSpeaker | src/hooks/useGameLogic.js:191-233 | the speaker rotation; no ensures of its own, stated by SpeakerIsAlive, NextStep and DeadSpeakerSkipped |
| GameLogic.AliveAIs | src/hooks/useGameLogic.js:268 | exactly the alive non-human players |
| GameLogic.AliveAIsAppend | src/hooks/useGameLogic.js:268 | the filter of a concatenation is the concatenation of the filters, so the AIs keep their list order |
| GameLogic.AliveOthers | src/hooks/useGameLogic.js:282 | exactly the alive players other than the voter |
| GameLogic.AliveOthersAppend | src/hooks/useGameLogic.js:282 | the filter of a concatenation is the concatenation of the filters, so the others keep their list order |
| GameLogic.AIVote | src/hooks/useGameLogic.js:275-292 | a parsed reply naming an alive player other than the voter is the vote; otherwise, with others alive, the vote is the other at floor(draw × count); an abstention exactly when nobody else is alive; any vote names an alive other player |
| JsStrings.ParseIntJs | src/hooks/useGameLogic.js:276 | `parseInt(…, 10)`: NaN for a failed reply or a text without digits |
| GameLogic.NewVotesValid | src/hooks/useGameLogic.js:272-295 | the new votes come exactly from the AIs that had not voted, each an abstention or a vote for another alive player |
| GameLogic.AIVotingOutcome | src/hooks/useGameLogic.js:266-302 | after AI voting the earlier votes are kept, every alive AI has voted, and each new vote is valid |
| GameLogic.AIVoting | src/hooks/useGameLogic.js:266-302 | AI voting as a function of the state; no ensures of its own, stated by NewVotesValid and AIVotingOutcome |
| GameLogic.FreshDeal | src/hooks/useGameLogic.js:235-264 | a fresh game has unique ids, player 0 speaking first, no winner, and is in SHOW_ROLE_MODAL |
| GameLogic.SeatedAlive | src/hooks/useGameLogic.js:259-260 | seated players are alive with ids 0, 1, 2, …, so player 0 is the first alive |
| GameLogic.Initialized | src/hooks/useGameLogic.js:235-264 | the state after initialisation; no ensures of its own, stated by FreshDeal and SeatedAlive |
| GameLogic.Tallies | src/hooks/useGameLogic.js:135-143 | the tally loop gives every alive id exactly the number of votes cast for it |
| GameLogic.ScanIsLeaders | src/hooks/useGameLogic.js:144-154 | the scan finds the maximum and exactly the leaders at it, in list order |
| GameLogic.ScanLeaders | src/hooks/useGameLogic.js:144-154 | the scan loop computes the maximum and the leaders |
| GameLogic.ChooseVote | src/hooks/useGameLogic.js:274-293 | one iteration of the AI-vote loop gives the vote `AIVote` defines |
| GameLogic.CollectAIVotes | src/hooks/useGameLogic.js:272-295 | the AI-vote loop collects exactly the new votes, and reports whether any was cast |
| GameLogic.Verdict | src/hooks/useGameLogic.js:133-161 | the count names the sole positive leader, or nobody |
| GameLogic.Game.constructor | src/hooks/useGameLogic.js:8-24 | the initial state: no players, SETUP, both potions, no marks, no votes, no winner |
| GameLogic.Game.CheckWinConditionWrapper | src/hooks/useGameLogic.js:48-63 | the state and the result move as the wrapper's specification says |
| GameLogic.Game.ResolveNightActions | src/hooks/useGameLogic.js:65-129 | the state becomes the night resolution of the old state |
| GameLogic.Game.ResolveVoting | src/hooks/useGameLogic.js:131-189 | the state becomes the vote resolution of the old state |
| GameLogic.Game.HandleNextSpeaker | src/hooks/useGameLogic.js:191-233 | the state becomes the speaker rotation of the old state |
| GameLogic.Game.HandleAIVoting | src/hooks/useGameLogic.js:266-302 | the state becomes the AI voting of the old state for the given replies and draws |
| GameLogic.Game.InitializeGameWrapper | src/hooks/useGameLogic.js:235-264 | the players are a fresh deal and every other field is reset as listed |
| AiUtils.Clean | src/utils/aiUtils.js:363 | backticks removed, newlines made spaces, then trimmed |
| AiUtils.CleanSteps | src/utils/aiUtils.js:363 | the two global replaces equal the character-wise definitions |
| AiUtils.CleanIdempotent | src/utils/aiUtils.js:363 | cleaning a cleaned reply changes nothing |
| AiUtils.Validate | src/utils/aiUtils.js:366-384 | id purposes keep an all-digit text or take its first digit run (none: null); choice purposes keep yes, no or digits, else yes, no or the first digit run found inside |
| JsStrings.FirstDigitRun | src/utils/aiUtils.js:371 | `match(/\d+/)`: none exactly when the text has no digit, otherwise a run of digits only |
| AiUtils.Decide | src/utils/aiUtils.js:301-384 | unknown purposes and failed calls give null; otherwise the validated cleaned reply |
| AiUtils.IdAnswerParses | src/utils/aiUtils.js:367-373 | an answer to an id question is all digits, so `parseInt` reads back the number it spells |
| AiUtils.StatementIsClean | src/utils/aiUtils.js:327-330 | a discussion statement is the cleaned reply and is unchanged by cleaning again |
| AiUtils.RoleDisplay | src/utils/aiUtils.js:274-283 | the role shown: own role, fellow wolf, the seer's last result, a revealed role, else "Unknown Role" |
| AiUtils.NoLeak | src/utils/aiUtils.js:274-283 | a viewer that is neither a wolf nor the seer learns no unrevealed role of another player |
| AiUtils.Roster | src/utils/aiUtils.js:271-285 | one line per alive player, in seat order |
| AiUtils.Teammates | src/utils/aiUtils.js:288-295 | the alive wolves other than the viewer |
| AiUtils.HistoryWindow | src/utils/aiUtils.js:269 | the last twenty formatted entries, oldest first |
| AiUtils.WindowSlides | src/utils/aiUtils.js:269 | one more entry slides the window by one once it is full |
| PhaseManager.StepSuccessor | src/hooks/useGamePhaseManager.js:55-267 | a step stays in its phase or moves to one of the listed successors; night resolution, day start and vote results always move |
| PhaseManager.StepGate | src/hooks/useGamePhaseManager.js:44-49 | with a winner, or while the flag is held outside set-up, nothing changes; a step that runs releases the flag |
| PhaseManager.NightStartClears | src/hooks/useGamePhaseManager.js:61-69 | NIGHT_START clears the night marks and both targets and calls the wolves; ids, roles and lives are kept |
| PhaseManager.WolvesWaitForTarget | src/hooks/useGamePhaseManager.js:71-89 | an AI wolf's target is recorded but the phase stays; a reply naming no alive player changes nothing |
| PhaseManager.GuardRule | src/hooks/useGamePhaseManager.js:90-106 | the AI guard never protects last night's choice or a dead player; the phase moves to SEER_ACTS unless a human guard is to act |
| PhaseManager.WitchSaveRule | src/hooks/useGamePhaseManager.js:124-148 | the antidote is spent only when unspent, the victim alive and the decision exactly "yes", healing exactly the victim |
| PhaseManager.WitchPoisonRule | src/hooks/useGamePhaseManager.js:149-169 | the AI witch poisons only with the poison unspent, only an alive player other than the witch; the night then ends |
| PhaseManager.DayStartRule | src/hooks/useGamePhaseManager.js:173-195 | HUNTER_MAY_ACT exactly when a hunter is among last night's dead, else DISCUSSION with the first alive speaker; pending deaths kept |
| PhaseManager.HunterShotRule | src/hooks/useGamePhaseManager.js:196-218 | the AI hunter shoots only an alive player other than the hunter, killing them and recording the shot |
| PhaseManager.FallenAIHunter | src/hooks/useGamePhaseManager.js:196-218 | an AI hunter that has fallen this night or day, or none exactly when no AI player has |
| PhaseManager.VotingRule | src/hooks/useGamePhaseManager.js:243-258 | VOTE_RESULTS only once every alive player has a vote; a human vote for player 0 counts as not voted |
| PhaseManager.NightStartStep | src/hooks/useGamePhaseManager.js:61-69 | NIGHT_START; stated by NightStartClears |
| PhaseManager.WerewolvesActStep | src/hooks/useGamePhaseManager.js:71-89 | WEREWOLVES_ACT; stated by WolvesWaitForTarget |
| PhaseManager.GuardActsStep | src/hooks/useGamePhaseManager.js:90-106 | GUARD_ACTS; stated by GuardRule |
| PhaseManager.SeerActsStep | src/hooks/useGamePhaseManager.js:107-123 | SEER_ACTS; its successors stated by StepSuccessor |
| PhaseManager.WitchSaveStep | src/hooks/useGamePhaseManager.js:124-148 | WITCH_ACTS_SAVE; stated by WitchSaveRule |
| PhaseManager.WitchPoisonStep | src/hooks/useGamePhaseManager.js:149-169 | WITCH_ACTS_POISON; stated by WitchPoisonRule |
| PhaseManager.DayStartStep | src/hooks/useGamePhaseManager.js:173-195 | DAY_START; stated by DayStartRule |
| PhaseManager.HunterStep | src/hooks/useGamePhaseManager.js:196-218 | HUNTER_MAY_ACT; stated by HunterShotRule |
| PhaseManager.DiscussionStep | src/hooks/useGamePhaseManager.js:219-242 | DISCUSSION; its successors stated by StepSuccessor |
| PhaseManager.VotingStep | src/hooks/useGamePhaseManager.js:243-258 | VOTING; stated by VotingRule |
| PhaseManager.PhaseStep | src/hooks/useGamePhaseManager.js:55-267 | the switch on the phase; stated by StepSuccessor |
| PhaseManager.Step | src/hooks/useGamePhaseManager.js:43-278 | one run of the effect; stated by StepGate and StepSuccessor |
| PhaseManager.ExecuteCurrentStep | src/hooks/useGamePhaseManager.js:43-278 | the game moves exactly as `Step` says |
| PhaseManager.HunterMayActOn | src/hooks/useGamePhaseManager.js:196-218 | the hunter phase on the game, through the game's win-check wrapper |
| PhaseManager.DiscussionOn | src/hooks/useGamePhaseManager.js:219-242 | the discussion phase on the game, through the speaker rotation |
| PhaseManager.VotingOn | src/hooks/useGamePhaseManager.js:243-258 | the voting phase on the game, through the AI voting |
| AppActions.ActionGate | src/App.jsx:72-81 | with a winner or the flag held nothing changes; a human who may not act changes nothing; every accepted path releases the flag |
| AppActions.NightRolesNeverMatch | src/App.jsx:85-119 | the wolf, guard and seer branches never match English role keys, so those phases change nothing |
| AppActions.WitchRoleNeverMatches | src/App.jsx:120-153 | the antidote phase always moves to the poison phase, and the poison phase to night resolution, with nothing else changed |
| AppActions.HunterRoleNeverMatches | src/App.jsx:154-171 | the hunter phase always moves to DISCUSSION with nothing else changed |
| AppActions.VoteRule | src/App.jsx:172-188 | a missing, dead, unknown or own target changes nothing; an accepted vote is recorded, other votes kept, every alive AI has voted |
| AppActions.WolfAction | src/App.jsx:85-94 | the werewolf branch; stated by NightRolesNeverMatch |
| AppActions.GuardAction | src/App.jsx:95-106 | the guard branch; stated by NightRolesNeverMatch |
| AppActions.SeerAction | src/App.jsx:107-119 | the seer branch; stated by NightRolesNeverMatch |
| AppActions.SaveAction | src/App.jsx:120-137 | the antidote branch; stated by WitchRoleNeverMatches |
| AppActions.PoisonAction | src/App.jsx:138-153 | the poison branch; stated by WitchRoleNeverMatches |
| AppActions.HunterAction | src/App.jsx:154-171 | the hunter branch; stated by HunterRoleNeverMatches |
| AppActions.VoteAction | src/App.jsx:172-188 | the vote branch; stated by VoteRule |
| AppActions.Branch | src/App.jsx:84-189 | the switch on the phase; stated by the branch lemmas above |
| AppActions.PlayerAction | src/App.jsx:71-198 | `handlePlayerAction` as a function of the state; stated by ActionGate and the branch lemmas |
| AppActions.HandlePlayerAction | src/App.jsx:71-198 | the game state becomes `PlayerAction` of the old state, with the AI votes collected by the loop |
| AppActions.HandleSpeechSubmission | src/App.jsx:60-68 | a speech or a skip is logged by blankness, the draft is cleared and the turn passes |
| LegacyApp.LegacyCheckIsWinCheck | app.jsx:230-253 | the three guarded tests decide exactly as the hook's win-check wrapper does |
| LegacyApp.LegacyCheck | app.jsx:230-253 | the older win check; stated by LegacyCheckIsWinCheck |
| LegacyApp.InitializeGame | app.jsx:425-471 | the roles, seat by seat, are exactly the Fisher-Yates order of the distribution for the given draws, the human seat is floor(draw × 8), and the state is reset for the role reveal |
| LegacyApp.LegacyActionGate | app.jsx:511-521 | nothing happens with a winner, with the flag held, or for a human who may not act |
| LegacyApp.LegacyWolfRule | app.jsx:525-534 | a human wolf's target is taken exactly when alive, then the guard acts; otherwise nothing changes |
| LegacyApp.LegacyGuardRule | app.jsx:535-546 | a human guard cannot repeat last night's choice or pick a dead or unknown player; an accepted one is protected and remembered |
| LegacyApp.LegacySeerRule | app.jsx:547-559 | a human seer learns the true role of an alive target, then the witch acts |
| LegacyApp.LegacyPoisonRule | app.jsx:578-593 | a human witch cannot poison their own player or a dead or unknown one; otherwise the poison is spent and the night resolves |
| LegacyApp.LegacyHunterRule | app.jsx:594-611 | a dead human hunter shoots only an alive other player, killing them; the game ends or the discussion follows |
| LegacyApp.RefusedVoteKeepsFlag | app.jsx:612-637 | a refused vote throws with the flag set, so no further step or action runs |
| LegacyApp.LegacyVoteRule | app.jsx:612-637 | an accepted vote is recorded, the AI votes are collected, the flag is released and the phase stays VOTING |
| LegacyApp.LegacyPlayerAction | app.jsx:511-638 | the older `handlePlayerAction`; stated by the LegacyApp rule lemmas above |
| LegacyApp.LegacyHandlePlayerAction | app.jsx:511-638 | the game state becomes `LegacyPlayerAction` of the old state |
| LegacyApp.LegacyDayStartRule | app.jsx:843-867 | a dead hunter gets to shoot, else the first alive player speaks; the pending deaths are cleared |
| LegacyApp.LegacyDayStart | app.jsx:843-867 | the older DAY_START; stated by LegacyDayStartRule |
| LegacyApp.LegacyDayStartOn | app.jsx:843-867 | the day start on the game moves it as `LegacyDayStart` says |
| LogManager.AIViewOnAIScreen | src/utils/logManager.js:78-119 | what an AI prompt may include, an AI player's own screen shows too |
| LogManager.IsVisibleToPlayer | src/utils/logManager.js:78-107 | `isVisibleToPlayer`; stated by AudiencesSplit, PrivateAudience and AIViewOnAIScreen |
| LogManager.IsVisibleToAI | src/utils/logManager.js:110-119 | `isVisibleToAI`; stated by AudiencesSplit, PrivateAudience and AIViewOnAIScreen |
| LogManager.AudiencesSplit | src/utils/logManager.js:92-111 | AI_ONLY and UI_ONLY entries reach either the human or the others, never both; UI_ONLY and SYSTEM never reach an AI prompt |
| LogManager.PrivateAudience | src/utils/logManager.js:85-89 | a PRIVATE entry reaches a player by role or id, an AI prompt by role alone |
| LogManager.UILogsRule | src/utils/logManager.js:158-167 | the screen shows exactly the entries visible to the player, in logging order |
| LogManager.UILogsForPlayer | src/utils/logManager.js:158-167 | `getUILogsForPlayer`; stated by UILogsRule |
| LogManager.AILogsInLogOrder | src/utils/logManager.js:170-188 | the AI sees exactly the entries its role may see, in logging order |
| LogManager.AILogsForRole | src/utils/logManager.js:170-188 | `getAILogsForRole`; stated by AILogsInLogOrder |
| LogManager.CategoryRule | src/utils/logManager.js:364-374 | only entries of the category; the visibility filter applies exactly when all three arguments are given |
| LogManager.LogsByCategory | src/utils/logManager.js:364-374 | `getLogsByCategory`; stated by CategoryRule |
| LogManager.NightActionAudience | src/utils/logManager.js:250-314 | an entry is written exactly for the five action types, reaching the acting role and, except for the wolf kill, the acting player |
| LogManager.NightActionEntry | src/utils/logManager.js:250-314 | the entry `addNightActionLog` writes; stated by NightActionAudience |
| LogManager.LogStore.AddLog | src/utils/logManager.js:129-155 | the counter is bumped and one entry with the new count as id is appended; that id is returned |
| LogManager.LogStore.constructor | src/utils/logManager.js:123-126 | an empty store with the counter at 0 |
| LogManager.LogStore.AddPublicLog | src/utils/logManager.js:197-205 | appends a PUBLIC entry |
| LogManager.LogStore.AddPrivateLog | src/utils/logManager.js:207-217 | appends a PRIVATE entry for the given roles and players |
| LogManager.LogStore.AddSystemLog | src/utils/logManager.js:219-227 | appends a SYSTEM entry |
| LogManager.LogStore.AddAIOnlyLog | src/utils/logManager.js:229-237 | appends an AI_ONLY entry |
| LogManager.LogStore.AddUIOnlyLog | src/utils/logManager.js:239-247 | appends a UI_ONLY entry |
| LogManager.LogStore.AddNightActionLog | src/utils/logManager.js:250-314 | one PRIVATE night-action entry for a known type, nothing for an unknown one |
| LogManager.LogStore.AddDeathAnnouncement | src/utils/logManager.js:317-324 | the public message alone, under DEATHS |
| LogManager.LogStore.AddVotingLog | src/utils/logManager.js:327-345 | a public VOTING entry typed 'ai' with a voter role, else 'human' |
| LogManager.LogStore.AddRoundSummary | src/utils/logManager.js:348-355 | a public ROUND_SUMMARY entry headed by the round number |
| LogManager.LogStore.ClearLogs | src/utils/logManager.js:358-361 | no entries and the counter at 0 |
| LogManager.ValidInIdOrder | src/utils/logManager.js:139 | a valid store lists its entries in increasing id order |
| Language.Switched | src/contexts/LanguageContext.js:60-64 | only a listed language is taken |
| Language.MissingSectionVerbatim | src/contexts/LanguageContext.js:27-38 | a key whose first segment is no section comes back verbatim |
| Language.TtsKeysVerbatim | src/contexts/LanguageContext.js:27-38 | the `tts.*` keys come back verbatim in both languages |
| Language.ChineseGameInitVerbatim | src/constants/languages.js:601-613 | the Chinese table has no `gameInit` section, so those keys come back verbatim there |
| Language.SectionLookup | src/contexts/LanguageContext.js:27-47 | `section.name` finds the stored string, returned as stored without interpolations |
| Language.Translate | src/contexts/LanguageContext.js:27-47 | `t`; stated by SectionLookup, MissingSectionVerbatim, TtsKeysVerbatim, NoPlaceholdersUnchanged and FillOne |
| JsStrings.Split | src/contexts/LanguageContext.js:28 | `split('.')`: at least one segment, none holding the separator |
| Language.NoPlaceholdersUnchanged | src/contexts/LanguageContext.js:40-46 | a string without `{{` is unchanged by any interpolations |
| Language.FillOne | src/contexts/LanguageContext.js:40-46 | a single value fills its one placeholder |
| Language.NameLookups | src/contexts/LanguageContext.js:50-57 | `tr` and `tp` give the language's name for a known key and the key itself otherwise |
| Language.Tr | src/contexts/LanguageContext.js:50-52 | `tr`; stated by NameLookups and NameFromSection |
| Language.Tp | src/contexts/LanguageContext.js:55-57 | `tp`; stated by NameLookups |
| Language.NameFromSection | src/contexts/LanguageContext.js:50-52 | a section of non-empty names yields the stored name, else the argument |
| Language.SwitchRule | src/contexts/LanguageContext.js:60-64 | switching is idempotent and keeps a listed language listed |
| Language.LanguageProvider.constructor | src/contexts/LanguageContext.js:16-19 | the saved language when non-empty, else Chinese |
| Language.InitialLanguage | src/contexts/LanguageContext.js:16-19 | the starting language; stated by the constructor |
| Language.LanguageProvider.T | src/contexts/LanguageContext.js:27-47 | walks the keys, returns the key on a non-string, then fills the interpolations in order |
| Language.LanguageProvider.SwitchLanguage | src/contexts/LanguageContext.js:60-64 | a listed language is taken, anything else ignored |
| SessionFilter.Tokens | src/components/test.py:22 | `split()`: the maximal runs of non-space characters |
| SessionFilter.DigitsLiteral | src/components/test.py:24 | `int()` reads a run of ASCII digits as its decimal value |
| SessionFilter.UnderscoreLiteral | src/components/test.py:24 | `int()` reads `1_000` as 1000 |
| SessionFilter.MisplacedUnderscores | src/components/test.py:24 | `int()` refuses a doubled, leading or trailing underscore |
| SessionFilter.RecordInSteps | src/components/test.py:27-33 | creating an empty record if needed, then setting one field, is the record update |
| SessionFilter.ReadStep | src/components/test.py:21-33 | one more line updates the table and appends a new user to the key order |
| SessionFilter.ReadRecords | src/components/test.py:18-33 | the first loop fills the records line by line |
| SessionFilter.KeepQualifying | src/components/test.py:35-44 | the second loop keeps exactly `ValidUsers` of the key order: the users with both times whose span is at most maxSpan, in key order |
| SessionFilter.ValidStep | src/components/test.py:38-45 | one more key joins the valid users exactly when its record qualifies |
| SessionFilter.ValidUsers | src/components/test.py:36-45 | exactly the qualifying users of the key order, without repeats |
| SessionFilter.ProcessLogs | src/components/test.py:16-50 | the result is the qualifying users in first-seen order, stably sorted by int(id) |
| SessionFilter.ExpectedProperties | src/components/test.py:36-50 | exactly the qualifying users, once each, ordered by int(id) |
| SessionFilter.LastWriteWins | src/components/test.py:30-33 | a record holds the last sign-in and last sign-out time of its user |
| SessionFilter.NoSignInNotReturned | src/components/test.py:39 | a user without a sign-in line is never returned |
| SessionFilter.SameValueKeepsOrder | src/components/test.py:48 | ids with the same integer value keep their first-seen order |
| Sorting.SortBySorted | src/components/test.py:48 | the sort's result is ordered by the comparator |
| Sorting.SortBy | src/components/test.py:48 | the sort returns a permutation of its input |
| Sorting.SortByStable | src/components/test.py:48 | equal elements keep their input order |
| Sorting.SortByOfSorted | src/utils/logManager.js:174 | sorting an ordered list changes nothing |
| JsStrings.Trim | src/utils/aiUtils.js:363 | `trim`: empty exactly for blank strings, otherwise no space at either end |
| JsStrings.ParseIntOfDigits | src/hooks/useGameLogic.js:276 | `parseInt` reads an all-digit string as its decimal value |
| JsStrings.IntToStringRoundTrip | src/components/tuning/ScenarioComposer.jsx:452 | `parseInt(String(i))` is i |
| JsStrings.JoinSplit | src/contexts/LanguageContext.js:28 | splitting on a character and joining with it gives back the string |
| JsStrings.ReplaceAllFirst | src/contexts/LanguageContext.js:43 | a global replace replaces the first occurrence and resumes after it |
| JsStrings.ReplaceCharByNothing | src/utils/aiUtils.js:363 | removing a character globally drops exactly it |
| AITuning.ScenarioIndex | src/components/AITuningTool.jsx:98 | `findIndex` by id: the first index with that id, or -1 |
| AITuning.UpsertRule | src/components/AITuningTool.jsx:92-108 | saving replaces the scenario with the same id in place, or appends it |
| AITuning.Upsert | src/components/AITuningTool.jsx:98-104 | the list after saving; stated by UpsertRule and UpsertIdempotent |
| AITuning.UpsertIdempotent | src/components/AITuningTool.jsx:92-108 | saving twice in a row changes nothing the second time |
| AITuning.ToSaveRule | src/components/AITuningTool.jsx:95-97 | the saved copy keeps a truthy id and otherwise takes the clock reading |
| AITuning.DefaultIsValid | src/components/AITuningTool.jsx:42-90 | the default scenario passes the scenario validation |
| AITuning.DefaultScenario | src/components/AITuningTool.jsx:42-90 | `createDefaultScenario`; stated by DefaultIsValid, DefaultPlayerFlags, DefaultPlayerRoles and DefaultTargetRoles |
| AITuning.DefaultPlayers | src/components/AITuningTool.jsx:50-64 | eight default players, each built from its position |
| AITuning.DefaultPlayerFlags | src/components/AITuningTool.jsx:50-64 | ids 1 to 8; player 4 alone dead with the witch role revealed; player 2 alone human |
| AITuning.DefaultPlayerRoles | src/components/AITuningTool.jsx:50-64 | players 1 and 2 wolves, 3 seer, 4 witch, 5 hunter, 6 guard, 7 and 8 villagers |
| AITuning.DefaultTargetRoles | src/components/AITuningTool.jsx:85-89 | two default targets record a role their player does not hold |
| AITuning.TuningTool.constructor | src/components/AITuningTool.jsx:16-40 | an empty list, and the default scenario as current and edited once the start-up effect ran |
| AITuning.TuningTool.SaveCurrentScenario | src/components/AITuningTool.jsx:92-108 | nothing without an edited scenario; otherwise the saved copy is upserted and becomes current |
| ScenarioManager.ValidShape | src/components/tuning/ScenarioManager.jsx:91-99 | valid exactly when an object with a truthy name and a `gameState` holding `players` and `gameHistory` arrays |
| ScenarioManager.ValidScenario | src/components/tuning/ScenarioManager.jsx:91-99 | `validateScenario`; stated by ValidShape |
| ScenarioManager.ValidOnes | src/components/tuning/ScenarioManager.jsx:33 | exactly the valid entries, never more than the list |
| ScenarioManager.ValidOnesAppend | src/components/tuning/ScenarioManager.jsx:33 | the filter of a concatenation is the concatenation of the filters, so the valid entries keep their order and repeats |
| ScenarioManager.ImportRule | src/components/tuning/ScenarioManager.jsx:29-40 | importing only appends valid entries of an array, or one valid scenario; anything else changes nothing |
| ScenarioManager.Import | src/components/tuning/ScenarioManager.jsx:29-40 | `importScenarios` after parsing; stated by ImportRule, with the order of an array's valid entries stated by ValidOnesAppend |
| ScenarioManager.DuplicateRule | src/components/tuning/ScenarioManager.jsx:72-80 | one copy appended with a new id and suffixed name and description, other fields kept |
| ScenarioManager.Duplicate | src/components/tuning/ScenarioManager.jsx:72-80 | `duplicateScenario`; stated by DuplicateRule |
| ScenarioManager.WithoutIdAppend | src/components/tuning/ScenarioManager.jsx:83 | the filter of a concatenation is the concatenation of the filters, so the kept scenarios keep their order and repeats |
| ScenarioManager.DeleteRule | src/components/tuning/ScenarioManager.jsx:82-89 | every scenario with the id removed; current and edited cleared exactly when the current had that id |
| ScenarioManager.Delete | src/components/tuning/ScenarioManager.jsx:82-89 | `deleteScenario`; stated by DeleteRule |
| ScenarioManager.Matching | src/components/tuning/ScenarioManager.jsx:101-105 | the search keeps the scenarios whose name or description contains the term; a missing field throws |
| ScenarioManager.MatchingAppend | src/components/tuning/ScenarioManager.jsx:101-105 | the search of a concatenation throws exactly when either part's does, and otherwise is the concatenation of the parts' matches, so order and repeats are kept |
| ScenarioManager.MatchesFilter | src/components/tuning/ScenarioManager.jsx:101-105 | the search test on one scenario; stated by Matching |
| ScenarioManager.ComparatorsArePreorders | src/components/tuning/ScenarioManager.jsx:106-117 | each sort key's comparator is a total preorder |
| ScenarioManager.ShownRule | src/components/tuning/ScenarioManager.jsx:101-117 | the shown list is a permutation of the matches, ordered by the chosen key; an unknown key keeps the order |
| ScenarioManager.Shown | src/components/tuning/ScenarioManager.jsx:101-117 | `filteredScenarios`; stated by ShownRule |
| ScenarioManager.AllAlive | src/components/tuning/ScenarioManager.jsx:121 | every player is alive exactly when none is filtered out |
| ScenarioManager.ScenarioStats | src/components/tuning/ScenarioManager.jsx:119-126 | a throw for missing lists, non-array players or a null player; otherwise alive count at most total |
| ScenarioManager.StatsRule | src/components/tuning/ScenarioManager.jsx:119-126 | alive count equals total exactly when all are alive; the other counts are the list lengths |
| ScenarioComposer.FieldUpdates | src/components/tuning/ScenarioComposer.jsx:13-22 | both updates set exactly one field and keep every other |
| ScenarioComposer.UpdateScenarioField | src/components/tuning/ScenarioComposer.jsx:13-15 | `updateScenarioField`; stated by FieldUpdates |
| ScenarioComposer.UpdateGameStateField | src/components/tuning/ScenarioComposer.jsx:17-22 | `updateGameStateField`; stated by FieldUpdates |
| JsonValues.SpreadSet | src/components/tuning/ScenarioComposer.jsx:14 | `{...v, [k]: x}` sets `k` and keeps every other field |
| ScenarioComposer.ReplaceById | src/components/tuning/ScenarioComposer.jsx:28-30 | same length; entries with the id become the update, others kept |
| ScenarioComposer.UpdatePlayerRule | src/components/tuning/ScenarioComposer.jsx:24-34 | the players with the updated id are replaced and every other field and entry stays |
| ScenarioComposer.UpdatePlayer | src/components/tuning/ScenarioComposer.jsx:24-34 | `updatePlayer`; stated by UpdatePlayerRule |
| ScenarioComposer.AddHistoryRule | src/components/tuning/ScenarioComposer.jsx:210-220 | an entry is added exactly when its text is not blank, and the draft then starts over |
| ScenarioComposer.AddHistoryEntry | src/components/tuning/ScenarioComposer.jsx:210-220 | `addHistoryEntry`; stated by AddHistoryRule |
| ScenarioComposer.SpliceRule | src/components/tuning/ScenarioComposer.jsx:222-226 | exactly the element at the index is dropped, nothing past the end |
| ScenarioComposer.SpliceOne | src/components/tuning/ScenarioComposer.jsx:222-226 | `splice(index, 1)`; stated by SpliceRule |
| ScenarioComposer.Available | src/components/tuning/ScenarioComposer.jsx:393-395 | the alive players no target names |
| ScenarioComposer.FirstAvailable | src/components/tuning/ScenarioComposer.jsx:393-396 | the first available player is the first alive, untargeted one |
| ScenarioComposer.AddTargetRule | src/components/tuning/ScenarioComposer.jsx:392-402 | appends a discussion target for the first available player with its role; unchanged when none is available |
| ScenarioComposer.AddTestTarget | src/components/tuning/ScenarioComposer.jsx:392-402 | `addTestTarget`; stated by AddTargetRule |
| ScenarioComposer.FindPlayer | src/components/tuning/ScenarioComposer.jsx:408 | the player whose id equals the parsed value, or none when none matches or the parse fails |
| ScenarioComposer.CopiedRole | src/components/tuning/ScenarioComposer.jsx:407-410 | a role is copied exactly when the field is `playerId` and a player is found |
| ScenarioComposer.RetargetRule | src/components/tuning/ScenarioComposer.jsx:405-412 | fields other than the role kept, the field set, the role copied, set or kept |
| ScenarioComposer.UpdateTarget | src/components/tuning/ScenarioComposer.jsx:404-414 | the list keeps its length |
| ScenarioComposer.UpdateTargetRule | src/components/tuning/ScenarioComposer.jsx:404-414 | only the target at the index changes: one field set, the role follows a found player |
| PromptEditor.Chain | src/components/tuning/PromptEditor.jsx:18-22 | the nested single-key objects a path builds from nothing |
| PromptEditor.PrimitiveThrows | src/components/tuning/PromptEditor.jsx:18-24 | reaching a string or number on the path throws |
| PromptEditor.UpdateSucceeds | src/components/tuning/PromptEditor.jsx:14-27 | the update succeeds exactly when the path only meets objects or replaceable entries |
| PromptEditor.EmptyGrowsChain | src/components/tuning/PromptEditor.jsx:18-24 | writing a path into an empty object builds the chain |
| PromptEditor.UpdateThenRead | src/components/tuning/PromptEditor.jsx:14-27 | after a successful update, the path reads back the written string |
| PromptEditor.UpdateStep | src/components/tuning/PromptEditor.jsx:18-22 | a falsy entry becomes a fresh object holding only the rest of the path; other keys kept |
| PromptEditor.UpdatePath | src/components/tuning/PromptEditor.jsx:14-27 | the walk-and-write loop computes the path update |
| PromptEditor.SetPath | src/components/tuning/PromptEditor.jsx:14-27 | `updatePrompt` on values; stated by UpdateSucceeds, UpdateThenRead and UpdateStep |
| PromptEditor.PromptPreview | src/components/tuning/PromptEditor.jsx:77-84 | each variable's example fills its placeholder; no variables or no `{{` leaves the prompt unchanged |
| PromptEditor.FilteredSections | src/components/tuning/PromptEditor.jsx:93-95 | exactly the sections whose label contains the term, never more than the list |
| PromptEditor.FilteredSectionsAppend | src/components/tuning/PromptEditor.jsx:93-95 | the filter of a concatenation is the concatenation of the filters, so the kept sections keep their order |
| PromptEditor.EmptySearchKeepsAll | src/components/tuning/PromptEditor.jsx:93-95 | an empty term keeps every section |
| PromptEditor.LookupOr | src/components/tuning/PromptEditor.jsx:495 | a non-empty stored entry, or the fallback |
| PromptEditor.HelperLookups | src/components/tuning/PromptEditor.jsx:483-528 | listed keys give their entry; unknown keys give the key or the fixed fallback text |
| PromptEditor.Editor.UpdatePrompt | src/components/tuning/PromptEditor.jsx:14-27 | on success the prompts are updated and marked changed; a throw changes nothing |
| PromptEditor.Editor.constructor | src/components/tuning/PromptEditor.jsx:4-12 | the given prompts, with no changes |
| PromptEditor.Editor.ResetToDefault | src/components/tuning/PromptEditor.jsx:29-32 | the prompts are the originals and there are no changes |
| TestRunner.AnalyzeResponse | src/components/tuning/TestRunner.jsx:257-295 | null exactly for a missing or empty reply; otherwise at most one line |
| TestRunner.OneLinePerRecognisedAction | src/components/tuning/TestRunner.jsx:264-291 | exactly one line for a recognised action, none otherwise |
| TestRunner.IdActionRule | src/components/tuning/TestRunner.jsx:266-276 | correct exactly for all-digit ids 1 to 8; out of range for other digits; format error otherwise |
| TestRunner.PlayerZeroFlagged | src/components/tuning/TestRunner.jsx:269-273 | player 0 is judged out of range |
| TestRunner.ChoiceActionRule | src/components/tuning/TestRunner.jsx:277-284 | correct exactly for yes/no in any case or all digits; format error otherwise |
| TestRunner.YesNoIgnoresCase | src/components/tuning/TestRunner.jsx:278 | the yes/no match ignores letter case |
| TestRunner.DiscussionRule | src/components/tuning/TestRunner.jsx:285-291 | sufficient exactly above ten UTF-16 code units, short otherwise |
| TestRunner.Utf16Length | src/components/tuning/TestRunner.jsx:286 | `length` counts one or two code units per character |
| TestRunner.ActionLabelRule | src/components/tuning/TestRunner.jsx:314-326 | the eight known actions get their label, others the action itself |
| TestRunner.ActionLabel | src/components/tuning/TestRunner.jsx:314-326 | `getActionLabel`; stated by ActionLabelRule |

## Left out

- Log text, `console` output, `alert`, rendering, text-to-speech and speech recognition: presentation only.
  - `AppActions.HandleSpeechSubmission` returns the entry it would log.
- The provider calls `getAIConfig`, `callOllamaAPI`, `callGeminiAPI` and `callOpenAIAPI`: network I/O.
  - The raw reply is a parameter.
  - The prompt text is left out, except the roster, the role display, the teammates and the history window.
- The older app's own `getAIDecision` (app.jsx:86-228): its cleaning and validation are the same as `AiUtils.Decide`, and its prompt text and Gemini call are left out as above.
- The older app's `executeCurrentStep` (app.jsx:688-990): only the DAY_START step, the one that differs from the hook-based phase manager, is modelled separately.
  - Its SETUP branch auto-starts a game, which the hook-based one does not; that branch is not modelled.
- Async interleaving: an action or step is modelled as running to completion from the state its render saw. React's re-render timing and two effects overlapping are not modelled.
- `Math.random()` and `Date.now()`: each draw is a parameter in [0, 1), and each clock reading an integer parameter.
- `LogManager.getAllLogs` and `enhanceLogsForRole`: the first returns the list as is; the second is the identity in the source.
- Log timestamps and the free-form `metadata` object of log entries: not inspected by any rule.
- `localStorage` in the language context and the tuning tool: I/O. The saved language is a constructor parameter.
- The tuning tool's `savePrompts`, `importPrompts`, `exportPrompts`, file reading (`FileReader`) and export: browser I/O.
- `TestRunner.analyzeResults`: an average over floating-point scores, not modelled.
- JSON values carry integers only, not floating-point numbers.
- Spreading a string or an array copies no index keys in the model. Property reads on arrays and strings do see `length` and the index keys.
- JavaScript prototype properties (`toString`, `constructor`, …) of objects are not modelled: a key is present only as an own field.
- Language.Interpolate: the placeholder name is matched literally. Regular-expression metacharacters in the name and `$` patterns in the replacement are not interpreted.
- ScenarioManager.Comparator: `localeCompare` is modelled as UTF-16 code-unit order, and a non-numeric id sorts as 0.
- ScenarioManager.Shown: when sorting by phase, the model throws whenever at least two scenarios match and any of them has no string phase. The source throws only when such a scenario is the left operand `a` of some comparison; as the right operand `b`, its phase is converted to a string by `localeCompare`. Which pairs get compared depends on the engine's sort algorithm, so the model throws in some cases where the source does not.
- ScenarioManager.Matching: `toLowerCase` is modelled on ASCII letters only. JavaScript folds every cased Unicode letter, so "Équipe" matches the filter "é" in the source but not in the model.
- SessionFilter.ProcessLogs: `int()` also accepts decimal digits from other Unicode scripts and surrounding whitespace. The model reads only ASCII digits, with an optional sign and single underscores between digits; another id or timestamp is treated as one `int()` rejects. The whitespace case does not arise, because the tokens come from `split()`. Lines on which processLogs raises are excluded by the precondition `WellFormed`: a line with fewer than three tokens (IndexError) or a timestamp `int()` rejects (ValueError), although the caller passes raw input lines.
- ScenarioManager.DeleteRule: scenarios are compared by id, not by object identity.
- AITuning.ScenarioIndex, ScenarioManager.Delete, ScenarioComposer.ReplaceById and ScenarioComposer.FindPlayer: JavaScript `===` and `!==` on ids are modelled as structural equality of JSON values. For a string, number, boolean or null id the two agree. For an object or array id (possible only in imported JSON) JavaScript compares identity, so two structurally equal ids are different there and equal in the model.
- ScenarioComposer.UpdatePlayer: a `null` entry in the players list (possible only in imported JSON) makes the source's `p.id` throw. The model reads `null.id` as `undefined` and does not throw.
- TestRunner.AnalyzeResponse: the player id is read as an exact integer. `parseInt` gives a double, so for an all-digit reply whose value exceeds 2^53 the source may print a rounded number (and from 10^21 on, exponent notation such as `1e+21`) where the model prints the exact value. The verdict, out of range, is the same.
- PromptEditor.Editor.UpdatePrompt: the nested in-place writes are modelled as a rebuild of the path. When the update throws part-way, the `{}` objects it already inserted into the shared nested objects are not modelled.
- ScenarioComposer.UpdateTarget: requires the index to name a target, which every caller in the component passes.
- GameUtils.ShuffleArray and GameUtils.InitializePlayers: 8 seats only (`PLAYER_COUNT`). The `%` fallback on an empty pool is modelled but never reached.
