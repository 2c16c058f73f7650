# Mountain Shoot rules engine in Dafny

This project models the rules engine of Mountain Shoot, a two-player, turn-based artillery game. The engine holds one `GameState` record. The game-state reducer advances it in response to fourteen actions: start and end the game; start, end, switch and reset a turn; the aimed and fired flags; two kinds of hit; end a round; start a new round; reset the game; reset the session. Beside the reducer sit the pure policy functions. The win-condition functions test for hits, declare a round winner, credit a win, detect the end of the game, and start, end or reset rounds and sessions. The turn functions compute turn duration, expiry and remaining time, format durations, decide action eligibility, build the status line and decide whether a turn may be switched.

There is one module per source file, plus `NumberFormat` for the JavaScript number formatting the turn functions use and `Consistency` for the lemmas that connect the modules:

- `Types` (`types.dfy`): players, positions, session scores, the four-valued status, turn bookkeeping, the game state and the closed 14-variant action type. A player id is the subset type `{1, 2}`. Nullable and optional fields are `Option`s.
- `NumberFormat` (`number_format.dfy`): the JavaScript number facilities the turn functions rely on. These are decimal `toString` of integers, `padStart(2, '0')` and the truncating `%`. It also holds a decimal reader, proved to invert `toString`.
- `WinConditions` (`win_conditions.dfy`): hit detection, scoring and round transitions.
- `TurnUtils` (`turn_utils.dfy`): turn timing, eligibility, the status line and the duration display.
- `GameStateContext` (`game_state_context.dfy`): the initial state, the reducer `Reduce`, and the guards `CanPlayerAct` and `IsCurrentPlayerTurn`. `Replay` is the state after a sequence of dispatches. The class `GameStore` is the provider's `useReducer` slot: one `state` field replaced by `Dispatch`.
- `Consistency` (`consistency.dfy`): lemmas linking the dispatch path and the direct-call path of the same transition, the hook's guards and the turn utilities' guards, and the flows the source's tests walk through.

Modelling choices:

- Every `Date.now()` reading is an explicit `now: int` parameter.
- All numbers are integers.
- The source's falsy tests on `turnStartTime` and `turnTimeLimit` are `IsSet`, which treats `null` and `0` alike as absent. `canPlayerAct` tests `!== null` instead. The lemma `GuardsDisagreeAtZeroStart` shows the two guards part ways at a start time of 0.
- JavaScript's `Infinity` from `getRemainingTurnTime` is the `Unbounded` case of a `Remaining` datatype.
- `checkForHit` takes no precondition. With `hitboxSize >= 0` it compares dx² + dy² with hitboxSize². With a negative radius it is false, since a square root never falls below zero. `HitIffWithinRadius` proves this agrees with comparing the real Euclidean distance.
- The reducer enforces no cross-field invariant. For example, `START_GAME` keeps an earlier `roundWinner`. So the rule "a set `roundWinner` only coexists with `round_over`" is not a property of this code, and the model follows the code: `PlayingWithRoundWinner` reaches a playing state that still names a round winner.
- `PLAYER_HIT` and `RECORD_HIT` are both modelled as written. `PlayerHitIsRecordHitWithoutOutcome` and `HitActionsAgreeIff` state exactly how they differ.

## Model

| member | source | states |
|---|---|---|
| Types.Other | src/game/winConditions.ts:28 | the winner of a round is the opponent of the hit player, never the hit player, and one of the two ids is 1 |
| Types.IsSet | src/game/turnUtils.ts:10 | JavaScript truthiness of a nullable number: false exactly for `null` and for 0 |
| Types.AddWin | src/game/winConditions.ts:50-57 | crediting a win raises exactly that player's count by one and leaves the opponent's as it was |
| NumberFormat.NatToString | src/game/turnUtils.ts:46-48 | decimal rendering of a number is a non-empty run of digits with no leading zero; one digit below 10, two digits from 10 to 99 |
| NumberFormat.NatToStringRoundTrip | src/game/turnUtils.ts:46-48 | reading the rendered digits back gives the number again |
| NumberFormat.NatToStringInjective | src/game/turnUtils.ts:46-48 | different numbers render differently |
| NumberFormat.PadStart2 | src/game/turnUtils.ts:46 | padding leaves a string of two or more unchanged, and otherwise gives length two: '0's in front, then the original |
| NumberFormat.PaddedTwoDigits | src/game/turnUtils.ts:46 | the padded seconds field is two digits that read back as the seconds |
| NumberFormat.IntToString | src/game/turnUtils.ts:46-48 | integers render as digits, with a leading '-' exactly for negatives |
| NumberFormat.IntToStringRoundTrip | src/game/turnUtils.ts:46-48 | the digits of the rendering (after the '-' of a negative number) read back as the number's magnitude |
| NumberFormat.TruncDiv | src/game/turnUtils.ts:43 | the quotient behind JavaScript `%`: its magnitude is the floor of the magnitudes' quotient, and its sign is the dividend's |
| NumberFormat.JsRem | src/game/turnUtils.ts:43 | JavaScript `%`: the dividend is the divisor times the truncated quotient plus the remainder; in [0, b) and equal to the mathematical remainder for non-negative input, in (-b, 0] for negative input |
| WinConditions.CheckForHit | src/game/winConditions.ts:9-19 | a hit needs a non-negative radius, and a projectile exactly on the player hits iff the radius is non-negative |
| WinConditions.HitIffWithinRadius | src/game/winConditions.ts:9-19 | given the Euclidean distance (the non-negative root of dx² + dy²), a hit is exactly distance <= hitboxSize, boundary included |
| WinConditions.WithinRadius | src/game/winConditions.ts:16-18 | comparing squared distance with the squared radius agrees with comparing the root, for every integer radius |
| WinConditions.DeclareRoundWinner | src/game/winConditions.ts:24-41 | the round winner is the opponent, never the hit player; status round_over, end time now, round inactive, timer stopped; scores, players, round number and everything else kept |
| WinConditions.UpdateScores | src/game/winConditions.ts:46-59 | the winner's count goes up by exactly one; the other count and every other field are unchanged |
| WinConditions.CheckForGameEnd | src/game/winConditions.ts:64-70 | true iff some player's win count has reached the limit |
| WinConditions.GameEndMonotone | src/game/winConditions.ts:64-70 | raising scores never turns a finished game into an unfinished one |
| WinConditions.UpdateScoresKeepsGameEnd | src/game/winConditions.ts:46-70 | crediting a win keeps a reached win limit reached |
| WinConditions.FreshTurn | src/game/winConditions.ts:91-99 | the turn record of a new round: given start time, no limit, both flags false, turn 1 |
| WinConditions.StartNewRound | src/game/winConditions.ts:75-104 | round n becomes n+1; status playing; player 1 to move; both healths 100 with ids, positions and round points kept; fresh turn at now; winner and end time cleared; round active; session scores kept |
| WinConditions.EndCurrentRound | src/game/winConditions.ts:109-123 | round inactive, end time now, the given winner, timer stopped; status and session scores untouched |
| WinConditions.ResetGameSession | src/game/winConditions.ts:128-164 | scores 0/0, round 1, waiting, player 1; healths 100 and round points 0 with ids and positions kept; initial turn; winner, end time and game winner cleared; round inactive |
| WinConditions.ResetDependsOnlyOnPlayers | src/game/winConditions.ts:128-164 | the session reset forgets everything except the players' ids and positions |
| WinConditions.ResetGameSessionIdempotent | src/game/winConditions.ts:128-164 | resetting the session twice is resetting it once |
| TurnUtils.TurnDuration | src/game/turnUtils.ts:9-14 | 0 when the start time is null or 0; otherwise start time plus duration is now |
| TurnUtils.IsTurnExpired | src/game/turnUtils.ts:19-24 | never expired when the limit is null or 0; otherwise expired iff the duration is strictly greater than the limit |
| TurnUtils.RemainingTurnTime | src/game/turnUtils.ts:29-35 | unbounded iff there is no (truthy) limit; never negative; at least limit minus duration, and exactly that when positive |
| TurnUtils.RemainingAgreesWithExpiry | src/game/turnUtils.ts:19-35 | an expired turn has 0 left; a turn within its limit has duration plus remaining equal to the limit; 0 left iff the duration has reached the limit |
| TurnUtils.FormatTurnDuration | src/game/turnUtils.ts:40-49 | for non-negative durations the text ends in 's' iff under a minute; negative durations always end in 's' |
| TurnUtils.FormatOfNonNegative | src/game/turnUtils.ts:40-49 | a non-negative duration shows as "{s}s" under a minute and as "{s div 60}:{s mod 60, two digits}" from a minute on, s being whole seconds |
| TurnUtils.FormatTurnDurationRoundTrip | src/game/turnUtils.ts:40-49 | the whole seconds of a non-negative duration can be read back from its display form |
| TurnUtils.FormatTurnDurationSameSecond | src/game/turnUtils.ts:40-49 | two non-negative durations display alike iff they fall in the same whole second |
| TurnUtils.FormatTurnDurationExamples | src/game/turnUtils.ts:40-49 | 0 shows "0s", 5000 shows "5s", 65000 shows "1:05", 125000 shows "2:05" |
| TurnUtils.CanPlayerPerformAction | src/game/turnUtils.ts:54-88 | allowed iff the player is to move, play is on, the start time is truthy and the turn has not expired; firing additionally needs no earlier shot |
| TurnUtils.FireImpliesAim | src/game/turnUtils.ts:60-87 | whoever may fire may aim; the player not to move may not even aim |
| TurnUtils.PhaseOf | src/game/turnUtils.ts:101-113 | the phase in priority order: not started iff no truthy start; fired iff started and fired; active iff started with neither flag |
| TurnUtils.NamesInjective | src/game/turnUtils.ts:95-113 | the status names and the phase labels of the status line are spelled differently for different statuses and phases |
| TurnUtils.BracketOnlyAtStart | src/game/turnUtils.ts:102-113 | a bracketed phase label holds '(' only at its start |
| TurnUtils.TurnStatusDescription | src/game/turnUtils.ts:93-114 | "Game {status}" outside play; during play exactly "Player {p} - Turn {n} ({phase})" with the turn number and the phase of the priority order |
| TurnUtils.TurnStatusDescriptionShape | src/game/turnUtils.ts:98-113 | during play the line starts "Player " followed by the mover's digit and ends with the bracketed phase |
| TurnUtils.TurnStatusDescriptionExamples | __tests__/game/turnUtils.test.ts:241-291 | "Game waiting", and for player 1 on turn 1 the lines "(Active)", "(Aimed)", "(Fired)" and "(Not started)" as the tests expect, plus "Game game_over" |
| TurnUtils.ActiveLine | src/game/turnUtils.ts:113 | a running turn with no aim and no shot reads "(Active)" |
| TurnUtils.DescriptionShowsPhase | src/game/turnUtils.ts:101-113 | during play the bracketed label at the end of the line is exactly that of the current phase, so the four phases are told apart |
| TurnUtils.CanSwitchTurn | src/game/turnUtils.ts:119-122 | true iff play is on and the mover has fired |
| TurnUtils.SwitchableMeansNoShotLeft | src/game/turnUtils.ts:83-84 | when the turn may be switched, nobody may fire |
| GameStateContext.InitialGameState | src/game/GameStateContext.tsx:8-43 | player 1, waiting, round 1, scores 0/0, players at (100,300) and (700,300) with health 100 and 0 points, no turn running, no limit, flags false, turn 1, no winners, round inactive |
| GameStateContext.Reduce | src/game/GameStateContext.tsx:46-264 | outside the resets no action lowers the round number or either win count; RESET_GAME yields the initial state (the full event table is in the lemmas below) |
| GameStateContext.ReduceScores | src/game/GameStateContext.tsx:139-259 | a hit (either kind) credits one win to the player not hit; the resets zero both scores; no other action touches them |
| GameStateContext.ReduceRoundNumber | src/game/GameStateContext.tsx:157-259 | START_NEW_ROUND adds one to the round number, the resets set it to 1, and nothing else moves it |
| GameStateContext.ReduceTurnOwner | src/game/GameStateContext.tsx:86-259 | SWITCH_TURN hands the turn to the other player and counts it; a new round or a reset gives player 1 turn 1; nothing else changes either |
| GameStateContext.ReduceStatus | src/game/GameStateContext.tsx:48-259 | start and new round lead to playing, END_GAME to game_over, hits and END_ROUND to round_over, resets to waiting; the turn actions keep the status |
| GameStateContext.ReduceTimer | src/game/GameStateContext.tsx:48-259 | which actions restart the turn timer at now, which stop it, which clear or set the aimed and fired flags, and that only a new round or a reset touches the time limit |
| GameStateContext.ReduceRoundOutcome | src/game/GameStateContext.tsx:139-222 | RECORD_HIT and END_ROUND set the round winner, end time and inactive flag; START_NEW_ROUND clears them; PLAYER_HIT and the turn actions leave them |
| GameStateContext.ReducePlayers | src/game/GameStateContext.tsx:157-259 | positions never move except on RESET_GAME, which yields the initial state; health goes back to 100 only on a new round or a reset; only a reset clears the game winner |
| GameStateContext.ReduceNeverLowersWins | src/game/GameStateContext.tsx:139-209 | outside the resets no dispatch lowers a player's win count |
| GameStateContext.CanPlayerAct | src/game/GameStateContext.tsx:304-308 | true iff play is on, the start time is non-null (0 included) and the mover has not fired |
| GameStateContext.IsCurrentPlayerTurn | src/game/GameStateContext.tsx:310-312 | true iff the player is to move and may act |
| GameStateContext.Replay | src/game/GameStateContext.tsx:281 | the state after a sequence of dispatches: no dispatch leaves the state alone, one dispatch is one application of the reducer |
| GameStateContext.ReplayAppend | src/game/GameStateContext.tsx:281 | dispatching one sequence after another is dispatching their concatenation |
| GameStateContext.ReplaySnoc | src/game/GameStateContext.tsx:281 | each dispatch applies the reducer to the state so far |
| GameStateContext.ScoresAndRoundsNeverDecrease | src/game/GameStateContext.tsx:139-209 | over any sequence of dispatches without a reset, no player's win count and not the round number ever goes down |
| GameStateContext.PositionsNeverChange | src/game/GameStateContext.tsx:46-259 | over any sequence of dispatches without RESET_GAME, the players' positions stay put |
| GameStateContext.ResetGameForgetsHistory | src/game/GameStateContext.tsx:187-188 | after RESET_GAME the state depends only on what is dispatched afterwards |
| GameStateContext.GameStore.constructor | src/game/GameStateContext.tsx:281 | the store starts in the initial state with nothing dispatched |
| GameStateContext.GameStore.Dispatch | src/game/GameStateContext.tsx:281 | the new state is the reducer applied to the old one, and the state always equals the replay of everything dispatched |
| GameStateContext.GameStore.Snapshot | src/game/GameStateContext.tsx:284 | readers see the current state |
| Consistency.RecordHitIsDeclareThenScore | src/game/GameStateContext.tsx:190-209 | RECORD_HIT(id) equals declareRoundWinner(id) followed by updateScores for the opponent, at the same clock reading |
| Consistency.PlayerHitIsRecordHitWithoutOutcome | src/game/GameStateContext.tsx:139-155 | PLAYER_HIT equals RECORD_HIT with the round winner, end time and round-active fields left as they were |
| Consistency.HitActionsAgreeIff | src/game/GameStateContext.tsx:139-209 | the two hit actions give the same state iff the outcome fields already hold what RECORD_HIT writes |
| Consistency.StartNewRoundAgrees | src/game/GameStateContext.tsx:157-185 | START_NEW_ROUND equals startNewRound for the same clock reading |
| Consistency.ResetGameSessionAgrees | src/game/GameStateContext.tsx:224-259 | RESET_GAME_SESSION equals resetGameSession |
| Consistency.EndRoundVersusEndCurrentRound | src/game/GameStateContext.tsx:211-222 | END_ROUND is endCurrentRound plus the move to round_over, and the two coincide iff the round is already over |
| Consistency.ResetsAgreeOnInitialPlayers | src/game/GameStateContext.tsx:187-259 | the two resets agree whenever the players keep their initial ids and positions |
| Consistency.ResetGameIdempotent | src/game/GameStateContext.tsx:187-188 | RESET_GAME twice equals RESET_GAME once |
| Consistency.ResetGameSessionIdempotentAsAction | src/game/GameStateContext.tsx:224-259 | RESET_GAME_SESSION twice equals once |
| Consistency.SwitchTurnTwice | src/game/GameStateContext.tsx:86-100 | two switches give the turn back to the same player and raise the turn number by two |
| Consistency.FlagsIdempotent | src/game/GameStateContext.tsx:102-124 | PLAYER_AIMED and PLAYER_FIRED are idempotent |
| Consistency.AfterFiring | src/game/GameStateContext.tsx:114-124 | after PLAYER_FIRED nobody can act or fire, the turn may be switched iff play is on, and a running turn shows "(Fired)" |
| Consistency.AfterSwitching | src/game/GameStateContext.tsx:86-100 | after SWITCH_TURN during play the new mover may fire at once (clock not 0, limit not negative), the old mover may not aim, the turn may not be switched again, and the line shows "(Active)" |
| Consistency.FireGuardsAgree | src/game/turnUtils.ts:54-88 | the utility's fire check is the hook's turn check plus a truthy start time and an unexpired turn |
| Consistency.GuardsDisagreeAtZeroStart | src/game/GameStateContext.tsx:304-312 | at start time 0 the hook's guard allows acting while the utility's guard forbids firing |
| Consistency.HitKeepsGameEnd | src/game/GameStateContext.tsx:139-209 | neither hit action undoes a reached win limit |
| Consistency.GameEndIsPermanent | src/game/winConditions.ts:64-70 | without a reset, a reached win limit stays reached whatever is dispatched |
| Consistency.PlayingWithRoundWinner | src/game/GameStateContext.tsx:48-56 | RECORD_HIT then START_GAME gives a playing state that still names a round winner |
| Consistency.RoundWinFlow | src/game/GameStateContext.tsx:139-185 | start, player 1 hit, new round, player 2 hit gives round_over with 0/1, then round 2 playing with player 1 to move, then 1/1 |

## Left out

- The React plumbing is not modelled: the context object, the provider component, the `useGameState` hook with its out-of-provider error, and the `useGameActions` wrappers. Each wrapper is a one-line dispatch of one action, and `switchTurn` and `switchToNextPlayer` both dispatch `SWITCH_TURN`. Only the state slot is modelled, as `GameStore`.
- The wall clock is not read: `Date.now()` is the parameter `now`.
- Floating point is left out. Coordinates, times, health and scores are integers, and `Math.sqrt` is replaced by an exact comparison of squares. Non-integer durations, `NaN` and JavaScript's exponent notation for numbers of 1e21 and above are not modelled.
- `undefined` and `null` both become `None` in the optional fields.
- The `default` branches of the reducer and of `canPlayerPerformAction`'s action switch are gone. The action types are closed, so they cannot be reached.
- `GameConfig` is not modelled; no logic uses it.
- Health never goes down in this code, and combat is not part of it.
- FormatTurnDurationRoundTrip: stated for non-negative durations only. For a negative duration the source prints a truncated remainder that drops the minutes, so no inverse exists there.
