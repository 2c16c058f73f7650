/** The game-state reducer, its initial state, the two turn guards of the
    action hook, and the state slot the provider owns
    (src/game/GameStateContext.tsx). The reducer is total over the closed
    action type, so the source's `default: return state` branch has no
    counterpart. `now` stands for the `Date.now()` reading of a dispatch. */
module GameStateContext {

  import opened Types

  /** The actions that start the session over. */
  predicate IsReset(a: GameAction)
  {
    a.ResetGame? || a.ResetGameSession?
  }

  /** The two overlapping "a player was hit" actions. */
  predicate IsHit(a: GameAction)
  {
    a.PlayerHit? || a.RecordHit?
  }

  /** The actions that leave the turn timer running from `now`. */
  predicate RestartsTimer(a: GameAction)
  {
    a.StartGame? || a.StartTurn? || a.SwitchTurn? || a.ResetTurn? || a.StartNewRound?
  }

  /** The actions that stop the turn timer. */
  predicate StopsTimer(a: GameAction)
  {
    a.EndTurn? || IsHit(a) || a.EndRound? || IsReset(a)
  }

  /** The actions that clear both per-turn flags. */
  predicate ClearsFlags(a: GameAction)
  {
    a.StartTurn? || a.SwitchTurn? || a.ResetTurn? || a.StartNewRound? || IsReset(a)
  }

  function Positions(s: GameState): (Position, Position)
  {
    (s.players.player1.position, s.players.player2.position)
  }

  /** The state a session starts in: player 1 to move, waiting, round 1,
      no wins, no turn running, players at (100,300) and (700,300). */
  function InitialGameState(): (s: GameState)
    ensures s.currentPlayer == 1 && s.gameStatus == Waiting && s.roundNumber == 1
    ensures s.players.player1 == Player(1, Position(100, 300), 100, 0)
    ensures s.players.player2 == Player(2, Position(700, 300), 100, 0)
    ensures s.sessionScores == SessionScores(0, 0)
    ensures s.turnState == TurnState(None, None, PlayerActions(false, false), 1)
    ensures s.roundWinner == None && s.roundEndTime == None
    ensures s.isRoundActive == Some(false) && s.gameWinner == None
  {
    GameState(
      currentPlayer := 1,
      gameStatus := Waiting,
      roundNumber := 1,
      players := Players(
        Player(1, Position(100, 300), 100, 0),
        Player(2, Position(700, 300), 100, 0)),
      sessionScores := SessionScores(0, 0),
      turnState := TurnState(None, None, PlayerActions(false, false), 1),
      roundWinner := None,
      roundEndTime := None,
      isRoundActive := Some(false),
      gameWinner := None)
  }

  /** `gameStateReducer`: the 14 actions, case by case. Its contract is the
      event table of the game, stated by the lemmas after it. */
  function Reduce(s: GameState, action: GameAction, now: int): (r: GameState)
    ensures !IsReset(action) ==>
              r.roundNumber >= s.roundNumber &&
              r.sessionScores.player1Wins >= s.sessionScores.player1Wins &&
              r.sessionScores.player2Wins >= s.sessionScores.player2Wins
    ensures action.ResetGame? ==> r == InitialGameState()
  {
    match action
    case StartGame =>
      s.(gameStatus := Playing,
         turnState := s.turnState.(turnStartTime := Some(now)))
    case EndGame =>
      s.(gameStatus := GameOver)
    case StartTurn =>
      s.(turnState := s.turnState.(turnStartTime := Some(now),
                                   playerActions := PlayerActions(false, false)))
    case EndTurn =>
      s.(turnState := s.turnState.(turnStartTime := None))
    case SwitchTurn =>
      var nextPlayer: PlayerId := if s.currentPlayer == 1 then 2 else 1;
      s.(currentPlayer := nextPlayer,
         turnState := s.turnState.(turnStartTime := Some(now),
                                   turnNumber := s.turnState.turnNumber + 1,
                                   playerActions := PlayerActions(false, false)))
    case PlayerAimed =>
      s.(turnState := s.turnState.(playerActions := s.turnState.playerActions.(hasAimed := true)))
    case PlayerFired =>
      s.(turnState := s.turnState.(playerActions := s.turnState.playerActions.(hasFired := true)))
    case ResetTurn =>
      s.(turnState := s.turnState.(playerActions := PlayerActions(false, false),
                                   turnStartTime := Some(now)))
    case PlayerHit(hitPlayer) =>
      var winner: PlayerId := if hitPlayer == 1 then 2 else 1;
      s.(gameStatus := RoundOver,
         sessionScores := AddWin(s.sessionScores, winner),
         turnState := s.turnState.(turnStartTime := None))
    case StartNewRound =>
      s.(gameStatus := Playing,
         roundNumber := s.roundNumber + 1,
         currentPlayer := 1,
         players := Players(s.players.player1.(health := 100), s.players.player2.(health := 100)),
         turnState := TurnState(Some(now), None, PlayerActions(false, false), 1),
         roundWinner := None,
         roundEndTime := None,
         isRoundActive := Some(true))
    case ResetGame =>
      InitialGameState()
    case RecordHit(hitPlayerId) =>
      var roundWinner: PlayerId := if hitPlayerId == 1 then 2 else 1;
      s.(gameStatus := RoundOver,
         roundWinner := Some(roundWinner),
         roundEndTime := Some(now),
         isRoundActive := Some(false),
         sessionScores := AddWin(s.sessionScores, roundWinner),
         turnState := s.turnState.(turnStartTime := None))
    case EndRound(winnerId) =>
      s.(gameStatus := RoundOver,
         roundWinner := Some(winnerId),
         roundEndTime := Some(now),
         isRoundActive := Some(false),
         turnState := s.turnState.(turnStartTime := None))
    case ResetGameSession =>
      s.(gameStatus := Waiting,
         roundNumber := 1,
         currentPlayer := 1,
         players := Players(s.players.player1.(health := 100, score := 0),
                            s.players.player2.(health := 100, score := 0)),
         sessionScores := SessionScores(0, 0),
         turnState := TurnState(None, None, PlayerActions(false, false), 1),
         roundWinner := None,
         roundEndTime := None,
         isRoundActive := Some(false),
         gameWinner := None)
  }

  // The contract of the reducer, one lemma per group of fields. Each takes
  // the state `r` that dispatching `action` at `now` produces from `s`.

  /** Session scores: only a hit adds a win, to the player not hit; only a
      reset lowers them. */
  lemma ReduceScores(s: GameState, action: GameAction, now: int, r: GameState)
    requires r == Reduce(s, action, now)
    ensures IsHit(action) ==> r.sessionScores == AddWin(s.sessionScores, Other(action.playerId))
    ensures !IsHit(action) && !IsReset(action) ==> r.sessionScores == s.sessionScores
    ensures IsReset(action) ==> r.sessionScores == SessionScores(0, 0)
  {
  }

  /** The round counter moves only on a new round; a reset sets it back to 1. */
  lemma ReduceRoundNumber(s: GameState, action: GameAction, now: int, r: GameState)
    requires r == Reduce(s, action, now)
    ensures action.StartNewRound? ==> r.roundNumber == s.roundNumber + 1
    ensures IsReset(action) ==> r.roundNumber == 1
    ensures !action.StartNewRound? && !IsReset(action) ==> r.roundNumber == s.roundNumber
  {
  }

  /** SWITCH_TURN hands the turn over and counts it; a new round or a reset
      starts with player 1 on turn 1; nothing else touches either. */
  lemma ReduceTurnOwner(s: GameState, action: GameAction, now: int, r: GameState)
    requires r == Reduce(s, action, now)
    ensures action.SwitchTurn? ==>
              r.currentPlayer == Other(s.currentPlayer) &&
              r.turnState.turnNumber == s.turnState.turnNumber + 1
    ensures action.StartNewRound? || IsReset(action) ==>
              r.currentPlayer == 1 && r.turnState.turnNumber == 1
    ensures !action.SwitchTurn? && !action.StartNewRound? && !IsReset(action) ==>
              r.currentPlayer == s.currentPlayer && r.turnState.turnNumber == s.turnState.turnNumber
  {
  }

  /** The match status each action leads to. */
  lemma ReduceStatus(s: GameState, action: GameAction, now: int, r: GameState)
    requires r == Reduce(s, action, now)
    ensures action.StartGame? || action.StartNewRound? ==> r.gameStatus == Playing
    ensures action.EndGame? ==> r.gameStatus == GameOver
    ensures IsHit(action) || action.EndRound? ==> r.gameStatus == RoundOver
    ensures IsReset(action) ==> r.gameStatus == Waiting
    ensures (action.StartTurn? || action.EndTurn? || action.SwitchTurn? || action.PlayerAimed? ||
             action.PlayerFired? || action.ResetTurn?) ==> r.gameStatus == s.gameStatus
  {
  }

  /** The turn timer, the per-turn flags, and the time limit, which survives
      everything but a new round and the resets. */
  lemma ReduceTimer(s: GameState, action: GameAction, now: int, r: GameState)
    requires r == Reduce(s, action, now)
    ensures RestartsTimer(action) ==> r.turnState.turnStartTime == Some(now)
    ensures StopsTimer(action) ==> r.turnState.turnStartTime == None
    ensures !RestartsTimer(action) && !StopsTimer(action) ==>
              r.turnState.turnStartTime == s.turnState.turnStartTime
    ensures ClearsFlags(action) ==> r.turnState.playerActions == PlayerActions(false, false)
    ensures action.PlayerAimed? ==>
              r.turnState.playerActions == s.turnState.playerActions.(hasAimed := true)
    ensures action.PlayerFired? ==>
              r.turnState.playerActions == s.turnState.playerActions.(hasFired := true)
    ensures !ClearsFlags(action) && !action.PlayerAimed? && !action.PlayerFired? ==>
              r.turnState.playerActions == s.turnState.playerActions
    ensures !action.StartNewRound? && !IsReset(action) ==>
              r.turnState.turnTimeLimit == s.turnState.turnTimeLimit
  {
  }

  /** The round outcome fields: RECORD_HIT and END_ROUND set them, PLAYER_HIT
      does not, a new round clears them. */
  lemma ReduceRoundOutcome(s: GameState, action: GameAction, now: int, r: GameState)
    requires r == Reduce(s, action, now)
    ensures action.RecordHit? ==> r.roundWinner == Some(Other(action.playerId))
    ensures action.EndRound? ==> r.roundWinner == Some(action.winnerId)
    ensures action.RecordHit? || action.EndRound? ==>
              r.roundEndTime == Some(now) && r.isRoundActive == Some(false)
    ensures action.StartNewRound? ==>
              r.roundWinner == None && r.roundEndTime == None && r.isRoundActive == Some(true)
    ensures !action.RecordHit? && !action.EndRound? && !action.StartNewRound? && !IsReset(action) ==>
              r.roundWinner == s.roundWinner && r.roundEndTime == s.roundEndTime &&
              r.isRoundActive == s.isRoundActive
  {
  }

  /** The players stay put except on RESET_GAME, which yields the initial
      state; a new round or a reset restores health; only a reset touches
      the game winner. */
  lemma ReducePlayers(s: GameState, action: GameAction, now: int, r: GameState)
    requires r == Reduce(s, action, now)
    ensures !action.ResetGame? ==> Positions(r) == Positions(s)
    ensures action.StartNewRound? || IsReset(action) ==>
              r.players.player1.health == 100 && r.players.player2.health == 100
    ensures !action.StartNewRound? && !IsReset(action) ==> r.players == s.players
    ensures !IsReset(action) ==> r.gameWinner == s.gameWinner
    ensures action.ResetGame? ==> r == InitialGameState()
  {
  }

  /** Outside the resets no dispatch lowers a player's win count. */
  lemma ReduceNeverLowersWins(s: GameState, action: GameAction, now: int, p: PlayerId)
    requires !IsReset(action)
    ensures Wins(Reduce(s, action, now).sessionScores, p) >= Wins(s.sessionScores, p)
  {
    if IsHit(action) && p != Other(action.playerId) {
      assert p == Other(Other(action.playerId));
    }
  }

  /** `canPlayerAct`: play is on, a turn is running (any non-null start) and
      the mover has not fired yet. */
  function CanPlayerAct(s: GameState): (ok: bool)
    ensures ok <==>
              s.gameStatus == Playing && s.turnState.turnStartTime != None &&
              !s.turnState.playerActions.hasFired
  {
    s.gameStatus == Playing && s.turnState.turnStartTime.Some? && !s.turnState.playerActions.hasFired
  }

  /** `isCurrentPlayerTurn`: `playerId` is to move and may act. */
  function IsCurrentPlayerTurn(s: GameState, playerId: PlayerId): (ok: bool)
    ensures ok <==> s.currentPlayer == playerId && CanPlayerAct(s)
  {
    s.currentPlayer == playerId && CanPlayerAct(s)
  }

  /** One dispatch: the action and the clock reading it was applied at. */
  datatype Event = Event(action: GameAction, now: int)

  /** The state after dispatching `events` in order, starting from `s`. */
  function Replay(s: GameState, events: seq<Event>): (r: GameState)
    ensures events == [] ==> r == s
    ensures |events| == 1 ==> r == Reduce(s, events[0].action, events[0].now)
    decreases |events|
  {
    if events == [] then s else Replay(Reduce(s, events[0].action, events[0].now), events[1..])
  }

  lemma {:induction false} ReplayAppend(s: GameState, a: seq<Event>, b: seq<Event>)
    ensures Replay(s, a + b) == Replay(Replay(s, a), b)
    decreases |a|
  {
    if a == [] {
      assert a + b == b;
    } else {
      assert (a + b)[1..] == a[1..] + b;
      ReplayAppend(Reduce(s, a[0].action, a[0].now), a[1..], b);
    }
  }

  lemma ReplaySnoc(s: GameState, events: seq<Event>, e: Event)
    ensures Replay(s, events + [e]) == Reduce(Replay(s, events), e.action, e.now)
  {
    ReplayAppend(s, events, [e]);
  }

  predicate NoReset(events: seq<Event>)
  {
    forall i :: 0 <= i < |events| ==> !IsReset(events[i].action)
  }

  /** Without a reset, neither player's session wins nor the round number
      ever go down, however many actions are dispatched. */
  lemma {:induction false} ScoresAndRoundsNeverDecrease(s: GameState, events: seq<Event>, p: PlayerId)
    requires NoReset(events)
    ensures Wins(Replay(s, events).sessionScores, p) >= Wins(s.sessionScores, p)
    ensures Replay(s, events).roundNumber >= s.roundNumber
    decreases |events|
  {
    if events != [] {
      var next := Reduce(s, events[0].action, events[0].now);
      assert NoReset(events[1..]) by {
        forall i | 0 <= i < |events[1..]| ensures !IsReset(events[1..][i].action) {
          assert events[1..][i] == events[i + 1];
        }
      }
      ReduceNeverLowersWins(s, events[0].action, events[0].now, p);
      ReduceRoundNumber(s, events[0].action, events[0].now, next);
      ScoresAndRoundsNeverDecrease(next, events[1..], p);
    }
  }

  /** Without RESET_GAME the players never move. */
  lemma {:induction false} PositionsNeverChange(s: GameState, events: seq<Event>)
    requires forall i :: 0 <= i < |events| ==> !events[i].action.ResetGame?
    ensures Positions(Replay(s, events)) == Positions(s)
    decreases |events|
  {
    if events != [] {
      var next := Reduce(s, events[0].action, events[0].now);
      assert forall i :: 0 <= i < |events[1..]| ==> events[1..][i] == events[i + 1];
      ReducePlayers(s, events[0].action, events[0].now, next);
      PositionsNeverChange(next, events[1..]);
    }
  }

  /** RESET_GAME forgets everything that was dispatched before it. */
  lemma ResetGameForgetsHistory(s: GameState, before: seq<Event>, now: int, after: seq<Event>)
    ensures Replay(s, before + [Event(ResetGame, now)] + after) == Replay(InitialGameState(), after)
  {
    ReplayAppend(s, before + [Event(ResetGame, now)], after);
    ReplaySnoc(s, before, Event(ResetGame, now));
  }

  /** The `useReducer` slot of the provider: one state value that every
      dispatch replaces. `history` records what was dispatched. */
  class GameStore {
    var state: GameState
    ghost var history: seq<Event>

    ghost predicate Valid()
      reads this
    {
      state == Replay(InitialGameState(), history)
    }

    constructor ()
      ensures Valid()
      ensures state == InitialGameState() && history == []
    {
      state := InitialGameState();
      history := [];
    }

    /** Applies one action at clock reading `now`. */
    method Dispatch(action: GameAction, now: int)
      requires Valid()
      modifies this
      ensures Valid()
      ensures state == Reduce(old(state), action, now)
      ensures history == old(history) + [Event(action, now)]
    {
      ReplaySnoc(InitialGameState(), history, Event(action, now));
      state := Reduce(state, action, now);
      history := history + [Event(action, now)];
    }

    /** The current snapshot, as the context hands it to its readers. */
    method Snapshot() returns (s: GameState)
      ensures s == state
    {
      s := state;
    }
  }
}
