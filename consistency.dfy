/** How the reducer relates to the policy functions: the event path and the
    direct-call path of the same transition, the eligibility guards of the
    action hook against those of the turn utilities, and the sequences of
    actions that the source's tests walk through. */
module Consistency {

  import opened Types
  import opened WinConditions
  import opened TurnUtils
  import opened GameStateContext

  /** RECORD_HIT is `declareRoundWinner` followed by `updateScores` for the
      player who was not hit, at the same clock reading. */
  lemma RecordHitIsDeclareThenScore(s: GameState, hitPlayerId: PlayerId, now: int)
    ensures Reduce(s, RecordHit(hitPlayerId), now) ==
            UpdateScores(DeclareRoundWinner(s, hitPlayerId, now), Other(hitPlayerId))
  {
  }

  /** PLAYER_HIT is RECORD_HIT without its three round-outcome fields. */
  lemma PlayerHitIsRecordHitWithoutOutcome(s: GameState, hitPlayerId: PlayerId, now: int)
    ensures Reduce(s, PlayerHit(hitPlayerId), now) ==
            Reduce(s, RecordHit(hitPlayerId), now).(roundWinner := s.roundWinner,
                                                    roundEndTime := s.roundEndTime,
                                                    isRoundActive := s.isRoundActive)
  {
  }

  /** The two hit actions agree exactly on the states whose outcome fields
      already hold what RECORD_HIT would write. */
  lemma HitActionsAgreeIff(s: GameState, hitPlayerId: PlayerId, now: int)
    ensures Reduce(s, PlayerHit(hitPlayerId), now) == Reduce(s, RecordHit(hitPlayerId), now) <==>
            s.roundWinner == Some(Other(hitPlayerId)) && s.roundEndTime == Some(now) &&
            s.isRoundActive == Some(false)
  {
    var a := Reduce(s, PlayerHit(hitPlayerId), now);
    var b := Reduce(s, RecordHit(hitPlayerId), now);
    if a == b {
      assert a.roundWinner == b.roundWinner;
    }
  }

  lemma StartNewRoundAgrees(s: GameState, now: int)
    ensures Reduce(s, GameAction.StartNewRound, now) == WinConditions.StartNewRound(s, now)
  {
  }

  lemma ResetGameSessionAgrees(s: GameState, now: int)
    ensures Reduce(s, GameAction.ResetGameSession, now) == WinConditions.ResetGameSession(s)
  {
  }

  /** END_ROUND is `endCurrentRound` plus the move to `round_over`; the two
      coincide exactly when the round is already over. */
  lemma EndRoundVersusEndCurrentRound(s: GameState, winnerId: PlayerId, now: int)
    ensures Reduce(s, EndRound(winnerId), now) == EndCurrentRound(s, winnerId, now).(gameStatus := RoundOver)
    ensures Reduce(s, EndRound(winnerId), now) == EndCurrentRound(s, winnerId, now) <==>
            s.gameStatus == RoundOver
  {
  }

  /** RESET_GAME and RESET_GAME_SESSION give the same state whenever the
      players still have their initial ids and positions. */
  lemma ResetsAgreeOnInitialPlayers(s: GameState, now: int)
    requires s.players.player1.id == 1 && s.players.player2.id == 2
    requires Positions(s) == Positions(InitialGameState())
    ensures Reduce(s, GameAction.ResetGameSession, now) == Reduce(s, ResetGame, now)
  {
  }

  lemma ResetGameIdempotent(s: GameState, t1: int, t2: int)
    ensures Reduce(Reduce(s, ResetGame, t1), ResetGame, t2) == Reduce(s, ResetGame, t1)
  {
  }

  lemma ResetGameSessionIdempotentAsAction(s: GameState, t1: int, t2: int)
    ensures Reduce(Reduce(s, GameAction.ResetGameSession, t1), GameAction.ResetGameSession, t2) ==
            Reduce(s, GameAction.ResetGameSession, t1)
  {
  }

  /** Switching twice gives the turn back and advances the counter by two. */
  lemma SwitchTurnTwice(s: GameState, t1: int, t2: int)
    ensures Reduce(Reduce(s, SwitchTurn, t1), SwitchTurn, t2).currentPlayer == s.currentPlayer
    ensures Reduce(Reduce(s, SwitchTurn, t1), SwitchTurn, t2).turnState.turnNumber ==
            s.turnState.turnNumber + 2
  {
    OtherInvolutive(s.currentPlayer);
  }

  /** Marking a flag twice is marking it once. */
  lemma FlagsIdempotent(s: GameState, t1: int, t2: int)
    ensures Reduce(Reduce(s, PlayerAimed, t1), PlayerAimed, t2) == Reduce(s, PlayerAimed, t1)
    ensures Reduce(Reduce(s, PlayerFired, t1), PlayerFired, t2) == Reduce(s, PlayerFired, t1)
  {
  }

  /** After PLAYER_FIRED nobody can act, the turn can be switched if play is
      on, and the status line shows the shot if a turn was running. */
  lemma AfterFiring(s: GameState, now: int, playerId: PlayerId)
    ensures !CanPlayerAct(Reduce(s, PlayerFired, now))
    ensures !IsCurrentPlayerTurn(Reduce(s, PlayerFired, now), playerId)
    ensures !CanPlayerPerformAction(Reduce(s, PlayerFired, now), playerId, Fire, now)
    ensures CanSwitchTurn(Reduce(s, PlayerFired, now)) <==> s.gameStatus == Playing
    ensures s.gameStatus == Playing && IsSet(s.turnState.turnStartTime) ==>
              EndsWith(TurnStatusDescription(Reduce(s, PlayerFired, now)), "(Fired)")
  {
    var r := Reduce(s, PlayerFired, now);
    if r.gameStatus == Playing && IsSet(s.turnState.turnStartTime) {
      TurnStatusDescriptionShape(r);
      assert PhaseOf(r) == Fired;
    }
  }

  /** After SWITCH_TURN during play the new mover may fire straight away at
      the same clock reading, unless the clock reads 0 (falsy) or the limit
      is negative; the old mover may not. */
  lemma AfterSwitching(s: GameState, now: int)
    requires s.gameStatus == Playing && now != 0
    requires s.turnState.turnTimeLimit == None || s.turnState.turnTimeLimit.value >= 0
    ensures CanPlayerPerformAction(Reduce(s, SwitchTurn, now), Other(s.currentPlayer), Fire, now)
    ensures !CanPlayerPerformAction(Reduce(s, SwitchTurn, now), s.currentPlayer, Aim, now)
    ensures !CanSwitchTurn(Reduce(s, SwitchTurn, now))
    ensures EndsWith(TurnStatusDescription(Reduce(s, SwitchTurn, now)), "(Active)")
  {
    var r := Reduce(s, SwitchTurn, now);
    assert r.gameStatus == Playing && r.currentPlayer == Other(s.currentPlayer);
    assert r.turnState.turnStartTime == Some(now);
    assert r.turnState.playerActions == PlayerActions(false, false);
    assert r.turnState.turnTimeLimit == s.turnState.turnTimeLimit;
    assert TurnDuration(r, now) == 0;
    assert !IsTurnExpired(r, now);
    assert PhaseOf(r) == Active;
    ActiveLine(r);
  }

  /** The hook's guard and the utility's guard for firing: the utility asks
      in addition for a truthy start time and an unexpired turn. */
  lemma FireGuardsAgree(s: GameState, playerId: PlayerId, now: int)
    ensures CanPlayerPerformAction(s, playerId, Fire, now) <==>
            IsCurrentPlayerTurn(s, playerId) && IsSet(s.turnState.turnStartTime) &&
            !IsTurnExpired(s, now)
  {
  }

  /** The guards differ on a turn started at clock reading 0: `!== null`
      accepts it, the falsy test does not. */
  lemma GuardsDisagreeAtZeroStart(s: GameState, now: int)
    requires s.gameStatus == Playing && s.turnState.turnStartTime == Some(0)
    requires !s.turnState.playerActions.hasFired
    ensures IsCurrentPlayerTurn(s, s.currentPlayer)
    ensures !CanPlayerPerformAction(s, s.currentPlayer, Fire, now)
  {
  }

  /** A hit never undoes the end of the game. */
  lemma HitKeepsGameEnd(s: GameState, hitPlayerId: PlayerId, now: int, winLimit: int)
    requires CheckForGameEnd(s, winLimit)
    ensures CheckForGameEnd(Reduce(s, RecordHit(hitPlayerId), now), winLimit)
    ensures CheckForGameEnd(Reduce(s, PlayerHit(hitPlayerId), now), winLimit)
  {
    RecordHitIsDeclareThenScore(s, hitPlayerId, now);
    UpdateScoresKeepsGameEnd(DeclareRoundWinner(s, hitPlayerId, now), Other(hitPlayerId), winLimit);
    PlayerHitIsRecordHitWithoutOutcome(s, hitPlayerId, now);
  }

  /** Without a reset, a game that has reached the win limit stays there
      whatever is dispatched next. */
  lemma GameEndIsPermanent(s: GameState, events: seq<Event>, winLimit: int)
    requires NoReset(events)
    requires CheckForGameEnd(s, winLimit)
    ensures CheckForGameEnd(Replay(s, events), winLimit)
  {
    forall p: PlayerId
      ensures Wins(Replay(s, events).sessionScores, p) >= Wins(s.sessionScores, p)
    {
      ScoresAndRoundsNeverDecrease(s, events, p);
    }
    GameEndMonotone(s, Replay(s, events), winLimit);
  }

  /** START_GAME does not clear an earlier round's winner, so a playing
      state can still name one: the reducer does not tie `roundWinner` to
      `round_over`. */
  lemma PlayingWithRoundWinner(t1: int, t2: int)
    ensures var r := Replay(InitialGameState(), [Event(RecordHit(1), t1), Event(StartGame, t2)]);
            r.gameStatus == Playing && r.roundWinner == Some(2)
  {
    var e1, e2 := Event(RecordHit(1), t1), Event(StartGame, t2);
    ReplaySnoc(InitialGameState(), [], e1);
    ReplaySnoc(InitialGameState(), [e1], e2);
    assert [] + [e1] == [e1] && [e1] + [e2] == [e1, e2];
  }

  /** Start the game, player 1 is hit, a new round, player 2 is hit. */
  lemma RoundWinFlow(t1: int, t2: int, t3: int, t4: int)
    ensures var s := InitialGameState();
            var e1, e2, e3, e4 := Event(StartGame, t1), Event(PlayerHit(1), t2),
                                  Event(GameAction.StartNewRound, t3), Event(PlayerHit(2), t4);
            Replay(s, [e1, e2]).gameStatus == RoundOver &&
            Replay(s, [e1, e2]).sessionScores == SessionScores(0, 1) &&
            Replay(s, [e1, e2, e3]).roundNumber == 2 &&
            Replay(s, [e1, e2, e3]).gameStatus == Playing &&
            Replay(s, [e1, e2, e3]).currentPlayer == 1 &&
            Replay(s, [e1, e2, e3, e4]).sessionScores == SessionScores(1, 1)
  {
    var s := InitialGameState();
    var e1, e2, e3, e4 := Event(StartGame, t1), Event(PlayerHit(1), t2),
                          Event(GameAction.StartNewRound, t3), Event(PlayerHit(2), t4);
    ReplaySnoc(s, [], e1);
    ReplaySnoc(s, [e1], e2);
    ReplaySnoc(s, [e1, e2], e3);
    ReplaySnoc(s, [e1, e2, e3], e4);
    assert [] + [e1] == [e1] && [e1] + [e2] == [e1, e2];
    assert [e1, e2] + [e3] == [e1, e2, e3] && [e1, e2, e3] + [e4] == [e1, e2, e3, e4];
  }
}
