/** Hit detection, scoring and round transitions (src/game/winConditions.ts).
    Each function builds a new state from the old one; `now` stands for the
    clock reading the source takes with `Date.now()`. */
module WinConditions {

  import opened Types

  function SquaredDistance(a: Position, b: Position): (d: int)
    ensures d >= 0
  {
    var dx := a.x - b.x;
    var dy := a.y - b.y;
    dx * dx + dy * dy
  }

  /** Whether the projectile lies within `hitboxSize` of the player, boundary
      included. Both sides of the source's `sqrt(dx² + dy²) <= hitboxSize` are
      non-negative when the radius is, so comparing squares is exact; a
      negative radius is never reached by a square root. */
  function CheckForHit(projectile: Position, player: Position, hitboxSize: int): (hit: bool)
    ensures hit ==> hitboxSize >= 0
    ensures projectile == player ==> (hit <==> hitboxSize >= 0)
  {
    hitboxSize >= 0 && SquaredDistance(projectile, player) <= hitboxSize * hitboxSize
  }

  /** Given the Euclidean distance `dist` between the two points (the
      non-negative root of dx² + dy²), a hit is exactly `dist <= hitboxSize`. */
  lemma HitIffWithinRadius(projectile: Position, player: Position, hitboxSize: int, dist: real)
    requires dist >= 0.0
    requires dist * dist == SquaredDistance(projectile, player) as real
    ensures CheckForHit(projectile, player, hitboxSize) <==> dist <= hitboxSize as real
  {
    WithinRadius(SquaredDistance(projectile, player), hitboxSize, dist);
  }

  /** The squared comparison agrees with the comparison of the root. */
  lemma WithinRadius(n: int, h: int, dist: real)
    requires n >= 0 && dist >= 0.0
    requires dist * dist == n as real
    ensures (h >= 0 && n <= h * h) <==> dist <= h as real
  {
    var r := h as real;
    if h > 0 {
      assert (h * h) as real == r * r;
      if dist <= r {
        calc {
          n as real;
          dist * dist;
        <=
          dist * r;
        <=
          r * r;
        }
      } else {
        calc {
          n as real;
          dist * dist;
        >
          dist * r;
        >=
          r * r;
        }
      }
    } else if h == 0 {
      assert h * h == 0;
      if dist == 0.0 {
        calc {
          n as real;
          dist * dist;
          0.0 * 0.0;
          0.0;
        }
      } else {
        calc {
          n as real;
          dist * dist;
        >
          0.0 * dist;
          0.0;
        }
      }
    }
  }

  /** Ends the round in favour of the player who was not hit. Session scores
      are left for `UpdateScores`. */
  function DeclareRoundWinner(s: GameState, hitPlayerId: PlayerId, now: int): (r: GameState)
    ensures r.roundWinner == Some(Other(hitPlayerId)) && r.roundWinner != Some(hitPlayerId)
    ensures r.gameStatus == RoundOver
    ensures r.roundEndTime == Some(now) && r.isRoundActive == Some(false)
    ensures r.turnState == s.turnState.(turnStartTime := None)
    ensures r.sessionScores == s.sessionScores
    ensures r.players == s.players && r.currentPlayer == s.currentPlayer
    ensures r.roundNumber == s.roundNumber && r.gameWinner == s.gameWinner
  {
    s.(gameStatus := RoundOver,
       roundWinner := Some(Other(hitPlayerId)),
       roundEndTime := Some(now),
       isRoundActive := Some(false),
       turnState := s.turnState.(turnStartTime := None))
  }

  /** Credits one round win to `winnerId`; nothing else changes. */
  function UpdateScores(s: GameState, winnerId: PlayerId): (r: GameState)
    ensures Wins(r.sessionScores, winnerId) == Wins(s.sessionScores, winnerId) + 1
    ensures Wins(r.sessionScores, Other(winnerId)) == Wins(s.sessionScores, Other(winnerId))
    ensures r == s.(sessionScores := r.sessionScores)
  {
    s.(sessionScores := AddWin(s.sessionScores, winnerId))
  }

  /** Whether some player has reached the win limit. */
  function CheckForGameEnd(s: GameState, winLimit: int): (over: bool)
    ensures over <==> exists p: PlayerId :: Wins(s.sessionScores, p) >= winLimit
  {
    assert Wins(s.sessionScores, 1) == s.sessionScores.player1Wins;
    assert Wins(s.sessionScores, 2) == s.sessionScores.player2Wins;
    s.sessionScores.player1Wins >= winLimit || s.sessionScores.player2Wins >= winLimit
  }

  /** Raising scores never turns a finished game into an unfinished one. */
  lemma GameEndMonotone(s: GameState, t: GameState, winLimit: int)
    requires forall p: PlayerId :: Wins(t.sessionScores, p) >= Wins(s.sessionScores, p)
    requires CheckForGameEnd(s, winLimit)
    ensures CheckForGameEnd(t, winLimit)
  {
    var p: PlayerId :| Wins(s.sessionScores, p) >= winLimit;
    assert Wins(t.sessionScores, p) >= winLimit;
  }

  /** Credited wins only bring the end of the game closer. */
  lemma UpdateScoresKeepsGameEnd(s: GameState, winnerId: PlayerId, winLimit: int)
    requires CheckForGameEnd(s, winLimit)
    ensures CheckForGameEnd(UpdateScores(s, winnerId), winLimit)
  {
    var t := UpdateScores(s, winnerId);
    forall p: PlayerId ensures Wins(t.sessionScores, p) >= Wins(s.sessionScores, p) {
      if p != winnerId { assert p == Other(winnerId); }
    }
    GameEndMonotone(s, t, winLimit);
  }

  /** The turn bookkeeping at the start of a round that began at `now`. */
  function FreshTurn(now: Option<int>): (t: TurnState)
    ensures t.turnStartTime == now && t.turnTimeLimit == None && t.turnNumber == 1
    ensures !t.playerActions.hasFired && !t.playerActions.hasAimed
  {
    TurnState(now, None, PlayerActions(false, false), 1)
  }

  /** Opens the next round: player 1 to move, full health, a fresh turn. */
  function StartNewRound(s: GameState, now: int): (r: GameState)
    ensures r.gameStatus == Playing
    ensures r.roundNumber == s.roundNumber + 1
    ensures r.currentPlayer == 1
    ensures r.players.player1 == s.players.player1.(health := 100)
    ensures r.players.player2 == s.players.player2.(health := 100)
    ensures r.turnState == FreshTurn(Some(now))
    ensures r.roundWinner == None && r.roundEndTime == None && r.isRoundActive == Some(true)
    ensures r.sessionScores == s.sessionScores && r.gameWinner == s.gameWinner
  {
    s.(gameStatus := Playing,
       roundNumber := s.roundNumber + 1,
       currentPlayer := 1,
       players := Players(WithFullHealth(s.players.player1), WithFullHealth(s.players.player2)),
       turnState := FreshTurn(Some(now)),
       roundWinner := None,
       roundEndTime := None,
       isRoundActive := Some(true))
  }

  /** Closes the round with the given winner without touching the status or
      the session scores. */
  function EndCurrentRound(s: GameState, winnerId: PlayerId, now: int): (r: GameState)
    ensures r.isRoundActive == Some(false) && r.roundEndTime == Some(now)
    ensures r.roundWinner == Some(winnerId)
    ensures r.turnState == s.turnState.(turnStartTime := None)
    ensures r.gameStatus == s.gameStatus && r.sessionScores == s.sessionScores
    ensures r.players == s.players && r.currentPlayer == s.currentPlayer
    ensures r.roundNumber == s.roundNumber && r.gameWinner == s.gameWinner
  {
    s.(isRoundActive := Some(false),
       roundEndTime := Some(now),
       roundWinner := Some(winnerId),
       turnState := s.turnState.(turnStartTime := None))
  }

  /** Starts the session over; only the players' ids and positions survive. */
  function ResetGameSession(s: GameState): (r: GameState)
    ensures r.gameStatus == Waiting && r.roundNumber == 1 && r.currentPlayer == 1
    ensures r.sessionScores == SessionScores(0, 0)
    ensures r.players.player1 == Refreshed(s.players.player1)
    ensures r.players.player2 == Refreshed(s.players.player2)
    ensures r.turnState == FreshTurn(None)
    ensures r.roundWinner == None && r.roundEndTime == None
    ensures r.isRoundActive == Some(false) && r.gameWinner == None
  {
    GameState(
      1, Waiting, 1,
      Players(Refreshed(s.players.player1), Refreshed(s.players.player2)),
      SessionScores(0, 0),
      FreshTurn(None),
      None, None, Some(false), None)
  }

  /** The reset forgets everything except the players' ids and positions. */
  lemma ResetDependsOnlyOnPlayers(s: GameState, t: GameState)
    requires s.players.player1.id == t.players.player1.id
    requires s.players.player2.id == t.players.player2.id
    requires s.players.player1.position == t.players.player1.position
    requires s.players.player2.position == t.players.player2.position
    ensures ResetGameSession(s) == ResetGameSession(t)
  {
  }

  lemma ResetGameSessionIdempotent(s: GameState)
    ensures ResetGameSession(ResetGameSession(s)) == ResetGameSession(s)
  {
  }
}
