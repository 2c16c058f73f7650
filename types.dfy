/** The record and enum shapes of the game (src/types/index.ts).
    Every `number` of the source is an `int` here; a nullable or optional
    field is an `Option`, with `undefined` and `null` both read as `None`. */
module Types {

  datatype Option<T> = None | Some(value: T)

  /** A player id is exactly 1 or 2. */
  type PlayerId = p: int | p == 1 || p == 2 witness 1

  /** The opponent of a player: the winner of a round is the player not hit. */
  function Other(id: PlayerId): (r: PlayerId)
    ensures r != id
    ensures r == 1 || id == 1
  {
    if id == 1 then 2 else 1
  }

  lemma OtherInvolutive(id: PlayerId)
    ensures Other(Other(id)) == id
  {
  }

  datatype Position = Position(x: int, y: int)

  datatype Player = Player(id: PlayerId, position: Position, health: int, score: int)

  datatype Players = Players(player1: Player, player2: Player)

  /** Session win counts, `player1Wins` and `player2Wins` in the source. */
  datatype SessionScores = SessionScores(player1Wins: int, player2Wins: int)

  datatype GameStatus = Waiting | Playing | RoundOver | GameOver

  datatype PlayerActions = PlayerActions(hasFired: bool, hasAimed: bool)

  /** `turnStartTime` None: no active turn; `turnTimeLimit` None: no limit. */
  datatype TurnState = TurnState(
    turnStartTime: Option<int>,
    turnTimeLimit: Option<int>,
    playerActions: PlayerActions,
    turnNumber: int)

  datatype GameState = GameState(
    currentPlayer: PlayerId,
    gameStatus: GameStatus,
    roundNumber: int,
    players: Players,
    sessionScores: SessionScores,
    turnState: TurnState,
    roundWinner: Option<PlayerId>,
    roundEndTime: Option<int>,
    isRoundActive: Option<bool>,
    gameWinner: Option<PlayerId>)

  /** The closed union of the fourteen events the reducer accepts. */
  datatype GameAction =
    | StartGame
    | EndGame
    | SwitchTurn
    | PlayerHit(playerId: PlayerId)
    | StartNewRound
    | ResetGame
    | StartTurn
    | EndTurn
    | PlayerAimed
    | PlayerFired
    | ResetTurn
    | RecordHit(playerId: PlayerId)
    | EndRound(winnerId: PlayerId)
    | ResetGameSession

  /** The key `player{id}Wins` of the session scores, looked up by id. */
  function Wins(scores: SessionScores, id: PlayerId): int
  {
    if id == 1 then scores.player1Wins else scores.player2Wins
  }

  /** The session scores with the entry of `id` raised by one. */
  function AddWin(scores: SessionScores, id: PlayerId): (r: SessionScores)
    ensures Wins(r, id) == Wins(scores, id) + 1
    ensures Wins(r, Other(id)) == Wins(scores, Other(id))
  {
    if id == 1 then scores.(player1Wins := scores.player1Wins + 1)
    else scores.(player2Wins := scores.player2Wins + 1)
  }

  /** JavaScript truthiness of a nullable number: `null` and `0` are falsy. */
  function IsSet(t: Option<int>): (truthy: bool)
    ensures truthy <==> t != None && t != Some(0)
  {
    t.Some? && t.value != 0
  }

  /** The player record with its health restored to 100. */
  function WithFullHealth(p: Player): (r: Player)
    ensures r.health == 100
    ensures r.(health := p.health) == p
  {
    p.(health := 100)
  }

  /** The player record with health 100 and round points 0. */
  function Refreshed(p: Player): (r: Player)
    ensures r.health == 100 && r.score == 0
    ensures r.id == p.id && r.position == p.position
  {
    p.(health := 100, score := 0)
  }
}
