/** Turn timing, action eligibility and turn status (src/game/turnUtils.ts).
    The clock reading `Date.now()` is the parameter `now`; the source's
    falsy tests on `turnStartTime` and `turnTimeLimit` are `IsSet`, so a
    start time or a limit of 0 counts as absent. */
module TurnUtils {

  import opened Types
  import opened NumberFormat

  /** Milliseconds since the turn started, or 0 when no turn is running. */
  function TurnDuration(s: GameState, now: int): (d: int)
    ensures !IsSet(s.turnState.turnStartTime) ==> d == 0
    ensures IsSet(s.turnState.turnStartTime) ==> s.turnState.turnStartTime.value + d == now
  {
    if !IsSet(s.turnState.turnStartTime) then 0 else now - s.turnState.turnStartTime.value
  }

  /** Whether the running turn has gone strictly past its limit. */
  function IsTurnExpired(s: GameState, now: int): (expired: bool)
    ensures !IsSet(s.turnState.turnTimeLimit) ==> !expired
    ensures IsSet(s.turnState.turnTimeLimit) ==>
              (expired <==> TurnDuration(s, now) > s.turnState.turnTimeLimit.value)
  {
    if !IsSet(s.turnState.turnTimeLimit) then false
    else TurnDuration(s, now) > s.turnState.turnTimeLimit.value
  }

  /** Remaining time: JavaScript's `Infinity` is `Unbounded`. */
  datatype Remaining = Unbounded | Finite(ms: int)

  function RemainingTurnTime(s: GameState, now: int): (r: Remaining)
    ensures r.Unbounded? <==> !IsSet(s.turnState.turnTimeLimit)
    ensures r.Finite? ==> r.ms >= 0
    ensures r.Finite? ==> r.ms >= s.turnState.turnTimeLimit.value - TurnDuration(s, now)
    ensures r.Finite? && r.ms > 0 ==> r.ms == s.turnState.turnTimeLimit.value - TurnDuration(s, now)
  {
    if !IsSet(s.turnState.turnTimeLimit) then Unbounded
    else
      var remaining := s.turnState.turnTimeLimit.value - TurnDuration(s, now);
      Finite(if remaining > 0 then remaining else 0)
  }

  /** The remaining time and the expiry test agree: an expired turn has
      nothing left, and a turn within its limit has exactly the limit minus
      the time spent. */
  lemma RemainingAgreesWithExpiry(s: GameState, now: int)
    requires IsSet(s.turnState.turnTimeLimit)
    ensures IsTurnExpired(s, now) ==> RemainingTurnTime(s, now) == Finite(0)
    ensures !IsTurnExpired(s, now) ==>
              TurnDuration(s, now) + RemainingTurnTime(s, now).ms == s.turnState.turnTimeLimit.value
    ensures RemainingTurnTime(s, now) == Finite(0) <==>
              TurnDuration(s, now) >= s.turnState.turnTimeLimit.value
  {
  }

  /** Display form of a duration in milliseconds: `"Ns"` under a minute,
      `"m:ss"` from one minute on. `Math.floor(d / 1000)` is Dafny's `/`
      (the divisor is positive); the seconds within the minute use
      JavaScript's truncating `%`, which matters only for negative input. */
  function FormatTurnDuration(duration: int): (t: string)
    ensures 2 <= |t|
    ensures duration >= 0 ==> (t[|t| - 1] == 's' <==> duration < 60000)
    ensures duration < 0 ==> t[|t| - 1] == 's'
  {
    var seconds := duration / 1000;
    var minutes := seconds / 60;
    var remainingSeconds := JsRem(seconds, 60);
    if minutes > 0 then
      IntToString(minutes) + ":" + PadStart2(IntToString(remainingSeconds))
    else
      IntToString(remainingSeconds) + "s"
  }

  /** Reads a rendered duration back as a number of whole seconds. */
  function ParseTurnDuration(t: string): Option<nat>
  {
    if 2 <= |t| && t[|t| - 1] == 's' then ParseNat(t[..|t| - 1])
    else if 4 <= |t| && t[|t| - 3] == ':' then MinutesAndSeconds(ParseNat(t[..|t| - 3]), ParseNat(t[|t| - 2..]))
    else None
  }

  function MinutesAndSeconds(minutes: Option<nat>, seconds: Option<nat>): Option<nat>
  {
    if minutes.Some? && seconds.Some? then Some(minutes.value * 60 + seconds.value) else None
  }

  /** For durations that are not negative, the display form loses exactly
      the milliseconds: the whole seconds can be read back from it. */
  lemma FormatTurnDurationRoundTrip(duration: int)
    requires duration >= 0
    ensures ParseTurnDuration(FormatTurnDuration(duration)) == Some(duration / 1000)
  {
    var seconds := duration / 1000;
    FormatOfNonNegative(duration);
    if seconds < 60 {
      ReadSecondsForm(seconds);
    } else {
      ReadMinutesForm(seconds / 60, seconds % 60);
    }
  }

  /** The two display forms of a duration that is not negative. */
  lemma FormatOfNonNegative(duration: int)
    requires duration >= 0
    ensures var seconds := duration / 1000;
            FormatTurnDuration(duration) ==
              if seconds < 60 then NatToString(seconds) + "s"
              else NatToString(seconds / 60) + ":" + PadStart2(NatToString(seconds % 60))
  {
    var seconds := duration / 1000;
    var minutes := seconds / 60;
    assert JsRem(seconds, 60) == seconds % 60;
    if minutes > 0 {
      assert seconds >= 60;
      assert FormatTurnDuration(duration) ==
             IntToString(minutes) + ":" + PadStart2(IntToString(seconds % 60));
    } else {
      assert seconds < 60 && seconds % 60 == seconds;
      assert FormatTurnDuration(duration) == IntToString(seconds) + "s";
    }
  }

  /** The form `"Ns"` reads back as N seconds. */
  lemma ReadSecondsForm(seconds: nat)
    requires seconds < 60
    ensures ParseTurnDuration(NatToString(seconds) + "s") == Some(seconds)
  {
    var t := NatToString(seconds) + "s";
    assert t[|t| - 1] == 's';
    assert t[..|t| - 1] == NatToString(seconds);
    assert ParseTurnDuration(t) == ParseNat(NatToString(seconds));
    NatToStringRoundTrip(seconds);
  }

  /** The form `"m:ss"` reads back as m minutes and ss seconds. */
  lemma ReadMinutesForm(minutes: nat, rest: nat)
    requires rest < 60
    ensures ParseTurnDuration(NatToString(minutes) + ":" + PadStart2(NatToString(rest)))
            == Some(minutes * 60 + rest)
  {
    var m, p := NatToString(minutes), PadStart2(NatToString(rest));
    PaddedTwoDigits(rest);
    NatToStringRoundTrip(minutes);
    ReadColonForm(m, p, minutes, rest);
  }

  lemma ReadColonForm(m: string, p: string, minutes: nat, seconds: nat)
    requires 1 <= |m| && AllDigits(m) && DigitsValue(m) == minutes
    requires |p| == 2 && AllDigits(p) && DigitsValue(p) == seconds
    ensures ParseTurnDuration(m + ":" + p) == Some(minutes * 60 + seconds)
  {
    var t := m + ":" + p;
    assert |t| == |m| + 3;
    assert t[|t| - 1] == p[1] && IsDigit(p[1]);
    assert t[|t| - 3] == ':';
    assert t[..|t| - 3] == m;
    assert t[|t| - 2..] == p;
    assert ParseTurnDuration(t) == MinutesAndSeconds(ParseNat(m), ParseNat(p));
  }

  /** Two non-negative durations display alike exactly when they fall in
      the same whole second. */
  lemma FormatTurnDurationSameSecond(d1: int, d2: int)
    requires d1 >= 0 && d2 >= 0
    ensures FormatTurnDuration(d1) == FormatTurnDuration(d2) <==> d1 / 1000 == d2 / 1000
  {
    FormatTurnDurationRoundTrip(d1);
    FormatTurnDurationRoundTrip(d2);
  }

  lemma FormatTurnDurationExamples()
    ensures FormatTurnDuration(0) == "0s"
    ensures FormatTurnDuration(5000) == "5s"
    ensures FormatTurnDuration(65000) == "1:05"
    ensures FormatTurnDuration(125000) == "2:05"
  {
    assert NatToString(5) == "5";
    assert NatToString(1) == "1";
    assert NatToString(2) == "2";
  }

  /** The two actions a player may ask about. */
  datatype TurnAction = Aim | Fire

  /** Whether `playerId` may aim or fire now: it must be that player's turn,
      the game must be playing, the turn must have started and not expired;
      firing is allowed once per turn. */
  function CanPlayerPerformAction(s: GameState, playerId: PlayerId, action: TurnAction, now: int): (ok: bool)
    ensures ok <==>
              s.currentPlayer == playerId &&
              s.gameStatus == Playing &&
              IsSet(s.turnState.turnStartTime) &&
              !IsTurnExpired(s, now) &&
              (action == Fire ==> !s.turnState.playerActions.hasFired)
  {
    if s.currentPlayer != playerId then false
    else if s.gameStatus != Playing then false
    else if !IsSet(s.turnState.turnStartTime) then false
    else if IsTurnExpired(s, now) then false
    else
      match action
      case Aim => true
      case Fire => !s.turnState.playerActions.hasFired
  }

  /** Whoever may fire may also aim, and the player who is not to move may
      do neither. */
  lemma FireImpliesAim(s: GameState, playerId: PlayerId, now: int)
    ensures CanPlayerPerformAction(s, playerId, Fire, now) ==> CanPlayerPerformAction(s, playerId, Aim, now)
    ensures CanPlayerPerformAction(s, Other(s.currentPlayer), Aim, now) == false
  {
  }

  /** The phase shown in the status line, in the source's priority order. */
  datatype TurnPhase = NotStarted | Fired | Aimed | Active

  function PhaseOf(s: GameState): (p: TurnPhase)
    ensures p == NotStarted <==> !IsSet(s.turnState.turnStartTime)
    ensures p == Fired <==> IsSet(s.turnState.turnStartTime) && s.turnState.playerActions.hasFired
    ensures p == Active <==>
              IsSet(s.turnState.turnStartTime) &&
              !s.turnState.playerActions.hasFired && !s.turnState.playerActions.hasAimed
  {
    if !IsSet(s.turnState.turnStartTime) then NotStarted
    else if s.turnState.playerActions.hasFired then Fired
    else if s.turnState.playerActions.hasAimed then Aimed
    else Active
  }

  function PhaseLabel(p: TurnPhase): string
  {
    match p
    case NotStarted => "Not started"
    case Fired => "Fired"
    case Aimed => "Aimed"
    case Active => "Active"
  }

  /** The status names as the source spells them. */
  function StatusName(st: GameStatus): string
  {
    match st
    case Waiting => "waiting"
    case Playing => "playing"
    case RoundOver => "round_over"
    case GameOver => "game_over"
  }

  /** Different statuses and different phases are spelled differently. */
  lemma NamesInjective(a: GameStatus, b: GameStatus, p: TurnPhase, q: TurnPhase)
    ensures StatusName(a) == StatusName(b) ==> a == b
    ensures PhaseLabel(p) == PhaseLabel(q) ==> p == q
  {
  }

  predicate EndsWith(t: string, suffix: string)
  {
    |suffix| <= |t| && t[|t| - |suffix|..] == suffix
  }

  /** The status line: `"Game {status}"` outside play, otherwise
      `"Player {p} - Turn {n} ({phase})"`. */
  function TurnStatusDescription(s: GameState): (t: string)
    ensures s.gameStatus != Playing ==> t == "Game " + StatusName(s.gameStatus)
    ensures s.gameStatus == Playing ==>
              t == "Player " + IntToString(s.currentPlayer) + " - Turn " +
                   IntToString(s.turnState.turnNumber) + " (" + PhaseLabel(PhaseOf(s)) + ")"
  {
    if s.gameStatus != Playing then
      "Game " + StatusName(s.gameStatus)
    else
      var player := "Player " + IntToString(s.currentPlayer);
      var turnNum := "Turn " + IntToString(s.turnState.turnNumber);
      player + " - " + turnNum + " (" + PhaseLabel(PhaseOf(s)) + ")"
  }

  /** During play the line starts with the mover's id and ends with the
      bracketed phase. */
  lemma TurnStatusDescriptionShape(s: GameState)
    requires s.gameStatus == Playing
    ensures var t := TurnStatusDescription(s);
            8 <= |t| && t[..7] == "Player " && t[7] == DigitChar(s.currentPlayer) &&
            EndsWith(t, "(" + PhaseLabel(PhaseOf(s)) + ")")
  {
    assert IntToString(s.currentPlayer) == [DigitChar(s.currentPlayer)];
    LineShape("Player ", IntToString(s.currentPlayer), " - Turn ",
              IntToString(s.turnState.turnNumber), PhaseLabel(PhaseOf(s)));
  }

  /** A running turn with neither shot taken nor aim set reads "(Active)". */
  lemma ActiveLine(s: GameState)
    requires s.gameStatus == Playing && PhaseOf(s) == Active
    ensures EndsWith(TurnStatusDescription(s), "(Active)")
  {
    TurnStatusDescriptionShape(s);
  }

  /** A line `a + b + c + d + " (" + e + ")"` starts with `a + b` and ends
      with the bracketed `e`. */
  lemma LineShape(a: string, b: string, c: string, d: string, e: string)
    ensures var t := a + b + c + d + " (" + e + ")";
            t[..|a + b|] == a + b && EndsWith(t, "(" + e + ")")
  {
    var t := a + b + c + d + " (" + e + ")";
    assert t == (a + b) + (c + d + " (" + e + ")");
    ConcatStartsWith(a + b, c + d + " (" + e + ")");
    assert t == (a + b + c + d + " ") + ("(" + e + ")");
    ConcatEndsWith(a + b + c + d + " ", "(" + e + ")");
  }

  lemma ConcatStartsWith(x: string, y: string)
    ensures (x + y)[..|x|] == x
  {
  }

  lemma ConcatEndsWith(x: string, y: string)
    ensures EndsWith(x + y, y)
  {
    assert (x + y)[|x|..] == y;
  }

  /** The status lines of player 1 on turn 1 in each phase, and outside play. */
  lemma TurnStatusDescriptionExamples(s: GameState)
    requires s.currentPlayer == 1 && s.turnState.turnNumber == 1
    ensures s.gameStatus == Waiting ==> TurnStatusDescription(s) == "Game waiting"
    ensures s.gameStatus == GameOver ==> TurnStatusDescription(s) == "Game game_over"
    ensures s.gameStatus == Playing && IsSet(s.turnState.turnStartTime) &&
            s.turnState.playerActions == PlayerActions(false, false) ==>
              TurnStatusDescription(s) == "Player 1 - Turn 1 (Active)"
    ensures s.gameStatus == Playing && IsSet(s.turnState.turnStartTime) &&
            s.turnState.playerActions == PlayerActions(false, true) ==>
              TurnStatusDescription(s) == "Player 1 - Turn 1 (Aimed)"
    ensures s.gameStatus == Playing && IsSet(s.turnState.turnStartTime) &&
            s.turnState.playerActions == PlayerActions(true, true) ==>
              TurnStatusDescription(s) == "Player 1 - Turn 1 (Fired)"
    ensures s.gameStatus == Playing && s.turnState.turnStartTime == None ==>
              TurnStatusDescription(s) == "Player 1 - Turn 1 (Not started)"
  {
    if s.gameStatus == Playing {
      FirstTurnLine(s);
    }
  }

  /** Player 1's line on turn 1, for any phase. */
  lemma FirstTurnLine(s: GameState)
    requires s.gameStatus == Playing && s.currentPlayer == 1 && s.turnState.turnNumber == 1
    ensures TurnStatusDescription(s) == "Player 1 - Turn 1 (" + PhaseLabel(PhaseOf(s)) + ")"
  {
    assert IntToString(1) == "1";
  }

  /** During play the status line names the phase: reading its closing
      parenthesis tells the four phases apart. */
  lemma DescriptionShowsPhase(s: GameState, p: TurnPhase)
    requires s.gameStatus == Playing
    ensures EndsWith(TurnStatusDescription(s), "(" + PhaseLabel(p) + ")") <==> p == PhaseOf(s)
  {
    TurnStatusDescriptionShape(s);
    var t := TurnStatusDescription(s);
    var a := "(" + PhaseLabel(p) + ")";
    var b := "(" + PhaseLabel(PhaseOf(s)) + ")";
    if EndsWith(t, a) {
      if |a| <= |b| {
        SuffixOfSuffix(t, a, b);
        BracketedLabelSuffix(p, PhaseOf(s));
      } else {
        SuffixOfSuffix(t, b, a);
        BracketedLabelSuffix(PhaseOf(s), p);
      }
    }
  }

  /** Of two suffixes of one string, the shorter is a suffix of the longer. */
  lemma SuffixOfSuffix(t: string, a: string, b: string)
    requires EndsWith(t, a) && EndsWith(t, b) && |a| <= |b|
    ensures EndsWith(b, a)
  {
    assert b[|b| - |a|..] == t[|t| - |a|..];
  }

  /** A bracketed phase label ends with another only if it is the same. */
  lemma BracketedLabelSuffix(p: TurnPhase, q: TurnPhase)
    requires EndsWith("(" + PhaseLabel(q) + ")", "(" + PhaseLabel(p) + ")")
    ensures p == q
  {
    var a := "(" + PhaseLabel(p) + ")";
    var b := "(" + PhaseLabel(q) + ")";
    var k := |b| - |a|;
    BracketOnlyAtStart(q);
    assert b[k] == a[0] == '(';
    assert k == 0;
    assert PhaseLabel(p) == a[1..|a| - 1] == b[1..|b| - 1] == PhaseLabel(q);
  }

  lemma BracketOnlyAtStart(q: TurnPhase)
    ensures forall j :: 0 < j < |"(" + PhaseLabel(q) + ")"| ==> ("(" + PhaseLabel(q) + ")")[j] != '('
  {
  }

  /** Turns may be switched once the mover has fired during play. */
  function CanSwitchTurn(s: GameState): (ok: bool)
    ensures ok <==> s.gameStatus == Playing && s.turnState.playerActions.hasFired
  {
    s.gameStatus == Playing && s.turnState.playerActions.hasFired
  }

  /** A switchable turn has no shot left for anyone. */
  lemma SwitchableMeansNoShotLeft(s: GameState, playerId: PlayerId, now: int)
    requires CanSwitchTurn(s)
    ensures !CanPlayerPerformAction(s, playerId, Fire, now)
  {
  }
}
