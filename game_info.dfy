/**
 * The game-info hook: whose turn it is, the turn counter, the winner, the
 * phase of a turn and the three selections. `NextTurn` is `switchTurn` on a
 * state value; the class `GameInfoProvider` holds the fields the hook's
 * setters overwrite.
 */
module GameInfo {
  import opened Domain

  /** The last turn: the game ends when side B finishes it. */
  const MaxTurnNum: int := 10

  /** The sub-steps of a turn; any one may follow any other. */
  datatype Phase = SelectFighter | SelectMove | ConfirmMove | SelectAttack | ConfirmAttack

  /** The part of the game state `switchTurn` reads and writes. */
  datatype TurnState = TurnState(whichTurn: PlayerId, currentTurnNum: int, whichWon: Option<PlayerId>)

  /** Turn 1, side A to act, no winner. */
  const InitialTurn: TurnState := TurnState(A, 1, None)

  /** `isLastPhase`: side B is acting in the last turn. */
  predicate IsLastPhase(s: TurnState)
  {
    s.currentTurnNum == MaxTurnNum && s.whichTurn == B
  }

  /**
   * `switchTurn`: outside the last phase, A hands over to B, and B hands back
   * to A in the next turn; in the last phase the winner is set instead.
   */
  function NextTurn(s: TurnState): (t: TurnState)
    ensures t.currentTurnNum != s.currentTurnNum ==>
      s.whichTurn == B && t.whichTurn == A && t.currentTurnNum == s.currentTurnNum + 1
    ensures t.whichWon != s.whichWon ==> IsLastPhase(s) && t.whichWon == Some(A)
    ensures IsLastPhase(s) <==> t.whichTurn == s.whichTurn
  {
    if !IsLastPhase(s) then
      match s.whichTurn
      case A => s.(whichTurn := B)
      case B => s.(whichTurn := A, currentTurnNum := s.currentTurnNum + 1)
    else
      s.(whichWon := Some(A))
  }

  /** The states the game can reach from the initial one. */
  ghost predicate Reachable(s: TurnState)
  {
    && 1 <= s.currentTurnNum <= MaxTurnNum
    && (s.whichWon.Some? ==> s.whichWon == Some(A) && IsLastPhase(s))
  }

  /** From A, outside the last phase: B acts next, in the same turn. */
  lemma SwitchFromA(s: TurnState)
    requires !IsLastPhase(s) && s.whichTurn == A
    ensures NextTurn(s) == TurnState(B, s.currentTurnNum, s.whichWon)
  {
  }

  /** From B, outside the last phase: A acts next, in the next turn. */
  lemma SwitchFromB(s: TurnState)
    requires !IsLastPhase(s) && s.whichTurn == B
    ensures NextTurn(s) == TurnState(A, s.currentTurnNum + 1, s.whichWon)
  {
  }

  /** In the last phase: A is declared the winner; turn and counter stay. */
  lemma SwitchAtLastPhase(s: TurnState)
    requires IsLastPhase(s)
    ensures NextTurn(s) == TurnState(s.whichTurn, s.currentTurnNum, Some(A))
  {
  }

  /** Apply `switchTurn` n times. */
  function SwitchTimes(s: TurnState, n: nat): TurnState
    decreases n
  {
    if n == 0 then s else SwitchTimes(NextTurn(s), n - 1)
  }

  /** Once in the last phase, every further `switchTurn` leaves the state as the first one left it. */
  lemma {:induction false} LastPhaseIsStable(s: TurnState, n: nat)
    requires IsLastPhase(s)
    ensures SwitchTimes(NextTurn(s), n) == NextTurn(s)
  {
    if n > 0 {
      assert NextTurn(NextTurn(s)) == NextTurn(s);
      LastPhaseIsStable(s, n - 1);
    }
  }

  /** `switchTurn` keeps the counter within [1, MaxTurnNum] and a set winner is A in the last phase. */
  lemma NextTurnKeepsReachable(s: TurnState)
    requires Reachable(s)
    ensures Reachable(NextTurn(s))
  {
  }

  /** Every state reached from the initial one by `switchTurn` calls is `Reachable`. */
  lemma {:induction false} SwitchTimesReachable(s: TurnState, n: nat)
    requires Reachable(s)
    ensures Reachable(SwitchTimes(s, n))
    decreases n
  {
    if n > 0 {
      NextTurnKeepsReachable(s);
      SwitchTimesReachable(NextTurn(s), n - 1);
    }
  }

  /**
   * The course of a game: after k <= 19 calls, side A acts on even k and B on
   * odd k, in turn 1 + k / 2, with no winner.
   */
  lemma {:induction false} SwitchTimesFromStart(k: nat)
    requires k <= 2 * MaxTurnNum - 1
    ensures SwitchTimes(InitialTurn, k) ==
      TurnState(if k % 2 == 0 then A else B, 1 + k / 2, None)
  {
    if k > 0 {
      SwitchTimesFromStart(k - 1);
      SwitchTimesSplit(InitialTurn, k - 1);
    }
  }

  lemma {:induction false} SwitchTimesSplit(s: TurnState, n: nat)
    ensures SwitchTimes(s, n + 1) == NextTurn(SwitchTimes(s, n))
    decreases n
  {
    if n > 0 {
      SwitchTimesSplit(NextTurn(s), n - 1);
    }
  }

  /**
   * The game ends on the twentieth `switchTurn`: it is the first call that
   * sets a winner, and that winner is A whatever the scores.
   */
  lemma GameEndsAfterTwentySwitches()
    ensures forall k :: 0 <= k < 2 * MaxTurnNum ==> SwitchTimes(InitialTurn, k).whichWon == None
    ensures SwitchTimes(InitialTurn, 2 * MaxTurnNum) == TurnState(B, MaxTurnNum, Some(A))
  {
    forall k | 0 <= k < 2 * MaxTurnNum
      ensures SwitchTimes(InitialTurn, k).whichWon == None
    {
      SwitchTimesFromStart(k);
    }
    SwitchTimesFromStart(2 * MaxTurnNum - 1);
    SwitchTimesSplit(InitialTurn, 2 * MaxTurnNum - 1);
  }

  /** The game-info state: fields the hook's setters overwrite. */
  class GameInfoProvider {
    var whichTurn: PlayerId
    var whichWon: Option<PlayerId>
    var currentTurnNum: int
    var selectedFighter: Option<Fighter>
    var targetFighter: Option<Fighter>
    var selectedHex: Option<Coordinate>
    var phase: Phase

    /** The turn fields as one value. */
    function Turn(): TurnState
      reads this
    {
      TurnState(whichTurn, currentTurnNum, whichWon)
    }

    /** The initial state of the hook: turn 1, A to act, no winner, phase SELECT_FIGHTER, nothing selected. */
    constructor ()
      ensures Turn() == InitialTurn && Reachable(Turn())
      ensures phase == SelectFighter
      ensures selectedFighter == None && targetFighter == None && selectedHex == None
    {
      whichTurn, whichWon, currentTurnNum := A, None, 1;
      selectedFighter, targetFighter, selectedHex := None, None, None;
      phase := SelectFighter;
    }

    /** `switchTurn`, reading the state as it was before the call. */
    method SwitchTurn()
      modifies this`whichTurn, this`currentTurnNum, this`whichWon
      ensures Turn() == NextTurn(old(Turn()))
      ensures old(Reachable(Turn())) ==> Reachable(Turn())
    {
      var isLastPhase := currentTurnNum == MaxTurnNum && whichTurn == B;
      if !isLastPhase {
        if whichTurn == A {
          whichTurn := B;
        } else {
          whichTurn := A;
          currentTurnNum := currentTurnNum + 1;
        }
      } else {
        whichWon := Some(A);
      }
      if old(Reachable(Turn())) {
        NextTurnKeepsReachable(old(Turn()));
      }
    }

    /** `setPhase`: any phase, from any phase. */
    method SetPhase(p: Phase)
      modifies this`phase
      ensures phase == p
    {
      phase := p;
    }

    method SetSelectedFighter(fighter: Option<Fighter>)
      modifies this`selectedFighter
      ensures selectedFighter == fighter
    {
      selectedFighter := fighter;
    }

    method SetTargetFighter(fighter: Option<Fighter>)
      modifies this`targetFighter
      ensures targetFighter == fighter
    {
      targetFighter := fighter;
    }

    method SetSelectedHex(coordinate: Option<Coordinate>)
      modifies this`selectedHex
      ensures selectedHex == coordinate
    {
      selectedHex := coordinate;
    }
  }
}
