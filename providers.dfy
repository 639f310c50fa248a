/**
 * The player provider: the roster the reducer updates in place, and the move
 * action that dispatches MOVE and then hands the turn over.
 */
module Providers {
  import opened Domain
  import opened Lookups
  import opened Reducer
  import opened GameInfo

  class PlayerProvider {
    /** The two sides as the reducer holds them. */
    var players: seq<Player>

    /** `useReducer(reducer, [player1, player2])`: the roster starts as given. */
    constructor (initial: seq<Player>)
      ensures players == initial
    {
      players := initial;
    }

    /** Writes one fighter of the draft roster. */
    method SetFighter(at: Loc, f: Fighter)
      requires ValidLoc(players, at) && f.id == FighterAt(players, at).id
      modifies this
      ensures players == WithFighter(old(players), at, f)
    {
      var p := players[at.player];
      players := players[at.player := p.(fighters := p.fighters[at.fighter := f])];
    }

    /**
     * `reduceHp`: subtract the damage, then, if nothing is left, clamp to 0,
     * clear the coordinate and give the attacking side a point.
     */
    method ReduceHp(at: Loc, damage: int, attackPlayer: nat)
      requires ValidLoc(players, at) && attackPlayer < |players|
      modifies this
      ensures players == ApplyDamage(old(players), at, damage, attackPlayer)
    {
      var damaged := FighterAt(players, at);
      SetFighter(at, damaged.(currentHp := damaged.currentHp - damage));
      damaged := FighterAt(players, at);
      if damaged.currentHp <= 0 {
        ghost var hit := damaged;
        SetFighter(at, damaged.(currentHp := 0));
        damaged := FighterAt(players, at);
        SetFighter(at, damaged.(coordinate := None));
        WithFighterTwice(old(players), at, hit, hit.(currentHp := 0));
        WithFighterTwice(old(players), at, hit.(currentHp := 0), hit.(currentHp := 0, coordinate := None));
        var attacking := players[attackPlayer];
        players := players[attackPlayer := attacking.(victoryPoint := attacking.victoryPoint + 1)];
      }
    }

    /**
     * The reducer applied in place. Every error is raised before the roster
     * is touched, so a failing action leaves it as it was, as `produce`
     * guarantees.
     */
    method Dispatch(action: PlayerAction, draw: real) returns (result: Result<Option<HitEffect>>)
      modifies this
      ensures match Reduce(old(players), action, draw)
        case Success(step) => result == Success(step.hitEffect) && players == step.players
        case Failure(e) => result == Failure(e) && players == old(players)
    {
      match action
      case AttackAction(attacker, receiver, coordinate) =>
        result := Attack(attacker, receiver, coordinate, draw);
      case MoveAction(fighter, coordinate) =>
        result := MoveFighter(fighter, coordinate, draw);
      case HealAction(_, _) =>
        result := Success(None);
      case AddVictoryPointAction(whichTurn) =>
        result := AddVictoryPoint(whichTurn, draw);
    }

    /** The ATTACK case of the reducer: the two lookups, then the roll. */
    method Attack(attacker: Fighter, receiver: Fighter, coordinate: Coordinate, draw: real)
      returns (result: Result<Option<HitEffect>>)
      modifies this
      ensures match Reduce(old(players), AttackAction(attacker, receiver, coordinate), draw)
        case Success(step) => result == Success(step.hitEffect) && players == step.players
        case Failure(e) => result == Failure(e) && players == old(players)
    {
      var attackerPlayer := OwnerIndex(players, attacker.id);
      if attackerPlayer.None? {
        return Failure(AttackerPlayerNotFound);
      }
      var updatedFighter := LocateFighter(players, receiver.id);
      if updatedFighter.None? {
        return Failure(FighterNotFound(receiver.name));
      }
      AttackStep(players, attacker, receiver, coordinate, draw);
      var hitEffect := Roll(attacker, receiver, coordinate, draw, updatedFighter.value, attackerPlayer.value);
      result := Success(Some(hitEffect));
    }

    /**
     * The roll of an ATTACK: at or above the critical border the receiver at
     * `at` takes the damage plus one, at or above the hit border the damage,
     * otherwise nothing; side `attackPlayer` scores on a kill.
     */
    method Roll(attacker: Fighter, receiver: Fighter, coordinate: Coordinate, draw: real, at: Loc, attackPlayer: nat)
      returns (hitEffect: HitEffect)
      requires ValidLoc(players, at) && attackPlayer < |players|
      modifies this
      ensures var hit := Classify(Correction(attacker, receiver), draw);
        && hitEffect == HitEffect(coordinate, hit)
        && players == if hit == Defended then old(players) else ApplyDamage(old(players), at, Damage(hit, attacker.move), attackPlayer)
    {
      var correction := receiver.def - attacker.move.atk;
      var successBorder := (correction + 5) as real;
      var criticalBorder := correction as real / 5.0 + 9.0;
      if draw >= criticalBorder {
        hitEffect := HitEffect(coordinate, Critical);
        ReduceHp(at, attacker.move.dmg + 1, attackPlayer);
      } else if draw >= successBorder {
        hitEffect := HitEffect(coordinate, Attacked);
        ReduceHp(at, attacker.move.dmg, attackPlayer);
      } else {
        hitEffect := HitEffect(coordinate, Defended);
      }
    }

    /** The MOVE case of the reducer. */
    method MoveFighter(fighter: Fighter, coordinate: Coordinate, draw: real) returns (result: Result<Option<HitEffect>>)
      modifies this
      ensures match Reduce(old(players), MoveAction(fighter, coordinate), draw)
        case Success(step) => result == Success(step.hitEffect) && players == step.players
        case Failure(e) => result == Failure(e) && players == old(players)
    {
      var movedFighter := LocateFighter(players, fighter.id);
      if movedFighter.None? {
        return Failure(FighterNotFound(fighter.name));
      }
      var at := movedFighter.value;
      SetFighter(at, FighterAt(players, at).(coordinate := Some(coordinate)));
      result := Success(None);
    }

    /** The ADD_VICTORY_POINT case of the reducer. */
    method AddVictoryPoint(whichTurn: PlayerId, draw: real) returns (result: Result<Option<HitEffect>>)
      modifies this
      ensures match Reduce(old(players), AddVictoryPointAction(whichTurn), draw)
        case Success(step) => result == Success(step.hitEffect) && players == step.players
        case Failure(e) => result == Failure(e) && players == old(players)
    {
      var updatedPlayer := PlayerIndex(players, whichTurn);
      if updatedPlayer.None? {
        return Failure(PlayerNotFound(whichTurn));
      }
      var k := updatedPlayer.value;
      players := players[k := players[k].(victoryPoint := players[k].victoryPoint + 1)];
      result := Success(None);
    }

    /**
     * `move`: dispatch MOVE, then `switchTurn()`. A MOVE that throws stops
     * the call before the turn is handed over.
     */
    method Move(info: GameInfoProvider, fighter: Fighter, coordinate: Coordinate) returns (result: Result<()>)
      modifies this, info`whichTurn, info`currentTurnNum, info`whichWon
      ensures match Reduce(old(players), MoveAction(fighter, coordinate), 0.0)
        case Success(step) =>
          result == Success(()) && players == step.players && info.Turn() == NextTurn(old(info.Turn()))
        case Failure(e) =>
          result == Failure(e) && players == old(players) && info.Turn() == old(info.Turn())
      ensures old(Reachable(info.Turn())) ==> Reachable(info.Turn())
    {
      var moved := Dispatch(MoveAction(fighter, coordinate), 0.0);
      if moved.Failure? {
        return Failure(moved.error);
      }
      info.SwitchTurn();
      result := Success(());
    }
  }
}
