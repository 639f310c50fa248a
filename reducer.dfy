/**
 * The player reducer as a function on roster values: the four actions, the
 * attack's hit classification and the damage bookkeeping of `reduceHp`.
 * `Providers.PlayerProvider.Dispatch` is the in-place version and is proved
 * to agree with `Reduce`; the lemmas here state what the reducer promises.
 */
module Reducer {
  import opened Domain
  import opened Lookups

  datatype HitType = Critical | Attacked | Defended

  /** What the reducer hands to the hit-effect renderer for one attack. */
  datatype HitEffect = HitEffect(coordinate: Coordinate, hitType: HitType)

  datatype PlayerAction =
    | AttackAction(attacker: Fighter, receiver: Fighter, coordinate: Coordinate)
    | MoveAction(fighter: Fighter, coordinate: Coordinate)
    | HealAction(healHp: int, receiver: Fighter)
    | AddVictoryPointAction(whichTurn: PlayerId)

  /** The defence the attack has to beat: `receiver.def - attacker.move.atk`, read from the payload. */
  function Correction(attacker: Fighter, receiver: Fighter): int
  {
    receiver.def - attacker.move.atk
  }

  /** The draw an attack must reach to hit: 5 shifted by the correction. */
  function SuccessBorder(correction: int): real
  {
    (correction + 5) as real
  }

  /** The draw an attack must reach to be critical: 9 shifted by a fifth of the correction. */
  function CriticalBorder(correction: int): real
  {
    correction as real / 5.0 + 9.0
  }

  /** The outcome of a draw: critical is tested first, then a plain hit. */
  function Classify(correction: int, draw: real): HitType
  {
    if draw >= CriticalBorder(correction) then Critical
    else if draw >= SuccessBorder(correction) then Attacked
    else Defended
  }

  /** The damage an outcome deals with a loadout. */
  function Damage(hit: HitType, move: Move): int
  {
    match hit
    case Critical => move.dmg + 1
    case Attacked => move.dmg
    case Defended => 0
  }

  /** Outcomes ordered from worst to best for the attacker. */
  function Rank(hit: HitType): nat
  {
    match hit
    case Defended => 0
    case Attacked => 1
    case Critical => 2
  }

  /**
   * For a draw in [0, 10), the three outcomes are exactly the three bands of
   * the draw; in particular a critical draw always reaches the hit border too.
   */
  lemma ClassifyBands(correction: int, draw: real)
    requires 0.0 <= draw < 10.0
    ensures Classify(correction, draw) == Critical <==> draw >= CriticalBorder(correction)
    ensures Classify(correction, draw) == Attacked <==>
      SuccessBorder(correction) <= draw < CriticalBorder(correction)
    ensures Classify(correction, draw) == Defended <==> draw < SuccessBorder(correction)
  {
  }

  /** A higher draw never gives a worse outcome. */
  lemma ClassifyMonotoneInDraw(correction: int, low: real, high: real)
    requires low <= high
    ensures Rank(Classify(correction, low)) <= Rank(Classify(correction, high))
  {
  }

  /** A higher defence (or a weaker attack) never gives a better outcome for the same draw. */
  lemma ClassifyAntitoneInCorrection(weaker: int, stronger: int, draw: real)
    requires weaker <= stronger
    ensures Rank(Classify(stronger, draw)) <= Rank(Classify(weaker, draw))
  {
  }

  /** Every side keeps its id, its number of fighters and each slot's fighter id: team membership. */
  ghost predicate SameTeams(a: seq<Player>, b: seq<Player>)
  {
    && |b| == |a|
    && (forall i :: 0 <= i < |a| ==> b[i].id == a[i].id && |b[i].fighters| == |a[i].fighters|)
    && (forall i, j :: 0 <= i < |a| && 0 <= j < |a[i].fighters| && j < |b[i].fighters| ==>
          b[i].fighters[j].id == a[i].fighters[j].id)
  }

  /** Every fighter except the one at `at` is exactly as it was. */
  ghost predicate OthersUnchanged(a: seq<Player>, b: seq<Player>, at: Loc)
    requires SameTeams(a, b)
  {
    forall i, j :: 0 <= i < |a| && 0 <= j < |a[i].fighters| && Loc(i, j) != at ==>
      b[i].fighters[j] == a[i].fighters[j]
  }

  /** Every score is as it was, except that side `scorer`, if any, has one more point. */
  ghost predicate ScoresRaised(a: seq<Player>, b: seq<Player>, scorer: Option<nat>)
    requires |b| == |a|
  {
    forall i :: 0 <= i < |a| ==> b[i].victoryPoint == a[i].victoryPoint + (if scorer == Some(i) then 1 else 0)
  }

  /** No fighter has negative hit points. */
  ghost predicate HpNonNegative(players: seq<Player>)
  {
    forall i, j :: 0 <= i < |players| && 0 <= j < |players[i].fighters| ==> players[i].fighters[j].currentHp >= 0
  }

  /** No two fighter slots hold the same id. */
  ghost predicate UniqueIds(players: seq<Player>)
  {
    forall i, j, k, l ::
      0 <= i < |players| && 0 <= j < |players[i].fighters| &&
      0 <= k < |players| && 0 <= l < |players[k].fighters| && (i != k || j != l) ==>
        players[i].fighters[j].id != players[k].fighters[l].id
  }

  /**
   * What `reduceHp` does to the roster: the fighter at `at` loses `damage`
   * hit points; if that leaves it at or below 0 it is set to exactly 0, taken
   * off the board and side `attackPlayer` scores a point; otherwise only its
   * hit points change.
   */
  ghost predicate DamageApplied(a: seq<Player>, b: seq<Player>, at: Loc, damage: int, attackPlayer: nat)
    requires ValidLoc(a, at) && attackPlayer < |a|
  {
    var f := FighterAt(a, at);
    var killed := f.currentHp - damage <= 0;
    && SameTeams(a, b)
    && OthersUnchanged(a, b, at)
    && FighterAt(b, at) == (if killed then f.(currentHp := 0, coordinate := None) else f.(currentHp := f.currentHp - damage))
    && ScoresRaised(a, b, if killed then Some(attackPlayer) else None)
  }

  /** The roster with the fighter at `at` replaced by `f`. */
  function WithFighter(players: seq<Player>, at: Loc, f: Fighter): (r: seq<Player>)
    requires ValidLoc(players, at) && f.id == FighterAt(players, at).id
    ensures SameTeams(players, r) && OthersUnchanged(players, r, at) && ScoresRaised(players, r, None)
    ensures FighterAt(r, at) == f
  {
    var p := players[at.player];
    players[at.player := p.(fighters := p.fighters[at.fighter := f])]
  }

  /** Writing the same slot twice keeps only the second write. */
  lemma WithFighterTwice(players: seq<Player>, at: Loc, f: Fighter, g: Fighter)
    requires ValidLoc(players, at) && f.id == FighterAt(players, at).id && g.id == f.id
    ensures WithFighter(WithFighter(players, at, f), at, g) == WithFighter(players, at, g)
  {
    var p := players[at.player];
    assert p.fighters[at.fighter := f][at.fighter := g] == p.fighters[at.fighter := g];
  }

  /** The roster with side `k` one point up. */
  function WithPoint(players: seq<Player>, k: nat): (r: seq<Player>)
    requires k < |players|
    ensures SameTeams(players, r) && ScoresRaised(players, r, Some(k))
    ensures forall i :: 0 <= i < |players| ==> r[i].fighters == players[i].fighters
  {
    players[k := players[k].(victoryPoint := players[k].victoryPoint + 1)]
  }

  /** `reduceHp(fighterAt(at), damage, players[attackPlayer])` on roster values. */
  function ApplyDamage(players: seq<Player>, at: Loc, damage: int, attackPlayer: nat): (r: seq<Player>)
    requires ValidLoc(players, at) && attackPlayer < |players|
    ensures DamageApplied(players, r, at, damage, attackPlayer)
    ensures FighterAt(r, at).currentHp >= 0
  {
    var f := FighterAt(players, at);
    if f.currentHp - damage <= 0 then
      WithPoint(WithFighter(players, at, f.(currentHp := 0, coordinate := None)), attackPlayer)
    else
      WithFighter(players, at, f.(currentHp := f.currentHp - damage))
  }

  /** The roster after an action, and the hit effect an attack reports. */
  datatype Step = Step(players: seq<Player>, hitEffect: Option<HitEffect>)

  /**
   * The reducer: one action against the roster. `draw` stands for
   * `Math.random() * 10`; only ATTACK reads it. A `Failure` is the error the
   * reducer throws, and then the roster is left as it was.
   */
  function Reduce(players: seq<Player>, action: PlayerAction, draw: real): Result<Step>
  {
    match action
    case AttackAction(attacker, receiver, coordinate) =>
      var attackerPlayer := OwnerIndex(players, attacker.id);
      if attackerPlayer.None? then Failure(AttackerPlayerNotFound)
      else
        var updated := LocateFighter(players, receiver.id);
        if updated.None? then Failure(FighterNotFound(receiver.name))
        else
          var hit := Classify(Correction(attacker, receiver), draw);
          var next :=
            if hit == Defended then players
            else ApplyDamage(players, updated.value, Damage(hit, attacker.move), attackerPlayer.value);
          Success(Step(next, Some(HitEffect(coordinate, hit))))
    case MoveAction(fighter, coordinate) =>
      (match LocateFighter(players, fighter.id)
       case None => Failure(FighterNotFound(fighter.name))
       case Some(at) => Success(Step(WithFighter(players, at, FighterAt(players, at).(coordinate := Some(coordinate))), None)))
    case HealAction(_, _) =>
      Success(Step(players, None))
    case AddVictoryPointAction(whichTurn) =>
      match PlayerIndex(players, whichTurn)
      case None => Failure(PlayerNotFound(whichTurn))
      case Some(k) => Success(Step(WithPoint(players, k), None))
  }

  /** A successful ATTACK, unfolded: the classified hit, and the damage it deals unless defended. */
  lemma AttackStep(players: seq<Player>, attacker: Fighter, receiver: Fighter, coordinate: Coordinate, draw: real)
    requires Reduce(players, AttackAction(attacker, receiver, coordinate), draw).Success?
    ensures OwnerIndex(players, attacker.id).Some? && LocateFighter(players, receiver.id).Some?
    ensures var hit := Classify(Correction(attacker, receiver), draw);
      var at := LocateFighter(players, receiver.id).value;
      Reduce(players, AttackAction(attacker, receiver, coordinate), draw) ==
        Success(Step(
          if hit == Defended then players
          else ApplyDamage(players, at, Damage(hit, attacker.move), OwnerIndex(players, attacker.id).value),
          Some(HitEffect(coordinate, hit))))
  {
  }

  /** A successful ATTACK that is not defended reports its outcome and applies that outcome's damage. */
  lemma AttackLands(players: seq<Player>, attacker: Fighter, receiver: Fighter, coordinate: Coordinate, draw: real)
    requires Reduce(players, AttackAction(attacker, receiver, coordinate), draw).Success?
    requires Classify(Correction(attacker, receiver), draw) != Defended
    ensures var step := Reduce(players, AttackAction(attacker, receiver, coordinate), draw).value;
      var hit := Classify(Correction(attacker, receiver), draw);
      var at := LocateFighter(players, receiver.id).value;
      && step.hitEffect == Some(HitEffect(coordinate, hit))
      && DamageApplied(players, step.players, at, Damage(hit, attacker.move), OwnerIndex(players, attacker.id).value)
  {
    AttackStep(players, attacker, receiver, coordinate, draw);
  }

  /** ATTACK throws exactly when no side owns the attacker's id or no fighter has the receiver's id. */
  lemma AttackNotFound(players: seq<Player>, attacker: Fighter, receiver: Fighter, coordinate: Coordinate, draw: real)
    ensures Reduce(players, AttackAction(attacker, receiver, coordinate), draw).Failure? <==>
      (forall i, j :: 0 <= i < |players| && 0 <= j < |players[i].fighters| ==> players[i].fighters[j].id != attacker.id) ||
      (forall i, j :: 0 <= i < |players| && 0 <= j < |players[i].fighters| ==> players[i].fighters[j].id != receiver.id)
  {
  }

  /**
   * A draw at or above the critical border reports CRITICAL and deals the
   * loadout's damage plus one to the first fighter with the receiver's id,
   * crediting the first side that owns the attacker's id.
   */
  lemma AttackCritical(players: seq<Player>, attacker: Fighter, receiver: Fighter, coordinate: Coordinate, draw: real)
    requires Reduce(players, AttackAction(attacker, receiver, coordinate), draw).Success?
    requires draw >= CriticalBorder(receiver.def - attacker.move.atk)
    ensures var step := Reduce(players, AttackAction(attacker, receiver, coordinate), draw).value;
      var at := LocateFighter(players, receiver.id).value;
      && step.hitEffect == Some(HitEffect(coordinate, Critical))
      && DamageApplied(players, step.players, at, attacker.move.dmg + 1, OwnerIndex(players, attacker.id).value)
  {
    assert Classify(Correction(attacker, receiver), draw) == Critical;
    AttackLands(players, attacker, receiver, coordinate, draw);
  }

  /** A draw between the hit border and the critical border reports ATTACKED and deals the loadout's damage. */
  lemma AttackHit(players: seq<Player>, attacker: Fighter, receiver: Fighter, coordinate: Coordinate, draw: real)
    requires Reduce(players, AttackAction(attacker, receiver, coordinate), draw).Success?
    requires SuccessBorder(receiver.def - attacker.move.atk) <= draw < CriticalBorder(receiver.def - attacker.move.atk)
    ensures var step := Reduce(players, AttackAction(attacker, receiver, coordinate), draw).value;
      var at := LocateFighter(players, receiver.id).value;
      && step.hitEffect == Some(HitEffect(coordinate, Attacked))
      && DamageApplied(players, step.players, at, attacker.move.dmg, OwnerIndex(players, attacker.id).value)
  {
    assert Classify(Correction(attacker, receiver), draw) == Attacked;
    AttackLands(players, attacker, receiver, coordinate, draw);
  }

  /** Any other draw reports DEFENDED and leaves the roster as it was. */
  lemma AttackDefended(players: seq<Player>, attacker: Fighter, receiver: Fighter, coordinate: Coordinate, draw: real)
    requires Reduce(players, AttackAction(attacker, receiver, coordinate), draw).Success?
    requires draw < SuccessBorder(receiver.def - attacker.move.atk)
    requires draw < CriticalBorder(receiver.def - attacker.move.atk)
    ensures Reduce(players, AttackAction(attacker, receiver, coordinate), draw) ==
      Success(Step(players, Some(HitEffect(coordinate, Defended))))
  {
  }

  /**
   * MOVE throws exactly when no fighter has the payload's id; otherwise the
   * first fighter with that id gets the new coordinate and nothing else changes.
   */
  lemma MoveSetsCoordinate(players: seq<Player>, fighter: Fighter, coordinate: Coordinate, draw: real)
    ensures Reduce(players, MoveAction(fighter, coordinate), draw).Failure? <==>
      forall i, j :: 0 <= i < |players| && 0 <= j < |players[i].fighters| ==> players[i].fighters[j].id != fighter.id
    ensures Reduce(players, MoveAction(fighter, coordinate), draw).Failure? ==>
      Reduce(players, MoveAction(fighter, coordinate), draw).error == FighterNotFound(fighter.name)
    ensures Reduce(players, MoveAction(fighter, coordinate), draw).Success? ==>
      var step := Reduce(players, MoveAction(fighter, coordinate), draw).value;
      var at := LocateFighter(players, fighter.id).value;
      && step.hitEffect == None
      && SameTeams(players, step.players)
      && OthersUnchanged(players, step.players, at)
      && ScoresRaised(players, step.players, None)
      && FighterAt(step.players, at) == FighterAt(players, at).(coordinate := Some(coordinate))
  {
  }

  /**
   * With unique ids, MOVE sets the coordinate of the one fighter carrying the
   * payload's id, and every other fighter is unchanged.
   */
  lemma MoveUniqueFighter(players: seq<Player>, fighter: Fighter, coordinate: Coordinate, draw: real)
    requires UniqueIds(players)
    requires Reduce(players, MoveAction(fighter, coordinate), draw).Success?
    ensures var after := Reduce(players, MoveAction(fighter, coordinate), draw).value.players;
      && SameTeams(players, after)
      && forall i, j :: 0 <= i < |players| && 0 <= j < |players[i].fighters| ==>
           after[i].fighters[j] ==
             if players[i].fighters[j].id == fighter.id
             then players[i].fighters[j].(coordinate := Some(coordinate))
             else players[i].fighters[j]
  {
    var at := LocateFighter(players, fighter.id).value;
    var after := Reduce(players, MoveAction(fighter, coordinate), draw).value.players;
    MoveSetsCoordinate(players, fighter, coordinate, draw);
    forall i, j | 0 <= i < |players| && 0 <= j < |players[i].fighters|
      ensures after[i].fighters[j] ==
        if players[i].fighters[j].id == fighter.id
        then players[i].fighters[j].(coordinate := Some(coordinate))
        else players[i].fighters[j]
    {
      if Loc(i, j) != at {
        assert players[i].fighters[j].id != FighterAt(players, at).id;
      }
    }
  }

  /**
   * ADD_VICTORY_POINT throws exactly when no side has the id; otherwise the
   * first side with that id gains exactly one point and nothing else changes.
   */
  lemma AddVictoryPointRaisesOne(players: seq<Player>, whichTurn: PlayerId, draw: real)
    ensures Reduce(players, AddVictoryPointAction(whichTurn), draw).Failure? <==>
      forall i :: 0 <= i < |players| ==> players[i].id != whichTurn
    ensures Reduce(players, AddVictoryPointAction(whichTurn), draw).Failure? ==>
      Reduce(players, AddVictoryPointAction(whichTurn), draw).error == PlayerNotFound(whichTurn)
    ensures Reduce(players, AddVictoryPointAction(whichTurn), draw).Success? ==>
      var step := Reduce(players, AddVictoryPointAction(whichTurn), draw).value;
      var k := PlayerIndex(players, whichTurn).value;
      && players[k].id == whichTurn
      && step.hitEffect == None
      && SameTeams(players, step.players)
      && ScoresRaised(players, step.players, Some(k))
      && forall i :: 0 <= i < |players| ==> step.players[i].fighters == players[i].fighters
  {
  }

  /** HEAL changes nothing. */
  lemma HealIsNoOp(players: seq<Player>, healHp: int, receiver: Fighter, draw: real)
    ensures Reduce(players, HealAction(healHp, receiver), draw) == Success(Step(players, None))
  {
  }

  /**
   * What every successful step keeps: every side's team, no score lowered
   * nor raised by more than one, and hit points non-negative.
   */
  ghost predicate StepKeeps(players: seq<Player>, after: seq<Player>)
  {
    && SameTeams(players, after)
    && (forall i :: 0 <= i < |players| ==>
          players[i].victoryPoint <= after[i].victoryPoint <= players[i].victoryPoint + 1)
    && (HpNonNegative(players) ==> HpNonNegative(after))
  }

  /** Whatever the action, a successful step keeps `StepKeeps`. */
  lemma ReducePreserves(players: seq<Player>, action: PlayerAction, draw: real)
    requires Reduce(players, action, draw).Success?
    ensures StepKeeps(players, Reduce(players, action, draw).value.players)
  {
    match action
    case AttackAction(attacker, receiver, coordinate) =>
      AttackKeeps(players, attacker, receiver, coordinate, draw);
    case MoveAction(fighter, coordinate) =>
      MoveKeeps(players, fighter, coordinate, draw);
    case HealAction(_, _) =>
    case AddVictoryPointAction(whichTurn) =>
  }

  lemma AttackKeeps(players: seq<Player>, attacker: Fighter, receiver: Fighter, coordinate: Coordinate, draw: real)
    requires Reduce(players, AttackAction(attacker, receiver, coordinate), draw).Success?
    ensures StepKeeps(players, Reduce(players, AttackAction(attacker, receiver, coordinate), draw).value.players)
  {
    if Classify(Correction(attacker, receiver), draw) != Defended {
      AttackLands(players, attacker, receiver, coordinate, draw);
      var after := Reduce(players, AttackAction(attacker, receiver, coordinate), draw).value.players;
      OneSlotKeepsHp(players, after, LocateFighter(players, receiver.id).value);
    } else {
      AttackStep(players, attacker, receiver, coordinate, draw);
    }
  }

  lemma MoveKeeps(players: seq<Player>, fighter: Fighter, coordinate: Coordinate, draw: real)
    requires Reduce(players, MoveAction(fighter, coordinate), draw).Success?
    ensures StepKeeps(players, Reduce(players, MoveAction(fighter, coordinate), draw).value.players)
  {
    MoveSetsCoordinate(players, fighter, coordinate, draw);
    var after := Reduce(players, MoveAction(fighter, coordinate), draw).value.players;
    OneSlotKeepsHp(players, after, LocateFighter(players, fighter.id).value);
  }

  /** Changing one slot to a fighter with non-negative hit points keeps every hit point non-negative. */
  lemma OneSlotKeepsHp(a: seq<Player>, b: seq<Player>, at: Loc)
    requires SameTeams(a, b) && OthersUnchanged(a, b, at) && ValidLoc(a, at)
    requires FighterAt(b, at).currentHp >= 0 || FighterAt(b, at).currentHp == FighterAt(a, at).currentHp
    ensures HpNonNegative(a) ==> HpNonNegative(b)
  {
    if HpNonNegative(a) {
      forall i, j | 0 <= i < |b| && 0 <= j < |b[i].fighters|
        ensures b[i].fighters[j].currentHp >= 0
      {
        if Loc(i, j) != at {
          assert b[i].fighters[j] == a[i].fighters[j];
        }
      }
    }
  }

  /** A successful step raises the score of at most one side, and that one by exactly one. */
  lemma ReduceScoresAtMostOneSide(players: seq<Player>, action: PlayerAction, draw: real)
    requires Reduce(players, action, draw).Success?
    ensures var after := Reduce(players, action, draw).value.players;
      |after| == |players| && exists scorer: Option<nat> :: ScoresRaised(players, after, scorer)
    ensures var after := Reduce(players, action, draw).value.players;
      |after| == |players| &&
      match action
      case AttackAction(attacker, _, _) =>
        ScoresRaised(players, after, None) || ScoresRaised(players, after, OwnerIndex(players, attacker.id))
      case AddVictoryPointAction(whichTurn) => ScoresRaised(players, after, PlayerIndex(players, whichTurn))
      case _ => ScoresRaised(players, after, None)
  {
    var after := Reduce(players, action, draw).value.players;
    match action
    case AttackAction(attacker, receiver, coordinate) =>
      var hit := Classify(Correction(attacker, receiver), draw);
      if hit == Defended {
        assert ScoresRaised(players, after, None);
      } else {
        var at := LocateFighter(players, receiver.id).value;
        var owner := OwnerIndex(players, attacker.id).value;
        var damage := Damage(hit, attacker.move);
        AttackLands(players, attacker, receiver, coordinate, draw);
        assert ScoresRaised(players, after, if FighterAt(players, at).currentHp - damage <= 0 then Some(owner) else None);
      }
    case MoveAction(fighter, coordinate) =>
      assert ScoresRaised(players, after, None);
    case HealAction(_, _) =>
      assert ScoresRaised(players, after, None);
    case AddVictoryPointAction(whichTurn) =>
      assert ScoresRaised(players, after, Some(PlayerIndex(players, whichTurn).value));
  }

  /** `produce` discards the draft when the reducer throws: the roster after one dispatch. */
  function Apply(players: seq<Player>, action: PlayerAction, draw: real): seq<Player>
  {
    match Reduce(players, action, draw)
    case Success(step) => step.players
    case Failure(_) => players
  }

  lemma ApplyPreserves(players: seq<Player>, action: PlayerAction, draw: real)
    ensures var after := Apply(players, action, draw);
      && SameTeams(players, after)
      && (forall i :: 0 <= i < |players| ==> players[i].victoryPoint <= after[i].victoryPoint)
      && (HpNonNegative(players) ==> HpNonNegative(after))
  {
    if Reduce(players, action, draw).Success? {
      ReducePreserves(players, action, draw);
    }
  }

  /** The roster after dispatching a sequence of actions, each with its own draw. */
  function Run(players: seq<Player>, actions: seq<(PlayerAction, real)>): seq<Player>
    decreases |actions|
  {
    if |actions| == 0 then players
    else Run(Apply(players, actions[0].0, actions[0].1), actions[1..])
  }

  /**
   * Over any sequence of dispatches, teams never change, no score ever goes
   * down, and hit points that start non-negative stay non-negative.
   */
  lemma {:induction false} RunPreserves(players: seq<Player>, actions: seq<(PlayerAction, real)>)
    decreases |actions|
    ensures var after := Run(players, actions);
      && SameTeams(players, after)
      && (forall i :: 0 <= i < |players| ==> players[i].victoryPoint <= after[i].victoryPoint)
      && (HpNonNegative(players) ==> HpNonNegative(after))
  {
    if |actions| > 0 {
      var next := Apply(players, actions[0].0, actions[0].1);
      var after := Run(next, actions[1..]);
      assert Run(players, actions) == after;
      ApplyPreserves(players, actions[0].0, actions[0].1);
      RunPreserves(next, actions[1..]);
      SameTeamsTransitive(players, next, after);
      forall i | 0 <= i < |players|
        ensures players[i].victoryPoint <= after[i].victoryPoint
      {
        assert players[i].victoryPoint <= next[i].victoryPoint;
      }
    }
  }

  lemma SameTeamsTransitive(a: seq<Player>, b: seq<Player>, c: seq<Player>)
    requires SameTeams(a, b) && SameTeams(b, c)
    ensures SameTeams(a, c)
  {
  }

  /**
   * The worked case of a critical kill: defence 3 against attack 1 and
   * damage 4 gives borders 7 and 9.4; a draw of 9.5 is critical, the
   * receiver's 3 hit points drop to 0, it leaves the board, and side A scores.
   */
  lemma CriticalKillExample()
    ensures
      var attacker := Fighter(1, "attacker", 2, Move(1, 4), 5, Some(Coordinate(0, 0)));
      var receiver := Fighter(2, "receiver", 3, Move(1, 1), 3, Some(Coordinate(1, 0)));
      var players := [Player(A, [attacker], 0), Player(B, [receiver], 0)];
      Reduce(players, AttackAction(attacker, receiver, Coordinate(1, 0)), 9.5) ==
        Success(Step(
          [Player(A, [attacker], 1), Player(B, [receiver.(currentHp := 0, coordinate := None)], 0)],
          Some(HitEffect(Coordinate(1, 0), Critical))))
  {
    var attacker := Fighter(1, "attacker", 2, Move(1, 4), 5, Some(Coordinate(0, 0)));
    var receiver := Fighter(2, "receiver", 3, Move(1, 1), 3, Some(Coordinate(1, 0)));
    var players := [Player(A, [attacker], 0), Player(B, [receiver], 0)];
    TwoFighterRoster(players);
    assert Classify(Correction(attacker, receiver), 9.5) == Critical;
    var after := ApplyDamage(players, Loc(1, 0), 5, 0);
    assert after[0].fighters == [attacker];
    assert after[1].fighters == [receiver.(currentHp := 0, coordinate := None)];
    assert after[0].victoryPoint == 1;
    assert after == [Player(A, [attacker], 1), Player(B, [receiver.(currentHp := 0, coordinate := None)], 0)];
    assert Damage(Critical, attacker.move) == 5;
  }

  /**
   * Nothing checks that the receiver is still alive: a fighter already at 0
   * hit points, hit again, scores its attacker another point.
   */
  lemma DeadReceiverScoresAgain()
    ensures
      var attacker := Fighter(1, "attacker", 2, Move(1, 4), 5, Some(Coordinate(0, 0)));
      var receiver := Fighter(2, "receiver", 3, Move(1, 1), 0, None);
      var players := [Player(A, [attacker], 1), Player(B, [receiver], 0)];
      Apply(players, AttackAction(attacker, receiver, Coordinate(1, 0)), 8.0) ==
        [Player(A, [attacker], 2), Player(B, [receiver], 0)]
  {
    var attacker := Fighter(1, "attacker", 2, Move(1, 4), 5, Some(Coordinate(0, 0)));
    var receiver := Fighter(2, "receiver", 3, Move(1, 1), 0, None);
    var players := [Player(A, [attacker], 1), Player(B, [receiver], 0)];
    TwoFighterRoster(players);
    assert Classify(Correction(attacker, receiver), 8.0) == Attacked;
    var after := ApplyDamage(players, Loc(1, 0), 4, 0);
    assert after[0].fighters == [attacker];
    assert after[1].fighters == [receiver];
  }

  /** Nothing checks liveness on MOVE either: a removed fighter can be put back on the board. */
  lemma MoveReplacesRemovedFighter()
    ensures
      var attacker := Fighter(1, "attacker", 2, Move(1, 4), 5, Some(Coordinate(0, 0)));
      var removed := Fighter(2, "receiver", 3, Move(1, 1), 0, None);
      var players := [Player(A, [attacker], 0), Player(B, [removed], 0)];
      Apply(players, MoveAction(removed, Coordinate(4, 4)), 0.0) ==
        [Player(A, [attacker], 0), Player(B, [removed.(coordinate := Some(Coordinate(4, 4)))], 0)]
  {
    var attacker := Fighter(1, "attacker", 2, Move(1, 4), 5, Some(Coordinate(0, 0)));
    var removed := Fighter(2, "receiver", 3, Move(1, 1), 0, None);
    var players := [Player(A, [attacker], 0), Player(B, [removed], 0)];
    TwoFighterRoster(players);
    var after := WithFighter(players, Loc(1, 0), removed.(coordinate := Some(Coordinate(4, 4))));
    assert after[0].fighters == [attacker];
    assert after[1].fighters == [removed.(coordinate := Some(Coordinate(4, 4)))];
  }

  /** In a roster of one fighter per side, with ids 1 and 2, the lookups find the obvious slots. */
  lemma TwoFighterRoster(players: seq<Player>)
    requires |players| == 2 && |players[0].fighters| == 1 && |players[1].fighters| == 1
    requires players[0].fighters[0].id == 1 && players[1].fighters[0].id == 2
    ensures OwnerIndex(players, 1) == Some(0)
    ensures LocateFighter(players, 2) == Some(Loc(1, 0))
  {
  }
}
