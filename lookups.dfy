/**
 * The read-only lookups of the player hook: `find` and `flatMap` over the
 * roster, the side and fighter finders, and the owner search.
 */
module Lookups {
  import opened Domain

  /** Index of the first element satisfying `p`: the model of `Array.prototype.find`. */
  function FindIndex<T>(s: seq<T>, p: T -> bool): (k: Option<nat>)
    ensures k.Some? ==> k.value < |s| && p(s[k.value])
    ensures k.Some? ==> forall j :: 0 <= j < k.value ==> !p(s[j])
    ensures k.None? ==> forall j :: 0 <= j < |s| ==> !p(s[j])
  {
    if |s| == 0 then None
    else if p(s[0]) then Some(0)
    else match FindIndex(s[1..], p)
      case None => None
      case Some(k) => Some(k + 1)
  }

  /** The first element satisfying `p`, or `None` (`undefined`). */
  function Find<T>(s: seq<T>, p: T -> bool): (r: Option<T>)
    ensures r.Some? ==> r.value in s && p(r.value)
    ensures r.Some? ==> exists k :: 0 <= k < |s| && s[k] == r.value && forall j :: 0 <= j < k ==> !p(s[j])
    ensures r.None? <==> forall x :: x in s ==> !p(x)
  {
    match FindIndex(s, p)
    case None => None
    case Some(k) => Some(s[k])
  }

  /** `find` on a concatenation looks in the second part only when the first has no match. */
  lemma {:induction false} FindIndexAppend<T>(a: seq<T>, b: seq<T>, p: T -> bool)
    ensures FindIndex(a + b, p) ==
      match FindIndex(a, p)
      case Some(k) => Some(k)
      case None =>
        match FindIndex(b, p)
        case Some(k) => Some(|a| + k)
        case None => None
  {
    if |a| > 0 {
      assert (a + b)[1..] == a[1..] + b;
      FindIndexAppend(a[1..], b, p);
    } else {
      assert a + b == b;
    }
  }

  function HasId(id: int): Fighter -> bool { (f: Fighter) => f.id == id }

  function AtCoordinate(c: Coordinate): Fighter -> bool { (f: Fighter) => f.coordinate == Some(c) }

  function IsPlayer(playerId: PlayerId): Player -> bool { (p: Player) => p.id == playerId }

  /** The ids of a roster's fighters, in order (`fighters.map((f) => f.id)`). */
  function FighterIds(fighters: seq<Fighter>): (ids: seq<int>)
    ensures |ids| == |fighters|
    ensures forall j :: 0 <= j < |fighters| ==> ids[j] == fighters[j].id
  {
    seq(|fighters|, j requires 0 <= j < |fighters| => fighters[j].id)
  }

  function OwnsFighterId(id: int): Player -> bool { (p: Player) => id in FighterIds(p.fighters) }

  /** All fighters of all sides, side by side (`players.flatMap((p) => p.fighters)`). */
  function Flatten(players: seq<Player>): (fighters: seq<Fighter>)
    ensures forall f :: f in fighters <==> exists i :: 0 <= i < |players| && f in players[i].fighters
  {
    if |players| == 0 then []
    else
      var rest := Flatten(players[1..]);
      assert forall f :: f in rest <==> exists i :: 1 <= i < |players| && f in players[i].fighters by {
        forall f ensures f in rest <==> exists i :: 1 <= i < |players| && f in players[i].fighters {
          if f in rest {
            var i :| 0 <= i < |players[1..]| && f in players[1..][i].fighters;
            assert f in players[i + 1].fighters;
          }
          if exists i :: 1 <= i < |players| && f in players[i].fighters {
            var i :| 1 <= i < |players| && f in players[i].fighters;
            assert f in players[1..][i - 1].fighters;
          }
        }
      }
      players[0].fighters + rest
  }

  /** `flatMap` keeps the order of the sides: the fighters of `a`, then those of `b`. */
  lemma {:induction false} FlattenAppend(a: seq<Player>, b: seq<Player>)
    ensures Flatten(a + b) == Flatten(a) + Flatten(b)
  {
    if |a| == 0 {
      assert a + b == b;
    } else {
      assert (a + b)[1..] == a[1..] + b;
      FlattenAppend(a[1..], b);
    }
  }

  /** A single side flattens to its own fighters, in their order. */
  lemma FlattenSingle(p: Player)
    ensures Flatten([p]) == p.fighters
  {
    assert [p][1..] == [];
  }

  /** Where a fighter sits in the roster: side index and index within that side. */
  datatype Loc = Loc(player: nat, fighter: nat)

  predicate ValidLoc(players: seq<Player>, at: Loc)
  {
    at.player < |players| && at.fighter < |players[at.player].fighters|
  }

  function FighterAt(players: seq<Player>, at: Loc): Fighter
    requires ValidLoc(players, at)
  {
    players[at.player].fighters[at.fighter]
  }

  /**
   * The roster slot of the first fighter, in `flatMap` order, whose id is `id`:
   * the object that `players.flatMap(...).find((f) => f.id === id)` hands the
   * reducer to mutate.
   */
  function LocateFighter(players: seq<Player>, id: int): (loc: Option<Loc>)
    ensures loc.Some? ==> ValidLoc(players, loc.value) && FighterAt(players, loc.value).id == id
    ensures loc.Some? ==>
      (forall i, j :: 0 <= i < loc.value.player && 0 <= j < |players[i].fighters| ==> players[i].fighters[j].id != id) &&
      (forall j :: 0 <= j < loc.value.fighter ==> players[loc.value.player].fighters[j].id != id)
    ensures loc.None? <==>
      forall i, j :: 0 <= i < |players| && 0 <= j < |players[i].fighters| ==> players[i].fighters[j].id != id
  {
    if |players| == 0 then None
    else match FindIndex(players[0].fighters, HasId(id))
      case Some(j) => Some(Loc(0, j))
      case None =>
        match LocateFighter(players[1..], id)
        case None => None
        case Some(l) => Some(Loc(l.player + 1, l.fighter))
  }

  /**
   * The first fighter with id `id` in the flattened roster is the one at the
   * slot `LocateFighter` names, so mutating that slot is mutating the object
   * `find` returned.
   */
  lemma {:induction false} LocateFighterAgreesWithFind(players: seq<Player>, id: int)
    ensures Find(Flatten(players), HasId(id)) ==
      match LocateFighter(players, id)
      case Some(l) => Some(FighterAt(players, l))
      case None => None
  {
    if |players| == 0 {
    } else {
      var rest := players[1..];
      LocateFighterAgreesWithFind(rest, id);
      FindIndexAppend(players[0].fighters, Flatten(rest), HasId(id));
      match FindIndex(players[0].fighters, HasId(id))
      case Some(j) => {
      }
      case None => {
        match FindIndex(Flatten(rest), HasId(id))
        case None => {
        }
        case Some(k) => {
          var l := LocateFighter(rest, id).value;
          assert Flatten(players)[|players[0].fighters| + k] == Flatten(rest)[k];
        }
      }
    }
  }

  /** `players.find((p) => includes(p.fighters.map((f) => f.id), id))`: the side that owns an id. */
  function OwnerIndex(players: seq<Player>, id: int): (k: Option<nat>)
    ensures k.Some? ==> k.value < |players| && exists j :: 0 <= j < |players[k.value].fighters| && players[k.value].fighters[j].id == id
    ensures k.Some? ==>
      forall i, j :: 0 <= i < k.value && 0 <= j < |players[i].fighters| ==> players[i].fighters[j].id != id
    ensures k.None? <==>
      forall i, j :: 0 <= i < |players| && 0 <= j < |players[i].fighters| ==> players[i].fighters[j].id != id
  {
    var k := FindIndex(players, OwnsFighterId(id));
    if k.Some? then
      assert id in FighterIds(players[k.value].fighters);
      assert forall i, j :: 0 <= i < k.value && 0 <= j < |players[i].fighters| ==> players[i].fighters[j].id != id by {
        forall i, j | 0 <= i < k.value && 0 <= j < |players[i].fighters|
          ensures players[i].fighters[j].id != id
        {
          assert !OwnsFighterId(id)(players[i]);
          assert FighterIds(players[i].fighters)[j] == players[i].fighters[j].id;
        }
      }
      k
    else
      assert forall i, j :: 0 <= i < |players| && 0 <= j < |players[i].fighters| ==> players[i].fighters[j].id != id by {
        forall i, j | 0 <= i < |players| && 0 <= j < |players[i].fighters|
          ensures players[i].fighters[j].id != id
        {
          assert !OwnsFighterId(id)(players[i]);
          assert FighterIds(players[i].fighters)[j] == players[i].fighters[j].id;
        }
      }
      k
  }

  /** `players.find((player) => player.id === playerId)` as an index. */
  function PlayerIndex(players: seq<Player>, playerId: PlayerId): (k: Option<nat>)
    ensures k.Some? ==> k.value < |players| && players[k.value].id == playerId
    ensures k.Some? ==> forall i :: 0 <= i < k.value ==> players[i].id != playerId
    ensures k.None? <==> forall i :: 0 <= i < |players| ==> players[i].id != playerId
  {
    FindIndex(players, IsPlayer(playerId))
  }

  /** `usePlayer(playerId)`: the side with that id, or the error it throws. */
  function UsePlayer(players: seq<Player>, playerId: PlayerId): (r: Result<Player>)
    ensures r.Success? ==> r.value in players && r.value.id == playerId
    ensures r.Success? ==> PlayerIndex(players, playerId).Some? && r.value == players[PlayerIndex(players, playerId).value]
    ensures r.Failure? ==> r.error == PlayerNotFound(playerId)
    ensures r.Failure? <==> forall p :: p in players ==> p.id != playerId
  {
    match Find(players, IsPlayer(playerId))
    case Some(p) => Success(p)
    case None => Failure(PlayerNotFound(playerId))
  }

  /** `useAllPlayers()`: side A then side B; throws if either is missing. */
  function AllPlayers(players: seq<Player>): (r: Result<seq<Player>>)
    ensures r.Success? ==> |r.value| == 2 && r.value[0].id == A && r.value[1].id == B
    ensures r.Success? ==> r.value[0] in players && r.value[1] in players
    ensures r.Success? ==>
      && PlayerIndex(players, A).Some? && PlayerIndex(players, B).Some?
      && r.value == [players[PlayerIndex(players, A).value], players[PlayerIndex(players, B).value]]
    ensures r.Failure? <==> (forall p :: p in players ==> p.id != A) || (forall p :: p in players ==> p.id != B)
  {
    var a :- UsePlayer(players, A);
    var b :- UsePlayer(players, B);
    Success([a, b])
  }

  /**
   * `useFighter(id)` over the list `useAllPlayers` returned: an absent or zero
   * id (both falsy) gives `undefined`; an id no fighter has throws.
   */
  function UseFighter(allPlayers: seq<Player>, id: Option<int>): (r: Result<Option<Fighter>>)
    ensures (id.None? || id == Some(0)) ==> r == Success(None)
    ensures id.Some? && id.value != 0 ==>
      (r.Success? ==> r.value.Some? && r.value.value in Flatten(allPlayers) && r.value.value.id == id.value)
    ensures id.Some? && id.value != 0 && r.Success? ==>
      var fs := Flatten(allPlayers);
      exists k :: 0 <= k < |fs| && fs[k] == r.value.value && forall j :: 0 <= j < k ==> fs[j].id != id.value
    ensures id.Some? && id.value != 0 ==>
      (r.Failure? <==> forall f :: f in Flatten(allPlayers) ==> f.id != id.value)
    ensures r.Failure? ==> r.error == FighterIdNotFound(id.value)
  {
    if id.None? || id.value == 0 then Success(None)
    else match Find(Flatten(allPlayers), HasId(id.value))
      case Some(f) => Success(Some(f))
      case None => Failure(FighterIdNotFound(id.value))
  }

  /** `usePlayersFighter(id)`: the fighters of the first side with that id; throws if there is none. */
  function UsePlayersFighter(allPlayers: seq<Player>, playerId: PlayerId): (r: Result<seq<Fighter>>)
    ensures r.Success? ==> exists p :: p in allPlayers && p.id == playerId && p.fighters == r.value
    ensures r.Success? ==>
      PlayerIndex(allPlayers, playerId).Some? && r.value == allPlayers[PlayerIndex(allPlayers, playerId).value].fighters
    ensures r.Failure? <==> forall p :: p in allPlayers ==> p.id != playerId
  {
    match Find(allPlayers, IsPlayer(playerId))
    case Some(p) => Success(p.fighters)
    case None => Failure(PlayerNotFound(playerId))
  }

  /** `findFighterByCoordinate(c)`: the first fighter of any side standing on `c`. */
  function FindFighterByCoordinate(allPlayers: seq<Player>, c: Coordinate): (r: Option<Fighter>)
    ensures r.Some? ==> r.value in Flatten(allPlayers) && r.value.coordinate == Some(c)
    ensures r.Some? ==>
      var fs := Flatten(allPlayers);
      exists k :: 0 <= k < |fs| && fs[k] == r.value && forall j :: 0 <= j < k ==> fs[j].coordinate != Some(c)
    ensures r.None? <==> forall f :: f in Flatten(allPlayers) ==> f.coordinate != Some(c)
  {
    Find(Flatten(allPlayers), AtCoordinate(c))
  }

  /**
   * `findFighterByTeamAndCoordinate(c, playerId)`: among the fighters of the
   * first side with id `playerId`, the first standing on `c`.
   */
  function FindFighterByTeamAndCoordinate(allPlayers: seq<Player>, c: Coordinate, playerId: PlayerId): (r: Option<Fighter>)
    ensures r.Some? ==> r.value.coordinate == Some(c)
    ensures r.Some? ==> exists p :: p in allPlayers && p.id == playerId && r.value in p.fighters
    ensures r.Some? ==>
      PlayerIndex(allPlayers, playerId).Some? &&
      var fs := allPlayers[PlayerIndex(allPlayers, playerId).value].fighters;
      exists k :: 0 <= k < |fs| && fs[k] == r.value && forall j :: 0 <= j < k ==> fs[j].coordinate != Some(c)
    ensures r.None? <==>
      match PlayerIndex(allPlayers, playerId)
      case None => true
      case Some(k) => forall f :: f in allPlayers[k].fighters ==> f.coordinate != Some(c)
  {
    match Find(allPlayers, IsPlayer(playerId))
    case None => None
    case Some(p) => Find(p.fighters, AtCoordinate(c))
  }

  /**
   * `findPlayerByFighter(f)`: walks every fighter of every side, remembering the
   * side of each fighter equal to `f` (lodash `isEqual`, structural), so the
   * LAST side holding such a fighter wins; throws when none does.
   */
  method FindPlayerByFighter(allPlayers: seq<Player>, findFighter: Fighter) returns (r: Result<PlayerId>)
    ensures r.Success? ==>
      exists i :: 0 <= i < |allPlayers| && allPlayers[i].id == r.value && findFighter in allPlayers[i].fighters &&
        forall m :: i < m < |allPlayers| ==> findFighter !in allPlayers[m].fighters
    ensures r.Failure? <==> forall i :: 0 <= i < |allPlayers| ==> findFighter !in allPlayers[i].fighters
    ensures r.Failure? ==> r.error == OwnerNotFound
  {
    var result: Option<PlayerId> := None;
    ghost var owner: nat := 0;
    var i := 0;
    while i < |allPlayers|
      invariant 0 <= i <= |allPlayers|
      invariant result.None? <==> forall k :: 0 <= k < i ==> findFighter !in allPlayers[k].fighters
      invariant result.Some? ==>
        owner < i && allPlayers[owner].id == result.value && findFighter in allPlayers[owner].fighters &&
        forall m :: owner < m < i ==> findFighter !in allPlayers[m].fighters
    {
      var fighters := allPlayers[i].fighters;
      ghost var before, ownerBefore := result, owner;
      var j := 0;
      while j < |fighters|
        invariant 0 <= j <= |fighters|
        invariant findFighter in fighters[..j] ==> result == Some(allPlayers[i].id) && owner == i
        invariant findFighter !in fighters[..j] ==> result == before && owner == ownerBefore
      {
        if fighters[j] == findFighter {
          result := Some(allPlayers[i].id);
          owner := i;
        }
        assert fighters[..j + 1] == fighters[..j] + [fighters[j]];
        j := j + 1;
      }
      assert fighters[..j] == fighters;
      i := i + 1;
    }
    if result.None? {
      return Failure(OwnerNotFound);
    }
    return Success(result.value);
  }
}
