# War-hammer rules engine in Dafny

A model of the two hooks that hold the rules of a two-player, turn-based
hex-grid combat game:

- **the player hook** (`src/hooks/usePlayer.tsx`): the roster of the two
  sides, each with its fighters and a `victoryPoint` score; the reducer that
  applies one action (ATTACK, MOVE, HEAL, ADD_VICTORY_POINT); the damage
  bookkeeping of `reduceHp`; the lookups that find a side, a fighter by id or
  by coordinate, and the side owning a fighter; and the `move` action, which
  dispatches MOVE and then hands the turn over;
- **the game-info hook** (`src/hooks/useGameInfo.tsx`): whose turn it is, the
  turn counter (up to `maxTurnNum = 10`), the winner, the phase of a turn and
  three selections, with `switchTurn` and the setters.

Modules:

- `Domain` (`domain.dfy`): the values: `Option`, `Result` (a thrown error is a
  `Failure`), `PlayerId`, `Coordinate`, `Move`, `Fighter`, `Player`, `Error`.
- `Lookups` (`lookups.dfy`): `find` and `flatMap` over the roster, the side and
  fighter finders, and `FindPlayerByFighter`, which keeps the source's nested
  loops over a mutable `result`.
- `Reducer` (`reducer.dfy`): the attack's hit classification, `ApplyDamage`
  (`reduceHp` on roster values) and `Reduce`, the reducer as a function from
  roster, action and random draw to the new roster and the hit effect; the
  lemmas state what each action does, and `Run` with `RunPreserves` carries
  the invariants over any sequence of dispatches.
- `GameInfo` (`game_info.dfy`): `NextTurn` (`switchTurn` on a state value),
  its lemmas, and the class `GameInfoProvider` whose fields the hook's
  setters overwrite.
- `Providers` (`providers.dfy`): the class `PlayerProvider` holding the roster
  as a `seq<Player>` field; `Dispatch` is the reducer applied in place,
  `ReduceHp` updates one fighter step by step, and `Move` dispatches MOVE
  and then calls `SwitchTurn`. Each method's `ensures` ties the new state to
  a function of the old state: `Reduce` for the dispatched actions,
  `WithFighter` for `SetFighter`, `ApplyDamage` for `ReduceHp`, `Classify`
  and `ApplyDamage` for `Roll`, and `NextTurn` for the turn.

The random draw `Math.random() * 10` is a parameter `draw: real`; the
thresholds `correction + 5` and `correction / 5 + 9` are exact rationals.

Behaviour kept as the code has it:

- ATTACK reads `def` and `move` from the payload's copies of the fighters, but
  damages the roster's fighter found by id, and credits the first side whose
  fighter ids include the attacker's id.
- Nothing checks that a fighter is alive or on the opposing side: hitting a
  fighter already at 0 hit points scores another point
  (`DeadReceiverScoresAgain`), and MOVE puts a removed fighter back on the
  board (`MoveReplacesRemovedFighter`). A fighter at 0 hit points is therefore
  not always off the board, although a fighter at 0 hit points is meant to
  stay off it.
- The winner set by `switchTurn` is always side A, whatever the scores.
- The phase is stored, never checked: any phase may follow any other, and
  no action looks at it.

## Model

| member | source | states |
|---|---|---|
| `Lookups.FindIndex` | src/hooks/usePlayer.tsx:152 | `find` returns the first element satisfying the predicate, or none exactly when no element does |
| `Lookups.Find` | src/hooks/usePlayer.tsx:152 | `find` returns an element satisfying the predicate with no satisfying element before it, or none exactly when no element satisfies it |
| `Lookups.Flatten` | src/hooks/usePlayer.tsx:144-147 | `flatMap` over the sides holds exactly the fighters of some side |
| `Lookups.FlattenAppend` | src/hooks/usePlayer.tsx:146 | `flatMap` keeps the side order: flattening `a + b` gives the fighters of `a` followed by those of `b` |
| `Lookups.FlattenSingle` | src/hooks/usePlayer.tsx:146 | one side flattens to exactly its own fighters in their order, so with `FlattenAppend` the order of the flattened roster is fixed |
| `Lookups.LocateFighter` | src/hooks/usePlayer.tsx:50 | the slot found holds a fighter with the id and no earlier slot (in side-then-fighter order) does; none exactly when no fighter has the id |
| `Lookups.LocateFighterAgreesWithFind` | src/hooks/usePlayer.tsx:76-78 | the fighter `flatMap(...).find` returns by id is the one at the slot the reducer writes |
| `Lookups.OwnerIndex` | src/hooks/usePlayer.tsx:48-49 | the side found owns a fighter with the attacker's id and no earlier side does; none exactly when no side does |
| `Lookups.PlayerIndex` | src/hooks/usePlayer.tsx:83-86 | the first side with the given id; none exactly when no side has it |
| `Lookups.UsePlayer` | src/hooks/usePlayer.tsx:121-131 | returns the first side of the roster with the id, and throws `PlayerNotFound` exactly when there is none |
| `Lookups.AllPlayers` | src/hooks/usePlayer.tsx:138-142 | the first side with id A, then the first side with id B, as the two `usePlayer` calls find them; throws exactly when either is missing |
| `Lookups.UseFighter` | src/hooks/usePlayer.tsx:149-155 | an absent or zero id gives undefined; otherwise the first fighter of the flattened roster with that id, and a throw exactly when none exists |
| `Lookups.UsePlayersFighter` | src/hooks/usePlayer.tsx:157-162 | the fighters of the first side with the id; throws exactly when no side has it |
| `Lookups.FindFighterByCoordinate` | src/hooks/usePlayer.tsx:172 | returns a fighter standing on the coordinate with no fighter before it in the flattened roster standing there (two fighters can share a hex, the first wins); none exactly when no fighter stands there |
| `Lookups.FindFighterByTeamAndCoordinate` | src/hooks/usePlayer.tsx:173 | returns the first fighter standing on the coordinate among the fighters of the first side with id `playerId`; none exactly when that side is missing or has no fighter there |
| `Lookups.FindPlayerByFighter` | src/hooks/usePlayer.tsx:180-194 | returns the id of the last side holding a fighter equal to the argument; throws `OwnerNotFound` exactly when no side holds one |
| `Reducer.Classify` | src/hooks/usePlayer.tsx:53-73 | the outcome of a draw, critical border tested first; it has no `ensures` of its own, and `ClassifyBands`, `ClassifyMonotoneInDraw` and `ClassifyAntitoneInCorrection` state its behaviour |
| `Reducer.ClassifyBands` | src/hooks/usePlayer.tsx:41-73 | for a draw in [0, 10): CRITICAL exactly at or above `correction / 5 + 9`, ATTACKED exactly in [`correction + 5`, `correction / 5 + 9`), DEFENDED exactly below `correction + 5` |
| `Reducer.ClassifyMonotoneInDraw` | src/hooks/usePlayer.tsx:39-45 | a higher draw never gives a worse outcome |
| `Reducer.ClassifyAntitoneInCorrection` | src/hooks/usePlayer.tsx:39-45 | a higher defence or weaker attack never gives a better outcome |
| `Reducer.ApplyDamage` | src/hooks/usePlayer.tsx:202-211 | the receiver's hit points stay non-negative; at or below 0 they become exactly 0, the coordinate is cleared and the attacking side gains exactly one point; otherwise only the hit points drop by the damage; every other fighter, score and team is unchanged |
| `Reducer.Reduce` | src/hooks/usePlayer.tsx:32-92 | the reducer on roster values, a throw as `Failure`; it has no `ensures` of its own, and the per-action lemmas (`AttackNotFound`, `AttackLands`, `AttackCritical`, `AttackHit`, `AttackDefended`, `MoveSetsCoordinate`, `AddVictoryPointRaisesOne`, `HealIsNoOp`) with `ReducePreserves` and `ReduceScoresAtMostOneSide` state its behaviour |
| `Reducer.AttackLands` | src/hooks/usePlayer.tsx:53-66 | a successful ATTACK that is not defended reports its outcome and applies that outcome's damage (`DamageApplied`) to the first fighter with the receiver's id, crediting the side that owns the attacker |
| `Reducer.AttackNotFound` | src/hooks/usePlayer.tsx:48-51 | ATTACK throws exactly when no side owns the attacker's id or no fighter has the receiver's id |
| `Reducer.AttackCritical` | src/hooks/usePlayer.tsx:53-59 | a draw at or above the critical border reports CRITICAL and deals exactly `move.dmg + 1` to the receiver, crediting the attacker's side |
| `Reducer.AttackHit` | src/hooks/usePlayer.tsx:60-66 | a draw in [`correction + 5`, critical border) reports ATTACKED and deals exactly `move.dmg` |
| `Reducer.AttackDefended` | src/hooks/usePlayer.tsx:67-73 | a draw below both borders reports DEFENDED and leaves the roster unchanged |
| `Reducer.MoveSetsCoordinate` | src/hooks/usePlayer.tsx:75-79 | MOVE throws exactly when no fighter has the id; otherwise the first such fighter gets the coordinate and no other fighter, score or team changes |
| `Reducer.MoveUniqueFighter` | src/hooks/usePlayer.tsx:76-78 | with unique ids, every fighter carrying the id has the new coordinate and every other fighter is unchanged |
| `Reducer.AddVictoryPointRaisesOne` | src/hooks/usePlayer.tsx:82-88 | ADD_VICTORY_POINT throws exactly when no side has the id; otherwise that side gains exactly one point and nothing else changes |
| `Reducer.HealIsNoOp` | src/hooks/usePlayer.tsx:80-81 | HEAL leaves the roster unchanged and reports no hit |
| `Reducer.ReducePreserves` | src/hooks/usePlayer.tsx:32-92 | any successful action keeps every team, raises each score by 0 or 1 and keeps hit points non-negative |
| `Reducer.ReduceScoresAtMostOneSide` | src/hooks/usePlayer.tsx:32-92 | any successful action raises the score of at most one side, by exactly one; which side is fixed per action: an ATTACK raises none or only the first side owning the attacker's id, ADD_VICTORY_POINT exactly the first side with the named id, MOVE and HEAL none |
| `Reducer.Apply` | src/hooks/usePlayer.tsx:32 | immer's `produce`: the roster after one dispatch, left as it was when the reducer throws; it has no `ensures` of its own, and `ApplyPreserves` and `RunPreserves` state its behaviour |
| `Reducer.ApplyPreserves` | src/hooks/usePlayer.tsx:32-92 | one dispatch, thrown or not, keeps every team, lowers no score and keeps hit points non-negative |
| `Reducer.RunPreserves` | src/hooks/usePlayer.tsx:32-92 | over any sequence of dispatches, thrown ones leaving the roster alone: teams never change, no score decreases, hit points stay non-negative |
| `Reducer.CriticalKillExample` | src/hooks/usePlayer.tsx:41-59 | defence 3 against attack 1, damage 4, draw 9.5: CRITICAL, the receiver's 3 hit points go to 0, it leaves the board, side A scores |
| `Reducer.DeadReceiverScoresAgain` | src/hooks/usePlayer.tsx:202-209 | hitting a fighter already at 0 hit points scores the attacker's side another point |
| `Reducer.MoveReplacesRemovedFighter` | src/hooks/usePlayer.tsx:76-78 | MOVE gives a removed fighter a coordinate again |
| `GameInfo.IsLastPhase` | src/hooks/useGameInfo.tsx:50 | side B acting in turn `MaxTurnNum`; it has no `ensures` of its own, and the third `ensures` of `NextTurn` (the side to act stays exactly in the last phase) with `SwitchAtLastPhase` and `LastPhaseIsStable` state what it decides |
| `GameInfo.NextTurn` | src/hooks/useGameInfo.tsx:37-50 | the counter changes only from B to A and then by exactly one; the winner changes only in the last phase and only to A; the side to act stays exactly in the last phase |
| `GameInfo.SwitchFromA` | src/hooks/useGameInfo.tsx:38-40 | outside the last phase, from A: B acts next, same turn |
| `GameInfo.SwitchFromB` | src/hooks/useGameInfo.tsx:41-43 | outside the last phase, from B: A acts next, turn + 1 |
| `GameInfo.SwitchAtLastPhase` | src/hooks/useGameInfo.tsx:45-50 | in the last phase the winner becomes A and neither the side nor the counter changes |
| `GameInfo.LastPhaseIsStable` | src/hooks/useGameInfo.tsx:37-50 | once the last phase is reached, any number of further calls leaves the state as the first one left it |
| `GameInfo.NextTurnKeepsReachable` | src/hooks/useGameInfo.tsx:28-50 | `switchTurn` keeps `1 <= currentTurnNum <= 10` and a set winner is A, set in the last phase |
| `GameInfo.SwitchTimesReachable` | src/hooks/useGameInfo.tsx:28-50 | the same holds after any number of calls |
| `GameInfo.SwitchTimesFromStart` | src/hooks/useGameInfo.tsx:28-50 | after k < 20 calls from the start, A acts on even k, B on odd k, in turn `1 + k / 2`, with no winner |
| `GameInfo.GameEndsAfterTwentySwitches` | src/hooks/useGameInfo.tsx:28-50 | the twentieth call is the first to set a winner, and it sets A |
| `GameInfo.GameInfoProvider.constructor` | src/hooks/useGameInfo.tsx:28-36 | starts in turn 1 with A to act, no winner, phase SELECT_FIGHTER and nothing selected |
| `GameInfo.GameInfoProvider.SwitchTurn` | src/hooks/useGameInfo.tsx:37-48 | the turn fields become `NextTurn` of the old ones; reachability is kept |
| `GameInfo.GameInfoProvider.SetPhase` | src/hooks/useGameInfo.tsx:36 | stores any phase, from any phase |
| `GameInfo.GameInfoProvider.SetSelectedFighter` | src/hooks/useGameInfo.tsx:33 | stores the selection unconditionally |
| `GameInfo.GameInfoProvider.SetTargetFighter` | src/hooks/useGameInfo.tsx:34 | stores the target unconditionally |
| `GameInfo.GameInfoProvider.SetSelectedHex` | src/hooks/useGameInfo.tsx:35 | stores the hex unconditionally |
| `Providers.PlayerProvider.constructor` | src/hooks/usePlayer.tsx:104-105 | the roster starts as given |
| `Providers.PlayerProvider.ReduceHp` | src/hooks/usePlayer.tsx:200-213 | the step-by-step update leaves the roster equal to `ApplyDamage` of the old one |
| `Providers.PlayerProvider.Dispatch` | src/hooks/usePlayer.tsx:32-92 | the in-place reducer leaves the roster and returns the hit effect exactly as `Reduce` gives them; a throw leaves the roster unchanged |
| `Providers.PlayerProvider.Attack` | src/hooks/usePlayer.tsx:38-73 | the ATTACK case in place: the owner of the attacker and then the receiver are looked up, either missing is an error that leaves the roster unchanged, otherwise the hit and the roster are those `Reduce` gives |
| `Providers.PlayerProvider.Roll` | src/hooks/usePlayer.tsx:40-73 | the hit effect is the outcome `Classify` gives for the draw against the borders; CRITICAL and ATTACKED apply `ApplyDamage` with the outcome's damage at the located slot, DEFENDED leaves the roster as it was |
| `Providers.PlayerProvider.MoveFighter` | src/hooks/usePlayer.tsx:75-78 | the MOVE case in place: the first fighter with the id gets the new coordinate, a missing one is an error that leaves the roster unchanged, as `Reduce` states |
| `Providers.PlayerProvider.AddVictoryPoint` | src/hooks/usePlayer.tsx:82-87 | the ADD_VICTORY_POINT case in place: the side named by `whichTurn` gains one point, a missing side is an error that leaves the roster unchanged, as `Reduce` states |
| `Providers.PlayerProvider.Move` | src/hooks/usePlayer.tsx:108-111 | a successful MOVE updates the roster as `Reduce` does and then advances the turn by `NextTurn`; a failing MOVE changes neither roster nor turn |

## Left out

- React wiring: contexts, providers, `useContext`, `useReducer` and `useState`
  plumbing, and the errors thrown when a hook is used outside its provider.
  The hooks called from inside the reducer (`useGameInfo`, `useReduceHp`) are
  modelled only by what they compute.
- `Math.random()`: replaced by the parameter `draw`. Lemmas that need its
  range require `0.0 <= draw < 10.0`.
- `setHitEffect` and the rendering of hit effects: the reducer returns the hit
  effect instead. As written, the object the game-info hook returns
  (src/hooks/useGameInfo.tsx:52-66) has no `setHitEffect` key, so the
  destructured `setHitEffect` (src/hooks/usePlayer.tsx:33) is `undefined` and
  the calls at src/hooks/usePlayer.tsx:58, 65 and 72 throw a TypeError in
  every branch, before `reduceHp` runs: every ATTACK that passes the lookups
  throws and leaves the roster unchanged. `Reduce`, `Dispatch`, `Attack` and
  the attack lemmas model the reducer with a hit-effect sink that accepts
  the call and changes nothing.
- React runs a dispatched reducer later, while rendering. `Move` treats
  dispatch as a direct call, so a MOVE that throws never reaches
  `switchTurn`.
- immer's draft mechanics beyond "a throw leaves the roster unchanged", and
  lodash's internals. `isEqual` is structural `==` on the datatypes, and
  `includes` is membership in the id sequence.
- The initial roster data and the game's own type files: the datatypes in
  `Domain` carry only the fields the hooks read or write. Numbers are
  integers, except that the attack thresholds are exact rationals.
- `useCurrentTurnPlayer` is `UsePlayer` applied to `whichTurn`. The provider's
  `attack`, `heal` and `addVictoryPoint` are `Dispatch` with the matching
  action. Neither has a member of its own.
- The lookups returned by `useFindFighter` and `useFindTeam`, and
  `useFighter` and `usePlayersFighter`, take the two-element list that
  `useAllPlayers` builds as their argument. When a side is missing, that hook
  throws before any lookup runs (`AllPlayers` fails).
- What the selections mean to the user interface: they are stored values
  only.
