# Deterministic card battle: a verified model of the match engine

This project models the match engine of an auto-battler balance simulator in Dafny. Two decks of catalog cards fight for up to 20 turns. Each deck has a stat-modifier flavor (`speedy`, `hardy`, `angry`) and a targeting strategy (`target-mana`, `kill-shot`, `optimize-damage`). Each turn goes through four phases:

- **Deploy.** Each side spends up to the turn's mana on the next cards of its deck, in deck order, onto a field of at most 5 units.
- **Combat.** Every unit attacks once, fastest first.
- **Cleanup.** Dead units are removed.
- **Win check.** The win conditions are checked in a fixed order. If the game reaches the turn limit, the player with more HP wins.

Two counting loops run many matches and tally wins and turns.

Modules, one per component of `card-game-simulator.js`:

- `Cards` (`cards.dfy`): the catalog `BASE_CARDS`, `applyFlavor` with `Math.round(x * 1.25)` written as `(5x + 2) / 4`, the deck build, and the unit record.
- `Targeting` (`targeting.dfy`): `findTarget`.
  - Each of its three policies is a linear scan that keeps the earlier candidate on a tie.
  - The scan is one method, `ScanBest`.
  - Each policy is specified as "the first eligible candidate with the greatest score". The score is cost, hp, `-(hp - attack)` or `-|hp - attack|`.
- `CombatOrder` (`combat_order.dfy`): the combat queue.
  - The source breaks speed ties with `Math.random`, so the queue is an input, a `Schedule` giving the queue for each turn.
  - The queue must list every unit of both fields exactly once (a multiset equality) and be non-increasing in speed.
  - `SpeedOrder` is one such queue (a stable insertion sort). It shows that the requirement can be met.
- `Engine` (`engine.dfy`): `simulateGame`.
  - `Deploy` is one side's deploy loop.
  - `Strike` is one unit's attack. `Struck` states what one blow does: the strategy's target among the alive enemies loses the attack, or the enemy player does when no enemy unit is alive.
  - `Act` is one entry of the combat queue. `ActStep` states what it does to the board (both fields and both HP totals).
  - `CombatPhase` is the combat loop. It returns, as a ghost output, the board before each queue entry and after the last. `Fought` chains these boards by `ActStep`.
  - `Survivors` is the cleanup filter.
  - `CheckWin` and `TimeoutResult` give the result.
  - `Battle` and `PlayTurn` make up one turn. `TurnStep` relates the state before a turn, the record of the turn and the state after it. The record holds the fields after deploy, the combat queue, the board trace and the fields after combat.
  - `SimulateGame` is the turn loop. It also returns, as ghost outputs, the states after every turn and the record of every turn. `GameRecord` ties the result to that record:
    - every turn is a `TurnStep` with the turn's mana, both sides' strategies and the schedule;
    - no earlier turn ended the game;
    - the result is the first end-of-turn check that found one, or the timeout rule.
  - Determinism lemmas show that these contracts fix everything. One blow, one queue entry, one combat pass, one turn and a whole game each have exactly one outcome for given inputs and schedule (`GameRecordDeterministic`).
- `Trials` (`trials.dfy`): the counting loops of `testMatchup` and `testDeckVsField`.

Behaviours of the code that the model keeps:

- **Killed units still attack.** The combat queue holds copies of the units. The dead-unit check reads the copy's hp from before the pass, so a unit killed earlier in the pass still attacks.
  - The check at card-game-simulator.js:172, commented "Skip dead units", therefore never fires for such a unit during a game. `Act` reads the unit from the fields as they stood when the queue was built, exactly as the code does.
  - `FoughtEndured` proves the consequence: each side loses, in unit hp and player HP together, exactly the total attack of every enemy unit that had hp > 0 when combat began.
- **Damage goes to `hp`.** Damage lowers `hp`. `maxHp` and `currentHp` are set at deployment and never read or changed; `SameUnitsButHp` states that only `hp` moves.
- **Simultaneous lethal goes to player 1.** If both players reach HP ≤ 0 in the same turn, player 1 wins, because player 2's HP is checked first.
- **A timeout tie goes to player 2.**
- **Unrecognised names fall back.** A strategy name other than `target-mana` or `kill-shot` behaves as `optimize-damage`. A flavor name other than the three changes nothing.

The random tie-break is the `Schedule` parameter. Card names outside the catalog are excluded by the precondition `InCatalog`. Catalog stats are positive, and flavors keep them positive. The source's numbers are floating point, but every value here is a small integer, so `int` models them exactly.

## Model

| member | source | states |
|---|---|---|
| `Cards.CatalogWellFormed` | card-game-simulator.js:10-16 | every catalog entry has positive hp, attack, speed and cost |
| `Cards.RoundQuarterUp` | card-game-simulator.js:24 | the result r satisfies r − ½ ≤ 1.25·x < r + ½, which is `Math.round(x * 1.25)` with halves rounded up; it is ≥ x for x ≥ 0 and positive for x > 0 |
| `Cards.ApplyFlavor` | card-game-simulator.js:19-30 | name and cost never change. `speedy` adds 15 to speed only. `hardy` sets hp, and `angry` sets attack, to the half-up rounding of 1.25 times the old value, changing nothing else. Any other flavor returns the card unchanged. Positive stats stay positive |
| `Cards.FlavorIgnoresName` | card-game-simulator.js:19-30 | the flavor's effect does not depend on the card's name |
| `Cards.FlavorNeverWeakens` | card-game-simulator.js:19-30 | for non-negative stats, no flavor lowers hp, attack or speed |
| `Cards.FlavoredCard` | card-game-simulator.js:96-105 | re-setting name and cost after the flavor changes nothing: the deck card equals the flavored catalog card and is playable |
| `Cards.BuildDeck` | card-game-simulator.js:96-105 | one card per name, in order; card i carries name i and that name's catalog cost, is the flavored catalog card, and has positive stats |
| `Targeting.Select` | card-game-simulator.js:46 | the positions whose element passes the filter: each listed position passes, the positions strictly increase, and every passing position is listed |
| `Targeting.FirstBestIsUnique` | card-game-simulator.js:33-88 | at most one position is the first one with the greatest score among the eligible candidates, so each policy determines one target |
| `Targeting.ScanBest` | card-game-simulator.js:38-41 | the scan keeps a candidate only when the next one is strictly better, so it returns the first eligible candidate with the greatest score |
| `Targeting.StrategyChoiceUnique` | card-game-simulator.js:33-88 | every strategy picks at most one position among the candidates |
| `Targeting.FindTarget` | card-game-simulator.js:33-88 | no target exactly when the list is empty. `target-mana` gives the first candidate of greatest cost. `kill-shot` gives the first candidate of greatest hp among those with hp ≤ attack, or among all if none has. Any other strategy minimises hp − attack among those with hp ≥ attack, or else \|hp − attack\| over all, taking the first on ties |
| `CombatOrder.OrderSlotsValid` | card-game-simulator.js:162-168 | a combat queue has one entry per unit of the two fields, and each entry names an existing unit |
| `CombatOrder.ActedPermutation` | card-game-simulator.js:165-168 | the total attack dealt over a queue does not depend on its order |
| `CombatOrder.ActedOverOrder` | card-game-simulator.js:162-172 | over any valid queue, each side deals the total attack of its units that had hp > 0 when the queue was built |
| `CombatOrder.AliveAttackOfLiving` | card-game-simulator.js:172 | when every unit has hp > 0 (as at every start of combat), the dead-unit check excludes nothing |
| `CombatOrder.InsertBySpeedSorts` | card-game-simulator.js:165-166 | inserting one entry into a speed-sorted queue keeps it speed-sorted and adds exactly that entry |
| `CombatOrder.SortBySpeedSorts` | card-game-simulator.js:165-166 | the insertion sort returns a permutation of its input that is non-increasing in speed |
| `CombatOrder.SpeedOrder` | card-game-simulator.js:162-168 | the stable speed order of both fields is a valid combat queue |
| `CombatOrder.SpeedOrderIsValidSchedule` | card-game-simulator.js:162-168 | using the stable speed order on every turn is a valid schedule |
| `Engine.Deploy` | card-game-simulator.js:126-153 | (`Deployed`) the cursor moves forward and stays within the deck. The field gains exactly the units of the next contiguous cards, in order. The mana spent is their total cost and at most the turn's mana. The field stays within 5 units. Deployment stops only at the end of the deck, on a full field, or at the first card that does not fit |
| `Engine.SumHpDamage` | card-game-simulator.js:183 | striking one unit lowers the field's total hp by exactly the damage |
| `Engine.Strike` | card-game-simulator.js:174-192 | (`Struck`) if some enemy has hp > 0, the enemy player is untouched and exactly one enemy is damaged by the attack: the one the strategy picks from the alive enemies, listed in field order. Otherwise the field is unchanged and the enemy player loses the attack. `hit` names the damaged enemy, and exists exactly when an enemy has hp > 0. Only hp changes, and the enemy side loses exactly the attack |
| `Engine.StruckDeterministic` | card-game-simulator.js:174-192 | one blow has exactly one outcome, because the strategy fixes the target |
| `Engine.StruckSuffered` | card-game-simulator.js:174-192 | for an attack ≥ 0, one blow raises no hp, costs the struck side exactly the attack, and hits the player only when no unit of that side has hp > 0 |
| `Engine.Act` | card-game-simulator.js:171-192 | (`ActStep`) one queue entry's turn. The unit is read from the fields as they stood when the queue was built. If it had no hp left then, nothing changes. Otherwise it strikes the other side's current field and player as `Struck` says, with its own side's strategy, and its own side is untouched. Each side suffers exactly that entry's blow against it |
| `Engine.ActStepDeterministic` | card-game-simulator.js:171-192 | one queue entry has exactly one outcome from a given board |
| `Engine.ActStepSuffered` | card-game-simulator.js:171-192 | each side suffers exactly the entry's blow against it: the unit's attack if the unit belongs to the other side and had hp > 0 when the queue was built, otherwise nothing |
| `Engine.FoughtAgree` | card-game-simulator.js:171-193 | two traces of the same queue from the same start agree on the board after each entry |
| `Engine.FoughtDeterministic` | card-game-simulator.js:171-193 | a combat pass has exactly one course for a given queue, start and pair of strategies |
| `Engine.FoughtSuffered` | card-game-simulator.js:171-193 | after the first n entries, each side has suffered exactly the blows of the other side's entries among them whose unit had hp > 0 when the queue was built |
| `Engine.FoughtEndured` | card-game-simulator.js:160-193 | (`Endured`, for each side) over a speed-ordered queue of all units, only hp changes and no hp rises. Each side's unit hp plus player HP drops by exactly the attack of every enemy unit alive at the start of the pass, including enemies killed during the pass. The player loses HP only if, at the end, none of its units has hp > 0 |
| `Engine.CombatPhase` | card-game-simulator.js:160-193 | (`Fought`) the returned trace starts at the fields and HP before the pass. Each queue entry takes the board from one element to the next as `ActStep` says. The last element holds the returned fields and HP. The `Endured` totals hold for each side, and a side facing an empty field takes no damage. Requires every attack ≥ 0 |
| `Engine.SumHpLower` | card-game-simulator.js:183 | blows that only lower hp lower the field's total, and leave the total the same only when nothing changed |
| `Engine.Unopposed` | card-game-simulator.js:177-191 | a side facing no enemy unit comes out of a combat pass exactly as it went in |
| `Engine.Survivors` | card-game-simulator.js:195-197 | exactly the units with hp > 0 remain, in their field order; if all are alive, the field is unchanged |
| `Engine.SurvivorsValid` | card-game-simulator.js:195-197 | after cleanup a field fits in 5 slots, every unit has hp > 0, and every attack is ≥ 0 |
| `Engine.CheckWin` | card-game-simulator.js:199-215 | there is no result exactly when both players have HP left and neither side has decked out. Otherwise the reason is `player-hp` exactly when some HP is ≤ 0. Player 1 wins only when player 2 is at ≤ 0 HP, or when side 2 has decked out while player 1 has HP left. Player 2 wins only when player 2 has HP left, and either player 1 is at ≤ 0 HP or only side 1 has decked out. So simultaneous lethal goes to player 1 |
| `Engine.TimeoutResult` | card-game-simulator.js:220-226 | the result is a timeout on turn 20; player 1 wins exactly when its HP is strictly greater, so a tie goes to player 2 |
| `Engine.DeployedAlive` | card-game-simulator.js:134 | units deployed from a playable deck start with hp > 0 and attack ≥ 0 |
| `Engine.TurnStepValid` | card-game-simulator.js:124-197 | a turn keeps the state valid. Fields hold at most 5 units, all with hp > 0 and attack ≥ 0, and cursors stay within the decks |
| `Engine.TurnStepDeckedOut` | card-game-simulator.js:124-197 | a side that starts a turn with no unit and no card ends it the same way, and the other player keeps its HP. If the other side was not decked out, it still is not |
| `Engine.TurnStepEndured` | card-game-simulator.js:124-193 | in every turn each side suffers the combat pass as `FoughtEndured` states, facing the other side's deployed field |
| `Engine.TotalCostPrefix` | card-game-simulator.js:132 | with costs ≥ 0, a run of cards costs at least as much as any start of it |
| `Engine.DeployedNotEarlier` | card-game-simulator.js:130-138 | the deploy loop stops at the first card it may not deploy, so no stopping point comes after another one |
| `Engine.DeployedDeterministic` | card-game-simulator.js:126-153 | for a deck of playable cards, the deploy phase has exactly one outcome |
| `Engine.TurnStepDeterministic` | card-game-simulator.js:124-197 | a turn has exactly one outcome, its record included. The outcome is fixed by the start state, turn number, mana, decks, strategies and schedule |
| `Engine.Battle` | card-game-simulator.js:124-197 | (`TurnStep`) deploy, combat and cleanup of one turn. Each side deploys as `Deploy` states, from its cursor with this turn's mana, and every deployed unit is alive. The combat queue is the schedule's queue for this turn and the deployed fields, and it is a valid combat order. Every entry takes its turn as `ActStep` states, with side 1's strategy for side 1's units and side 2's for side 2's. The last board gives the fought fields and the new HP totals. The fields that go on are the `Survivors` of the fought fields. The state stays valid, and the deck-out facts of `TurnStepDeckedOut` hold |
| `Engine.PlayTurn` | card-game-simulator.js:119-215 | one turn up to the mana increment. The new state is a `TurnStep` from the old one with this turn's number, mana and strategies, and the outcome is exactly `CheckWin` on the new state. So simultaneous lethal goes to player 1, and the reason is `player-hp` whenever an HP is ≤ 0. A side that starts the turn with no unit and no card loses that turn, side 2 being checked first |
| `Engine.PlayedAgree` | card-game-simulator.js:119-218 | two records of the same match from the same start agree on the state after every turn both cover |
| `Engine.PlayedLogsAgree` | card-game-simulator.js:119-218 | two records that agree on the states also agree on what happened within every turn |
| `Engine.NextTurn` | card-game-simulator.js:119-218 | one pass of the turn loop. The record of the turns played so far grows by the turn just played, as a `TurnStep` with this turn's number, its mana (3 + turn) and both strategies. The outcome is `CheckWin` on the new state |
| `Engine.SimulateGame` | card-game-simulator.js:91-227 | (`GameRecord`) the game starts from empty fields, 100 HP each and cursors at 0. Each turn t is a `TurnStep` with 3 + t mana, the decks built from the configurations, the configurations' strategies and the schedule (`Played`). The end-of-turn check found nothing after turns before the last (`Undecided`). Without a timeout, the result is `CheckWin` on the last turn's state. A timeout happens only on turn 20, with nothing found after it, and applies `TimeoutResult` to that state. Hence the winner is 1 or 2 and the turn is in [1, 20]. An empty deck for side 2 makes player 1 win on turn 1. An empty deck for side 1 alone makes player 2 win on turn 1 |
| `Engine.GameRecordFacts` | card-game-simulator.js:199-226 | every game record names side 1 or 2 as the winner, and a side with an empty deck loses on turn 1, side 2's empty deck being checked first |
| `Engine.GameResultFacts` | card-game-simulator.js:199-226 | the facts of `GameRecordFacts`, plus a turn in [1, 20], for every possible result of a game |
| `Engine.GameNotShorter` | card-game-simulator.js:119-218 | no record of a game ends on a later turn than another record of the same game, because the shorter one's last turn was decided and the longer one has that same state undecided |
| `Engine.GameRecordDeterministic` | card-game-simulator.js:91-227 | a game has exactly one record and one result for given configurations and schedule. Any randomness lies in the schedule alone |
| `Engine.GameResultUnique` | card-game-simulator.js:91-227 | any two possible results of a game with the same inputs are equal |
| `Trials.MatchupTotals` | card-game-simulator.js:236-240 | over matches that simulateGame played, player 1's wins are at most the number of matches. The turn total lies between the number of matches and 20 times it. An empty deck for side 2 means player 1 wins every match in one turn; an empty deck for side 1 alone means it wins none, each in one turn |
| `Trials.TestMatchup` | card-game-simulator.js:232-248 | `games` defaults to 10. `results[i]` is simulateGame's result for the i-th schedule, and there is one result per game played. wins1 is the number of those results that player 1 won, wins2 = games − wins1, and totalTurns is the sum of their turns. Hence 0 ≤ wins1 ≤ games and games ≤ totalTurns ≤ 20·games. A negative count plays no game |
| `Trials.FieldGames` | card-game-simulator.js:255-261 | matchups of n games each hold n games per matchup |
| `Trials.FieldTotals` | card-game-simulator.js:255-261 | over the matchups played, the wins are at most the games. The test deck wins every game against empty decks, and with an empty deck it wins none against decks that have cards |
| `Trials.TestDeckVsField` | card-game-simulator.js:251-268 | `gamesPerMatchup` defaults to 5. `results[k][i]` is simulateGame's result for the test deck against opponent k under that match's schedule, with one row per opponent and one result per game. totalWins is the number of those results the test deck won and totalGames is their number, so totalGames = number of opponents × gamesPerMatchup and 0 ≤ totalWins ≤ totalGames. The test deck wins every game against empty decks, and none with an empty deck against decks that have cards |

## Left out

- Console logging (card-game-simulator.js:120-122, 155-158, 201-214, 221) and the example script (card-game-simulator.js:270-298) only print, so they are not modelled.
- `Math.random` in the speed sort (card-game-simulator.js:167) is replaced by the `Schedule` parameter. A schedule must give, on every turn, a queue that holds each unit of both fields once and is ordered by non-increasing speed. The model therefore assumes that `Array.prototype.sort`, given a comparator that is random on ties, still returns a permutation ordered by speed. The language leaves the order implementation-defined for such a comparator.
- The percentages and averages computed with `toFixed` (card-game-simulator.js:245-246, 266) are floating-point presentation. `TestMatchup` returns the integer counts and the turn total they come from. `TestDeckVsField` returns the win and game counts.
- A card name missing from `BASE_CARDS` would make the source fail on `undefined`. The model excludes it with the precondition `InCatalog`.
- JavaScript numbers are doubles. Every value in a match is a small integer, so the model uses unbounded integers, and `Math.round(x * 1.25)` is modelled exactly by `(5x + 2) / 4`.
- `js/deck-builders.js` holds only static deck data, so it is not part of this model.
- `Engine.CombatPhase`: the precondition that every attack is ≥ 0 holds for every unit of a game, because catalog and flavored stats are positive. It is what keeps a blow from raising hp.
- `Engine.DeployedDeterministic`, `Engine.TurnStepDeterministic` and the lemmas built on them assume every card is playable, which every deck built from the catalog is. With a cost ≤ 0 the stop rule alone would not pin down where deployment stops.
- `Engine.Deploy`: the precondition cursor ≤ deck length is the match's own invariant; the source never reaches the loop otherwise.
- Unit records are values, and the in-place `target.hp -= unit.attack` is a sequence update. `aliveEnemies` is modelled as the positions of the alive units (`AliveIndices`), so the object the strategy picks is the field unit that gets damaged.
