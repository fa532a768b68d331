/**
 * The match engine, simulateGame (card-game-simulator.js:91-227): a bounded
 * turn loop over two fields, two player HP totals, two deck cursors and a
 * mana counter. Each turn deploys greedily, runs one combat pass in speed
 * order, removes dead units and checks the win conditions in a fixed order.
 */
module Engine {
  import opened Cards
  import opened Targeting
  import opened CombatOrder

  const MAX_FIELD_SIZE := 5
  const MAX_TURNS := 20
  const STARTING_HP := 100
  const STARTING_MANA := 4

  datatype Reason = PlayerHp | DeckOut | Timeout

  /** The value simulateGame returns. */
  datatype GameResult = GameResult(winner: int, turn: int, reason: Reason)

  // ----- Deploy phase (card-game-simulator.js:124-153) -----

  /** The units the cards become, in order. */
  function Units(cards: seq<Card>): (us: seq<Unit>)
    ensures |us| == |cards| && forall k :: 0 <= k < |cards| ==> us[k] == NewUnit(cards[k])
  {
    seq(|cards|, k requires 0 <= k < |cards| => NewUnit(cards[k]))
  }

  function TotalCost(cards: seq<Card>): int {
    if cards == [] then 0 else TotalCost(cards[..|cards| - 1]) + cards[|cards| - 1].cost
  }

  /**
   * `field'` and `cursor'` are what one side's deploy loop leaves: the cursor
   * moved forward within the deck, the field gained the units of the cards
   * passed over, in order, within the field size and the turn's mana, and the
   * loop stopped at the end of the deck, on a full field or at the first card
   * that does not fit in the mana left.
   */
  ghost predicate Deployed(field: seq<Unit>, deck: seq<Card>, cursor: nat, mana: int,
                           field': seq<Unit>, cursor': nat) {
    && cursor <= cursor' <= |deck|
    && field' == field + Units(deck[cursor..cursor'])
    && (cursor' > cursor ==> |field'| <= MAX_FIELD_SIZE && TotalCost(deck[cursor..cursor']) <= mana)
    && (cursor' == |deck| || |field'| >= MAX_FIELD_SIZE ||
        TotalCost(deck[cursor..cursor']) + deck[cursor'].cost > mana)
  }

  /**
   * One side's deploy loop. It deploys the next cards of the deck, in order,
   * while the field has an open slot, the deck has a card left and that card
   * still fits in the mana left this turn; it stops at the first card that
   * does not fit.
   */
  method Deploy(field: seq<Unit>, deck: seq<Card>, cursor: nat, mana: int)
    returns (field': seq<Unit>, cursor': nat, manaUsed: int)
    requires cursor <= |deck|
    ensures Deployed(field, deck, cursor, mana, field', cursor')
    ensures manaUsed == TotalCost(deck[cursor..cursor'])
    ensures cursor == |deck| ==> field' == field && cursor' == cursor
  {
    var slotsAvailable := MAX_FIELD_SIZE - |field|;
    var deployed := 0;
    field', cursor', manaUsed := field, cursor, 0;
    while deployed < slotsAvailable && cursor' < |deck| && manaUsed + deck[cursor'].cost <= mana
      invariant cursor <= cursor' <= |deck|
      invariant deployed == cursor' - cursor
      invariant field' == field + Units(deck[cursor..cursor'])
      invariant manaUsed == TotalCost(deck[cursor..cursor'])
      invariant cursor' > cursor ==> |field'| <= MAX_FIELD_SIZE && manaUsed <= mana
    {
      var card := deck[cursor'];
      assert deck[cursor..cursor' + 1] == deck[cursor..cursor'] + [card];
      field' := field' + [NewUnit(card)];
      manaUsed := manaUsed + card.cost;
      deployed := deployed + 1;
      cursor' := cursor' + 1;
    }
  }

  // ----- Combat phase (card-game-simulator.js:160-193) -----

  predicate IsAlive(u: Unit) { u.hp > 0 }

  /** The positions of the units with hp > 0: `filter(e => e.hp > 0)` as positions. */
  function AliveIndices(f: seq<Unit>): seq<nat> {
    Select(f, IsAlive)
  }

  /** Total hp of a field's units. */
  function SumHp(f: seq<Unit>): int {
    if f == [] then 0 else SumHp(f[..|f| - 1]) + f[|f| - 1].hp
  }

  /** The field after the unit at position `t` takes `damage`. */
  function Damage(f: seq<Unit>, t: nat, damage: int): seq<Unit>
    requires t < |f|
  {
    f[t := f[t].(hp := f[t].hp - damage)]
  }

  lemma {:induction false} SumHpDamage(f: seq<Unit>, t: nat, damage: int)
    requires t < |f|
    ensures SumHp(Damage(f, t, damage)) == SumHp(f) - damage
  {
    var g := Damage(f, t, damage);
    assert g[..|g| - 1] == if t == |f| - 1 then f[..|f| - 1] else Damage(f[..|f| - 1], t, damage);
    if t < |f| - 1 {
      SumHpDamage(f[..|f| - 1], t, damage);
    }
  }

  /** Only hp differs between the two fields. */
  ghost predicate SameUnitsButHp(before: seq<Unit>, after: seq<Unit>) {
    |after| == |before| && forall j :: 0 <= j < |before| ==> after[j] == before[j].(hp := after[j].hp)
  }

  /** Both fields and both players' HP at one point of a combat pass. */
  datatype Board = Board(field1: seq<Unit>, field2: seq<Unit>, player1HP: int, player2HP: int)

  /**
   * `enemies'` and `hp'` are what one blow of `attacker` leaves of the side it
   * strikes (card-game-simulator.js:174-192). If some enemy unit has hp > 0,
   * the one the strategy picks among those units, listed in field order, loses
   * the attacker's attack and the enemy player is untouched; otherwise the
   * field is untouched and the enemy player loses the attack.
   */
  ghost predicate Struck(attacker: Unit, enemies: seq<Unit>, hp: int, strategy: string,
                         enemies': seq<Unit>, hp': int) {
    var alive := AliveIndices(enemies);
    if |alive| > 0 then
      && hp' == hp
      && exists k :: 0 <= k < |alive| && StrategyChoice(attacker.attack, Pick(enemies, alive), strategy, k) &&
           enemies' == Damage(enemies, alive[k], attacker.attack)
    else
      enemies' == enemies && hp' == hp - attacker.attack
  }

  /**
   * One unit's attack (card-game-simulator.js:174-192): the blow `Struck`
   * describes, with `hit` naming the enemy unit it landed on, if any.
   */
  method Strike(attacker: Unit, enemies: seq<Unit>, enemyHP: int, strategy: string)
    returns (enemies': seq<Unit>, enemyHP': int, hit: Option<nat>)
    ensures Struck(attacker, enemies, enemyHP, strategy, enemies', enemyHP')
    ensures hit.Some? <==> exists j :: 0 <= j < |enemies| && enemies[j].hp > 0
    ensures hit.Some? ==>
      var t := hit.value;
      && t < |enemies| && enemies[t].hp > 0
      && enemies' == Damage(enemies, t, attacker.attack)
      && enemyHP' == enemyHP
      && exists k :: 0 <= k < |AliveIndices(enemies)| && AliveIndices(enemies)[k] == t &&
           StrategyChoice(attacker.attack, Pick(enemies, AliveIndices(enemies)), strategy, k)
    ensures hit.None? ==> enemies' == enemies && enemyHP' == enemyHP - attacker.attack
    ensures SameUnitsButHp(enemies, enemies')
    ensures SumHp(enemies') + enemyHP' == SumHp(enemies) + enemyHP - attacker.attack
    ensures attacker.attack >= 0 ==> Suffered(enemies, enemyHP, enemies', enemyHP', attacker.attack)
  {
    var alive := AliveIndices(enemies);
    var aliveEnemies := Pick(enemies, alive);
    if |aliveEnemies| > 0 {
      var target := FindTarget(attacker, aliveEnemies, strategy);
      var t := alive[target.value];
      enemies', enemyHP', hit := Damage(enemies, t, attacker.attack), enemyHP, Some(t);
      SumHpDamage(enemies, t, attacker.attack);
    } else {
      enemies', enemyHP', hit := enemies, enemyHP - attacker.attack, None;
    }
  }

  /** A blow lands on one place only: the strategy's choice fixes what it leaves. */
  lemma StruckDeterministic(attacker: Unit, enemies: seq<Unit>, hp: int, strategy: string,
                            enemiesA: seq<Unit>, hpA: int, enemiesB: seq<Unit>, hpB: int)
    requires Struck(attacker, enemies, hp, strategy, enemiesA, hpA)
    requires Struck(attacker, enemies, hp, strategy, enemiesB, hpB)
    ensures enemiesA == enemiesB && hpA == hpB
  {
    var alive := AliveIndices(enemies);
    if |alive| > 0 {
      var ts := Pick(enemies, alive);
      var a :| 0 <= a < |alive| && StrategyChoice(attacker.attack, ts, strategy, a) &&
               enemiesA == Damage(enemies, alive[a], attacker.attack);
      var b :| 0 <= b < |alive| && StrategyChoice(attacker.attack, ts, strategy, b) &&
               enemiesB == Damage(enemies, alive[b], attacker.attack);
      StrategyChoiceUnique(attacker.attack, ts, strategy, a, b);
    }
  }

  /** Every unit's attack is at least 0, so a blow never raises hp. */
  ghost predicate Armed(f: seq<Unit>) {
    forall j :: 0 <= j < |f| ==> f[j].attack >= 0
  }

  /**
   * What one combat pass does to a side that starts it with field `before`
   * and player HP `hp`, facing the field `enemies`: only its units' hp
   * changes, and never upwards; the side loses, in unit hp and player HP
   * together, exactly the attack of every enemy unit that had hp > 0 when the
   * pass began; and its player is hit only when none of its units is left
   * with hp > 0.
   */
  ghost predicate Endured(before: seq<Unit>, hp: int, enemies: seq<Unit>, after: seq<Unit>, hp': int) {
    Suffered(before, hp, after, hp', AliveAttack(enemies))
  }

  /**
   * A side went from `before` and `hp` to `after` and `hp'` by taking blows
   * worth `dealt` in all: only hp changed, and never upwards, and its player
   * was hit only when none of its units had hp > 0 left.
   */
  ghost predicate Suffered(before: seq<Unit>, hp: int, after: seq<Unit>, hp': int, dealt: int) {
    && SameUnitsButHp(before, after)
    && (forall j :: 0 <= j < |before| ==> after[j].hp <= before[j].hp)
    && SumHp(after) + hp' == SumHp(before) + hp - dealt
    && hp' <= hp
    && (hp' < hp ==> forall j :: 0 <= j < |after| ==> after[j].hp <= 0)
  }

  /** One more blow worth `attack`, taken as `Strike` deals it, adds to what a side has suffered. */
  lemma SufferedStep(before: seq<Unit>, hp: int, mid: seq<Unit>, hpMid: int, dealt: int,
                     after: seq<Unit>, hp': int, attack: int)
    requires Suffered(before, hp, mid, hpMid, dealt)
    requires Suffered(mid, hpMid, after, hp', attack)
    ensures Suffered(before, hp, after, hp', dealt + attack)
  {
  }

  /** A blow of a unit whose attack is at least 0 costs the struck side exactly that attack. */
  lemma StruckSuffered(attacker: Unit, enemies: seq<Unit>, hp: int, strategy: string,
                       enemies': seq<Unit>, hp': int)
    requires Struck(attacker, enemies, hp, strategy, enemies', hp') && attacker.attack >= 0
    ensures Suffered(enemies, hp, enemies', hp', attacker.attack)
  {
    var alive := AliveIndices(enemies);
    if |alive| > 0 {
      var k :| 0 <= k < |alive| && StrategyChoice(attacker.attack, Pick(enemies, alive), strategy, k) &&
               enemies' == Damage(enemies, alive[k], attacker.attack);
      SumHpDamage(enemies, alive[k], attacker.attack);
    } else {
      forall j | 0 <= j < |enemies|
        ensures enemies[j].hp <= 0
      {
        if enemies[j].hp > 0 {
          assert IsAlive(enemies[j]);
        }
      }
    }
  }

  /**
   * `b'` is `b` after the combat queue entry `slot` takes its turn
   * (card-game-simulator.js:171-192). The entry's unit is looked up in
   * `field1` and `field2`, the fields as they were when the queue was built:
   * if it had no hp left then, the board is unchanged; otherwise it strikes
   * the other side's current field and player as `Struck` says, with its own
   * side's strategy, and its own side is untouched.
   */
  ghost predicate ActStep(slot: Slot, field1: seq<Unit>, field2: seq<Unit>,
                          strategy1: string, strategy2: string, b: Board, b': Board) {
    && ValidSlot(slot, field1, field2)
    && var unit := UnitAt(slot, field1, field2);
       if unit.hp <= 0 then b' == b
       else if slot.team == 1 then
         && b'.field1 == b.field1 && b'.player1HP == b.player1HP
         && Struck(unit, b.field2, b.player2HP, strategy1, b'.field2, b'.player2HP)
       else
         && b'.field2 == b.field2 && b'.player2HP == b.player2HP
         && Struck(unit, b.field1, b.player1HP, strategy2, b'.field1, b'.player1HP)
  }

  /** The step of one queue entry is fixed by the board it starts from. */
  lemma ActStepDeterministic(slot: Slot, field1: seq<Unit>, field2: seq<Unit>,
                             strategy1: string, strategy2: string, b: Board, bA: Board, bB: Board)
    requires ActStep(slot, field1, field2, strategy1, strategy2, b, bA)
    requires ActStep(slot, field1, field2, strategy1, strategy2, b, bB)
    ensures bA == bB
  {
    var unit := UnitAt(slot, field1, field2);
    if unit.hp > 0 {
      if slot.team == 1 {
        StruckDeterministic(unit, b.field2, b.player2HP, strategy1, bA.field2, bA.player2HP, bB.field2, bB.player2HP);
      } else {
        StruckDeterministic(unit, b.field1, b.player1HP, strategy2, bA.field1, bA.player1HP, bB.field1, bB.player1HP);
      }
    }
  }

  /**
   * Each side suffers exactly the blow the entry deals against it: the unit's
   * attack if the unit is on the other side and had hp > 0 when the queue
   * was built, and nothing otherwise.
   */
  lemma ActStepSuffered(slot: Slot, field1: seq<Unit>, field2: seq<Unit>,
                        strategy1: string, strategy2: string, b: Board, b': Board)
    requires ActStep(slot, field1, field2, strategy1, strategy2, b, b')
    requires Armed(field1) && Armed(field2)
    ensures Suffered(b.field1, b.player1HP, b'.field1, b'.player1HP, Blow(slot, 2, field2))
    ensures Suffered(b.field2, b.player2HP, b'.field2, b'.player2HP, Blow(slot, 1, field1))
  {
    var unit := UnitAt(slot, field1, field2);
    if unit.hp > 0 {
      if slot.team == 1 {
        StruckSuffered(unit, b.field2, b.player2HP, strategy1, b'.field2, b'.player2HP);
      } else {
        StruckSuffered(unit, b.field1, b.player1HP, strategy2, b'.field1, b'.player1HP);
      }
    }
  }

  /**
   * The turn of one entry of the combat queue (card-game-simulator.js:171-192),
   * as `ActStep` describes it.
   */
  method Act(slot: Slot, field1: seq<Unit>, field2: seq<Unit>,
             f1: seq<Unit>, f2: seq<Unit>, hp1: int, hp2: int, strategy1: string, strategy2: string)
    returns (f1': seq<Unit>, f2': seq<Unit>, hp1': int, hp2': int)
    requires ValidSlot(slot, field1, field2)
    requires Armed(field1) && Armed(field2)
    ensures ActStep(slot, field1, field2, strategy1, strategy2, Board(f1, f2, hp1, hp2), Board(f1', f2', hp1', hp2'))
    ensures Suffered(f1, hp1, f1', hp1', Blow(slot, 2, field2))
    ensures Suffered(f2, hp2, f2', hp2', Blow(slot, 1, field1))
    ensures slot.team == 1 ==> f1' == f1 && hp1' == hp1
    ensures slot.team == 2 ==> f2' == f2 && hp2' == hp2
  {
    f1', f2', hp1', hp2' := f1, f2, hp1, hp2;
    var unit := UnitAt(slot, field1, field2);
    if unit.hp <= 0 {
      return;
    }
    var hit;
    if slot.team == 1 {
      f2', hp2', hit := Strike(unit, f2, hp2, strategy1);
    } else {
      f1', hp1', hit := Strike(unit, f1, hp1, strategy2);
    }
  }

  /**
   * The first `n` entries of the combat queue `order` took their turns as
   * `trace` records: `trace` starts at `start`, and entry i takes the board
   * from `trace[i]` to `trace[i + 1]` as `ActStep` says, with the units looked
   * up in `start`'s fields.
   */
  ghost predicate FoughtFirst(order: seq<Slot>, n: nat, start: Board, strategy1: string, strategy2: string,
                              trace: seq<Board>) {
    && n <= |order| && n < |trace| && trace[0] == start
    && forall i :: 0 <= i < n ==>
         ActStep(order[i], start.field1, start.field2, strategy1, strategy2, trace[i], trace[i + 1])
  }

  /** `trace` holds the board before each entry of `order` and after the last one. */
  ghost predicate Fought(order: seq<Slot>, start: Board, strategy1: string, strategy2: string,
                         trace: seq<Board>) {
    |trace| == |order| + 1 && FoughtFirst(order, |order|, start, strategy1, strategy2, trace)
  }

  lemma FoughtFirstExtend(order: seq<Slot>, n: nat, start: Board, strategy1: string, strategy2: string,
                          trace: seq<Board>, b': Board)
    requires FoughtFirst(order, n, start, strategy1, strategy2, trace) && |trace| == n + 1 && n < |order|
    requires ActStep(order[n], start.field1, start.field2, strategy1, strategy2, trace[n], b')
    ensures FoughtFirst(order, n + 1, start, strategy1, strategy2, trace + [b'])
  {
    var t := trace + [b'];
    forall i | 0 <= i < n + 1
      ensures ActStep(order[i], start.field1, start.field2, strategy1, strategy2, t[i], t[i + 1])
    {
      assert t[i] == trace[i];
    }
  }

  /** The queue and the strategies fix the board after each entry. */
  lemma {:induction false} FoughtAgree(order: seq<Slot>, n: nat, start: Board, strategy1: string, strategy2: string,
                                       traceA: seq<Board>, traceB: seq<Board>)
    requires FoughtFirst(order, n, start, strategy1, strategy2, traceA)
    requires FoughtFirst(order, n, start, strategy1, strategy2, traceB)
    ensures traceA[n] == traceB[n]
  {
    if n > 0 {
      FoughtAgree(order, n - 1, start, strategy1, strategy2, traceA, traceB);
      ActStepDeterministic(order[n - 1], start.field1, start.field2, strategy1, strategy2,
                           traceA[n - 1], traceA[n], traceB[n]);
    }
  }

  /** The queue and the strategies fix the whole course of a combat pass. */
  lemma FoughtDeterministic(order: seq<Slot>, start: Board, strategy1: string, strategy2: string,
                            traceA: seq<Board>, traceB: seq<Board>)
    requires Fought(order, start, strategy1, strategy2, traceA)
    requires Fought(order, start, strategy1, strategy2, traceB)
    ensures traceA == traceB
  {
    forall n | 0 <= n <= |order|
      ensures traceA[n] == traceB[n]
    {
      FoughtAgree(order, n, start, strategy1, strategy2, traceA, traceB);
    }
  }

  /** Adds the blows of entry n - 1 to what each side suffered from the entries before it. */
  lemma SufferedBoards(order: seq<Slot>, n: nat, start: Board, b: Board, b': Board)
    requires 0 < n <= |order|
    requires Suffered(start.field1, start.player1HP, b.field1, b.player1HP, Acted(order[..n - 1], 2, start.field2))
    requires Suffered(start.field2, start.player2HP, b.field2, b.player2HP, Acted(order[..n - 1], 1, start.field1))
    requires Suffered(b.field1, b.player1HP, b'.field1, b'.player1HP, Blow(order[n - 1], 2, start.field2))
    requires Suffered(b.field2, b.player2HP, b'.field2, b'.player2HP, Blow(order[n - 1], 1, start.field1))
    ensures Suffered(start.field1, start.player1HP, b'.field1, b'.player1HP, Acted(order[..n], 2, start.field2))
    ensures Suffered(start.field2, start.player2HP, b'.field2, b'.player2HP, Acted(order[..n], 1, start.field1))
  {
    assert order[..n][..n - 1] == order[..n - 1];
    SufferedStep(start.field1, start.player1HP, b.field1, b.player1HP, Acted(order[..n - 1], 2, start.field2),
                 b'.field1, b'.player1HP, Blow(order[n - 1], 2, start.field2));
    SufferedStep(start.field2, start.player2HP, b.field2, b.player2HP, Acted(order[..n - 1], 1, start.field1),
                 b'.field2, b'.player2HP, Blow(order[n - 1], 1, start.field1));
  }

  /** After the first `n` entries, each side has suffered the blows of the other side's entries among them. */
  lemma {:induction false} FoughtSuffered(order: seq<Slot>, n: nat, start: Board, strategy1: string, strategy2: string,
                                          trace: seq<Board>)
    requires FoughtFirst(order, n, start, strategy1, strategy2, trace)
    requires Armed(start.field1) && Armed(start.field2)
    ensures Suffered(start.field1, start.player1HP, trace[n].field1, trace[n].player1HP,
                     Acted(order[..n], 2, start.field2))
    ensures Suffered(start.field2, start.player2HP, trace[n].field2, trace[n].player2HP,
                     Acted(order[..n], 1, start.field1))
  {
    if n > 0 {
      FoughtSuffered(order, n - 1, start, strategy1, strategy2, trace);
      ActStepSuffered(order[n - 1], start.field1, start.field2, strategy1, strategy2, trace[n - 1], trace[n]);
      SufferedBoards(order, n, start, trace[n - 1], trace[n]);
    }
  }

  /**
   * A combat pass in speed order: since killed units still attack, each side
   * loses exactly the attack of every enemy unit that had hp > 0 when combat
   * began, and a player is hit only once its side has no unit with hp > 0.
   */
  lemma FoughtEndured(order: seq<Slot>, start: Board, strategy1: string, strategy2: string, trace: seq<Board>)
    requires Fought(order, start, strategy1, strategy2, trace)
    requires IsCombatOrder(order, start.field1, start.field2)
    requires Armed(start.field1) && Armed(start.field2)
    ensures Endured(start.field1, start.player1HP, start.field2, trace[|order|].field1, trace[|order|].player1HP)
    ensures Endured(start.field2, start.player2HP, start.field1, trace[|order|].field2, trace[|order|].player2HP)
  {
    FoughtSuffered(order, |order|, start, strategy1, strategy2, trace);
    assert order[..|order|] == order;
    ActedOverOrder(order, start.field1, start.field2);
  }

  /**
   * The combat pass (card-game-simulator.js:160-193): every entry of the
   * queue takes its turn in order, as `Fought` records in `trace`. The queue
   * holds copies of the units taken when it is built, so the dead-unit check
   * reads each unit's hp as it was before the pass and never fires for a unit
   * killed earlier in the pass: that unit still attacks.
   */
  method CombatPhase(field1: seq<Unit>, field2: seq<Unit>, player1HP: int, player2HP: int,
                     order: seq<Slot>, strategy1: string, strategy2: string)
    returns (f1: seq<Unit>, f2: seq<Unit>, hp1: int, hp2: int, ghost trace: seq<Board>)
    requires IsCombatOrder(order, field1, field2)
    requires Armed(field1) && Armed(field2)
    ensures Fought(order, Board(field1, field2, player1HP, player2HP), strategy1, strategy2, trace)
    ensures trace[|order|] == Board(f1, f2, hp1, hp2)
    ensures Endured(field1, player1HP, field2, f1, hp1)
    ensures Endured(field2, player2HP, field1, f2, hp2)
    ensures |field2| == 0 ==> f1 == field1 && hp1 == player1HP
    ensures |field1| == 0 ==> f2 == field2 && hp2 == player2HP
  {
    OrderSlotsValid(order, field1, field2);
    ghost var start := Board(field1, field2, player1HP, player2HP);
    f1, f2, hp1, hp2 := field1, field2, player1HP, player2HP;
    trace := [start];
    for i := 0 to |order|
      invariant |trace| == i + 1 && FoughtFirst(order, i, start, strategy1, strategy2, trace)
      invariant trace[i] == Board(f1, f2, hp1, hp2)
    {
      assert ValidSlot(order[i], field1, field2);
      f1, f2, hp1, hp2 := Act(order[i], field1, field2, f1, f2, hp1, hp2, strategy1, strategy2);
      FoughtFirstExtend(order, i, start, strategy1, strategy2, trace, Board(f1, f2, hp1, hp2));
      trace := trace + [Board(f1, f2, hp1, hp2)];
    }
    FoughtEndured(order, start, strategy1, strategy2, trace);
    if |field2| == 0 {
      Unopposed(field1, player1HP, f1, hp1);
    }
    if |field1| == 0 {
      Unopposed(field2, player2HP, f2, hp2);
    }
  }

  // ----- Cleanup (card-game-simulator.js:195-197) -----

  /**
   * The units with hp > 0, in field order: the units at the alive positions,
   * listed in increasing position order.
   */
  function Survivors(f: seq<Unit>): (r: seq<Unit>)
    ensures |r| == |AliveIndices(f)| <= |f|
    ensures forall k :: 0 <= k < |r| ==> r[k] == f[AliveIndices(f)[k]] && r[k].hp > 0
    ensures forall j :: 0 <= j < |f| && f[j].hp > 0 ==> f[j] in r
    ensures (forall j :: 0 <= j < |f| ==> f[j].hp > 0) ==> r == f
  {
    var alive := AliveIndices(f);
    var r := Pick(f, alive);
    assert forall j :: 0 <= j < |f| && f[j].hp > 0 ==> f[j] in r by {
      forall j | 0 <= j < |f| && f[j].hp > 0
        ensures f[j] in r
      {
        assert IsAlive(f[j]);
        var k :| 0 <= k < |alive| && alive[k] == j;
        assert r[k] == f[j];
      }
    }
    r
  }

  // ----- Win conditions (card-game-simulator.js:199-226) -----

  /** A side that has no unit on its field and no card left to draw. */
  predicate DeckedOut(field: seq<Unit>, cursor: int, deckLength: int) {
    |field| == 0 && cursor >= deckLength
  }

  /**
   * The end-of-turn check. Losing all HP beats decking out, side 2's loss is
   * looked at first (so when both players are at or below 0 HP, player 1 wins),
   * and side 2's deck-out before side 1's.
   */
  function CheckWin(turn: int, player1HP: int, player2HP: int,
                    field1: seq<Unit>, field2: seq<Unit>,
                    cursor1: int, cursor2: int, deckLength1: int, deckLength2: int)
    : (r: Option<GameResult>)
    ensures r.None? <==>
      player1HP > 0 && player2HP > 0 &&
      !DeckedOut(field1, cursor1, deckLength1) && !DeckedOut(field2, cursor2, deckLength2)
    ensures r.Some? ==>
      && r.value.turn == turn
      && (r.value.winner == 1 || r.value.winner == 2)
      && (r.value.reason == PlayerHp <==> player1HP <= 0 || player2HP <= 0)
      && (r.value.reason == PlayerHp || r.value.reason == DeckOut)
    ensures r.Some? && r.value.winner == 1 ==>
      player2HP <= 0 || (player1HP > 0 && DeckedOut(field2, cursor2, deckLength2))
    ensures r.Some? && r.value.winner == 2 ==>
      player2HP > 0 && (player1HP <= 0 || (DeckedOut(field1, cursor1, deckLength1) && !DeckedOut(field2, cursor2, deckLength2)))
  {
    if player2HP <= 0 then Some(GameResult(1, turn, PlayerHp))
    else if player1HP <= 0 then Some(GameResult(2, turn, PlayerHp))
    else if DeckedOut(field2, cursor2, deckLength2) then Some(GameResult(1, turn, DeckOut))
    else if DeckedOut(field1, cursor1, deckLength1) then Some(GameResult(2, turn, DeckOut))
    else None
  }

  /** After the last turn the player with strictly more HP wins; a tie goes to player 2. */
  function TimeoutResult(player1HP: int, player2HP: int): (r: GameResult)
    ensures r.turn == MAX_TURNS && r.reason == Timeout
    ensures r.winner == 1 || r.winner == 2
    ensures r.winner == 1 <==> player1HP > player2HP
  {
    GameResult(if player1HP > player2HP then 1 else 2, MAX_TURNS, Timeout)
  }

  // ----- The match (card-game-simulator.js:91-227) -----

  ghost predicate AllAlive(f: seq<Unit>) {
    forall j :: 0 <= j < |f| ==> f[j].hp > 0
  }

  ghost predicate AllPlayable(deck: seq<Card>) {
    forall i :: 0 <= i < |deck| ==> Playable(deck[i])
  }

  /** Freshly deployed units of a playable deck are alive and armed. */
  lemma DeployedAlive(field: seq<Unit>, deck: seq<Card>, from: nat, to: nat)
    requires from <= to <= |deck|
    requires AllAlive(field) && Armed(field) && AllPlayable(deck)
    ensures AllAlive(field + Units(deck[from..to])) && Armed(field + Units(deck[from..to]))
  {
    var g := field + Units(deck[from..to]);
    forall j | 0 <= j < |g|
      ensures g[j].hp > 0 && g[j].attack >= 0
    {
      if j >= |field| {
        assert g[j] == NewUnit(deck[from + j - |field|]);
      }
    }
  }

  /** The state simulateGame keeps in local variables between turns (mana is kept apart). */
  datatype MatchState = MatchState(field1: seq<Unit>, field2: seq<Unit>,
                                   player1HP: int, player2HP: int,
                                   deckIndex1: nat, deckIndex2: nat)

  /** What holds of the state at the start of every turn. */
  ghost predicate ValidState(s: MatchState, deck1: seq<Card>, deck2: seq<Card>) {
    && |s.field1| <= MAX_FIELD_SIZE && |s.field2| <= MAX_FIELD_SIZE
    && s.deckIndex1 <= |deck1| && s.deckIndex2 <= |deck2|
    && AllAlive(s.field1) && AllAlive(s.field2)
    && Armed(s.field1) && Armed(s.field2)
  }

  ghost predicate DeckedOut1(s: MatchState, deck1: seq<Card>) {
    DeckedOut(s.field1, s.deckIndex1, |deck1|)
  }

  ghost predicate DeckedOut2(s: MatchState, deck2: seq<Card>) {
    DeckedOut(s.field2, s.deckIndex2, |deck2|)
  }

  /** Cleanup after a combat pass leaves a field that fits, is alive and is armed. */
  lemma SurvivorsValid(before: seq<Unit>, after: seq<Unit>)
    requires SameUnitsButHp(before, after) && Armed(before) && |before| <= MAX_FIELD_SIZE
    ensures |Survivors(after)| <= MAX_FIELD_SIZE
    ensures AllAlive(Survivors(after)) && Armed(Survivors(after))
  {
    var r := Survivors(after);
    forall k | 0 <= k < |r|
      ensures r[k].attack >= 0
    {
      assert r[k] == after[AliveIndices(after)[k]];
    }
  }

  /**
   * One turn as it unfolds: the fields after deploy, the combat queue, the
   * board before each of its entries and after the last, and the fields after
   * combat.
   */
  datatype TurnLog = TurnLog(deployed1: seq<Unit>, deployed2: seq<Unit>,
                             order: seq<Slot>, combat: seq<Board>,
                             fought1: seq<Unit>, fought2: seq<Unit>)

  /**
   * `s'` is the state after the deploy, combat and cleanup phases of turn
   * `turn`, played from `s` with `mana`, and `log` holds what happened in
   * between: both sides deploy, every deployed unit is alive, the combat
   * queue is the schedule's order of the deployed units for this turn, every
   * entry of the queue takes its turn as `Fought` says with the sides'
   * strategies, the board it ends on holds the fields after combat and the
   * new HP, and the fields that go on are the survivors.
   */
  ghost predicate TurnStep(s: MatchState, log: TurnLog, s': MatchState, turn: nat, mana: int,
                           deck1: seq<Card>, deck2: seq<Card>,
                           strategy1: string, strategy2: string, schedule: Schedule) {
    && Deployed(s.field1, deck1, s.deckIndex1, mana, log.deployed1, s'.deckIndex1)
    && Deployed(s.field2, deck2, s.deckIndex2, mana, log.deployed2, s'.deckIndex2)
    && AllAlive(log.deployed1) && AllAlive(log.deployed2)
    && log.order == schedule(turn, log.deployed1, log.deployed2)
    && IsCombatOrder(log.order, log.deployed1, log.deployed2)
    && Fought(log.order, Board(log.deployed1, log.deployed2, s.player1HP, s.player2HP),
              strategy1, strategy2, log.combat)
    && log.combat[|log.order|] == Board(log.fought1, log.fought2, s'.player1HP, s'.player2HP)
    && s'.field1 == Survivors(log.fought1) && s'.field2 == Survivors(log.fought2)
  }

  /**
   * Blows that only lower hp lower the field's total hp, and leave it the same
   * only when they changed nothing.
   */
  lemma {:induction false} SumHpLower(before: seq<Unit>, after: seq<Unit>)
    requires SameUnitsButHp(before, after)
    requires forall j :: 0 <= j < |before| ==> after[j].hp <= before[j].hp
    ensures SumHp(after) <= SumHp(before)
    ensures SumHp(after) == SumHp(before) ==> after == before
  {
    if before != [] {
      var n := |before|;
      SumHpLower(before[..n - 1], after[..n - 1]);
      if SumHp(after) == SumHp(before) {
        assert after[n - 1] == before[n - 1];
        assert after == after[..n - 1] + [after[n - 1]];
        assert before == before[..n - 1] + [before[n - 1]];
      }
    }
  }

  /** A side facing no enemy unit comes out of combat untouched. */
  lemma Unopposed(before: seq<Unit>, hp: int, after: seq<Unit>, hp': int)
    requires Endured(before, hp, [], after, hp')
    ensures after == before && hp' == hp
  {
    SumHpLower(before, after);
  }

  /**
   * In every turn each side loses, in unit hp and player HP together, the
   * attack of every enemy unit deployed for that turn, and its player is hit
   * only when its own side has no unit with hp > 0 left.
   */
  lemma TurnStepEndured(s: MatchState, log: TurnLog, s': MatchState, turn: nat, mana: int,
                        deck1: seq<Card>, deck2: seq<Card>,
                        strategy1: string, strategy2: string, schedule: Schedule)
    requires ValidState(s, deck1, deck2) && AllPlayable(deck1) && AllPlayable(deck2)
    requires TurnStep(s, log, s', turn, mana, deck1, deck2, strategy1, strategy2, schedule)
    ensures Armed(log.deployed1) && Armed(log.deployed2)
    ensures Endured(log.deployed1, s.player1HP, log.deployed2, log.fought1, s'.player1HP)
    ensures Endured(log.deployed2, s.player2HP, log.deployed1, log.fought2, s'.player2HP)
  {
    DeployedAlive(s.field1, deck1, s.deckIndex1, s'.deckIndex1);
    DeployedAlive(s.field2, deck2, s.deckIndex2, s'.deckIndex2);
    FoughtEndured(log.order, Board(log.deployed1, log.deployed2, s.player1HP, s.player2HP),
                  strategy1, strategy2, log.combat);
  }

  /** A turn keeps the state valid: fields fit, hold live and armed units, and cursors stay in the decks. */
  lemma TurnStepValid(s: MatchState, log: TurnLog, s': MatchState, turn: nat, mana: int,
                      deck1: seq<Card>, deck2: seq<Card>,
                      strategy1: string, strategy2: string, schedule: Schedule)
    requires ValidState(s, deck1, deck2) && AllPlayable(deck1) && AllPlayable(deck2)
    requires TurnStep(s, log, s', turn, mana, deck1, deck2, strategy1, strategy2, schedule)
    ensures ValidState(s', deck1, deck2)
  {
    TurnStepEndured(s, log, s', turn, mana, deck1, deck2, strategy1, strategy2, schedule);
    SurvivorsValid(log.deployed1, log.fought1);
    SurvivorsValid(log.deployed2, log.fought2);
  }

  /**
   * A side that starts a turn with no unit and no card deploys nothing and
   * deals nothing: it ends the turn decked out and the other player keeps its
   * HP. If the other side was not decked out, its units all survive, so it is
   * still not decked out.
   */
  lemma TurnStepDeckedOut(s: MatchState, log: TurnLog, s': MatchState, turn: nat, mana: int,
                          deck1: seq<Card>, deck2: seq<Card>,
                          strategy1: string, strategy2: string, schedule: Schedule)
    requires ValidState(s, deck1, deck2) && AllPlayable(deck1) && AllPlayable(deck2)
    requires TurnStep(s, log, s', turn, mana, deck1, deck2, strategy1, strategy2, schedule)
    ensures DeckedOut2(s, deck2) ==> DeckedOut2(s', deck2) && s'.player1HP == s.player1HP
    ensures DeckedOut1(s, deck1) ==> DeckedOut1(s', deck1) && s'.player2HP == s.player2HP
    ensures DeckedOut1(s, deck1) && !DeckedOut2(s, deck2) ==> !DeckedOut2(s', deck2)
  {
    TurnStepEndured(s, log, s', turn, mana, deck1, deck2, strategy1, strategy2, schedule);
    if DeckedOut2(s, deck2) {
      assert log.deployed2 == s.field2 + Units(deck2[s.deckIndex2..s'.deckIndex2]);
      assert log.deployed2 == [];
      Unopposed(log.deployed1, s.player1HP, log.fought1, s'.player1HP);
    }
    if DeckedOut1(s, deck1) {
      assert log.deployed1 == s.field1 + Units(deck1[s.deckIndex1..s'.deckIndex1]);
      assert log.deployed1 == [];
      Unopposed(log.deployed2, s.player2HP, log.fought2, s'.player2HP);
      if !DeckedOut2(s, deck2) {
        StillArmed(s, log, s', deck2);
      }
    }
  }

  /** A side that was not decked out and fought unopposed still has a unit or a card left. */
  lemma StillArmed(s: MatchState, log: TurnLog, s': MatchState, deck2: seq<Card>)
    requires s.deckIndex2 <= s'.deckIndex2 <= |deck2|
    requires log.deployed2 == s.field2 + Units(deck2[s.deckIndex2..s'.deckIndex2])
    requires log.fought2 == log.deployed2 && s'.field2 == Survivors(log.fought2) && AllAlive(log.deployed2)
    requires !DeckedOut2(s, deck2)
    ensures !DeckedOut2(s', deck2)
  {
    if s'.deckIndex2 > s.deckIndex2 {
      assert |log.deployed2| >= |Units(deck2[s.deckIndex2..s'.deckIndex2])| > 0;
    }
  }

  /** With costs that are not negative, a longer run of cards costs at least as much as its start. */
  lemma {:induction false} TotalCostPrefix(cards: seq<Card>, n: nat)
    requires n <= |cards|
    requires forall i :: 0 <= i < |cards| ==> cards[i].cost >= 0
    ensures TotalCost(cards[..n]) <= TotalCost(cards)
  {
    if n < |cards| {
      assert cards[..|cards| - 1][..n] == cards[..n];
      TotalCostPrefix(cards[..|cards| - 1], n);
    } else {
      assert cards[..n] == cards;
    }
  }

  /** In a deck of playable cards, the cards up to and including the one at `a` cost no more than a longer run. */
  lemma TotalCostRun(deck: seq<Card>, cursor: nat, a: nat, b: nat)
    requires AllPlayable(deck) && cursor <= a < b <= |deck|
    ensures TotalCost(deck[cursor..a]) + deck[a].cost <= TotalCost(deck[cursor..b])
  {
    var run := deck[cursor..b];
    forall i | 0 <= i < |run|
      ensures run[i].cost >= 0
    {
      assert run[i] == deck[cursor + i] && Playable(deck[cursor + i]);
    }
    TotalCostPrefix(run, a + 1 - cursor);
    var upTo := deck[cursor..a + 1];
    assert run[..a + 1 - cursor] == upTo;
    assert upTo[..|upTo| - 1] == deck[cursor..a] && upTo[|upTo| - 1] == deck[a];
  }

  /**
   * The deploy loop stops at the first card it may not deploy, so no record
   * of it stops earlier than another.
   */
  lemma DeployedNotEarlier(field: seq<Unit>, deck: seq<Card>, cursor: nat, mana: int,
                           fieldA: seq<Unit>, cursorA: nat, fieldB: seq<Unit>, cursorB: nat)
    requires AllPlayable(deck)
    requires Deployed(field, deck, cursor, mana, fieldA, cursorA)
    requires Deployed(field, deck, cursor, mana, fieldB, cursorB)
    ensures cursorB <= cursorA
  {
    if cursorA < cursorB && |fieldA| < MAX_FIELD_SIZE {
      TotalCostRun(deck, cursor, cursorA, cursorB);
    }
  }

  /** For a deck of playable cards, the deploy phase has one outcome. */
  lemma DeployedDeterministic(field: seq<Unit>, deck: seq<Card>, cursor: nat, mana: int,
                              fieldA: seq<Unit>, cursorA: nat, fieldB: seq<Unit>, cursorB: nat)
    requires AllPlayable(deck)
    requires Deployed(field, deck, cursor, mana, fieldA, cursorA)
    requires Deployed(field, deck, cursor, mana, fieldB, cursorB)
    ensures fieldA == fieldB && cursorA == cursorB
  {
    DeployedNotEarlier(field, deck, cursor, mana, fieldA, cursorA, fieldB, cursorB);
    DeployedNotEarlier(field, deck, cursor, mana, fieldB, cursorB, fieldA, cursorA);
  }

  /**
   * A turn has one outcome: the state it starts from, the turn number, the
   * mana, the decks, the strategies and the schedule fix everything it does.
   */
  lemma TurnStepDeterministic(s: MatchState, logA: TurnLog, sA: MatchState, logB: TurnLog, sB: MatchState,
                              turn: nat, mana: int, deck1: seq<Card>, deck2: seq<Card>,
                              strategy1: string, strategy2: string, schedule: Schedule)
    requires AllPlayable(deck1) && AllPlayable(deck2)
    requires TurnStep(s, logA, sA, turn, mana, deck1, deck2, strategy1, strategy2, schedule)
    requires TurnStep(s, logB, sB, turn, mana, deck1, deck2, strategy1, strategy2, schedule)
    ensures logA == logB && sA == sB
  {
    DeployedDeterministic(s.field1, deck1, s.deckIndex1, mana, logA.deployed1, sA.deckIndex1, logB.deployed1, sB.deckIndex1);
    DeployedDeterministic(s.field2, deck2, s.deckIndex2, mana, logA.deployed2, sA.deckIndex2, logB.deployed2, sB.deckIndex2);
    FoughtDeterministic(logA.order, Board(logA.deployed1, logA.deployed2, s.player1HP, s.player2HP),
                        strategy1, strategy2, logA.combat, logB.combat);
  }

  /** Turns played from equal states with the same inputs go the same way. */
  lemma TurnStepsAgree(sA: MatchState, logA: TurnLog, sA': MatchState, sB: MatchState, logB: TurnLog, sB': MatchState,
                       turn: nat, mana: int, deck1: seq<Card>, deck2: seq<Card>,
                       strategy1: string, strategy2: string, schedule: Schedule)
    requires AllPlayable(deck1) && AllPlayable(deck2) && sA == sB
    requires TurnStep(sA, logA, sA', turn, mana, deck1, deck2, strategy1, strategy2, schedule)
    requires TurnStep(sB, logB, sB', turn, mana, deck1, deck2, strategy1, strategy2, schedule)
    ensures logA == logB && sA' == sB'
  {
    TurnStepDeterministic(sA, logA, sA', logB, sB', turn, mana, deck1, deck2, strategy1, strategy2, schedule);
  }

  /** The end-of-turn check on a whole state. */
  function Verdict(turn: int, s: MatchState, deckLength1: int, deckLength2: int): Option<GameResult> {
    CheckWin(turn, s.player1HP, s.player2HP, s.field1, s.field2,
             s.deckIndex1, s.deckIndex2, deckLength1, deckLength2)
  }

  /** The state at the start of the first turn. */
  const INITIAL_STATE := MatchState([], [], STARTING_HP, STARTING_HP, 0, 0)

  /**
   * The deploy, combat and cleanup phases of one turn
   * (card-game-simulator.js:124-197), with what happened in between returned
   * in `log`. The state stays valid. A side that starts the turn with no unit
   * and no card neither deploys nor attacks, so it ends the turn the same way
   * and the other player's HP is untouched; the other side, if it had a unit
   * or a card, still has one.
   */
  method Battle(s: MatchState, turn: nat, mana: int, deck1: seq<Card>, deck2: seq<Card>,
                strategy1: string, strategy2: string, schedule: Schedule)
    returns (s': MatchState, ghost log: TurnLog)
    requires ValidState(s, deck1, deck2) && AllPlayable(deck1) && AllPlayable(deck2)
    requires ValidSchedule(schedule)
    ensures TurnStep(s, log, s', turn, mana, deck1, deck2, strategy1, strategy2, schedule)
    ensures ValidState(s', deck1, deck2)
    ensures DeckedOut2(s, deck2) ==> DeckedOut2(s', deck2) && s'.player1HP == s.player1HP
    ensures DeckedOut1(s, deck1) ==> DeckedOut1(s', deck1) && s'.player2HP == s.player2HP
    ensures DeckedOut1(s, deck1) && !DeckedOut2(s, deck2) ==> !DeckedOut2(s', deck2)
  {
    // Deploy
    var field1, deckIndex1, manaUsed1 := Deploy(s.field1, deck1, s.deckIndex1, mana);
    var field2, deckIndex2, manaUsed2 := Deploy(s.field2, deck2, s.deckIndex2, mana);
    DeployedAlive(s.field1, deck1, s.deckIndex1, deckIndex1);
    DeployedAlive(s.field2, deck2, s.deckIndex2, deckIndex2);

    // Combat
    var order := schedule(turn, field1, field2);
    var f1, f2, player1HP, player2HP, trace :=
      CombatPhase(field1, field2, s.player1HP, s.player2HP, order, strategy1, strategy2);

    // Cleanup
    s' := MatchState(Survivors(f1), Survivors(f2), player1HP, player2HP, deckIndex1, deckIndex2);
    log := TurnLog(field1, field2, order, trace, f1, f2);
    TurnStepValid(s, log, s', turn, mana, deck1, deck2, strategy1, strategy2, schedule);
    TurnStepDeckedOut(s, log, s', turn, mana, deck1, deck2, strategy1, strategy2, schedule);
  }

  /**
   * One turn of the loop at card-game-simulator.js:119-218, up to the mana
   * increment: the phases of `Battle`, then the end-of-turn check on the new
   * state. No outcome means both players have HP left and neither side has
   * decked out; a side that starts the turn with no unit and no card loses
   * this turn, side 2 being looked at first.
   */
  method PlayTurn(s: MatchState, turn: nat, mana: int, deck1: seq<Card>, deck2: seq<Card>,
                  strategy1: string, strategy2: string, schedule: Schedule)
    returns (s': MatchState, outcome: Option<GameResult>, ghost log: TurnLog)
    requires ValidState(s, deck1, deck2) && AllPlayable(deck1) && AllPlayable(deck2)
    requires ValidSchedule(schedule)
    ensures TurnStep(s, log, s', turn, mana, deck1, deck2, strategy1, strategy2, schedule)
    ensures outcome == Verdict(turn, s', |deck1|, |deck2|)
    ensures ValidState(s', deck1, deck2)
    ensures outcome.None? ==>
      && s'.player1HP > 0 && s'.player2HP > 0
      && !DeckedOut1(s', deck1) && !DeckedOut2(s', deck2)
    ensures DeckedOut2(s, deck2) && s.player1HP > 0 ==>
      outcome.Some? && outcome.value.winner == 1
    ensures DeckedOut1(s, deck1) && !DeckedOut2(s, deck2) && s.player2HP > 0 ==>
      outcome.Some? && outcome.value.winner == 2
  {
    s', log := Battle(s, turn, mana, deck1, deck2, strategy1, strategy2, schedule);
    outcome := Verdict(turn, s', |deck1|, |deck2|);
  }

  /**
   * `states` and `logs` record turns 1 to |logs| of a match between the decks
   * with the strategies and the schedule: `states[t]` is the state after turn
   * t (`states[0]` the one before the first), and turn t + 1 went from
   * `states[t]` to `states[t + 1]` with 4 + t mana, the mana growing by one
   * each turn.
   */
  ghost predicate Played(states: seq<MatchState>, logs: seq<TurnLog>, deck1: seq<Card>, deck2: seq<Card>,
                         strategy1: string, strategy2: string, schedule: Schedule) {
    && |states| == |logs| + 1
    && forall t :: 0 <= t < |logs| ==>
         TurnStep(states[t], logs[t], states[t + 1], t + 1, STARTING_MANA + t, deck1, deck2,
                  strategy1, strategy2, schedule)
  }

  lemma PlayedExtend(states: seq<MatchState>, logs: seq<TurnLog>, deck1: seq<Card>, deck2: seq<Card>,
                     strategy1: string, strategy2: string, schedule: Schedule,
                     log: TurnLog, s': MatchState)
    requires Played(states, logs, deck1, deck2, strategy1, strategy2, schedule)
    requires TurnStep(states[|logs|], log, s', |logs| + 1, STARTING_MANA + |logs|, deck1, deck2,
                      strategy1, strategy2, schedule)
    ensures Played(states + [s'], logs + [log], deck1, deck2, strategy1, strategy2, schedule)
  {
  }

  /**
   * Two records of the same match that agree on the state after turn t agree
   * on what happened in turn t + 1 and on the state after it.
   */
  lemma PlayedAgreeStep(statesA: seq<MatchState>, logsA: seq<TurnLog>,
                        statesB: seq<MatchState>, logsB: seq<TurnLog>,
                        deck1: seq<Card>, deck2: seq<Card>,
                        strategy1: string, strategy2: string, schedule: Schedule, t: nat)
    requires AllPlayable(deck1) && AllPlayable(deck2)
    requires Played(statesA, logsA, deck1, deck2, strategy1, strategy2, schedule)
    requires Played(statesB, logsB, deck1, deck2, strategy1, strategy2, schedule)
    requires t < |logsA| && t < |logsB| && statesA[t] == statesB[t]
    ensures logsA[t] == logsB[t] && statesA[t + 1] == statesB[t + 1]
  {
    TurnStepsAgree(statesA[t], logsA[t], statesA[t + 1], statesB[t], logsB[t], statesB[t + 1],
                   t + 1, STARTING_MANA + t, deck1, deck2, strategy1, strategy2, schedule);
  }

  /** Two records of the same match from the same start agree on the state after every turn both cover. */
  lemma {:induction false} PlayedAgree(statesA: seq<MatchState>, logsA: seq<TurnLog>,
                                       statesB: seq<MatchState>, logsB: seq<TurnLog>,
                                       deck1: seq<Card>, deck2: seq<Card>,
                                       strategy1: string, strategy2: string, schedule: Schedule, n: nat)
    requires AllPlayable(deck1) && AllPlayable(deck2)
    requires Played(statesA, logsA, deck1, deck2, strategy1, strategy2, schedule)
    requires Played(statesB, logsB, deck1, deck2, strategy1, strategy2, schedule)
    requires statesA[0] == statesB[0] && n <= |logsA| && n <= |logsB|
    ensures statesA[n] == statesB[n]
  {
    if n > 0 {
      PlayedAgree(statesA, logsA, statesB, logsB, deck1, deck2, strategy1, strategy2, schedule, n - 1);
      PlayedAgreeStep(statesA, logsA, statesB, logsB, deck1, deck2, strategy1, strategy2, schedule, n - 1);
    }
  }

  /** Two records of the same match that agree on the states also agree on what happened within each turn. */
  lemma PlayedLogsAgree(statesA: seq<MatchState>, logsA: seq<TurnLog>,
                        statesB: seq<MatchState>, logsB: seq<TurnLog>,
                        deck1: seq<Card>, deck2: seq<Card>,
                        strategy1: string, strategy2: string, schedule: Schedule)
    requires AllPlayable(deck1) && AllPlayable(deck2)
    requires Played(statesA, logsA, deck1, deck2, strategy1, strategy2, schedule)
    requires Played(statesB, logsB, deck1, deck2, strategy1, strategy2, schedule)
    requires statesA == statesB
    ensures logsA == logsB
  {
    forall t | 0 <= t < |logsA|
      ensures logsA[t] == logsB[t]
    {
      PlayedAgreeStep(statesA, logsA, statesB, logsB, deck1, deck2, strategy1, strategy2, schedule, t);
    }
  }

  /** The end-of-turn check found nothing after any of the turns `states` records. */
  ghost predicate Undecided(states: seq<MatchState>, deckLength1: int, deckLength2: int) {
    forall t :: 1 <= t < |states| ==> Verdict(t, states[t], deckLength1, deckLength2).None?
  }

  lemma UndecidedExtend(states: seq<MatchState>, deckLength1: int, deckLength2: int, s': MatchState)
    requires Undecided(states, deckLength1, deckLength2)
    requires Verdict(|states|, s', deckLength1, deckLength2).None?
    ensures Undecided(states + [s'], deckLength1, deckLength2)
  {
  }

  /**
   * `r` is the result of a match between the two configurations under
   * `schedule`, as recorded by `states` and `logs`: the decks are built from
   * catalog names, the record starts from the initial state and covers turns
   * 1 to `r.turn` (at most MAX_TURNS), no turn before the last ends the game,
   * and the last either ends it with the end-of-turn check's result or is
   * turn MAX_TURNS, which then ends it by the timeout rule.
   */
  ghost predicate GameRecord(config1: DeckConfig, config2: DeckConfig, schedule: Schedule,
                             r: GameResult, states: seq<MatchState>, logs: seq<TurnLog>) {
    && InCatalog(config1.cards) && InCatalog(config2.cards)
    && 1 <= r.turn <= MAX_TURNS
    && Played(states, logs, BuildDeck(config1.cards, config1.flavor), BuildDeck(config2.cards, config2.flavor),
              config1.strategy, config2.strategy, schedule)
    && |logs| == r.turn && states[0] == INITIAL_STATE
    && Undecided(states[..r.turn], |config1.cards|, |config2.cards|)
    && (r.reason != Timeout ==> Verdict(r.turn, states[r.turn], |config1.cards|, |config2.cards|) == Some(r))
    && (r.reason == Timeout ==>
         && r.turn == MAX_TURNS
         && Verdict(MAX_TURNS, states[MAX_TURNS], |config1.cards|, |config2.cards|).None?
         && r == TimeoutResult(states[MAX_TURNS].player1HP, states[MAX_TURNS].player2HP))
  }

  /** `r` is a possible result of simulateGame for these inputs. */
  ghost predicate IsGameResult(config1: DeckConfig, config2: DeckConfig, schedule: Schedule, r: GameResult) {
    exists states, logs :: GameRecord(config1, config2, schedule, r, states, logs)
  }

  /** A record of a game that ends before turn `t` was decided at a turn that another record shows undecided. */
  lemma GameNotShorter(config1: DeckConfig, config2: DeckConfig, schedule: Schedule,
                       rA: GameResult, statesA: seq<MatchState>, logsA: seq<TurnLog>,
                       rB: GameResult, statesB: seq<MatchState>, logsB: seq<TurnLog>)
    requires GameRecord(config1, config2, schedule, rA, statesA, logsA)
    requires GameRecord(config1, config2, schedule, rB, statesB, logsB)
    ensures rB.turn <= rA.turn
  {
    var deck1 := BuildDeck(config1.cards, config1.flavor);
    var deck2 := BuildDeck(config2.cards, config2.flavor);
    if rA.turn < rB.turn && rA.reason != Timeout {
      UndecidedAt(statesB, rB.turn, rA.turn, |config1.cards|, |config2.cards|);
      PlayedAgree(statesA, logsA, statesB, logsB, deck1, deck2, config1.strategy, config2.strategy, schedule, rA.turn);
    }
  }

  /**
   * simulateGame has one result for given configurations and schedule: its
   * contract fixes the whole course of the match, so any randomness lies in
   * the schedule alone.
   */
  lemma GameRecordDeterministic(config1: DeckConfig, config2: DeckConfig, schedule: Schedule,
                                rA: GameResult, statesA: seq<MatchState>, logsA: seq<TurnLog>,
                                rB: GameResult, statesB: seq<MatchState>, logsB: seq<TurnLog>)
    requires GameRecord(config1, config2, schedule, rA, statesA, logsA)
    requires GameRecord(config1, config2, schedule, rB, statesB, logsB)
    ensures rA == rB && statesA == statesB && logsA == logsB
  {
    var deck1 := BuildDeck(config1.cards, config1.flavor);
    var deck2 := BuildDeck(config2.cards, config2.flavor);
    GameNotShorter(config1, config2, schedule, rA, statesA, logsA, rB, statesB, logsB);
    GameNotShorter(config1, config2, schedule, rB, statesB, logsB, rA, statesA, logsA);
    var n := rA.turn;
    forall t | 0 <= t <= n
      ensures statesA[t] == statesB[t]
    {
      PlayedAgree(statesA, logsA, statesB, logsB, deck1, deck2, config1.strategy, config2.strategy, schedule, t);
    }
    assert statesA == statesB;
    PlayedLogsAgree(statesA, logsA, statesB, logsB, deck1, deck2, config1.strategy, config2.strategy, schedule);
  }

  /** Results of simulateGame with the same inputs are equal. */
  lemma GameResultUnique(config1: DeckConfig, config2: DeckConfig, schedule: Schedule, rA: GameResult, rB: GameResult)
    requires IsGameResult(config1, config2, schedule, rA) && IsGameResult(config1, config2, schedule, rB)
    ensures rA == rB
  {
    var statesA, logsA :| GameRecord(config1, config2, schedule, rA, statesA, logsA);
    var statesB, logsB :| GameRecord(config1, config2, schedule, rB, statesB, logsB);
    GameRecordDeterministic(config1, config2, schedule, rA, statesA, logsA, rB, statesB, logsB);
  }

  /** A record that covers turns 1 to n, none of which ended the game, found nothing after turn t < n. */
  lemma UndecidedAt(states: seq<MatchState>, n: nat, t: nat, deckLength1: int, deckLength2: int)
    requires n <= |states| && 1 <= t < n
    requires Undecided(states[..n], deckLength1, deckLength2)
    ensures Verdict(t, states[t], deckLength1, deckLength2).None?
  {
    assert states[..n][t] == states[t];
  }

  /**
   * Every result of simulateGame names a side as the winner, and a side with
   * an empty deck loses on the first turn, side 2's empty deck being looked
   * at first: the first turn leaves it decked out while the other player
   * keeps all its HP.
   */
  lemma GameRecordFacts(config1: DeckConfig, config2: DeckConfig, schedule: Schedule,
                        r: GameResult, states: seq<MatchState>, logs: seq<TurnLog>)
    requires GameRecord(config1, config2, schedule, r, states, logs)
    ensures r.winner == 1 || r.winner == 2
    ensures |config2.cards| == 0 ==> r.winner == 1 && r.turn == 1
    ensures |config1.cards| == 0 && |config2.cards| > 0 ==> r.winner == 2 && r.turn == 1
  {
    var deck1 := BuildDeck(config1.cards, config1.flavor);
    var deck2 := BuildDeck(config2.cards, config2.flavor);
    var len1, len2 := |config1.cards|, |config2.cards|;
    TurnStepDeckedOut(states[0], logs[0], states[1], 1, STARTING_MANA + 0, deck1, deck2,
                      config1.strategy, config2.strategy, schedule);
    if (len2 == 0 || len1 == 0) && r.turn > 1 {
      UndecidedAt(states, r.turn, 1, len1, len2);
    }
  }

  /** What `GameRecordFacts` states, for every result simulateGame may return. */
  lemma GameResultFacts(config1: DeckConfig, config2: DeckConfig, schedule: Schedule, r: GameResult)
    requires IsGameResult(config1, config2, schedule, r)
    ensures r.winner == 1 || r.winner == 2
    ensures 1 <= r.turn <= MAX_TURNS
    ensures |config2.cards| == 0 ==> r.winner == 1 && r.turn == 1
    ensures |config1.cards| == 0 && |config2.cards| > 0 ==> r.winner == 2 && r.turn == 1
  {
    var states, logs :| GameRecord(config1, config2, schedule, r, states, logs);
    GameRecordFacts(config1, config2, schedule, r, states, logs);
  }

  /**
   * One pass of the turn loop body: play turn `turn` with its mana and record
   * it, extending the record of the turns before it.
   */
  method NextTurn(s: MatchState, turn: nat, mana: int, deck1: seq<Card>, deck2: seq<Card>,
                  strategy1: string, strategy2: string, schedule: Schedule,
                  ghost states: seq<MatchState>, ghost logs: seq<TurnLog>)
    returns (s': MatchState, outcome: Option<GameResult>, ghost states': seq<MatchState>, ghost logs': seq<TurnLog>)
    requires ValidState(s, deck1, deck2) && AllPlayable(deck1) && AllPlayable(deck2)
    requires ValidSchedule(schedule)
    requires Played(states, logs, deck1, deck2, strategy1, strategy2, schedule) && |logs| == turn - 1 && states[|logs|] == s
    requires mana == STARTING_MANA + turn - 1
    ensures Played(states', logs', deck1, deck2, strategy1, strategy2, schedule) && states' == states + [s'] && |logs'| == turn
    ensures outcome == Verdict(turn, s', |deck1|, |deck2|)
    ensures ValidState(s', deck1, deck2)
    ensures outcome.None? ==> s'.player1HP > 0 && s'.player2HP > 0
    ensures DeckedOut2(s, deck2) && s.player1HP > 0 ==>
      outcome.Some? && outcome.value.winner == 1
    ensures DeckedOut1(s, deck1) && !DeckedOut2(s, deck2) && s.player2HP > 0 ==>
      outcome.Some? && outcome.value.winner == 2
  {
    ghost var log;
    s', outcome, log := PlayTurn(s, turn, mana, deck1, deck2, strategy1, strategy2, schedule);
    PlayedExtend(states, logs, deck1, deck2, strategy1, strategy2, schedule, log, s');
    states', logs' := states + [s'], logs + [log];
  }

  /**
   * simulateGame. `schedule` supplies each turn's combat queue, standing for
   * the random tie-break among equal speeds. `states[t]` is the state after
   * turn t (`states[0]` the initial one) and `logs[t]` the record of turn
   * t + 1, played with 3 + (t + 1) mana; the game goes on while the
   * end-of-turn check finds nothing and ends with the first result it finds,
   * or after MAX_TURNS turns with the timeout rule. Hence the winner is a
   * side, the game ends within MAX_TURNS turns, and a side with an empty deck
   * loses on the first turn, side 2's empty deck first.
   */
  method SimulateGame(config1: DeckConfig, config2: DeckConfig, schedule: Schedule)
    returns (r: GameResult, ghost states: seq<MatchState>, ghost logs: seq<TurnLog>)
    requires InCatalog(config1.cards) && InCatalog(config2.cards)
    requires ValidSchedule(schedule)
    ensures GameRecord(config1, config2, schedule, r, states, logs)
    ensures r.winner == 1 || r.winner == 2
    ensures 1 <= r.turn <= MAX_TURNS
    ensures |config2.cards| == 0 ==> r.winner == 1 && r.turn == 1
    ensures |config1.cards| == 0 && |config2.cards| > 0 ==> r.winner == 2 && r.turn == 1
  {
    var deck1 := BuildDeck(config1.cards, config1.flavor);
    var deck2 := BuildDeck(config2.cards, config2.flavor);
    var state := INITIAL_STATE;
    var mana := STARTING_MANA;
    var turn := 1;
    states, logs := [state], [];
    while turn <= MAX_TURNS
      invariant 1 <= turn <= MAX_TURNS + 1
      invariant mana == STARTING_MANA + turn - 1
      invariant ValidState(state, deck1, deck2)
      invariant state.player1HP > 0 && state.player2HP > 0
      invariant |logs| == turn - 1 && Played(states, logs, deck1, deck2, config1.strategy, config2.strategy, schedule)
      invariant states[0] == INITIAL_STATE && states[turn - 1] == state
      invariant Undecided(states, |deck1|, |deck2|)
      invariant turn == 1 ==> state == INITIAL_STATE
      invariant |deck2| == 0 ==> turn == 1
      invariant |deck1| == 0 && |deck2| > 0 ==> turn == 1
    {
      var outcome;
      ghost var before := states;
      state, outcome, states, logs := NextTurn(state, turn, mana, deck1, deck2,
                                               config1.strategy, config2.strategy, schedule, states, logs);
      if outcome.Some? {
        r := outcome.value;
        assert states[..r.turn] == before;
        return;
      }
      UndecidedExtend(before, |deck1|, |deck2|, state);
      mana := mana + 1;
      turn := turn + 1;
    }
    r := TimeoutResult(state.player1HP, state.player2HP);
    assert Undecided(states[..r.turn], |deck1|, |deck2|);
  }
}
