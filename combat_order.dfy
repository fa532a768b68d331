/**
 * The combat queue (card-game-simulator.js:162-168): every unit of both
 * fields, tagged with its side, fastest first. Equal speeds are ordered by
 * `Math.random`, so the model takes the queue as an input and only demands
 * what the sort guarantees: it lists each unit exactly once and never puts a
 * slower unit before a faster one.
 */
module CombatOrder {
  import opened Cards

  /** A unit's entry in the combat queue: its side (1 or 2) and its position on that side's field. */
  datatype Slot = Slot(team: int, index: nat)

  /** The slots of one side's field, in field order. */
  function SlotsOf(team: int, n: nat): (r: seq<Slot>)
    ensures |r| == n
    ensures forall k :: 0 <= k < n ==> r[k] == Slot(team, k)
  {
    if n == 0 then [] else SlotsOf(team, n - 1) + [Slot(team, n - 1)]
  }

  /** One slot per unit of both fields: side 1's, then side 2's. */
  function AllSlots(n1: nat, n2: nat): seq<Slot> {
    SlotsOf(1, n1) + SlotsOf(2, n2)
  }

  predicate ValidSlot(s: Slot, f1: seq<Unit>, f2: seq<Unit>) {
    (s.team == 1 && s.index < |f1|) || (s.team == 2 && s.index < |f2|)
  }

  /** The unit a slot stands for. */
  function UnitAt(s: Slot, f1: seq<Unit>, f2: seq<Unit>): Unit
    requires ValidSlot(s, f1, f2)
  {
    if s.team == 1 then f1[s.index] else f2[s.index]
  }

  function SpeedOf(s: Slot, f1: seq<Unit>, f2: seq<Unit>): int {
    if ValidSlot(s, f1, f2) then UnitAt(s, f1, f2).speed else 0
  }

  ghost predicate SpeedSorted(order: seq<Slot>, f1: seq<Unit>, f2: seq<Unit>) {
    forall i, j :: 0 <= i < j < |order| ==> SpeedOf(order[i], f1, f2) >= SpeedOf(order[j], f1, f2)
  }

  /** `order` is a queue the sort at card-game-simulator.js:165-168 can produce for these fields. */
  ghost predicate IsCombatOrder(order: seq<Slot>, f1: seq<Unit>, f2: seq<Unit>) {
    multiset(order) == multiset(AllSlots(|f1|, |f2|)) && SpeedSorted(order, f1, f2)
  }

  /** The combat queue of every turn of a match: a function of the turn and of the two fields. */
  type Schedule = (nat, seq<Unit>, seq<Unit>) -> seq<Slot>

  ghost predicate ValidSchedule(schedule: Schedule) {
    forall turn, f1, f2 :: IsCombatOrder(schedule(turn, f1, f2), f1, f2)
  }

  lemma {:induction false} InSlotsOf(s: Slot, team: int, n: nat)
    requires s in SlotsOf(team, n)
    ensures s.team == team && s.index < n
  {
    var k :| 0 <= k < n && SlotsOf(team, n)[k] == s;
  }

  /** A combat queue has one valid slot per unit. */
  lemma OrderSlotsValid(order: seq<Slot>, f1: seq<Unit>, f2: seq<Unit>)
    requires IsCombatOrder(order, f1, f2)
    ensures |order| == |f1| + |f2|
    ensures forall i :: 0 <= i < |order| ==> ValidSlot(order[i], f1, f2)
  {
    assert |multiset(order)| == |multiset(AllSlots(|f1|, |f2|))|;
    forall i | 0 <= i < |order|
      ensures ValidSlot(order[i], f1, f2)
    {
      var s := order[i];
      assert s in multiset(order);
      assert s in AllSlots(|f1|, |f2|);
      if s in SlotsOf(1, |f1|) {
        InSlotsOf(s, 1, |f1|);
      } else {
        InSlotsOf(s, 2, |f2|);
      }
    }
  }

  // ----- Sums over the queue -----

  /** The attack one slot of side `team` deals, given that side's field at the start of combat. */
  function Blow(s: Slot, team: int, f: seq<Unit>): int {
    if s.team == team && s.index < |f| && f[s.index].hp > 0 then f[s.index].attack else 0
  }

  /** Total attack dealt by the slots of side `team` in `s` whose unit had hp > 0 at the start. */
  function Acted(s: seq<Slot>, team: int, f: seq<Unit>): int {
    if s == [] then 0 else Acted(s[..|s| - 1], team, f) + Blow(s[|s| - 1], team, f)
  }

  /** Total attack of the units of a field that have hp > 0. */
  function AliveAttack(f: seq<Unit>): int {
    if f == [] then 0
    else AliveAttack(f[..|f| - 1]) + (if f[|f| - 1].hp > 0 then f[|f| - 1].attack else 0)
  }

  /** Total attack of all units of a field. */
  function TotalAttack(f: seq<Unit>): int {
    if f == [] then 0 else TotalAttack(f[..|f| - 1]) + f[|f| - 1].attack
  }

  lemma {:induction false} AliveAttackOfLiving(f: seq<Unit>)
    requires forall j :: 0 <= j < |f| ==> f[j].hp > 0
    ensures AliveAttack(f) == TotalAttack(f)
  {
    if f != [] {
      AliveAttackOfLiving(f[..|f| - 1]);
    }
  }

  lemma {:induction false} ActedConcat(a: seq<Slot>, b: seq<Slot>, team: int, f: seq<Unit>)
    ensures Acted(a + b, team, f) == Acted(a, team, f) + Acted(b, team, f)
  {
    if b != [] {
      assert (a + b)[..|a + b| - 1] == a + b[..|b| - 1];
      ActedConcat(a, b[..|b| - 1], team, f);
    } else {
      assert a + b == a;
    }
  }

  /** The total does not depend on the order of the queue. */
  lemma {:induction false} ActedPermutation(a: seq<Slot>, b: seq<Slot>, team: int, f: seq<Unit>)
    requires multiset(a) == multiset(b)
    ensures Acted(a, team, f) == Acted(b, team, f)
    decreases |a|
  {
    if a == [] {
      assert |multiset(b)| == 0;
    } else {
      var x := a[|a| - 1];
      var a' := a[..|a| - 1];
      assert a == a' + [x];
      assert x in multiset(b);
      var i :| 0 <= i < |b| && b[i] == x;
      var b' := b[..i] + b[i + 1..];
      assert b == b[..i] + [x] + b[i + 1..];
      assert multiset(b) == multiset(b[..i]) + multiset{x} + multiset(b[i + 1..]);
      assert multiset(a) == multiset(a') + multiset{x};
      assert multiset(b') == multiset(b[..i]) + multiset(b[i + 1..]);
      assert multiset(a') == multiset(a) - multiset{x};
      assert multiset(b') == multiset(b) - multiset{x};
      ActedPermutation(a', b', team, f);
      ActedConcat(b[..i], [x], team, f);
      ActedConcat(b[..i] + [x], b[i + 1..], team, f);
      ActedConcat(b[..i], b[i + 1..], team, f);
      assert Acted([x], team, f) == Blow(x, team, f);
    }
  }

  lemma {:induction false} ActedOwnSlots(team: int, n: nat, f: seq<Unit>)
    requires n <= |f|
    ensures Acted(SlotsOf(team, n), team, f) == AliveAttack(f[..n])
  {
    if n > 0 {
      assert SlotsOf(team, n)[..n - 1] == SlotsOf(team, n - 1);
      assert f[..n][..n - 1] == f[..n - 1];
      ActedOwnSlots(team, n - 1, f);
    }
  }

  lemma {:induction false} ActedOtherSlots(team: int, other: int, n: nat, f: seq<Unit>)
    requires team != other
    ensures Acted(SlotsOf(other, n), team, f) == 0
  {
    if n > 0 {
      assert SlotsOf(other, n)[..n - 1] == SlotsOf(other, n - 1);
      ActedOtherSlots(team, other, n - 1, f);
    }
  }

  /** Over a whole combat queue, each side deals the attack of every one of its units alive at the start. */
  lemma ActedOverOrder(order: seq<Slot>, f1: seq<Unit>, f2: seq<Unit>)
    requires IsCombatOrder(order, f1, f2)
    ensures Acted(order, 1, f1) == AliveAttack(f1)
    ensures Acted(order, 2, f2) == AliveAttack(f2)
  {
    var all := AllSlots(|f1|, |f2|);
    ActedPermutation(order, all, 1, f1);
    ActedPermutation(order, all, 2, f2);
    ActedConcat(SlotsOf(1, |f1|), SlotsOf(2, |f2|), 1, f1);
    ActedConcat(SlotsOf(1, |f1|), SlotsOf(2, |f2|), 2, f2);
    ActedOwnSlots(1, |f1|, f1);
    ActedOwnSlots(2, |f2|, f2);
    ActedOtherSlots(1, 2, |f2|, f1);
    ActedOtherSlots(2, 1, |f1|, f2);
    assert f1[..|f1|] == f1;
    assert f2[..|f2|] == f2;
  }

  // ----- A deterministic queue -----

  /** Putting a slot at least as fast as the head of a sorted queue in front keeps it sorted. */
  lemma SortedCons(h: Slot, rest: seq<Slot>, f1: seq<Unit>, f2: seq<Unit>)
    requires SpeedSorted(rest, f1, f2)
    requires rest != [] ==> SpeedOf(rest[0], f1, f2) <= SpeedOf(h, f1, f2)
    ensures SpeedSorted([h] + rest, f1, f2)
  {
    var r := [h] + rest;
    forall i, j | 0 <= i < j < |r|
      ensures SpeedOf(r[i], f1, f2) >= SpeedOf(r[j], f1, f2)
    {
      if i == 0 {
        assert r[j] == rest[j - 1];
        assert SpeedOf(rest[0], f1, f2) >= SpeedOf(rest[j - 1], f1, f2);
      } else {
        assert r[i] == rest[i - 1] && r[j] == rest[j - 1];
      }
    }
  }

  /** Inserts `s` after every slot at least as fast as it (so equal speeds keep their order). */
  function InsertBySpeed(s: Slot, sorted: seq<Slot>, f1: seq<Unit>, f2: seq<Unit>): seq<Slot> {
    if sorted == [] then [s]
    else if SpeedOf(sorted[0], f1, f2) >= SpeedOf(s, f1, f2) then [sorted[0]] + InsertBySpeed(s, sorted[1..], f1, f2)
    else [s] + sorted
  }

  lemma {:induction false} InsertBySpeedSorts(s: Slot, sorted: seq<Slot>, f1: seq<Unit>, f2: seq<Unit>)
    requires SpeedSorted(sorted, f1, f2)
    ensures multiset(InsertBySpeed(s, sorted, f1, f2)) == multiset(sorted) + multiset{s}
    ensures SpeedSorted(InsertBySpeed(s, sorted, f1, f2), f1, f2)
    ensures var r := InsertBySpeed(s, sorted, f1, f2);
      |r| == |sorted| + 1 && (r[0] == s || (sorted != [] && r[0] == sorted[0]))
  {
    if sorted == [] {
    } else if SpeedOf(sorted[0], f1, f2) >= SpeedOf(s, f1, f2) {
      var rest := InsertBySpeed(s, sorted[1..], f1, f2);
      assert sorted == [sorted[0]] + sorted[1..];
      assert SpeedSorted(sorted[1..], f1, f2);
      InsertBySpeedSorts(s, sorted[1..], f1, f2);
      assert |sorted| > 1 ==> SpeedOf(sorted[1], f1, f2) <= SpeedOf(sorted[0], f1, f2);
      SortedCons(sorted[0], rest, f1, f2);
    } else {
      SortedCons(s, sorted, f1, f2);
    }
  }

  /** Insertion sort by speed, fastest first, equal speeds in their original order. */
  function SortBySpeed(s: seq<Slot>, f1: seq<Unit>, f2: seq<Unit>): seq<Slot> {
    if s == [] then [] else InsertBySpeed(s[|s| - 1], SortBySpeed(s[..|s| - 1], f1, f2), f1, f2)
  }

  lemma {:induction false} SortBySpeedSorts(s: seq<Slot>, f1: seq<Unit>, f2: seq<Unit>)
    ensures multiset(SortBySpeed(s, f1, f2)) == multiset(s)
    ensures SpeedSorted(SortBySpeed(s, f1, f2), f1, f2)
  {
    if s != [] {
      assert s == s[..|s| - 1] + [s[|s| - 1]];
      SortBySpeedSorts(s[..|s| - 1], f1, f2);
      InsertBySpeedSorts(s[|s| - 1], SortBySpeed(s[..|s| - 1], f1, f2), f1, f2);
    }
  }

  /**
   * The queue that breaks every speed tie in favour of side 1 and then of field
   * order: one of the queues the source's random tie-break can produce.
   */
  function SpeedOrder(f1: seq<Unit>, f2: seq<Unit>): (order: seq<Slot>)
    ensures IsCombatOrder(order, f1, f2)
  {
    SortBySpeedSorts(AllSlots(|f1|, |f2|), f1, f2);
    SortBySpeed(AllSlots(|f1|, |f2|), f1, f2)
  }

  /** A schedule that always uses `SpeedOrder` is a valid schedule. */
  lemma SpeedOrderIsValidSchedule()
    ensures ValidSchedule((turn: nat, f1: seq<Unit>, f2: seq<Unit>) => SpeedOrder(f1, f2))
  {
  }
}
