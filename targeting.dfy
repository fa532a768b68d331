/**
 * Target selection (card-game-simulator.js:33-88): given the attacker and the
 * ordered list of candidate enemies, pick one enemy under one of three
 * policies. Every policy is a linear scan that keeps the earlier candidate on
 * a tie, so each choice is "the first best candidate" for some score.
 */
module Targeting {
  import opened Cards

  datatype Option<T> = None | Some(value: T)

  /**
   * The positions of `ts` whose element satisfies `p`, in increasing order:
   * the index view of `ts.filter(p)`, whose elements are the very objects of `ts`.
   */
  function Select(ts: seq<Unit>, p: Unit -> bool): (r: seq<nat>)
    ensures |r| <= |ts|
    ensures forall k :: 0 <= k < |r| ==> r[k] < |ts| && p(ts[r[k]])
    ensures forall k, l :: 0 <= k < l < |r| ==> r[k] < r[l]
    ensures forall j :: 0 <= j < |ts| && p(ts[j]) ==> j in r
    ensures (forall j :: 0 <= j < |ts| ==> p(ts[j])) ==> |r| == |ts| && forall k :: 0 <= k < |r| ==> r[k] == k
  {
    if ts == [] then []
    else
      var n := |ts| - 1;
      var rest := Select(ts[..n], p);
      assert forall j :: 0 <= j < n ==> ts[..n][j] == ts[j];
      if p(ts[n]) then rest + [n] else rest
  }

  /** The elements of `ts` at the positions `idx`. */
  function Pick(ts: seq<Unit>, idx: seq<nat>): (r: seq<Unit>)
    requires forall k :: 0 <= k < |idx| ==> idx[k] < |ts|
    ensures |r| == |idx| && forall k :: 0 <= k < |idx| ==> r[k] == ts[idx[k]]
  {
    seq(|idx|, k requires 0 <= k < |idx| => ts[idx[k]])
  }

  /**
   * `k` is the first position of `ts` that is eligible and has the greatest
   * score among the eligible ones.
   */
  ghost predicate IsFirstBest(ts: seq<Unit>, k: int, eligible: Unit -> bool, score: Unit -> int) {
    && 0 <= k < |ts|
    && eligible(ts[k])
    && (forall j :: 0 <= j < |ts| && eligible(ts[j]) ==> score(ts[j]) <= score(ts[k]))
    && (forall j :: 0 <= j < k && eligible(ts[j]) ==> score(ts[j]) < score(ts[k]))
  }

  /** At most one position is the first best one. */
  lemma FirstBestIsUnique(ts: seq<Unit>, k1: int, k2: int, eligible: Unit -> bool, score: Unit -> int)
    requires IsFirstBest(ts, k1, eligible, score) && IsFirstBest(ts, k2, eligible, score)
    ensures k1 == k2
  {
  }

  function Anyone(u: Unit): bool { true }
  function Cost(u: Unit): int { u.cost }
  function Hp(u: Unit): int { u.hp }

  /** `target-mana`: the first candidate of greatest cost. */
  ghost predicate TargetManaChoice(ts: seq<Unit>, k: int) {
    IsFirstBest(ts, k, Anyone, Cost)
  }

  /**
   * `kill-shot`: among the candidates the attack kills (hp <= attack), the first
   * one of greatest hp; when it kills none, the first candidate of greatest hp.
   */
  ghost predicate KillShotChoice(attack: int, ts: seq<Unit>, k: int) {
    if exists j :: 0 <= j < |ts| && ts[j].hp <= attack
    then IsFirstBest(ts, k, (u: Unit) => u.hp <= attack, Hp)
    else IsFirstBest(ts, k, Anyone, Hp)
  }

  /**
   * `optimize-damage`: among the candidates that have at least `attack` hp, the
   * first one with the least hp left over (hp - attack); when there is none,
   * the first candidate whose hp is closest to `attack`.
   */
  ghost predicate OptimizeDamageChoice(attack: int, ts: seq<Unit>, k: int) {
    if exists j :: 0 <= j < |ts| && ts[j].hp >= attack
    then IsFirstBest(ts, k, (u: Unit) => u.hp >= attack, (u: Unit) => -(u.hp - attack))
    else IsFirstBest(ts, k, Anyone, (u: Unit) => -Abs(u.hp - attack))
  }

  /** The policy a strategy name selects; every unrecognised name is `optimize-damage`. */
  ghost predicate StrategyChoice(attack: int, ts: seq<Unit>, strategy: string, k: int) {
    if strategy == "target-mana" then TargetManaChoice(ts, k)
    else if strategy == "kill-shot" then KillShotChoice(attack, ts, k)
    else OptimizeDamageChoice(attack, ts, k)
  }

  function Abs(x: int): int { if x < 0 then -x else x }

  /** Every strategy picks at most one position: its choice is determined by the candidates. */
  lemma StrategyChoiceUnique(attack: int, ts: seq<Unit>, strategy: string, k1: int, k2: int)
    requires StrategyChoice(attack, ts, strategy, k1) && StrategyChoice(attack, ts, strategy, k2)
    ensures k1 == k2
  {
    if strategy == "target-mana" {
      FirstBestIsUnique(ts, k1, k2, Anyone, Cost);
    } else if strategy == "kill-shot" {
      if exists j :: 0 <= j < |ts| && ts[j].hp <= attack {
        FirstBestIsUnique(ts, k1, k2, (u: Unit) => u.hp <= attack, Hp);
      } else {
        FirstBestIsUnique(ts, k1, k2, Anyone, Hp);
      }
    } else if exists j :: 0 <= j < |ts| && ts[j].hp >= attack {
      FirstBestIsUnique(ts, k1, k2, (u: Unit) => u.hp >= attack, (u: Unit) => -(u.hp - attack));
    } else {
      FirstBestIsUnique(ts, k1, k2, Anyone, (u: Unit) => -Abs(u.hp - attack));
    }
  }

  /**
   * The position within `ts` of the scan's choice among the positions `cand`
   * (all of them eligible, listed in increasing order): the first candidate
   * whose score is greatest. The scan starts from `cand[0]` and replaces its
   * best only on a strictly greater score.
   */
  method ScanBest(ts: seq<Unit>, cand: seq<nat>, eligible: Unit -> bool, score: Unit -> int)
    returns (best: nat)
    requires |cand| > 0
    requires forall k :: 0 <= k < |cand| ==> cand[k] < |ts| && eligible(ts[cand[k]])
    requires forall k, l :: 0 <= k < l < |cand| ==> cand[k] < cand[l]
    requires forall j :: 0 <= j < |ts| && eligible(ts[j]) ==> j in cand
    ensures IsFirstBest(ts, best, eligible, score)
  {
    best := cand[0];
    var bestAt := 0;
    for i := 0 to |cand|
      invariant 0 <= bestAt < |cand| && best == cand[bestAt]
      invariant bestAt == 0 || bestAt < i
      invariant forall k :: 0 <= k < i ==> score(ts[cand[k]]) <= score(ts[best])
      invariant forall k :: 0 <= k < bestAt ==> score(ts[cand[k]]) < score(ts[best])
    {
      if score(ts[cand[i]]) > score(ts[best]) {
        best, bestAt := cand[i], i;
      }
    }
    forall j | 0 <= j < |ts| && eligible(ts[j])
      ensures score(ts[j]) <= score(ts[best])
      ensures j < best ==> score(ts[j]) < score(ts[best])
    {
      var k :| 0 <= k < |cand| && cand[k] == j;
    }
  }

  /**
   * findTarget: no target exactly when there are no candidates; otherwise the
   * position of the candidate the strategy picks.
   */
  method FindTarget(attacker: Unit, ts: seq<Unit>, strategy: string) returns (r: Option<nat>)
    ensures r.None? <==> |ts| == 0
    ensures r.Some? ==> r.value < |ts| && StrategyChoice(attacker.attack, ts, strategy, r.value)
  {
    if |ts| == 0 {
      return None;
    }
    var all := Select(ts, Anyone);
    if strategy == "target-mana" {
      var best := ScanBest(ts, all, Anyone, Cost);
      return Some(best);
    } else if strategy == "kill-shot" {
      var killable := Select(ts, (u: Unit) => u.hp <= attacker.attack);
      if |killable| > 0 {
        var best := ScanBest(ts, killable, (u: Unit) => u.hp <= attacker.attack, Hp);
        return Some(best);
      }
      var best := ScanBest(ts, all, Anyone, Hp);
      return Some(best);
    } else {
      var noWaste := Select(ts, (u: Unit) => u.hp >= attacker.attack);
      if |noWaste| > 0 {
        var best := ScanBest(ts, noWaste, (u: Unit) => u.hp >= attacker.attack, (u: Unit) => -(u.hp - attacker.attack));
        return Some(best);
      }
      var best := ScanBest(ts, all, Anyone, (u: Unit) => -Abs(u.hp - attacker.attack));
      return Some(best);
    }
  }
}
