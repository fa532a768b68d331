/**
 * The trial runners (card-game-simulator.js:232-268): counting loops over the
 * results of repeated matches. Each match gets its own combat schedule,
 * standing for the fresh random tie-breaks of every run, and each runner
 * hands back, as ghost values, the result of every match it counted.
 */
module Trials {
  import opened Cards
  import opened CombatOrder
  import opened Engine

  /** The number of times `for (let i = 0; i < n; i++)` runs. */
  function Runs(n: int): nat {
    if n < 0 then 0 else n
  }

  /** How many of the matches player 1 won. */
  function Player1Wins(results: seq<GameResult>): nat {
    if results == [] then 0
    else Player1Wins(results[..|results| - 1]) + (if results[|results| - 1].winner == 1 then 1 else 0)
  }

  /** The turns of all the matches together. */
  function TotalTurns(results: seq<GameResult>): int {
    if results == [] then 0 else TotalTurns(results[..|results| - 1]) + results[|results| - 1].turn
  }

  /** Match i of `results` is the match simulateGame plays under `schedules(i)`. */
  ghost predicate Outcomes(config1: DeckConfig, config2: DeckConfig, schedules: nat -> Schedule,
                           results: seq<GameResult>) {
    forall i :: 0 <= i < |results| ==> IsGameResult(config1, config2, schedules(i), results[i])
  }

  /** One more match extends the matches played so far. */
  lemma OutcomesExtend(config1: DeckConfig, config2: DeckConfig, schedules: nat -> Schedule,
                       results: seq<GameResult>, result: GameResult)
    requires Outcomes(config1, config2, schedules, results)
    requires IsGameResult(config1, config2, schedules(|results|), result)
    ensures Outcomes(config1, config2, schedules, results + [result])
  {
    var results' := results + [result];
    forall i | 0 <= i < |results'|
      ensures IsGameResult(config1, config2, schedules(i), results'[i])
    {
      if i < |results| {
        assert results'[i] == results[i];
      } else {
        assert i == |results| && results'[i] == result;
      }
    }
  }

  /** The counts over the matches grow by the counts of the next match. */
  lemma CountsExtend(results: seq<GameResult>, result: GameResult)
    ensures Player1Wins(results + [result]) == Player1Wins(results) + (if result.winner == 1 then 1 else 0)
    ensures TotalTurns(results + [result]) == TotalTurns(results) + result.turn
  {
    assert (results + [result])[..|results|] == results;
  }

  /**
   * The counts over matches that simulateGame played: player 1 wins at most
   * all of them, every match lasts between 1 and MAX_TURNS turns, and a side
   * with an empty deck loses every match in its first turn, side 2's empty
   * deck being looked at first.
   */
  lemma {:induction false} MatchupTotals(config1: DeckConfig, config2: DeckConfig, schedules: nat -> Schedule,
                                         results: seq<GameResult>)
    requires Outcomes(config1, config2, schedules, results)
    ensures Player1Wins(results) <= |results|
    ensures |results| <= TotalTurns(results) <= MAX_TURNS * |results|
    ensures |config2.cards| == 0 ==> Player1Wins(results) == |results| && TotalTurns(results) == |results|
    ensures |config1.cards| == 0 && |config2.cards| > 0 ==>
      Player1Wins(results) == 0 && TotalTurns(results) == |results|
  {
    if results != [] {
      var n := |results| - 1;
      assert Outcomes(config1, config2, schedules, results[..n]);
      MatchupTotals(config1, config2, schedules, results[..n]);
      GameResultFacts(config1, config2, schedules(n), results[n]);
    }
  }

  /**
   * testMatchup: plays `games` matches of deck 1 against deck 2 and counts
   * player 1's wins and the turns played. `results[i]` is the result of match
   * i, so `wins1` counts the matches player 1 won and `totalTurns` adds up
   * their lengths; hence the two win counts add up to `games`, and every
   * match lasts between 1 and MAX_TURNS turns.
   */
  method TestMatchup(config1: DeckConfig, config2: DeckConfig, games: int := 10, schedules: nat -> Schedule)
    returns (wins1: int, wins2: int, totalTurns: int, ghost results: seq<GameResult>)
    requires InCatalog(config1.cards) && InCatalog(config2.cards)
    requires forall i :: ValidSchedule(schedules(i))
    ensures |results| == Runs(games) && Outcomes(config1, config2, schedules, results)
    ensures wins1 == Player1Wins(results) && wins2 == games - wins1
    ensures totalTurns == TotalTurns(results)
    ensures 0 <= wins1 <= Runs(games) && wins1 + wins2 == games
    ensures Runs(games) <= totalTurns <= MAX_TURNS * Runs(games)
    ensures |config2.cards| == 0 ==> wins1 == Runs(games) && totalTurns == Runs(games)
    ensures |config1.cards| == 0 && |config2.cards| > 0 ==> wins1 == 0 && totalTurns == Runs(games)
  {
    wins1, totalTurns, results := 0, 0, [];
    var i := 0;
    while i < games
      invariant 0 <= i <= Runs(games) && |results| == i
      invariant Outcomes(config1, config2, schedules, results)
      invariant wins1 == Player1Wins(results) && totalTurns == TotalTurns(results)
    {
      var result, states, logs := SimulateGame(config1, config2, schedules(i));
      if result.winner == 1 {
        wins1 := wins1 + 1;
      }
      totalTurns := totalTurns + result.turn;
      OutcomesExtend(config1, config2, schedules, results, result);
      CountsExtend(results, result);
      results := results + [result];
      i := i + 1;
    }
    wins2 := games - wins1;
    MatchupTotals(config1, config2, schedules, results);
  }

  /** The wins of the test deck over all the matchups. */
  function AllWins(rows: seq<seq<GameResult>>): int {
    if rows == [] then 0 else AllWins(rows[..|rows| - 1]) + Player1Wins(rows[|rows| - 1])
  }

  /** The number of matches over all the matchups. */
  function AllGames(rows: seq<seq<GameResult>>): int {
    if rows == [] then 0 else AllGames(rows[..|rows| - 1]) + |rows[|rows| - 1]|
  }

  /** Match i of matchup k is the match simulateGame plays under `schedules(k)(i)`. */
  ghost predicate FieldOutcomes(testDeck: DeckConfig, opponents: seq<DeckConfig>, schedules: nat -> nat -> Schedule,
                                rows: seq<seq<GameResult>>) {
    && |rows| <= |opponents|
    && forall k :: 0 <= k < |rows| ==> Outcomes(testDeck, opponents[k], schedules(k), rows[k])
  }

  /** The matches against the next opponent extend the matchups played so far. */
  lemma FieldOutcomesExtend(testDeck: DeckConfig, opponents: seq<DeckConfig>, schedules: nat -> nat -> Schedule,
                            rows: seq<seq<GameResult>>, row: seq<GameResult>)
    requires FieldOutcomes(testDeck, opponents, schedules, rows) && |rows| < |opponents|
    requires Outcomes(testDeck, opponents[|rows|], schedules(|rows|), row)
    ensures FieldOutcomes(testDeck, opponents, schedules, rows + [row])
  {
    var rows' := rows + [row];
    forall k | 0 <= k < |rows'|
      ensures Outcomes(testDeck, opponents[k], schedules(k), rows'[k])
    {
      if k < |rows| {
        assert rows'[k] == rows[k];
      } else {
        assert k == |rows| && rows'[k] == row;
      }
    }
  }

  /** The counts over the matchups grow by the counts over the next opponent's matches. */
  lemma FieldCountsExtend(rows: seq<seq<GameResult>>, row: seq<GameResult>)
    ensures AllWins(rows + [row]) == AllWins(rows) + Player1Wins(row)
    ensures AllGames(rows + [row]) == AllGames(rows) + |row|
  {
    assert (rows + [row])[..|rows|] == rows;
  }

  /** Matchups of `n` matches each hold `n` matches per matchup. */
  lemma {:induction false} FieldGames(rows: seq<seq<GameResult>>, n: nat)
    requires forall k :: 0 <= k < |rows| ==> |rows[k]| == n
    ensures AllGames(rows) == |rows| * n
  {
    if rows != [] {
      FieldGames(rows[..|rows| - 1], n);
    }
  }

  /**
   * The counts over the matchups: the wins never exceed the matches, the test deck wins every
   * match against opponents with empty decks, and with an empty deck it wins
   * none against opponents that have cards.
   */
  lemma {:induction false} FieldTotals(testDeck: DeckConfig, opponents: seq<DeckConfig>,
                                       schedules: nat -> nat -> Schedule, rows: seq<seq<GameResult>>)
    requires FieldOutcomes(testDeck, opponents, schedules, rows)
    ensures 0 <= AllWins(rows) <= AllGames(rows)
    ensures (forall k :: 0 <= k < |opponents| ==> |opponents[k].cards| == 0) ==> AllWins(rows) == AllGames(rows)
    ensures |testDeck.cards| == 0 && (forall k :: 0 <= k < |opponents| ==> |opponents[k].cards| > 0) ==>
      AllWins(rows) == 0
  {
    if rows != [] {
      var m := |rows| - 1;
      assert FieldOutcomes(testDeck, opponents, schedules, rows[..m]);
      FieldTotals(testDeck, opponents, schedules, rows[..m]);
      MatchupTotals(testDeck, opponents[m], schedules(m), rows[m]);
    }
  }

  /**
   * testDeckVsField: plays `gamesPerMatchup` matches of the test deck (as
   * player 1) against each opponent in turn and counts the matches and the
   * test deck's wins. `results[k][i]` is the result of match i against
   * opponent k, played under `schedules(k)(i)`, so `totalWins` counts the
   * matches the test deck won and `totalGames` all of them; hence every match
   * is counted once and the wins never exceed the matches.
   */
  method TestDeckVsField(testDeck: DeckConfig, opponents: seq<DeckConfig>, gamesPerMatchup: int := 5,
                         schedules: nat -> nat -> Schedule)
    returns (totalWins: int, totalGames: int, ghost results: seq<seq<GameResult>>)
    requires InCatalog(testDeck.cards)
    requires forall k :: 0 <= k < |opponents| ==> InCatalog(opponents[k].cards)
    requires forall k, i :: ValidSchedule(schedules(k)(i))
    ensures |results| == |opponents| && forall k :: 0 <= k < |results| ==> |results[k]| == Runs(gamesPerMatchup)
    ensures FieldOutcomes(testDeck, opponents, schedules, results)
    ensures totalWins == AllWins(results) && totalGames == AllGames(results)
    ensures totalGames == |opponents| * Runs(gamesPerMatchup)
    ensures 0 <= totalWins <= totalGames
    ensures (forall k :: 0 <= k < |opponents| ==> |opponents[k].cards| == 0) ==> totalWins == totalGames
    ensures |testDeck.cards| == 0 && (forall k :: 0 <= k < |opponents| ==> |opponents[k].cards| > 0) ==>
      totalWins == 0
  {
    totalWins, totalGames, results := 0, 0, [];
    for k := 0 to |opponents|
      invariant |results| == k && forall j :: 0 <= j < k ==> |results[j]| == Runs(gamesPerMatchup)
      invariant FieldOutcomes(testDeck, opponents, schedules, results)
      invariant totalWins == AllWins(results) && totalGames == AllGames(results)
    {
      var opponent := opponents[k];
      var i := 0;
      ghost var row: seq<GameResult> := [];
      ghost var winsBefore, gamesBefore := totalWins, totalGames;
      while i < gamesPerMatchup
        invariant 0 <= i <= Runs(gamesPerMatchup) && |row| == i
        invariant Outcomes(testDeck, opponent, schedules(k), row)
        invariant totalWins == winsBefore + Player1Wins(row) && totalGames == gamesBefore + i
      {
        var result, states, logs := SimulateGame(testDeck, opponent, schedules(k)(i));
        if result.winner == 1 {
          totalWins := totalWins + 1;
        }
        totalGames := totalGames + 1;
        OutcomesExtend(testDeck, opponent, schedules(k), row, result);
        CountsExtend(row, result);
        row := row + [result];
        i := i + 1;
      }
      FieldOutcomesExtend(testDeck, opponents, schedules, results, row);
      FieldCountsExtend(results, row);
      results := results + [row];
    }
    FieldGames(results, Runs(gamesPerMatchup));
    FieldTotals(testDeck, opponents, schedules, results);
  }
}
