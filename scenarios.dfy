/**
 * A worked input for the pipeline: two picks that move in opposite
 * directions, one whose lookup fails, and one of an unsupported type.
 */
module Scenarios {
  import opened Wrappers
  import opened Prices
  import opened Leaderboard

  /** X rises from 100 to 110, Y falls from 50 to 45; Z's lookup raises. */
  function Quotes(ticker: string): (closes: Option<seq<real>>) {
    if ticker == "X" then Some([104.0, 110.0])
    else if ticker == "Y" then Some([45.0])
    else if ticker == "N" then Some([3.0])
    else None
  }

  function ScenarioPicks(): (picks: seq<Pick>) {
    [ Pick("A", "X", "stock", 100.0)
    , Pick("C", "Z", "stock", 80.0)
    , Pick("D", "N", "nft", 2.0)
    , Pick("B", "Y", "crypto", 50.0) ]
  }

  function Expected(): (board: seq<Ranked>) {
    [ Ranked(1, Row("A", "X", 100.0, 110.0, 10.0))
    , Ranked(2, Row("B", "Y", 50.0, 45.0, -10.0)) ]
  }

  /** The only two rows are A (+10%) and B (-10%), in input order. */
  lemma ScenarioResults()
    ensures StartPricesUsable(ScenarioPicks(), Quotes)
    ensures Results(ScenarioPicks(), Quotes) == Entries(Expected())
  {
    var picks := ScenarioPicks();
    assert forall i | 0 <= i < |picks| :: picks[i].startPrice != 0.0;
    var rowA, rowB := Row("A", "X", 100.0, 110.0, 10.0), Row("B", "Y", 50.0, 45.0, -10.0);
    assert RowFor(picks[0], Quotes) == rowA by {
      assert Rounding.RoundHalfEven(11000.0) == 11000;
      assert Rounding.RoundHalfEven(1000.0) == 1000;
    }
    assert RowFor(picks[3], Quotes) == rowB by {
      assert Rounding.RoundHalfEven(4500.0) == 4500;
      assert Rounding.RoundHalfEven(-1000.0) == -1000;
    }
    assert !IsPriced(picks[1], Quotes) && !IsPriced(picks[2], Quotes);
    assert picks == [] + [picks[0]] + [picks[1]] + [picks[2]] + [picks[3]];
    ResultsSnoc([] + [picks[0]] + [picks[1]] + [picks[2]], picks[3], Quotes);
    ResultsSnoc([] + [picks[0]] + [picks[1]], picks[2], Quotes);
    ResultsSnoc([] + [picks[0]], picks[1], Quotes);
    ResultsSnoc([], picks[0], Quotes);
    assert Entries(Expected()) == [rowA, rowB];
  }

  /** Any leaderboard of the scenario is A ranked 1 and B ranked 2. */
  lemma ScenarioLeaderboard(board: seq<Ranked>)
    requires StartPricesUsable(ScenarioPicks(), Quotes)
    requires IsLeaderboardOf(board, ScenarioPicks(), Quotes)
    ensures board == Expected()
  {
    ScenarioResults();
    assert IsLeaderboardOf(Expected(), ScenarioPicks(), Quotes);
    LeaderboardDeterminedWithoutTies(board, Expected(), ScenarioPicks(), Quotes);
  }

  /** Running the pipeline on the scenario gives that table. */
  method RunScenario() returns (r: Result<seq<Ranked>, Error>)
    ensures r == Success(Expected())
  {
    ScenarioResults();
    r := ComputeLeaderboard(ScenarioPicks(), Quotes);
    PricedIndicesExact(ScenarioPicks(), Quotes);
    assert 0 in PricedIndices(ScenarioPicks(), Quotes);
    ScenarioLeaderboard(r.value);
  }
}
