/**
 * The leaderboard pipeline of the dashboard script: look up every pick's
 * price in input order, keep the picks that have one and build a result row
 * for each, sort the rows by percentage change with the highest first, and
 * number them 1..N.
 */
module Leaderboard {
  import opened Wrappers
  import opened Rounding
  import opened Prices

  /** One entry of `results`: the pick's own fields plus the rounded figures. */
  datatype Row = Row(name: string, ticker: string, startPrice: real, currentPrice: real, pctChange: real)

  /** A row of the final table, with the `rank` column added. */
  datatype Ranked = Ranked(rank: nat, entry: Row)

  /** The exception pandas raises when asked to sort on a column it does not have. */
  datatype Error = KeyError(column: string)

  // ---------------------------------------------------------------------------
  // Building the rows
  // ---------------------------------------------------------------------------

  function CurrentPrice(p: Pick, provider: Provider): (r: Option<real>) {
    GetCurrentPrice(p.ticker, p.assetType, provider)
  }

  predicate IsPriced(p: Pick, provider: Provider) {
    CurrentPrice(p, provider).Some?
  }

  /**
   * The division by the start price has no guard; every pick that reaches
   * it must have a non-zero start price.
   */
  predicate StartPricesUsable(picks: seq<Pick>, provider: Provider) {
    forall i | 0 <= i < |picks| && IsPriced(picks[i], provider) :: picks[i].startPrice != 0.0
  }

  /**
   * The result row for a pick whose current price was found: name, ticker
   * and start price copied, the current price and the change rounded to
   * cents, the change computed from the unrounded current price.
   */
  function MakeRow(p: Pick, current: real): (row: Row)
    requires p.startPrice != 0.0
    ensures row.name == p.name && row.ticker == p.ticker && row.startPrice == p.startPrice
    ensures IsCents(row.currentPrice) && current - 0.005 <= row.currentPrice <= current + 0.005
    ensures IsCents(row.pctChange)
    ensures var exact := PctChange(p.startPrice, current);
            exact - 0.005 <= row.pctChange <= exact + 0.005
  {
    Row(p.name, p.ticker, p.startPrice, Round2(current), Round2(PctChange(p.startPrice, current)))
  }

  function RowFor(p: Pick, provider: Provider): (row: Row)
    requires IsPriced(p, provider) && p.startPrice != 0.0
  {
    MakeRow(p, CurrentPrice(p, provider).value)
  }

  /** The contents of `results` after the loop has seen `picks`. */
  function Results(picks: seq<Pick>, provider: Provider): (rows: seq<Row>)
    requires StartPricesUsable(picks, provider)
    ensures |rows| <= |picks|
  {
    if picks == [] then []
    else
      var n := |picks| - 1;
      assert forall i | 0 <= i < n :: picks[..n][i] == picks[i];
      Results(picks[..n], provider) + (if IsPriced(picks[n], provider) then [RowFor(picks[n], provider)] else [])
  }

  /** The positions, in increasing order, of the picks whose price was found. */
  function PricedIndices(picks: seq<Pick>, provider: Provider): (ix: seq<nat>)
    ensures |ix| <= |picks|
  {
    if picks == [] then []
    else
      var n := |picks| - 1;
      PricedIndices(picks[..n], provider) + (if IsPriced(picks[n], provider) then [n] else [])
  }

  /**
   * The filter keeps exactly the successes: the listed positions are in
   * range and increasing, and a position is listed exactly when that pick
   * has a price.
   */
  lemma {:induction false} PricedIndicesExact(picks: seq<Pick>, provider: Provider)
    ensures var ix := PricedIndices(picks, provider);
      && (forall k :: 0 <= k < |ix| ==> ix[k] < |picks|)
      && (forall k, l :: 0 <= k < l < |ix| ==> ix[k] < ix[l])
      && (forall i :: 0 <= i < |picks| ==> (i in ix <==> IsPriced(picks[i], provider)))
  {
    if picks != [] {
      var n := |picks| - 1;
      PricedIndicesExact(picks[..n], provider);
      assert forall i :: 0 <= i < n ==> picks[..n][i] == picks[i];
    }
  }

  /**
   * Filtering keeps input order and keeps only successes: row k of the
   * results belongs to the k-th priced pick, and there is one row per
   * priced pick.
   */
  lemma {:induction false} ResultsFollowInputOrder(picks: seq<Pick>, provider: Provider)
    requires StartPricesUsable(picks, provider)
    ensures |Results(picks, provider)| == |PricedIndices(picks, provider)|
    ensures forall k :: 0 <= k < |PricedIndices(picks, provider)| ==>
      var i := PricedIndices(picks, provider)[k];
      && i < |picks| && IsPriced(picks[i], provider) && picks[i].startPrice != 0.0
      && Results(picks, provider)[k] == RowFor(picks[i], provider)
  {
    if picks != [] {
      var n := |picks| - 1;
      var init := picks[..n];
      UsablePrefix(picks, n);
      ResultsFollowInputOrder(init, provider);
      var rows, ix := Results(picks, provider), PricedIndices(picks, provider);
      var rowsInit, ixInit := Results(init, provider), PricedIndices(init, provider);
      assert |rows| == |ix| && |ix| - |ixInit| == if IsPriced(picks[n], provider) then 1 else 0;
      forall k | 0 <= k < |ix|
        ensures ix[k] < |picks| && IsPriced(picks[ix[k]], provider) && picks[ix[k]].startPrice != 0.0
        ensures rows[k] == RowFor(picks[ix[k]], provider)
      {
        if k < |ixInit| {
          assert ix[k] == ixInit[k] && rows[k] == rowsInit[k];
          assert init[ixInit[k]] == picks[ixInit[k]];
        } else {
          assert ix[k] == n && rows[k] == RowFor(picks[n], provider);
        }
      }
    }
  }

  /** A prefix of a usable input is usable. */
  lemma UsablePrefix(picks: seq<Pick>, n: int)
    requires 0 <= n <= |picks|
    ensures forall provider: Provider | StartPricesUsable(picks, provider) :: StartPricesUsable(picks[..n], provider)
  {
    assert forall i | 0 <= i < n :: picks[..n][i] == picks[i];
  }

  /** The results of two consecutive stretches of picks are laid end to end. */
  lemma {:induction false} ResultsAppend(a: seq<Pick>, b: seq<Pick>, provider: Provider)
    requires StartPricesUsable(a + b, provider)
    ensures StartPricesUsable(a, provider) && StartPricesUsable(b, provider)
    ensures Results(a + b, provider) == Results(a, provider) + Results(b, provider)
  {
    UsableParts(a, b, provider);
    if b == [] {
      assert a + b == a;
    } else {
      var n := |b| - 1;
      assert (a + b)[..|a| + n] == a + b[..n];
      assert (a + b)[|a| + n] == b[n];
      ResultsAppend(a, b[..n], provider);
    }
  }

  /** Each part of a usable input is usable. */
  lemma UsableParts(a: seq<Pick>, b: seq<Pick>, provider: Provider)
    requires StartPricesUsable(a + b, provider)
    ensures StartPricesUsable(a, provider) && StartPricesUsable(b, provider)
  {
    assert forall i | 0 <= i < |a| :: (a + b)[i] == a[i];
    assert forall i | 0 <= i < |b| :: (a + b)[|a| + i] == b[i];
  }

  /**
   * A pick without a price (unsupported type, failed lookup, empty history)
   * leaves no trace: wherever it stands in the input, removing it gives the
   * same results.
   */
  lemma DropUnpricedPick(before: seq<Pick>, p: Pick, after: seq<Pick>, provider: Provider)
    requires StartPricesUsable(before + [p] + after, provider)
    requires !IsPriced(p, provider)
    ensures StartPricesUsable(before + after, provider)
    ensures Results(before + after, provider) == Results(before + [p] + after, provider)
  {
    ResultsAppend(before + [p], after, provider);
    ResultsAppend(before, [p], provider);
    UnpricedPickHasNoRow(p, provider);
    UsableWithout(before, p, after, provider);
    ResultsAppend(before, after, provider);
  }

  /** Removing a pick without a price keeps the input usable. */
  lemma UsableWithout(before: seq<Pick>, p: Pick, after: seq<Pick>, provider: Provider)
    requires StartPricesUsable(before + [p] + after, provider)
    requires !IsPriced(p, provider)
    ensures StartPricesUsable(before + after, provider)
  {
    var whole, rest := before + [p] + after, before + after;
    forall i | 0 <= i < |rest| && IsPriced(rest[i], provider) ensures rest[i].startPrice != 0.0 {
      if i < |before| {
        assert rest[i] == whole[i];
      } else {
        assert rest[i] == whole[i + 1];
      }
    }
  }

  /** One more pick adds its row, if it has a price, at the end. */
  lemma ResultsSnoc(picks: seq<Pick>, p: Pick, provider: Provider)
    requires StartPricesUsable(picks + [p], provider)
    ensures StartPricesUsable(picks, provider)
    ensures IsPriced(p, provider) ==> p.startPrice != 0.0
    ensures Results(picks + [p], provider)
      == Results(picks, provider) + (if IsPriced(p, provider) then [RowFor(p, provider)] else [])
  {
    var whole := picks + [p];
    assert whole[..|picks|] == picks && whole[|picks|] == p;
    assert forall i | 0 <= i < |picks| :: whole[i] == picks[i];
  }

  lemma UnpricedPickHasNoRow(p: Pick, provider: Provider)
    requires !IsPriced(p, provider)
    ensures StartPricesUsable([p], provider) && Results([p], provider) == []
  {
    assert [p][..0] == [];
  }

  // ---------------------------------------------------------------------------
  // Sorting and ranking
  // ---------------------------------------------------------------------------

  /** Non-increasing in percent change: the highest gain first. */
  predicate SortedByPctDesc(rows: seq<Row>) {
    forall i, j :: 0 <= i < j < |rows| ==> rows[i].pctChange >= rows[j].pctChange
  }

  /** Places one row into a sorted sequence. */
  function InsertByPct(x: Row, rows: seq<Row>): (r: seq<Row>)
    requires SortedByPctDesc(rows)
    ensures SortedByPctDesc(r)
    ensures multiset(r) == multiset(rows) + multiset{x}
    ensures forall y | y in r :: y == x || y in rows
  {
    if rows == [] then [x]
    else if x.pctChange >= rows[0].pctChange then [x] + rows
    else
      var tail := InsertByPct(x, rows[1..]);
      assert rows == [rows[0]] + rows[1..];
      SortedCons(rows[0], tail);
      [rows[0]] + tail
  }

  /** A row no lower than everything after it may go in front. */
  lemma SortedCons(head: Row, tail: seq<Row>)
    requires SortedByPctDesc(tail)
    requires forall y | y in tail :: head.pctChange >= y.pctChange
    ensures SortedByPctDesc([head] + tail)
  {
    var r := [head] + tail;
    forall i, j | 0 <= i < j < |r| ensures r[i].pctChange >= r[j].pctChange {
      if i > 0 {
        assert r[i] == tail[i - 1] && r[j] == tail[j - 1];
      } else {
        assert r[j] == tail[j - 1] && r[j] in tail;
      }
    }
  }

  /** Insertion sort by percent change, highest first. */
  function SortByPct(rows: seq<Row>): (r: seq<Row>)
    ensures SortedByPctDesc(r)
    ensures multiset(r) == multiset(rows)
  {
    if rows == [] then []
    else
      assert rows == [rows[0]] + rows[1..];
      InsertByPct(rows[0], SortByPct(rows[1..]))
  }

  /** The rows of a ranked table, without the rank column. */
  function Entries(board: seq<Ranked>): (rows: seq<Row>)
  {
    seq(|board|, i requires 0 <= i < |board| => board[i].entry)
  }

  /**
   * What the pipeline promises of its table: rank is position + 1, the rows
   * are sorted by percent change, highest first, and they are the results
   * rearranged, with nothing added, lost or duplicated.
   */
  ghost predicate IsLeaderboardOf(board: seq<Ranked>, picks: seq<Pick>, provider: Provider)
    requires StartPricesUsable(picks, provider)
  {
    && (forall i :: 0 <= i < |board| ==> board[i].rank == i + 1)
    && SortedByPctDesc(Entries(board))
    && multiset(Entries(board)) == multiset(Results(picks, provider))
  }

  /** Some row of the table carries rank k. */
  ghost predicate HasRank(board: seq<Ranked>, k: int) {
    exists i :: 0 <= i < |board| && board[i].rank == k
  }

  /** Ranks numbered by position are exactly 1..N: no gaps, no repeats. */
  lemma RanksAreOneToN(board: seq<Ranked>)
    requires forall i :: 0 <= i < |board| ==> board[i].rank == i + 1
    ensures forall i :: 0 <= i < |board| ==> 1 <= board[i].rank <= |board|
    ensures forall k :: 1 <= k <= |board| ==> HasRank(board, k)
    ensures forall i, j :: 0 <= i < j < |board| ==> board[i].rank != board[j].rank
  {
    forall k | 1 <= k <= |board| ensures HasRank(board, k) {
      assert board[k - 1].rank == k;
    }
  }

  // ---------------------------------------------------------------------------
  // The pipeline
  // ---------------------------------------------------------------------------

  /** The loop over the picks that fills `results`. */
  method CollectResults(picks: seq<Pick>, provider: Provider) returns (results: seq<Row>)
    requires StartPricesUsable(picks, provider)
    ensures results == Results(picks, provider)
  {
    results := [];
    var i := 0;
    while i < |picks|
      invariant 0 <= i <= |picks|
      invariant StartPricesUsable(picks[..i], provider)
      invariant results == Results(picks[..i], provider)
    {
      var p := picks[i];
      var current := GetCurrentPrice(p.ticker, p.assetType, provider);
      if current.Some? {
        results := results + [MakeRow(p, current.value)];
      }
      assert picks[..i + 1][..i] == picks[..i];
      UsablePrefix(picks, i + 1);
      i := i + 1;
    }
    assert picks[..|picks|] == picks;
  }

  /**
   * `sort_values(by="pct_change", ascending=False)`. The contract promises a
   * sorted arrangement of the rows and nothing more: pandas does not fix the
   * order of tied rows, so callers learn nothing about it.
   */
  method SortResults(results: seq<Row>) returns (sorted: seq<Row>)
    ensures SortedByPctDesc(sorted)
    ensures multiset(sorted) == multiset(results)
  {
    sorted := SortByPct(results);
  }

  /** `results_df["rank"] = results_df.index + 1` on the freshly reset index. */
  method AssignRanks(sorted: seq<Row>) returns (board: seq<Ranked>)
    ensures |board| == |sorted|
    ensures forall i :: 0 <= i < |board| ==> board[i].rank == i + 1 && board[i].entry == sorted[i]
  {
    board := [];
    var i := 0;
    while i < |sorted|
      invariant 0 <= i <= |sorted|
      invariant |board| == i
      invariant forall k :: 0 <= k < i ==> board[k].rank == k + 1 && board[k].entry == sorted[k]
    {
      board := board + [Ranked(i + 1, sorted[i])];
      i := i + 1;
    }
  }

  /**
   * The whole pipeline. With no priced pick, `pd.DataFrame([])` has no
   * `pct_change` column and the sort raises; otherwise the table is a
   * leaderboard of the picks with one row per priced pick.
   */
  method ComputeLeaderboard(picks: seq<Pick>, provider: Provider) returns (r: Result<seq<Ranked>, Error>)
    requires StartPricesUsable(picks, provider)
    ensures r.Failure? <==> PricedIndices(picks, provider) == []
    ensures r.Failure? ==> r.error == KeyError("pct_change")
    ensures r.Success? ==> IsLeaderboardOf(r.value, picks, provider)
    ensures r.Success? ==> |r.value| == |PricedIndices(picks, provider)|
  {
    var results := CollectResults(picks, provider);
    ResultsFollowInputOrder(picks, provider);
    if results == [] {
      return Failure(KeyError("pct_change"));
    }
    var sorted := SortResults(results);
    var board := AssignRanks(sorted);
    assert Entries(board) == sorted;
    assert |multiset(sorted)| == |multiset(results)|;
    return Success(board);
  }

  // ---------------------------------------------------------------------------
  // Properties of the leaderboard
  // ---------------------------------------------------------------------------

  /**
   * A pick that fails takes nothing else with it: the tables that are valid
   * leaderboards without it are exactly those valid with it, so every other
   * row keeps its data and the ranks close up with no gap.
   */
  lemma UnpricedPickLeavesLeaderboard(before: seq<Pick>, p: Pick, after: seq<Pick>, provider: Provider, board: seq<Ranked>)
    requires StartPricesUsable(before + [p] + after, provider)
    requires !IsPriced(p, provider)
    ensures StartPricesUsable(before + after, provider)
    ensures IsLeaderboardOf(board, before + after, provider) <==> IsLeaderboardOf(board, before + [p] + after, provider)
  {
    DropUnpricedPick(before, p, after, provider);
  }

  /**
   * Two arrangements of the same rows that are both sorted by percent
   * change, highest first, agree on the change at every position.
   */
  lemma {:induction false} SortedSameKeys(a: seq<Row>, b: seq<Row>)
    requires SortedByPctDesc(a) && SortedByPctDesc(b)
    requires multiset(a) == multiset(b)
    ensures |a| == |b|
    ensures forall i | 0 <= i < |a| :: a[i].pctChange == b[i].pctChange
    decreases |a|
  {
    assert |multiset(a)| == |multiset(b)|;
    if a != [] {
      var j := MatchHead(a, b);
      HeadKeysAgree(a, b);
      var restA, restB := a[1..], b[..j] + b[j + 1..];
      SortedWithout(b, j);
      SortedWithout(a, 0);
      assert a[..0] + a[1..] == restA;
      SortedSameKeys(restA, restB);
      forall i | 0 <= i < |restB| ensures a[i + 1].pctChange == restB[i].pctChange {
        assert a[i + 1] == restA[i];
      }
      SameKeyRun(b, j);
      Realign(a, b, j, restB);
    }
  }

  /** The first row of a occurs in a rearrangement b, at some position j. */
  lemma MatchHead(a: seq<Row>, b: seq<Row>) returns (j: int)
    requires multiset(a) == multiset(b) && a != []
    ensures 0 <= j < |b| && b[j] == a[0]
    ensures multiset(a[1..]) == multiset(b[..j] + b[j + 1..])
  {
    assert a[0] in multiset(b);
    j :| 0 <= j < |b| && b[j] == a[0];
    var rest := b[..j] + b[j + 1..];
    assert multiset(a[1..]) == multiset(a) - multiset{a[0]} by {
      assert a == [a[0]] + a[1..];
    }
    assert multiset(rest) == multiset(b) - multiset{b[j]} by {
      RemoveAt(b, j);
    }
  }

  /** Two sorted arrangements of the same rows start with the same change. */
  lemma HeadKeysAgree(a: seq<Row>, b: seq<Row>)
    requires SortedByPctDesc(a) && SortedByPctDesc(b)
    requires multiset(a) == multiset(b) && a != []
    ensures b != [] && a[0].pctChange == b[0].pctChange
  {
    assert a[0] in multiset(b) && b[0] in multiset(a);
    var j :| 0 <= j < |b| && b[j] == a[0];
    var k :| 0 <= k < |a| && a[k] == b[0];
    assert b[0].pctChange >= b[j].pctChange && a[0].pctChange >= a[k].pctChange;
  }

  /** In a sorted table, rows between two rows of equal change share it. */
  lemma SameKeyRun(rows: seq<Row>, j: int)
    requires SortedByPctDesc(rows) && 0 <= j < |rows|
    requires rows[0].pctChange == rows[j].pctChange
    ensures forall i | 0 <= i <= j :: rows[i].pctChange == rows[0].pctChange
  {
    forall i | 0 <= i <= j ensures rows[i].pctChange == rows[0].pctChange {
      assert rows[0].pctChange >= rows[i].pctChange >= rows[j].pctChange;
    }
  }

  /**
   * The last step of `SortedSameKeys`: a's tail matches b without row j,
   * and rows 0..j of b all carry a[0]'s change.
   */
  lemma Realign(a: seq<Row>, b: seq<Row>, j: int, restB: seq<Row>)
    requires |a| == |b| && 0 <= j < |b|
    requires restB == b[..j] + b[j + 1..]
    requires forall i | 0 <= i < |restB| :: a[i + 1].pctChange == restB[i].pctChange
    requires forall i | 0 <= i <= j :: b[i].pctChange == a[0].pctChange
    ensures forall i | 0 <= i < |a| :: a[i].pctChange == b[i].pctChange
  {
    forall i | 0 < i < |a| ensures a[i].pctChange == b[i].pctChange {
      if i <= j {
        assert restB[i - 1] == b[i - 1];
      } else {
        assert restB[i - 1] == b[i];
      }
    }
  }

  /** Taking out row j takes one copy of it out of the table. */
  lemma RemoveAt(rows: seq<Row>, j: int)
    requires 0 <= j < |rows|
    ensures multiset(rows[..j] + rows[j + 1..]) == multiset(rows) - multiset{rows[j]}
  {
    assert rows == rows[..j] + [rows[j]] + rows[j + 1..];
  }

  /** Taking out one row keeps a sorted table sorted. */
  lemma SortedWithout(rows: seq<Row>, j: int)
    requires SortedByPctDesc(rows) && 0 <= j < |rows|
    ensures SortedByPctDesc(rows[..j] + rows[j + 1..])
  {
    var rest := rows[..j] + rows[j + 1..];
    forall p, q | 0 <= p < q < |rest| ensures rest[p].pctChange >= rest[q].pctChange {
      var p', q' := if p < j then p else p + 1, if q < j then q else q + 1;
      assert rest[p] == rows[p'] && rest[q] == rows[q'];
    }
  }

  /**
   * Running the pipeline twice on the same prices gives the same
   * `pct_change` column: only the order of rows with equal change can vary.
   */
  lemma LeaderboardPctColumnDetermined(b1: seq<Ranked>, b2: seq<Ranked>, picks: seq<Pick>, provider: Provider)
    requires StartPricesUsable(picks, provider)
    requires IsLeaderboardOf(b1, picks, provider) && IsLeaderboardOf(b2, picks, provider)
    ensures |b1| == |b2|
    ensures forall i | 0 <= i < |b1| :: b1[i].entry.pctChange == b2[i].entry.pctChange
  {
    var e1, e2 := Entries(b1), Entries(b2);
    SortedSameKeys(e1, e2);
    assert forall i | 0 <= i < |b1| :: e1[i] == b1[i].entry;
  }

  /** No two results share a percent change. */
  predicate DistinctPct(rows: seq<Row>) {
    forall i, j :: 0 <= i < j < |rows| ==> rows[i].pctChange != rows[j].pctChange
  }

  /** Without ties the leaderboard is fully determined. */
  lemma LeaderboardDeterminedWithoutTies(b1: seq<Ranked>, b2: seq<Ranked>, picks: seq<Pick>, provider: Provider)
    requires StartPricesUsable(picks, provider)
    requires DistinctPct(Results(picks, provider))
    requires IsLeaderboardOf(b1, picks, provider) && IsLeaderboardOf(b2, picks, provider)
    ensures b1 == b2
  {
    LeaderboardPctColumnDetermined(b1, b2, picks, provider);
    var rows := Results(picks, provider);
    var e1, e2 := Entries(b1), Entries(b2);
    forall i | 0 <= i < |b1| ensures b1[i] == b2[i] {
      assert e1[i].pctChange == e2[i].pctChange;
      assert e1[i] in multiset(rows) && e2[i] in multiset(rows);
      var p :| 0 <= p < |rows| && rows[p] == e1[i];
      var q :| 0 <= q < |rows| && rows[q] == e2[i];
      assert rows[p].pctChange == rows[q].pctChange;
      assert p == q;
    }
  }

  /** The change a pick's row would carry before rounding. */
  function ExactChange(p: Pick, provider: Provider): (pct: real)
    requires IsPriced(p, provider) && p.startPrice != 0.0
    ensures RowFor(p, provider).pctChange == Round2(pct)
  {
    PctChange(p.startPrice, CurrentPrice(p, provider).value)
  }

  /**
   * The table is sorted on the rounded change, yet it never ranks a pick
   * above one with a higher exact change unless the two round to the same
   * change.
   */
  lemma RoundedSortRespectsExactOrder(board: seq<Ranked>, picks: seq<Pick>, provider: Provider, i: int, j: int, a: int, b: int)
    requires StartPricesUsable(picks, provider) && IsLeaderboardOf(board, picks, provider)
    requires 0 <= i < j < |board|
    requires 0 <= a < |picks| && IsPriced(picks[a], provider) && board[i].entry == RowFor(picks[a], provider)
    requires 0 <= b < |picks| && IsPriced(picks[b], provider) && board[j].entry == RowFor(picks[b], provider)
    requires ExactChange(picks[a], provider) < ExactChange(picks[b], provider)
    ensures board[i].entry.pctChange == board[j].entry.pctChange
  {
    var e := Entries(board);
    assert e[i] == board[i].entry && e[j] == board[j].entry;
    Round2Monotone(ExactChange(picks[a], provider), ExactChange(picks[b], provider));
  }
}
