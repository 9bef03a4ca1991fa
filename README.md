# Fantasy draft leaderboard, in Dafny

This project models the leaderboard pipeline of the fantasy stock dashboard
(`fantasy_stock_dashboard.py`). Each participant's pick has a name, a ticker,
an asset type and a recorded start price. The pipeline looks up each pick's
latest close, drops every pick without a price, and builds one result row per
remaining pick: name, ticker and start price copied, the current price and
the percentage change rounded to cents. It then sorts the rows by percentage
change, highest first, and numbers them 1..N.

Modules:

- `Wrappers` (`wrappers.dfy`): `Option` and `Result`.
- `Rounding` (`rounding.dfy`): `round(x, 2)`, that is, to the nearest
  hundredth with exact ties going to the even neighbour, on exact reals.
- `Prices` (`prices.dfy`): the `Pick` record, and the market-data provider
  as an oracle `string -> Option<seq<real>>`. The oracle gives the `Close`
  column of the last trading day, or `None` when the lookup raises. The
  module also has `get_current_price` and the percentage-change formula.
- `Leaderboard` (`leaderboard.dfy`): the results loop as a method with a loop
  invariant, proved against the function `Results`. Also the sort, the rank
  assignment, the whole pipeline `ComputeLeaderboard`, and lemmas about the
  table it produces.
- `Scenarios` (`scenarios.dfy`): one worked input. It has four picks: one
  rises, one falls, one lookup fails, and one has an unsupported type.

`SortResults` sorts by insertion (`SortByPct`), but its contract promises
only that the result is sorted non-increasing by `pct_change` and is a
permutation of the results. Every later step and every lemma uses that
contract alone. pandas' default sort is not stable and its documentation
leaves the order of tied rows unspecified, so nothing is claimed about that
order. Instead, `LeaderboardPctColumnDetermined` proves that any two tables
meeting the contract have the same `pct_change` at every rank, and
`LeaderboardDeterminedWithoutTies` proves that when no two results tie, the
whole table is the same.

Three behaviours of the code are worth spelling out, because they affect
which inputs the model accepts and what it returns:

- When no pick has a price, `pd.DataFrame([])` at line 51 has no
  `pct_change` column, so the `sort_values` call at line 52 raises
  `KeyError`. `ComputeLeaderboard` returns `Failure(KeyError("pct_change"))`
  in exactly that case.
- Line 42 divides by `start_price` with no check. The model requires a
  non-zero start price only for the picks whose price lookup succeeds,
  because only those reach the division.
- Line 52 sorts on the rounded change from line 48, not on the exact one.
  `RoundedSortRespectsExactOrder` shows that a pick is ranked above one with
  a higher exact change only when the two round to the same value.

## Model

| member | source | states |
|---|---|---|
| `Rounding.RoundHalfEven` | fantasy_stock_dashboard.py:47-48 | the result is an integer within one half of the input, and an exact tie goes to the even integer |
| `Rounding.Round2` | fantasy_stock_dashboard.py:47-48 | `round(x, 2)` has at most two decimal places and is within 0.005 of x |
| `Rounding.Round2Monotone` | fantasy_stock_dashboard.py:47-48 | `round(x, 2)` is monotone: it never reverses the order of two values |
| `Rounding.Round2OfCents` | fantasy_stock_dashboard.py:47-48 | a value that already has two decimal places is unchanged by rounding |
| `Prices.GetCurrentPrice` | fantasy_stock_dashboard.py:18-24 | a price comes back exactly when the type is "stock" or "crypto", the lookup does not raise and the history is not empty; the price is the last close; any other type, or a lookup that raises, gives None |
| `Prices.PctChange` | fantasy_stock_dashboard.py:42 | applying the change to the start price gives the current price back; for a positive start price the change is positive exactly when the price rose and zero exactly when it did not move |
| `Leaderboard.MakeRow` | fantasy_stock_dashboard.py:42-49 | name, ticker and start price are copied from the pick; the current price and the change have two decimal places and are within 0.005 of the unrounded values |
| `Leaderboard.Results` | fantasy_stock_dashboard.py:38-49 | the loop adds at most one row per pick |
| `Leaderboard.PricedIndicesExact` | fantasy_stock_dashboard.py:38-41 | the positions of the picks that pass the `is not None` test are in range and strictly increasing, and a position is listed exactly when that pick has a price |
| `Leaderboard.ResultsFollowInputOrder` | fantasy_stock_dashboard.py:38-49 | before sorting, `results` has one row per priced pick, and row k belongs to the k-th priced pick in input order |
| `Leaderboard.ResultsSnoc` | fantasy_stock_dashboard.py:39-49 | one more pick at the end of the input adds its own row at the end of `results` when it has a price, and nothing otherwise |
| `Leaderboard.ResultsAppend` | fantasy_stock_dashboard.py:38-49 | the results of a concatenated input are the results of the two parts, end to end |
| `Leaderboard.UnpricedPickHasNoRow` | fantasy_stock_dashboard.py:40-41 | a pick without a price gives no row |
| `Leaderboard.DropUnpricedPick` | fantasy_stock_dashboard.py:18-24 | a pick of an unsupported type, or one whose lookup fails, changes nothing: removing it from anywhere in the input leaves the results the same |
| `Leaderboard.SortByPct` | fantasy_stock_dashboard.py:52 | inserting the rows one by one gives a sequence sorted highest change first that is a permutation of the rows |
| `Leaderboard.RanksAreOneToN` | fantasy_stock_dashboard.py:53 | ranks set from position + 1 lie in 1..N, every value in 1..N occurs, and no two rows share a rank |
| `Leaderboard.CollectResults` | fantasy_stock_dashboard.py:38-49 | the loop over the picks leaves `results` equal to `Results(picks)` |
| `Leaderboard.SortResults` | fantasy_stock_dashboard.py:52 | the sorted rows are non-increasing in `pct_change` and are a permutation of the results |
| `Leaderboard.AssignRanks` | fantasy_stock_dashboard.py:52-53 | row i of the table is sorted row i with rank i + 1 |
| `Leaderboard.ComputeLeaderboard` | fantasy_stock_dashboard.py:38-53 | it fails with `KeyError("pct_change")` exactly when no pick has a price; otherwise it returns one row per priced pick, with ranks 1..N by position, sorted highest change first, and the rows are a permutation of the results |
| `Leaderboard.UnpricedPickLeavesLeaderboard` | fantasy_stock_dashboard.py:38-53 | after a pick that fails, exactly the tables that would be valid without it are valid: every other row keeps its data, and the ranks close up with no gap |
| `Leaderboard.SortedSameKeys` | fantasy_stock_dashboard.py:52 | two orderings of the same rows that are both sorted highest change first have the same length and the same change at every position |
| `Leaderboard.LeaderboardPctColumnDetermined` | fantasy_stock_dashboard.py:51-53 | two runs on the same prices give tables of the same length with the same `pct_change` at every rank; only tied rows can change places |
| `Leaderboard.RoundedSortRespectsExactOrder` | fantasy_stock_dashboard.py:42-52 | in the table, a row above another comes from a pick whose exact change is no lower, unless the two changes are equal once rounded |
| `Leaderboard.LeaderboardDeterminedWithoutTies` | fantasy_stock_dashboard.py:51-53 | when no two results have the same change, two runs on the same prices give the same table |
| `Scenarios.ScenarioResults` | fantasy_stock_dashboard.py:18-49 | for the worked input, `results` holds only A (+10.00%) and B (-10.00%), in input order; the pick whose lookup raises and the "nft" pick are gone |
| `Scenarios.ScenarioLeaderboard` | fantasy_stock_dashboard.py:51-53 | every leaderboard of the worked input ranks A first and B second |
| `Scenarios.RunScenario` | fantasy_stock_dashboard.py:38-53 | the pipeline run on the worked input returns exactly that two-row table |

## Left out

- Streamlit page setup, title, text, table rendering and caption (lines 26-32 and 55-60) are presentation only. Column selection and display formatting are out too.
- Reading `starting_prices.csv` and the `@st.cache_data` memoisation (lines 14-16) are file I/O and framework caching. The input is a given `seq<Pick>` in file order.
- The `yfinance` call (line 21) is network access through a foreign library. It becomes the `Provider` oracle. Its bare `except` corresponds to the oracle's `None`, plus the empty-history case, which the model handles itself.
- `Prices.Provider`: one run gives every pick with the same ticker the same lookup outcome and the same closes. The program calls `yf.Ticker(ticker).history` afresh for each row (lines 21 and 39-40). So two picks of the same ticker could see one call raise and the other succeed, or get different last closes during market hours. No theorem here covers such a run. The oracle is keyed on the ticker so that a pick's row does not depend on its position, which the drop and append lemmas rely on.
- `START_TIME` and `END_TIME` (lines 9-10) are never used.
- IEEE floating point is not modelled: prices and changes are exact reals. So binary representation effects on `round` are not modelled, and neither are NaN or infinite closes.
- `Leaderboard.ComputeLeaderboard`: requires a non-zero start price for every pick whose price is found. With a zero start price, numpy would produce an infinite or NaN change, and exact reals cannot express that.
- The sorting algorithm pandas uses and its handling of ties are not modelled. pandas leaves the order of tied rows unspecified, so the contract of `SortResults` allows any order for them. The insertion sort in its body is not a model of pandas' algorithm.
