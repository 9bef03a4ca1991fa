/**
 * The price side of the dashboard: a participant's pick, the market-data
 * lookup behind `get_current_price`, and the percentage change since the
 * recorded starting price.
 */
module Prices {
  import opened Wrappers

  /** One row of the picks file: `name,ticker,type,start_price`. */
  datatype Pick = Pick(name: string, ticker: string, assetType: string, startPrice: real)

  /**
   * The market-data provider, as an oracle: for a ticker, the `Close` column
   * of its most recent trading day's history, or None when the lookup
   * raises (network error, unknown ticker, missing column).
   */
  type Provider = string -> Option<seq<real>>

  /** The asset types for which a price is looked up at all. */
  predicate IsSupportedType(assetType: string) {
    assetType == "stock" || assetType == "crypto"
  }

  /**
   * `get_current_price`: the last close reported for the ticker. Every
   * failure becomes None: an unsupported type (the function falls through),
   * a lookup that raises, and an empty history, whose `iloc[-1]` raises
   * inside the same `try`.
   */
  function GetCurrentPrice(ticker: string, assetType: string, provider: Provider): (r: Option<real>)
    ensures !IsSupportedType(assetType) ==> r == None
    ensures provider(ticker) == None ==> r == None
    ensures r.Some? <==> IsSupportedType(assetType) && provider(ticker).Some? && provider(ticker).value != []
    ensures r.Some? ==> var closes := provider(ticker).value; r.value == closes[|closes| - 1]
  {
    if IsSupportedType(assetType) then
      match provider(ticker)
      case None => None
      case Some(closes) => if closes == [] then None else Some(closes[|closes| - 1])
    else
      None
  }

  /** Percentage change from the start price to the current price. */
  function PctChange(start: real, current: real): (pct: real)
    requires start != 0.0
    ensures start + start * pct / 100.0 == current
    ensures start > 0.0 ==> (pct > 0.0 <==> current > start) && (pct == 0.0 <==> current == start)
  {
    (current - start) / start * 100.0
  }
}
