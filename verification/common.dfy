/** Shared vocabulary: optional values, results and the error conditions the
    synchronization engine and its collaborators raise. */
module Common {

  datatype Option<+T> = None | Some(value: T)

  /** Every `throw new Error(...)` (and every runtime TypeError the code runs
      into) that the model reproduces, one constructor per distinct message. */
  datatype Error =
    | SyncBlockNull(networkId: int)          // Network row missing or SyncBlock null
    | FundAddressUnknown(address: string)    // live event from an unknown contract
    | AssetTickerMissing(ticker: string)     // no BTC / ETH asset row at setup
    | NetworkSyncBlockNull(name: string)     // startup check over all networks
    | UserAddressMissing
    | AssetAddressMissing
    | AmountMissing
    | TxHashMissing
    | AssetAddressUnknown(address: string)   // not in the address dictionary
    | AssetNotInFund(assetId: int)           // `new Asset(undefined)` fails
    | PriceNotFound(assetId: int)
    | UnknownChartType(chartType: string)
    | BadBalanceLengths(addresses: nat, balances: nat, weights: nat)
    | ReferencePriceMissing(assetId: int)    // no BTC / ETH price row at all
    | QuoteCountMismatch(assets: nat, quotes: nat)
    | QuotesNotSorted(apiId: int, lastApiId: int)

  datatype Result<+T> = Ok(value: T) | Err(error: Error)

  /** Exact value of an integer token amount with `decimals` decimal places. */
  function Pow10(decimals: nat): (p: nat)
    ensures p >= 1
  {
    if decimals == 0 then 1 else 10 * Pow10(decimals - 1)
  }

  /** `bigToNormal`: the raw on-chain integer scaled down by 10^decimals,
      computed exactly rather than rounded to a double. */
  function ToNormal(raw: int, decimals: nat): (r: real)
    ensures r * (Pow10(decimals) as real) == raw as real
    ensures (r < 0.0 <==> raw < 0) && (r == 0.0 <==> raw == 0)
  {
    raw as real / Pow10(decimals) as real
  }
}
