/** The validation and row-building parts of the periodic fund snapshot:
    `getFundTokenBalances` (per-asset balances and weights of a fund contract)
    and `getFundValue` (reference prices and invested totals). */
module Snapshoter {
  import opened Common
  import Asset
  import BlockLib

  /** Weights are 18-decimal fixed-point integers on chain. */
  const WeightDecimals: nat := 18

  /** One tuple of `INSERT INTO FundAssetBalance (FundId, AssetId, Weight, Balance, Price)`. */
  datatype BalanceRow = BalanceRow(fundId: int, assetId: int, weight: real, balance: real, price: real)
  /** One `UPDATE FundAsset SET Weight, Balance WHERE FundId AND AssetId`. */
  datatype FundAssetUpdate = FundAssetUpdate(fundId: int, assetId: int, weight: real, balance: real)
  /** The single multi-statement query the snapshot sends. */
  datatype BalanceStatement = BalanceStatement(inserts: seq<BalanceRow>, updates: seq<FundAssetUpdate>)

  /** What the contract's i-th (address, balance, weight) triple becomes. */
  function BalanceOf(fundId: int, info: BlockLib.AddressInfo, balance: int, weight: int): BalanceRow
  {
    BalanceRow(fundId, info.id, ToNormal(weight, WeightDecimals), ToNormal(balance, info.decimals), info.price)
  }

  function UpdateOf(row: BalanceRow): FundAssetUpdate
  {
    FundAssetUpdate(row.fundId, row.assetId, row.weight, row.balance)
  }

  /** The loop of `getFundTokenBalances`: one row per position, stopping at
      the first address missing from the dictionary. */
  function BalanceRows(fundId: int, dict: map<string, BlockLib.AddressInfo>,
                       addresses: seq<string>, balances: seq<int>, weights: seq<int>): (r: Result<seq<BalanceRow>>)
    requires |balances| == |addresses| == |weights|
    ensures r.Ok? <==> forall i :: 0 <= i < |addresses| ==> addresses[i] in dict
    ensures r.Ok? ==> |r.value| == |addresses|
    ensures r.Ok? ==> forall i :: 0 <= i < |addresses| ==>
              r.value[i] == BalanceOf(fundId, dict[addresses[i]], balances[i], weights[i])
    ensures r.Err? ==>
              (exists k :: 0 <= k < |addresses| && addresses[k] !in dict &&
                 (forall i :: 0 <= i < k ==> addresses[i] in dict) && r.error == AssetAddressUnknown(addresses[k]))
  {
    if |addresses| == 0 then Ok([])
    else if addresses[0] !in dict then Err(AssetAddressUnknown(addresses[0]))
    else
      match BalanceRows(fundId, dict, addresses[1..], balances[1..], weights[1..])
      case Ok(rest) => Ok([BalanceOf(fundId, dict[addresses[0]], balances[0], weights[0])] + rest)
      case Err(e) =>
        var k :| 0 <= k < |addresses| - 1 && addresses[1..][k] !in dict &&
                 (forall i :: 0 <= i < k ==> addresses[1..][i] in dict) && e == AssetAddressUnknown(addresses[1..][k]);
        assert addresses[k + 1] !in dict && forall i :: 0 <= i < k + 1 ==> addresses[i] in dict;
        Err(e)
  }

  /** `getFundTokenBalances` after the contract reads: the length checks, then
      the per-address lookups, and only if all pass the statement to send. The
      i-th insert and update pair `addresses[i]` with `balances[i]` and
      `weights[i]`. */
  function GetFundTokenBalances(fundId: int, dict: map<string, BlockLib.AddressInfo>,
                                addresses: seq<string>, balances: seq<int>, weights: seq<int>): (r: Result<BalanceStatement>)
    ensures r.Ok? <==> |addresses| > 0 && |balances| == |addresses| && |weights| == |addresses| &&
                       forall i :: 0 <= i < |addresses| ==> addresses[i] in dict
    ensures (|addresses| == 0 || |balances| != |addresses| || |weights| != |addresses|) ==>
              r == Err(BadBalanceLengths(|addresses|, |balances|, |weights|))
    ensures r.Err? && |addresses| > 0 && |balances| == |addresses| && |weights| == |addresses| ==>
              (exists k :: 0 <= k < |addresses| && addresses[k] !in dict &&
                 (forall i :: 0 <= i < k ==> addresses[i] in dict) && r.error == AssetAddressUnknown(addresses[k]))
    ensures r.Ok? ==> |r.value.inserts| == |addresses| && |r.value.updates| == |addresses|
    ensures r.Ok? ==> forall i :: 0 <= i < |addresses| ==>
              var info := dict[addresses[i]];
              && r.value.inserts[i] == BalanceRow(fundId, info.id, ToNormal(weights[i], WeightDecimals),
                                                  ToNormal(balances[i], info.decimals), info.price)
              && r.value.updates[i] == FundAssetUpdate(fundId, info.id, r.value.inserts[i].weight, r.value.inserts[i].balance)
  {
    if |addresses| == 0 || |addresses| != |balances| || |addresses| != |weights| then
      Err(BadBalanceLengths(|addresses|, |balances|, |weights|))
    else
      match BalanceRows(fundId, dict, addresses, balances, weights)
      case Err(e) => Err(e)
      case Ok(rows) => Ok(BalanceStatement(rows, seq(|rows|, i requires 0 <= i < |rows| => UpdateOf(rows[i]))))
  }

  /** The invested totals written into a snapshot: a null USD sum (no
      transactions) zeroes all three; otherwise USD is kept and a null BTC or
      ETH sum becomes 0. */
  function InvestedTotals(sumUsd: Option<real>, sumBtc: Option<real>, sumEth: Option<real>): (r: (real, real, real))
    ensures sumUsd.None? ==> r == (0.0, 0.0, 0.0)
    ensures sumUsd.Some? ==> r.0 == sumUsd.value
    ensures sumUsd.Some? ==> (r.1 == if sumBtc.Some? then sumBtc.value else 0.0)
    ensures sumUsd.Some? ==> (r.2 == if sumEth.Some? then sumEth.value else 0.0)
  {
    if sumUsd.None? then (0.0, 0.0, 0.0)
    else (sumUsd.value, if sumBtc.None? then 0.0 else sumBtc.value, if sumEth.None? then 0.0 else sumEth.value)
  }

  /** One `INSERT INTO FundValue` row. */
  datatype FundValueRow = FundValueRow(fundId: int, tokenSupply: real, priceToken: real, priceBtc: real, priceEth: real,
                                       investedUsd: real, investedBtc: real, investedEth: real)

  /** `getFundValue` given the token supply and price (computed elsewhere),
      the AssetPrice table and the three transaction sums: the newest BTC and
      ETH prices are required, BTC checked first. */
  function GetFundValue(fundId: int, tokenSupply: real, tokenPrice: real, prices: seq<Asset.PriceRow>,
                        sumUsd: Option<real>, sumBtc: Option<real>, sumEth: Option<real>): (r: Result<FundValueRow>)
    ensures r.Ok? <==> Asset.HasRows(prices, BlockLib.BtcAssetId) && Asset.HasRows(prices, BlockLib.EthAssetId)
    ensures !Asset.HasRows(prices, BlockLib.BtcAssetId) ==> r == Err(ReferencePriceMissing(BlockLib.BtcAssetId))
    ensures Asset.HasRows(prices, BlockLib.BtcAssetId) && !Asset.HasRows(prices, BlockLib.EthAssetId) ==>
              r == Err(ReferencePriceMissing(BlockLib.EthAssetId))
    ensures r.Ok? ==> IsNewestPrice(prices, BlockLib.BtcAssetId, r.value.priceBtc)
    ensures r.Ok? ==> IsNewestPrice(prices, BlockLib.EthAssetId, r.value.priceEth)
    ensures r.Ok? ==> (r.value.investedUsd, r.value.investedBtc, r.value.investedEth) == InvestedTotals(sumUsd, sumBtc, sumEth)
    ensures r.Ok? ==> r.value.fundId == fundId && r.value.tokenSupply == tokenSupply && r.value.priceToken == tokenPrice
  {
    var btc := Asset.LatestAtOrBefore(prices, BlockLib.BtcAssetId, None);
    var eth := Asset.LatestAtOrBefore(prices, BlockLib.EthAssetId, None);
    if btc.None? then
      assert !Asset.HasRows(prices, BlockLib.BtcAssetId) by {
        assert forall i :: 0 <= i < |prices| ==> !Asset.AtOrBefore(prices[i], BlockLib.BtcAssetId, None);
      }
      Err(ReferencePriceMissing(BlockLib.BtcAssetId))
    else if eth.None? then
      assert !Asset.HasRows(prices, BlockLib.EthAssetId) by {
        assert forall i :: 0 <= i < |prices| ==> !Asset.AtOrBefore(prices[i], BlockLib.EthAssetId, None);
      }
      Err(ReferencePriceMissing(BlockLib.EthAssetId))
    else
      var (usd, b, e) := InvestedTotals(sumUsd, sumBtc, sumEth);
      Ok(FundValueRow(fundId, tokenSupply, tokenPrice, btc.value.price, eth.value.price, usd, b, e))
  }

  /** `p` is the price of a newest row of asset `id`
      (`ORDER BY Timestamp DESC LIMIT 1`). */
  ghost predicate IsNewestPrice(prices: seq<Asset.PriceRow>, id: int, p: real)
  {
    exists i :: 0 <= i < |prices| && prices[i].assetId == id && prices[i].price == p &&
      forall j :: 0 <= j < |prices| && prices[j].assetId == id ==> prices[j].timestamp <= prices[i].timestamp
  }
}
