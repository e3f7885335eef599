/** The validation and row-building part of the periodic price fetch
    (`PriceFetcher.getPrices`): quote the active assets, check the reply, and
    write one price row and one asset update per asset. */
module PriceFetcher {
  import opened Common
  import BlockLib

  /** One quote returned by the quote service. */
  datatype Quote = Quote(apiId: int, price: real, totalSupply: real)

  /** One tuple of `INSERT INTO AssetPrice (AssetId, Price, TotalSupply)`. */
  datatype PriceInsert = PriceInsert(assetId: int, price: real, totalSupply: real)
  /** One `UPDATE Asset SET Price WHERE Id`. */
  datatype AssetUpdate = AssetUpdate(assetId: int, price: real)
  datatype PriceStatement = PriceStatement(inserts: seq<PriceInsert>, updates: seq<AssetUpdate>)

  /** What one fetch does: nothing at all (no active assets), or send a quote
      request and then either fail or send one statement. */
  datatype FetchOutcome =
    | NothingToFetch
    | Fetched(request: seq<int>, result: Result<PriceStatement>)

  /** The quote request: the assets' ApiIds, in asset order. */
  function ApiIds(assets: seq<BlockLib.AssetRow>): (ids: seq<int>)
    ensures |ids| == |assets|
    ensures forall i :: 0 <= i < |assets| ==> ids[i] == assets[i].apiId
  {
    seq(|assets|, i requires 0 <= i < |assets| => assets[i].apiId)
  }

  /** The running bound the i-th quote is compared with: the starting bound
      for the first quote, the previous quote's apiId after that. */
  function Prev(quotes: seq<Quote>, last: int, i: int): int
    requires 0 <= i < |quotes|
  {
    if i == 0 then last else quotes[i - 1].apiId
  }

  /** The ordering check over the quotes: the first quote whose apiId is
      below the running bound. */
  function FirstUnsorted(quotes: seq<Quote>, last: int): (r: Option<nat>)
    ensures r.None? <==> forall i :: 0 <= i < |quotes| ==> Prev(quotes, last, i) <= quotes[i].apiId
    ensures r.Some? ==> r.value < |quotes| && quotes[r.value].apiId < Prev(quotes, last, r.value)
    ensures r.Some? ==> forall i :: 0 <= i < r.value ==> Prev(quotes, last, i) <= quotes[i].apiId
    decreases |quotes|
  {
    if |quotes| == 0 then None
    else if quotes[0].apiId < last then Some(0)
    else
      var tail := quotes[1..];
      assert forall i :: 0 <= i < |tail| ==> Prev(tail, quotes[0].apiId, i) == Prev(quotes, last, i + 1) &&
                                             tail[i] == quotes[i + 1];
      match FirstUnsorted(tail, quotes[0].apiId)
      case None => None
      case Some(k) => Some(k + 1)
  }

  /** Quote apiIds never decrease and start at or above 0. */
  predicate SortedFromZero(quotes: seq<Quote>)
  {
    (forall i :: 0 <= i < |quotes| ==> 0 <= quotes[i].apiId) &&
    (forall i, j :: 0 <= i < j < |quotes| ==> quotes[i].apiId <= quotes[j].apiId)
  }

  lemma {:induction false} AdjacentSorted(quotes: seq<Quote>)
    requires forall i :: 0 < i < |quotes| ==> quotes[i - 1].apiId <= quotes[i].apiId
    ensures forall i, j :: 0 <= i < j < |quotes| ==> quotes[i].apiId <= quotes[j].apiId
    decreases |quotes|
  {
    if |quotes| > 1 {
      var init := quotes[..|quotes| - 1];
      AdjacentSorted(init);
      assert forall i :: 0 <= i < |init| ==> init[i] == quotes[i];
      assert forall i :: 0 <= i < |init| ==> quotes[i].apiId <= quotes[|init| - 1].apiId;
    }
  }

  /** Passing the running-bound check from 0 is the same as being sorted
      from zero. */
  lemma RunningBoundSorted(quotes: seq<Quote>)
    ensures SortedFromZero(quotes) <==> forall i :: 0 <= i < |quotes| ==> Prev(quotes, 0, i) <= quotes[i].apiId
  {
    if forall i :: 0 <= i < |quotes| ==> Prev(quotes, 0, i) <= quotes[i].apiId {
      assert forall i :: 0 < i < |quotes| ==> Prev(quotes, 0, i) == quotes[i - 1].apiId;
      AdjacentSorted(quotes);
      if |quotes| > 0 {
        assert Prev(quotes, 0, 0) <= quotes[0].apiId;
        assert forall i :: 0 < i < |quotes| ==> quotes[0].apiId <= quotes[i].apiId;
      }
    }
  }

  /** `getPrices` from the active-asset query result and the quote service
      (a function from requested ApiIds to quotes). With no assets nothing is
      requested; otherwise the request lists the ApiIds in asset order, the
      reply must have one quote per asset in non-decreasing apiId order, and
      then the i-th insert and update pair `assets[i].id` with `quotes[i]`. */
  function GetPrices(assets: seq<BlockLib.AssetRow>, quoter: seq<int> -> seq<Quote>): (r: FetchOutcome)
    ensures |assets| == 0 <==> r.NothingToFetch?
    ensures r.Fetched? ==> r.request == ApiIds(assets)
    ensures r.Fetched? ==> var quotes := quoter(r.request);
      && (r.result.Ok? <==> |quotes| == |assets| && SortedFromZero(quotes))
      && (|quotes| != |assets| ==> r.result == Err(QuoteCountMismatch(|assets|, |quotes|)))
      && (|quotes| == |assets| && r.result.Err? ==> r.result.error.QuotesNotSorted?)
      && (r.result.Ok? ==> |r.result.value.inserts| == |assets| && |r.result.value.updates| == |assets|)
      && (r.result.Ok? ==> forall i :: 0 <= i < |assets| ==>
            r.result.value.inserts[i] == PriceInsert(assets[i].id, quotes[i].price, quotes[i].totalSupply) &&
            r.result.value.updates[i] == AssetUpdate(assets[i].id, quotes[i].price))
  {
    if |assets| == 0 then NothingToFetch
    else
      var request := ApiIds(assets);
      var quotes := quoter(request);
      if |assets| != |quotes| then Fetched(request, Err(QuoteCountMismatch(|assets|, |quotes|)))
      else
        match FirstUnsorted(quotes, 0)
        case Some(k) =>
          RunningBoundSorted(quotes);
          Fetched(request, Err(QuotesNotSorted(quotes[k].apiId, if k == 0 then 0 else quotes[k - 1].apiId)))
        case None =>
          RunningBoundSorted(quotes);
          var inserts := seq(|assets|, i requires 0 <= i < |assets| => PriceInsert(assets[i].id, quotes[i].price, quotes[i].totalSupply));
          var updates := seq(|assets|, i requires 0 <= i < |assets| => AssetUpdate(assets[i].id, quotes[i].price));
          Fetched(request, Ok(PriceStatement(inserts, updates)))
  }
}
