/** The price index over the AssetPrice table (`Asset.getPrice`): a time series
    of (asset, timestamp, price) rows, searched for the price nearest a time. */
module Asset {
  import opened Common

  /** One AssetPrice row; timestamps are milliseconds since the epoch. */
  datatype PriceRow = PriceRow(assetId: int, timestamp: int, price: real)

  /** The WHERE clause of the backward lookup: this asset, and at or before
      the bound when there is one (`None` is a query with no time filter). */
  predicate AtOrBefore(p: PriceRow, id: int, bound: Option<int>)
  {
    p.assetId == id && (bound.None? || p.timestamp <= bound.value)
  }

  /** The WHERE clause of the forward lookup: this asset, strictly after `time`. */
  predicate After(p: PriceRow, id: int, time: int)
  {
    p.assetId == id && p.timestamp > time
  }

  predicate HasRows(rows: seq<PriceRow>, id: int)
  {
    exists i :: 0 <= i < |rows| && rows[i].assetId == id
  }

  /** `WHERE AssetId = id AND Timestamp <= bound ORDER BY Timestamp DESC LIMIT 1`:
      a matching row with the greatest timestamp, if any row matches. */
  function LatestAtOrBefore(rows: seq<PriceRow>, id: int, bound: Option<int>): (r: Option<PriceRow>)
    ensures r.Some? <==> exists i :: 0 <= i < |rows| && AtOrBefore(rows[i], id, bound)
    ensures r.Some? ==> r.value in rows && AtOrBefore(r.value, id, bound)
    ensures r.Some? ==> forall i :: 0 <= i < |rows| && AtOrBefore(rows[i], id, bound) ==>
                                    rows[i].timestamp <= r.value.timestamp
  {
    if |rows| == 0 then None
    else
      var rest := LatestAtOrBefore(rows[1..], id, bound);
      if !AtOrBefore(rows[0], id, bound) then rest
      else if rest.None? || rest.value.timestamp < rows[0].timestamp then Some(rows[0])
      else rest
  }

  /** `WHERE AssetId = id AND Timestamp > time ORDER BY Timestamp LIMIT 1`:
      a matching row with the least timestamp, if any row matches. */
  function EarliestAfter(rows: seq<PriceRow>, id: int, time: int): (r: Option<PriceRow>)
    ensures r.Some? <==> exists i :: 0 <= i < |rows| && After(rows[i], id, time)
    ensures r.Some? ==> r.value in rows && After(r.value, id, time)
    ensures r.Some? ==> forall i :: 0 <= i < |rows| && After(rows[i], id, time) ==>
                                    r.value.timestamp <= rows[i].timestamp
  {
    if |rows| == 0 then None
    else
      var rest := EarliestAfter(rows[1..], id, time);
      if !After(rows[0], id, time) then rest
      else if rest.None? || rows[0].timestamp < rest.value.timestamp then Some(rows[0])
      else rest
  }

  /** Independent statement of what the price lookup must return: the price of
      a latest row at or before `time`, or, when there is none, the price of an
      earliest row after it. */
  ghost predicate IsNearestPrice(rows: seq<PriceRow>, id: int, time: int, p: real)
  {
    if exists i :: 0 <= i < |rows| && AtOrBefore(rows[i], id, Some(time)) then
      exists i :: 0 <= i < |rows| && AtOrBefore(rows[i], id, Some(time)) && rows[i].price == p &&
        forall j :: 0 <= j < |rows| && AtOrBefore(rows[j], id, Some(time)) ==> rows[j].timestamp <= rows[i].timestamp
    else
      exists i :: 0 <= i < |rows| && After(rows[i], id, time) && rows[i].price == p &&
        forall j :: 0 <= j < |rows| && After(rows[j], id, time) ==> rows[i].timestamp <= rows[j].timestamp
  }

  /** The row `getPrice` reads its price from. A null time (an undefined Date
      bound into the query) makes both comparisons unknown, so both lookups
      come back empty and the lookup fails. */
  function GetPriceRow(rows: seq<PriceRow>, id: int, time: Option<int>): (r: Result<PriceRow>)
    ensures r.Ok? <==> time.Some? && HasRows(rows, id)
    ensures r.Err? ==> r.error == PriceNotFound(id)
    ensures r.Ok? ==> r.value in rows && r.value.assetId == id
    ensures r.Ok? ==> (r.value.timestamp <= time.value <==>
                       exists i :: 0 <= i < |rows| && AtOrBefore(rows[i], id, time))
  {
    if time.None? then Err(PriceNotFound(id))
    else
      match LatestAtOrBefore(rows, id, time)
      case Some(row) => Ok(row)
      case None =>
        var later := EarliestAfter(rows, id, time.value);
        if later.Some? then Ok(later.value)
        else
          assert forall i :: 0 <= i < |rows| && rows[i].assetId == id ==>
            AtOrBefore(rows[i], id, time) || After(rows[i], id, time.value);
          Err(PriceNotFound(id))
  }

  /** `Asset.getPrice`: the nearest price of asset `id` to `time`. */
  function GetPrice(rows: seq<PriceRow>, id: int, time: Option<int>): (r: Result<real>)
    ensures r.Ok? <==> time.Some? && HasRows(rows, id)
    ensures r.Err? ==> r.error == PriceNotFound(id)
    ensures r.Ok? ==> IsNearestPrice(rows, id, time.value, r.value)
  {
    match GetPriceRow(rows, id, time)
    case Ok(row) =>
      PriceRowIsNearest(rows, id, time.value);
      Ok(row.price)
    case Err(e) => Err(e)
  }

  lemma PriceRowIsNearest(rows: seq<PriceRow>, id: int, time: int)
    requires HasRows(rows, id)
    ensures IsNearestPrice(rows, id, time, GetPriceRow(rows, id, Some(time)).value.price)
  {
  }

  /** When an asset never has two price rows with the same timestamp, the
      nearest price is unique, so `GetPrice` is the only admissible answer. */
  lemma NearestPriceUnique(rows: seq<PriceRow>, id: int, time: int, p: real, q: real)
    requires forall i, j :: 0 <= i < j < |rows| && rows[i].assetId == id && rows[j].assetId == id ==>
               rows[i].timestamp != rows[j].timestamp
    requires IsNearestPrice(rows, id, time, p) && IsNearestPrice(rows, id, time, q)
    ensures p == q
  {
  }

  /** A row stamped exactly at `time` belongs to the backward lookup, so the
      chosen row is never a look-ahead when such a row exists. */
  lemma ExactTimeIsNotLookahead(rows: seq<PriceRow>, id: int, time: int)
    requires exists i :: 0 <= i < |rows| && rows[i].assetId == id && rows[i].timestamp == time
    ensures GetPriceRow(rows, id, Some(time)).Ok?
    ensures GetPriceRow(rows, id, Some(time)).value.timestamp == time
  {
  }

  /** The rows of asset `id`, in table order. */
  function RowsOf(rows: seq<PriceRow>, id: int): (r: seq<PriceRow>)
    ensures forall p :: p in r <==> p in rows && p.assetId == id
  {
    if |rows| == 0 then []
    else if rows[0].assetId == id then [rows[0]] + RowsOf(rows[1..], id)
    else RowsOf(rows[1..], id)
  }

  lemma {:induction false} LatestIgnoresOtherAssets(rows: seq<PriceRow>, id: int, bound: Option<int>)
    ensures LatestAtOrBefore(RowsOf(rows, id), id, bound) == LatestAtOrBefore(rows, id, bound)
  {
    if |rows| > 0 {
      LatestIgnoresOtherAssets(rows[1..], id, bound);
      if rows[0].assetId == id {
        assert RowsOf(rows, id)[1..] == RowsOf(rows[1..], id);
      }
    }
  }

  lemma {:induction false} EarliestIgnoresOtherAssets(rows: seq<PriceRow>, id: int, time: int)
    ensures EarliestAfter(RowsOf(rows, id), id, time) == EarliestAfter(rows, id, time)
  {
    if |rows| > 0 {
      EarliestIgnoresOtherAssets(rows[1..], id, time);
      if rows[0].assetId == id {
        assert RowsOf(rows, id)[1..] == RowsOf(rows[1..], id);
      }
    }
  }

  /** Rows of other assets never influence the price found for `id`. */
  lemma OtherAssetsIrrelevant(rows: seq<PriceRow>, id: int, time: Option<int>)
    ensures GetPrice(RowsOf(rows, id), id, time) == GetPrice(rows, id, time)
  {
    LatestIgnoresOtherAssets(rows, id, time);
    if time.Some? {
      EarliestIgnoresOtherAssets(rows, id, time.value);
    }
    assert HasRows(RowsOf(rows, id), id) <==> HasRows(rows, id) by {
      if HasRows(rows, id) {
        var i :| 0 <= i < |rows| && rows[i].assetId == id;
        assert rows[i] in RowsOf(rows, id);
      }
      if HasRows(RowsOf(rows, id), id) {
        var i :| 0 <= i < |RowsOf(rows, id)| && RowsOf(rows, id)[i].assetId == id;
        assert RowsOf(rows, id)[i] in rows;
      }
    }
  }
}
