/** Lookup dictionaries built from configuration rows, the startup check over
    the Network table, and the pinned reference-asset ids. */
module BlockLib {
  import opened Common
  import Asset

  /** Asset ids of the two reference currencies used for valuation. */
  const BtcAssetId: int := 1
  const EthAssetId: int := 2

  datatype AssetRow = AssetRow(id: int, ticker: string, decimals: nat, price: real, status: int, apiId: int)
  datatype FundAssetRow = FundAssetRow(fundId: int, assetId: int)
  datatype AssetAddressRow = AssetAddressRow(assetId: int, networkId: int, address: string, decimals: nat)
  datatype NetworkRow = NetworkRow(id: int, name: string, rpcUrl: string, syncBlock: Option<int>)

  /** What the address dictionary stores per on-chain address. */
  datatype AddressInfo = AddressInfo(id: int, decimals: nat, price: real)

  /** One row of the cross product `Asset a, AssetAddress aa`. */
  datatype JoinedRow = JoinedRow(asset: AssetRow, address: AssetAddressRow)

  /** `rows[i]` is the last row carrying its key. */
  ghost predicate LastWithKey<R, K>(rows: seq<R>, key: R -> K, i: int)
    requires 0 <= i < |rows|
  {
    forall j :: i < j < |rows| ==> key(rows[j]) != key(rows[i])
  }

  /** `for (...) dictionary[key(row)] = val(row)`: every row's key is in the
      map, and each key holds the value of the LAST row carrying it, so a later
      row overwrites an earlier one. */
  function KeyBy<R, K, V>(rows: seq<R>, key: R -> K, val: R -> V): (m: map<K, V>)
    ensures forall i :: 0 <= i < |rows| ==> key(rows[i]) in m
    ensures forall k :: k in m ==>
              (exists i :: 0 <= i < |rows| && key(rows[i]) == k && LastWithKey(rows, key, i) && m[k] == val(rows[i]))
  {
    if |rows| == 0 then map[]
    else
      var rest := KeyBy(rows[1..], key, val);
      assert forall i :: 1 <= i < |rows| && LastWithKey(rows[1..], key, i - 1) ==> LastWithKey(rows, key, i);
      if key(rows[0]) in rest then rest
      else
        assert LastWithKey(rows, key, 0);
        rest[key(rows[0]) := val(rows[0])]
  }

  /** The value under a row's key is that row's value exactly when no later
      row carries the same key. */
  lemma LaterRowWins<R, K, V>(rows: seq<R>, key: R -> K, val: R -> V, i: int)
    requires 0 <= i < |rows| && LastWithKey(rows, key, i)
    ensures KeyBy(rows, key, val)[key(rows[i])] == val(rows[i])
  {
  }

  /** Keeps the rows satisfying a WHERE predicate, in order. */
  function Filter<R>(rows: seq<R>, keep: R -> bool): (r: seq<R>)
    ensures |r| <= |rows|
    ensures forall i :: 0 <= i < |r| ==> r[i] in rows && keep(r[i])
    ensures forall i :: 0 <= i < |rows| && keep(rows[i]) ==> rows[i] in r
  {
    if |rows| == 0 then []
    else if keep(rows[0]) then [rows[0]] + Filter(rows[1..], keep)
    else Filter(rows[1..], keep)
  }

  /** Filtering keeps the order of the rows: filtering a concatenation
      concatenates the filtered parts. With a single row kept or dropped as
      `keep` says, this determines the result completely. */
  lemma {:induction false} FilterAppend<R>(a: seq<R>, b: seq<R>, keep: R -> bool)
    ensures Filter(a + b, keep) == Filter(a, keep) + Filter(b, keep)
    decreases |a|
  {
    if |a| == 0 {
      assert a + b == b;
    } else {
      assert (a + b)[0] == a[0];
      assert (a + b)[1..] == a[1..] + b;
      FilterAppend(a[1..], b, keep);
    }
  }

  /** Filtering keeps every copy of a row that passes and no copy of one
      that does not. */
  lemma {:induction false} FilterCount<R>(rows: seq<R>, keep: R -> bool, x: R)
    ensures multiset(Filter(rows, keep))[x] == if keep(x) then multiset(rows)[x] else 0
    decreases |rows|
  {
    if |rows| > 0 {
      FilterCount(rows[1..], keep, x);
      assert rows == [rows[0]] + rows[1..];
    }
  }

  /** `SELECT ... WHERE <condition>` read as `rows[0]`: the first row
      meeting the condition, if any. */
  function FindFirst<R(==)>(rows: seq<R>, matches: R -> bool): (r: Option<R>)
    ensures r.None? <==> forall i :: 0 <= i < |rows| ==> !matches(rows[i])
    ensures r.Some? ==> exists i :: 0 <= i < |rows| && rows[i] == r.value && matches(rows[i]) &&
                                    forall j :: 0 <= j < i ==> !matches(rows[j])
  {
    if |rows| == 0 then None
    else if matches(rows[0]) then Some(rows[0])
    else
      var r := FindFirst(rows[1..], matches);
      if r.Some? then
        var i :| 0 <= i < |rows| - 1 && rows[1..][i] == r.value && matches(rows[1..][i]) &&
                 forall j :: 0 <= j < i ==> !matches(rows[1..][j]);
        assert rows[i + 1] == r.value;
        r
      else r
  }

  /** The assets of fund `fundId` (`Asset a, FundAsset fa WHERE a.Id = fa.AssetId AND fa.FundId = ?`). */
  predicate InFund(a: AssetRow, fundAssets: seq<FundAssetRow>, fundId: int)
  {
    FundAssetRow(fundId, a.id) in fundAssets
  }

  /** `getAssetDictionary`: every asset of the fund, keyed by its own id. */
  function GetAssetDictionary(assets: seq<AssetRow>, fundAssets: seq<FundAssetRow>, fundId: int): (d: map<int, AssetRow>)
    ensures forall a :: a in assets && InFund(a, fundAssets, fundId) ==> a.id in d
    ensures forall k :: k in d ==> d[k].id == k && d[k] in assets && InFund(d[k], fundAssets, fundId)
  {
    var rows := Filter(assets, a => InFund(a, fundAssets, fundId));
    KeyBy(rows, (a: AssetRow) => a.id, (a: AssetRow) => a)
  }

  /** `getAssetIdDictionary`: the rows of the latest-price query, keyed by
      asset id, each holding the price of the last row for that asset. */
  function GetAssetIdDictionary(rows: seq<Asset.PriceRow>): (d: map<int, real>)
    ensures forall i :: 0 <= i < |rows| ==> rows[i].assetId in d
    ensures forall k :: k in d ==> exists i :: 0 <= i < |rows| && rows[i].assetId == k && d[k] == rows[i].price &&
                                               forall j :: i < j < |rows| ==> rows[j].assetId != k
  {
    var key := (p: Asset.PriceRow) => p.assetId;
    var d := KeyBy(rows, key, (p: Asset.PriceRow) => p.price);
    assert forall i, j :: 0 <= i < j < |rows| ==> (key(rows[j]) == key(rows[i]) <==> rows[j].assetId == rows[i].assetId);
    d
  }

  /** The WHERE clause of the address query. */
  predicate FeedsAddressDictionary(r: JoinedRow, networkId: int)
  {
    r.asset.id == r.address.assetId && r.address.networkId == networkId && r.asset.status == 1
  }

  /** The cross product `Asset a, AssetAddress aa`, one asset after another. */
  function CrossJoin(assets: seq<AssetRow>, addresses: seq<AssetAddressRow>): (r: seq<JoinedRow>)
    ensures forall i :: 0 <= i < |r| ==> r[i].asset in assets && r[i].address in addresses
    ensures forall a, aa :: a in assets && aa in addresses ==> JoinedRow(a, aa) in r
  {
    if |assets| == 0 then []
    else
      var first := seq(|addresses|, i requires 0 <= i < |addresses| => JoinedRow(assets[0], addresses[i]));
      assert forall i :: 0 <= i < |addresses| ==> JoinedRow(assets[0], addresses[i]) in first by {
        forall i | 0 <= i < |addresses| ensures JoinedRow(assets[0], addresses[i]) in first {
          assert first[i] == JoinedRow(assets[0], addresses[i]);
        }
      }
      first + CrossJoin(assets[1..], addresses)
  }

  /** The rows the address query returns: exactly the joined rows that meet
      the WHERE clause (active asset, this network). */
  function AddressQuery(assets: seq<AssetRow>, addresses: seq<AssetAddressRow>, networkId: int): (r: seq<JoinedRow>)
    ensures forall i :: 0 <= i < |r| ==>
              r[i].asset in assets && r[i].address in addresses && FeedsAddressDictionary(r[i], networkId)
    ensures forall a, aa :: a in assets && aa in addresses && FeedsAddressDictionary(JoinedRow(a, aa), networkId) ==>
              JoinedRow(a, aa) in r
  {
    var joined := CrossJoin(assets, addresses);
    Filter(joined, r => FeedsAddressDictionary(r, networkId))
  }

  function Info(r: JoinedRow): AddressInfo
  {
    AddressInfo(r.asset.id, r.address.decimals, r.asset.price)
  }

  /** The loop of `getAssetAddressDictionary` over the query rows: each row's
      address maps to that row's {id, decimals, price}, the last row winning
      for a repeated address. */
  function AddressDictionary(rows: seq<JoinedRow>): (d: map<string, AddressInfo>)
    ensures forall i :: 0 <= i < |rows| ==> rows[i].address.address in d
    ensures forall k :: k in d ==> exists i :: 0 <= i < |rows| && rows[i].address.address == k && d[k] == Info(rows[i])
    ensures forall i :: 0 <= i < |rows| && LastWithKey(rows, (r: JoinedRow) => r.address.address, i) ==>
              d[rows[i].address.address] == Info(rows[i])
  {
    var d := KeyBy(rows, (r: JoinedRow) => r.address.address, Info);
    forall i | 0 <= i < |rows| && LastWithKey(rows, (r: JoinedRow) => r.address.address, i)
      ensures d[rows[i].address.address] == Info(rows[i])
    {
      LaterRowWins(rows, (r: JoinedRow) => r.address.address, Info, i);
    }
    d
  }

  /** `getAssetAddressDictionary`: the addresses of active assets on the
      network are exactly the keys, and each maps to the information of an
      asset/address pair with that address. */
  function GetAssetAddressDictionary(assets: seq<AssetRow>, addresses: seq<AssetAddressRow>, networkId: int)
    : (d: map<string, AddressInfo>)
    ensures forall a, aa :: a in assets && aa in addresses && FeedsAddressDictionary(JoinedRow(a, aa), networkId) ==>
              aa.address in d
    ensures forall k :: k in d ==>
              (exists a, aa :: a in assets && aa in addresses && FeedsAddressDictionary(JoinedRow(a, aa), networkId) &&
                 aa.address == k && d[k] == Info(JoinedRow(a, aa)))
  {
    AddressQueryDictionary(assets, addresses, networkId);
    AddressDictionary(AddressQuery(assets, addresses, networkId))
  }

  lemma AddressQueryDictionary(assets: seq<AssetRow>, addresses: seq<AssetAddressRow>, networkId: int)
    ensures var d := AddressDictionary(AddressQuery(assets, addresses, networkId));
      forall k :: k in d ==>
        (exists a, aa :: a in assets && aa in addresses && FeedsAddressDictionary(JoinedRow(a, aa), networkId) &&
           aa.address == k && d[k] == Info(JoinedRow(a, aa)))
  {
  }

  /** Index of the first network whose SyncBlock is null, if any. */
  function FirstNullSyncBlock(networks: seq<NetworkRow>): (r: Option<nat>)
    ensures r.None? <==> forall i :: 0 <= i < |networks| ==> networks[i].syncBlock.Some?
    ensures r.Some? ==> r.value < |networks| && networks[r.value].syncBlock.None? &&
                        forall i :: 0 <= i < r.value ==> networks[i].syncBlock.Some?
  {
    if |networks| == 0 then None
    else if networks[0].syncBlock.None? then Some(0)
    else
      match FirstNullSyncBlock(networks[1..])
      case None => None
      case Some(k) => Some(k + 1)
  }

  /** State left by `initialize`: the rpc endpoints registered so far (a
      provider is identified by its URL) and the error it stopped with. */
  datatype InitState = InitState(rpcs: map<int, string>, failure: Option<Error>)

  /** `initialize`: walks the networks in order, registering each one's rpc
      endpoint, and throws at the first network whose SyncBlock is null. */
  function Initialize(networks: seq<NetworkRow>): (s: InitState)
    ensures s.failure.None? <==> forall i :: 0 <= i < |networks| ==> networks[i].syncBlock.Some?
    ensures s.failure.None? ==> Registered(networks, s.rpcs)
    ensures s.failure.Some? ==>
              (exists k :: 0 <= k < |networks| && networks[k].syncBlock.None? &&
                 s.failure.value == NetworkSyncBlockNull(networks[k].name) &&
                 (forall i :: 0 <= i < k ==> networks[i].syncBlock.Some?) &&
                 Registered(networks[..k], s.rpcs))
  {
    var stop := FirstNullSyncBlock(networks);
    var upTo := if stop.Some? then stop.value else |networks|;
    var reached := networks[..upTo];
    var rpcs := KeyBy(reached, (n: NetworkRow) => n.id, (n: NetworkRow) => n.rpcUrl);
    NetworkKeys(reached, rpcs);
    assert stop.None? ==> reached == networks;
    if stop.Some? then InitState(rpcs, Some(NetworkSyncBlockNull(networks[upTo].name)))
    else InitState(rpcs, None)
  }

  /** `rpcs` holds the endpoints registered for the networks `reached`:
      its keys are exactly their ids, and each id maps to the RPC URL of the
      last of them carrying it (`rpcs[Id] = ...` overwrites). */
  ghost predicate Registered(reached: seq<NetworkRow>, rpcs: map<int, string>)
  {
    && rpcs.Keys == (set i | 0 <= i < |reached| :: reached[i].id)
    && forall id :: id in rpcs ==>
         exists i :: 0 <= i < |reached| && reached[i].id == id && rpcs[id] == reached[i].rpcUrl &&
                     forall j :: i < j < |reached| ==> reached[j].id != id
  }

  /** The endpoints registered for the networks reached are keyed by exactly
      their ids, each holding the last such network's URL. */
  lemma NetworkKeys(reached: seq<NetworkRow>, rpcs: map<int, string>)
    requires rpcs == KeyBy(reached, (n: NetworkRow) => n.id, (n: NetworkRow) => n.rpcUrl)
    ensures Registered(reached, rpcs)
  {
    var key := (n: NetworkRow) => n.id;
    var url := (n: NetworkRow) => n.rpcUrl;
    KeyByKeys(reached, key, url);
    assert forall i :: 0 <= i < |reached| ==> key(reached[i]) == reached[i].id && url(reached[i]) == reached[i].rpcUrl;
  }

  /** The keys of a dictionary built with `KeyBy` are exactly the rows' keys. */
  lemma KeyByKeys<R, K, V>(rows: seq<R>, key: R -> K, val: R -> V)
    ensures KeyBy(rows, key, val).Keys == set i | 0 <= i < |rows| :: key(rows[i])
  {
  }
}
