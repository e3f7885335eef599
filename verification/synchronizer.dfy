/** The event synchronization engine (`FundSynchronizer`): per-fund session
    setup, block time and reference-price caching, validation and idempotent
    recording of one `Transacted` event, and the chunked catch-up loop that
    advances the network's SyncBlock cursor. The chain (head heights, block
    timestamps, event logs) and the AssetPrice table are inputs. */
module Synchronizer {
  import opened Common
  import Asset
  import BlockLib
  import opened Ledger
  import opened EventMerge

  datatype FundRow = FundRow(id: int, ticker: string, address: string, networkId: int, status: int)

  /** Configuration tables read at session setup. */
  datatype Config = Config(assets: seq<BlockLib.AssetRow>, fundAssets: seq<BlockLib.FundAssetRow>,
                           addresses: seq<BlockLib.AssetAddressRow>)

  /** What `setup` caches for one fund. */
  datatype FundContext = FundContext(fundId: int, networkId: int,
                                     assetDict: map<int, BlockLib.AssetRow>,
                                     addrDict: map<string, BlockLib.AddressInfo>,
                                     btcId: int, ethId: int)

  /** The chain and price data the engine reads: the AssetPrice table and
      the timestamp (seconds) of each block. */
  datatype Env = Env(prices: seq<Asset.PriceRow>, blockTimestamp: int -> int)

  /** `id` is the id of the first asset row with the ticker, the row a
      `SELECT ... WHERE Ticker = ?` read as `rows[0]` returns. */
  ghost predicate FirstWithTicker(assets: seq<BlockLib.AssetRow>, ticker: string, id: int)
  {
    exists i :: 0 <= i < |assets| && assets[i].ticker == ticker && assets[i].id == id &&
                forall j :: 0 <= j < i ==> assets[j].ticker != ticker
  }

  /** `FundSynchronizer.setup`: the fund's asset dictionary, the network's
      address dictionary, then the BTC and ETH asset rows (BTC first). */
  function Setup(fund: FundRow, config: Config): (r: Result<FundContext>)
    ensures r.Ok? <==> (exists i :: 0 <= i < |config.assets| && config.assets[i].ticker == "BTC") &&
                       (exists i :: 0 <= i < |config.assets| && config.assets[i].ticker == "ETH")
    ensures (forall i :: 0 <= i < |config.assets| ==> config.assets[i].ticker != "BTC") ==>
              r == Err(AssetTickerMissing("BTC"))
    ensures (exists i :: 0 <= i < |config.assets| && config.assets[i].ticker == "BTC") &&
            (forall i :: 0 <= i < |config.assets| ==> config.assets[i].ticker != "ETH") ==>
              r == Err(AssetTickerMissing("ETH"))
    ensures r.Err? ==> r.error in {AssetTickerMissing("BTC"), AssetTickerMissing("ETH")}
    ensures r.Ok? ==> FirstWithTicker(config.assets, "BTC", r.value.btcId) && FirstWithTicker(config.assets, "ETH", r.value.ethId)
    ensures r.Ok? ==> r.value.fundId == fund.id && r.value.networkId == fund.networkId
    ensures r.Ok? ==> r.value.assetDict == BlockLib.GetAssetDictionary(config.assets, config.fundAssets, fund.id)
    ensures r.Ok? ==> r.value.addrDict == BlockLib.GetAssetAddressDictionary(config.assets, config.addresses, fund.networkId)
  {
    var assetDict := BlockLib.GetAssetDictionary(config.assets, config.fundAssets, fund.id);
    var addrDict := BlockLib.GetAssetAddressDictionary(config.assets, config.addresses, fund.networkId);
    var isBtc := (a: BlockLib.AssetRow) => a.ticker == "BTC";
    var isEth := (a: BlockLib.AssetRow) => a.ticker == "ETH";
    var btc := BlockLib.FindFirst(config.assets, isBtc);
    var eth := BlockLib.FindFirst(config.assets, isEth);
    assert forall i :: 0 <= i < |config.assets| ==>
             (isBtc(config.assets[i]) <==> config.assets[i].ticker == "BTC") &&
             (isEth(config.assets[i]) <==> config.assets[i].ticker == "ETH");
    if btc.None? then Err(AssetTickerMissing("BTC"))
    else if eth.None? then Err(AssetTickerMissing("ETH"))
    else Ok(FundContext(fund.id, fund.networkId, assetDict, addrDict, btc.value.id, eth.value.id))
  }

  /** Per-session cache: the last block seen, its time (ms) and the BTC and
      ETH prices at that time. */
  datatype Session = Session(lastBlockNumber: int, lastBlockTime: Option<int>,
                             lastPriceBtc: Option<real>, lastPriceEth: Option<real>)

  /** A newly created `FundSynchronizer`. */
  const FreshSession: Session := Session(0, None, None, None)

  /** `updateTimeAndPrices`. The same block as last time changes nothing;
      another block is stamped with its timestamp in milliseconds and the
      reference prices nearest that time, and fails when either reference
      asset has no price at all. (After a failure the source's half-updated
      session is never used again, so the model keeps the old one.) */
  function UpdateTimeAndPrices(ctx: FundContext, env: Env, s: Session, blockNumber: int): (r: Result<Session>)
    ensures blockNumber == s.lastBlockNumber ==> r == Ok(s)
    ensures blockNumber != s.lastBlockNumber ==>
              (r.Ok? <==> Asset.HasRows(env.prices, ctx.btcId) && Asset.HasRows(env.prices, ctx.ethId))
    ensures r.Ok? ==> r.value.lastBlockNumber == blockNumber
    ensures r.Ok? && blockNumber != s.lastBlockNumber ==>
              var time := env.blockTimestamp(blockNumber) * 1000;
              && r.value.lastBlockTime == Some(time)
              && r.value.lastPriceBtc.Some? && Asset.IsNearestPrice(env.prices, ctx.btcId, time, r.value.lastPriceBtc.value)
              && r.value.lastPriceEth.Some? && Asset.IsNearestPrice(env.prices, ctx.ethId, time, r.value.lastPriceEth.value)
  {
    if blockNumber == s.lastBlockNumber then Ok(s)
    else
      var time := Some(env.blockTimestamp(blockNumber) * 1000);
      match Asset.GetPrice(env.prices, ctx.btcId, time)
      case Err(e) => Err(e)
      case Ok(btc) =>
        match Asset.GetPrice(env.prices, ctx.ethId, time)
        case Err(e) => Err(e)
        case Ok(eth) => Ok(Session(blockNumber, time, Some(btc), Some(eth)))
  }

  /** The event fields `saveTransactionEvent` needs, once checked. */
  datatype Checked = Checked(user: string, assetAddress: string, raw: int, txHash: string, info: BlockLib.AddressInfo)

  /** The checks of `saveTransactionEvent`, in the order the code makes them:
      user, asset address, amount, transaction hash, then the address must
      be one of the network's known asset addresses. */
  function Validate(ctx: FundContext, ev: Event): (r: Result<Checked>)
    ensures r.Ok? <==> ev.user.Some? && ev.assetAddress.Some? && ev.amount.Some? && ev.txHash.Some? &&
                       ev.assetAddress.value in ctx.addrDict
    ensures ev.user.None? ==> r == Err(UserAddressMissing)
    ensures ev.user.Some? && ev.assetAddress.None? ==> r == Err(AssetAddressMissing)
    ensures ev.user.Some? && ev.assetAddress.Some? && ev.amount.None? ==> r == Err(AmountMissing)
    ensures ev.user.Some? && ev.assetAddress.Some? && ev.amount.Some? && ev.txHash.None? ==> r == Err(TxHashMissing)
    ensures (ev.user.Some? && ev.assetAddress.Some? && ev.amount.Some? && ev.txHash.Some? &&
             ev.assetAddress.value !in ctx.addrDict) ==> r == Err(AssetAddressUnknown(ev.assetAddress.value))
    ensures r.Ok? ==> r.value == Checked(ev.user.value, ev.assetAddress.value, ev.amount.value, ev.txHash.value,
                                         ctx.addrDict[ev.assetAddress.value])
  {
    if ev.user.None? then Err(UserAddressMissing)
    else if ev.assetAddress.None? then Err(AssetAddressMissing)
    else if ev.amount.None? then Err(AmountMissing)
    else if ev.txHash.None? then Err(TxHashMissing)
    else if ev.assetAddress.value !in ctx.addrDict then Err(AssetAddressUnknown(ev.assetAddress.value))
    else Ok(Checked(ev.user.value, ev.assetAddress.value, ev.amount.value, ev.txHash.value, ctx.addrDict[ev.assetAddress.value]))
  }

  /** The tables the engine reads and writes. */
  datatype Db = Db(networks: map<int, BlockLib.NetworkRow>, users: UserTable, ledger: seq<TxRow>)

  /** The engine only ever appends users and ledger rows, keeping the user
      table well formed and never recording two ledger rows under one key. */
  ghost predicate Grows(db: Db, db': Db)
  {
    && ValidUsers(db'.users)
    && db.users.rows <= db'.users.rows
    && db.ledger <= db'.ledger
    && (UniqueKeys(db.ledger) ==> UniqueKeys(db'.ledger))
  }

  /** The dedup key under which an event is (or would be) recorded, given
      the user rows; none when the event fails validation or its user is
      unknown. */
  function EventKey(ctx: FundContext, users: seq<UserRow>, ev: Event): Option<TxKey>
  {
    match Validate(ctx, ev)
    case Err(_) => None
    case Ok(c) =>
      match FindUser(users, c.user)
      case None => None
      case Some(uid) => Some(TxKey(ctx.fundId, c.info.id, uid, ToNormal(c.raw, c.info.decimals), c.txHash))
  }

  /** The event is durably in the ledger. */
  ghost predicate Settled(ctx: FundContext, db: Db, ev: Event)
  {
    EventKey(ctx, db.users.rows, ev).Some? && Recorded(db.ledger, EventKey(ctx, db.users.rows, ev).value)
  }

  /** Outcome of handling events: the session and tables afterwards, and the
      error that aborted handling, if any. Writes made before the error stay. */
  datatype Step = Step(session: Session, db: Db, error: Option<Error>)

  /** `saveTransactionEvent`: refresh block time and prices, validate (no
      write happens before every check has passed), find or create the user,
      resolve the asset within the fund and its price at the block time, then
      record the transaction under its dedup key. */
  function SaveEvent(ctx: FundContext, env: Env, s: Session, db: Db, ev: Event): (r: Step)
    requires ValidUsers(db.users)
    ensures Grows(db, r.db) && r.db.networks == db.networks
  {
    match UpdateTimeAndPrices(ctx, env, s, ev.blockNumber)
    case Err(e) => Step(s, db, Some(e))
    case Ok(s1) =>
      match Validate(ctx, ev)
      case Err(e) => Step(s1, db, Some(e))
      case Ok(c) =>
        var lookup := AddOrFindUserId(db.users, c.user, s1.lastBlockTime);
        var db1 := db.(users := lookup.table);
        if c.info.id !in ctx.assetDict then Step(s1, db1, Some(AssetNotInFund(c.info.id)))
        else
          match Asset.GetPrice(env.prices, c.info.id, s1.lastBlockTime)
          case Err(e) => Step(s1, db1, Some(e))
          case Ok(_) =>
            var row := TxRow(ctx.fundId, c.info.id, lookup.userId.value, ToNormal(c.raw, c.info.decimals), ev.value,
                             c.txHash, s1.lastBlockTime);
            Step(s1, db1.(ledger := AddTransaction(db.ledger, row)), None)
  }

  /** When handling one event fails and when it succeeds: a failed refresh
      or check writes nothing, no failure leaves a ledger row behind, and it
      succeeds exactly when every check passes, the asset belongs to the
      fund and a price row exists. */
  lemma SaveEventOutcome(ctx: FundContext, env: Env, s: Session, db: Db, ev: Event, r: Step)
    requires ValidUsers(db.users) && r == SaveEvent(ctx, env, s, db, ev)
    ensures r.error.Some? ==> r.db.ledger == db.ledger
    ensures UpdateTimeAndPrices(ctx, env, s, ev.blockNumber).Err? || Validate(ctx, ev).Err? ==>
              r.error.Some? && r.db == db
    ensures r.error.None? <==>
              && UpdateTimeAndPrices(ctx, env, s, ev.blockNumber).Ok?
              && Validate(ctx, ev).Ok?
              && Validate(ctx, ev).value.info.id in ctx.assetDict
              && UpdateTimeAndPrices(ctx, env, s, ev.blockNumber).value.lastBlockTime.Some?
              && Asset.HasRows(env.prices, Validate(ctx, ev).value.info.id)
  {
    var update := UpdateTimeAndPrices(ctx, env, s, ev.blockNumber);
    if update.Err? {
      assert r == Step(s, db, Some(update.error));
      return;
    }
    var s1 := update.value;
    var checked := Validate(ctx, ev);
    if checked.Err? {
      assert r == Step(s1, db, Some(checked.error));
      return;
    }
    var c := checked.value;
    var db1 := db.(users := AddOrFindUserId(db.users, c.user, s1.lastBlockTime).table);
    if c.info.id !in ctx.assetDict {
      assert r == Step(s1, db1, Some(AssetNotInFund(c.info.id)));
      return;
    }
    var price := Asset.GetPrice(env.prices, c.info.id, s1.lastBlockTime);
    if price.Err? {
      assert r == Step(s1, db1, Some(price.error));
    }
  }

  /** What handling one event records: a success records the event under
      its dedup key with the block's time and refreshes the session. */
  lemma SaveEventRecords(ctx: FundContext, env: Env, s: Session, db: Db, ev: Event, r: Step)
    requires ValidUsers(db.users) && r == SaveEvent(ctx, env, s, db, ev)
    ensures r.error.None? ==> Settled(ctx, r.db, ev)
    ensures r.error.None? ==> r.session == UpdateTimeAndPrices(ctx, env, s, ev.blockNumber).value
    ensures r.error.None? ==>
              (exists row :: r.db.ledger == AddTransaction(db.ledger, row) && Some(KeyOf(row)) == EventKey(ctx, r.db.users.rows, ev) &&
                             row.value == ev.value && row.timestamp == r.session.lastBlockTime)
  {
    if r.error.None? {
      var s1, c := UpdateTimeAndPrices(ctx, env, s, ev.blockNumber).value, Validate(ctx, ev).value;
      var lookup := AddOrFindUserId(db.users, c.user, s1.lastBlockTime);
      var row := TxRow(ctx.fundId, c.info.id, lookup.userId.value, ToNormal(c.raw, c.info.decimals), ev.value,
                       c.txHash, s1.lastBlockTime);
      assert r == Step(s1, db.(users := lookup.table, ledger := AddTransaction(db.ledger, row)), None);
      FoundUserIsFirst(lookup.table, c.user, lookup.userId.value);
    }
  }

  /** Delivering an event that is already recorded again, by the poller or
      by the live listener and whatever the session, changes no table. */
  lemma SaveEventReplay(ctx: FundContext, env: Env, s: Session, db: Db, ev: Event, r: Step)
    requires ValidUsers(db.users) && r == SaveEvent(ctx, env, s, db, ev)
    ensures Settled(ctx, db, ev) ==> r.db == db
  {
    var update := UpdateTimeAndPrices(ctx, env, s, ev.blockNumber);
    if Settled(ctx, db, ev) && update.Ok? {
      var s1, c := update.value, Validate(ctx, ev).value;
      KnownUserUnchanged(db.users, c.user, s1.lastBlockTime);
      var lookup := AddOrFindUserId(db.users, c.user, s1.lastBlockTime);
      assert lookup.table == db.users;
    }
  }

  /** Meeting a known address again returns its id and leaves the table as
      it was. */
  lemma KnownUserUnchanged(t: UserTable, address: string, time: Option<int>)
    requires ValidUsers(t)
    ensures FindUser(t.rows, address).Some? ==>
              AddOrFindUserId(t, address, time) == UserLookup(t, FindUser(t.rows, address))
  {
  }

  /** In a well-formed table, the row holding an address is the first one. */
  lemma FoundUserIsFirst(t: UserTable, address: string, id: int)
    requires ValidUsers(t)
    requires exists i :: 0 <= i < |t.rows| && t.rows[i].address == address && t.rows[i].id == id
    ensures FindUser(t.rows, address) == Some(id)
  {
  }

  /** Appending rows never changes which id an already known address has. */
  lemma FindUserInPrefix(rows: seq<UserRow>, rows': seq<UserRow>, address: string)
    requires rows <= rows' && FindUser(rows, address).Some?
    ensures FindUser(rows', address) == FindUser(rows, address)
  {
  }

  /** A settled event stays settled while the tables only grow. */
  lemma SettledStaysSettled(ctx: FundContext, db: Db, db': Db, ev: Event)
    requires Settled(ctx, db, ev) && Grows(db, db')
    ensures Settled(ctx, db', ev)
  {
  }

  lemma GrowsTransitive(a: Db, b: Db, c: Db)
    requires Grows(a, b) && Grows(b, c)
    ensures Grows(a, c)
  {
  }

  /** `getBlockNumber` replies: the k-th call answers `replies[k]` and every
      later call the settled head, so the head eventually stops moving. */
  datatype ChainHead = ChainHead(replies: seq<int>, settled: int)

  function HeadAt(chain: ChainHead, k: nat): int
  {
    if k < |chain.replies| then chain.replies[k] else chain.settled
  }

  /** An inclusive block range `[from, to]`. */
  datatype Chunk = Chunk(from: int, to: int)

  function Min(a: int, b: int): int
  {
    if a <= b then a else b
  }

  /** `queryFilter(filter, from, to)`: the fund's events in the block range,
      each as often as the log holds it (the order is `QueryEventsInOrder`). */
  function QueryEvents(log: seq<Event>, from: int, to: int): (r: seq<Event>)
    ensures forall i :: 0 <= i < |r| ==> r[i] in log && from <= r[i].blockNumber <= to
    ensures forall e :: e in log && from <= e.blockNumber <= to ==> e in r
    ensures forall e :: multiset(r)[e] == if from <= e.blockNumber <= to then multiset(log)[e] else 0
  {
    var inRange := (e: Event) => from <= e.blockNumber <= to;
    var r := BlockLib.Filter(log, inRange);
    assert forall e :: e in log && from <= e.blockNumber <= to ==> e in r by {
      forall e | e in log && from <= e.blockNumber <= to ensures e in r {
        var i :| 0 <= i < |log| && log[i] == e;
      }
    }
    assert forall e :: multiset(r)[e] == if from <= e.blockNumber <= to then multiset(log)[e] else 0 by {
      forall e ensures multiset(r)[e] == if from <= e.blockNumber <= to then multiset(log)[e] else 0 {
        BlockLib.FilterCount(log, inRange, e);
      }
    }
    r
  }

  /** The query keeps log order: the events of a log split in two come back
      as those of the first part followed by those of the second, and a
      single event comes back exactly when it lies in the range. */
  lemma QueryEventsInOrder(a: seq<Event>, b: seq<Event>, e: Event, from: int, to: int)
    ensures QueryEvents(a + b, from, to) == QueryEvents(a, from, to) + QueryEvents(b, from, to)
    ensures QueryEvents([e], from, to) == if from <= e.blockNumber <= to then [e] else []
  {
    BlockLib.FilterAppend(a, b, (e: Event) => from <= e.blockNumber <= to);
    assert [e][1..] == [];
  }

  /** `UPDATE Network SET SyncBlock = ? WHERE Id = ?` on the Network table,
      keyed by its primary key. */
  function SetSyncBlock(networks: map<int, BlockLib.NetworkRow>, id: int, block: int): (r: map<int, BlockLib.NetworkRow>)
    ensures r.Keys == networks.Keys
    ensures id in networks ==> r[id] == networks[id].(syncBlock := Some(block))
    ensures forall k :: k in networks && k != id ==> r[k] == networks[k]
  {
    if id in networks then networks[id := networks[id].(syncBlock := Some(block))] else networks
  }

  /** A later write to the cursor hides an earlier one. */
  lemma OverwriteCursor(networks: map<int, BlockLib.NetworkRow>, id: int, a: int, b: int)
    ensures SetSyncBlock(SetSyncBlock(networks, id, a), id, b) == SetSyncBlock(networks, id, b)
  {
  }

  /** The Network table after the cursor writes of a sequence of chunks:
      only the last write is visible. */
  function CursorWrites(networks: map<int, BlockLib.NetworkRow>, id: int, chunks: seq<Chunk>): map<int, BlockLib.NetworkRow>
  {
    if |chunks| == 0 then networks else SetSyncBlock(networks, id, chunks[|chunks| - 1].to)
  }

  lemma CursorWritesExtend(networks: map<int, BlockLib.NetworkRow>, id: int, chunks: seq<Chunk>, c: Chunk)
    ensures CursorWrites(networks, id, chunks + [c]) == SetSyncBlock(CursorWrites(networks, id, chunks), id, c.to)
  {
  }

  /** Each chunk starts right after the previous one, the first at `start`. */
  ghost predicate Contiguous(chunks: seq<Chunk>, start: int)
  {
    && (|chunks| > 0 ==> chunks[0].from == start)
    && (forall i :: 0 < i < |chunks| ==> chunks[i].from == chunks[i - 1].to + 1)
  }

  /** Where the next chunk would start. */
  function NextStart(chunks: seq<Chunk>, start: int): int
  {
    if |chunks| == 0 then start else chunks[|chunks| - 1].to + 1
  }

  /** No chunk is empty: with `blockStep >= 0` and the head at or past the
      start, `min(start + blockStep, head)` is at least `start`. */
  ghost predicate NonEmptyChunks(chunks: seq<Chunk>)
  {
    forall i :: 0 <= i < |chunks| ==> chunks[i].from <= chunks[i].to
  }

  /** Chunks never overlap, and the cursor values written (the chunk ends)
      strictly increase. */
  lemma {:induction false} ChunksOrdered(chunks: seq<Chunk>, start: int)
    requires Contiguous(chunks, start) && NonEmptyChunks(chunks)
    ensures forall i, j :: 0 <= i < j < |chunks| ==> chunks[i].to < chunks[j].from
    ensures forall i, j :: 0 <= i < j < |chunks| ==> chunks[i].to < chunks[j].to
    decreases |chunks|
  {
    if |chunks| > 1 {
      var init := chunks[..|chunks| - 1];
      ChunksOrdered(init, start);
      var n := |chunks| - 1;
      forall i, j | 0 <= i < j < |chunks| ensures chunks[i].to < chunks[j].from {
        if j < n {
          assert init[i] == chunks[i] && init[j] == chunks[j];
        } else if i < n - 1 {
          assert init[i] == chunks[i] && init[n - 1] == chunks[n - 1];
        }
      }
    }
  }

  /** The chunks cover `[start, NextStart)` exactly: a block lies in that
      range if and only if some chunk holds it. */
  lemma {:induction false} ChunksCover(chunks: seq<Chunk>, start: int, b: int)
    requires Contiguous(chunks, start) && NonEmptyChunks(chunks)
    ensures start <= NextStart(chunks, start)
    ensures start <= b < NextStart(chunks, start) <==>
              exists i :: 0 <= i < |chunks| && chunks[i].from <= b <= chunks[i].to
    decreases |chunks|
  {
    if |chunks| > 0 {
      var n := |chunks| - 1;
      var init := chunks[..n];
      ChunksCover(init, start, b);
      assert NextStart(init, start) == chunks[n].from;
      if exists i :: 0 <= i < |init| && init[i].from <= b <= init[i].to {
        var i :| 0 <= i < |init| && init[i].from <= b <= init[i].to;
        assert chunks[i] == init[i];
      }
      if exists i :: 0 <= i < |chunks| && chunks[i].from <= b <= chunks[i].to {
        var i :| 0 <= i < |chunks| && chunks[i].from <= b <= chunks[i].to;
        if i < n {
          assert init[i] == chunks[i];
        }
      }
    }
  }

  /** A catch-up pass: every head height read, the chunks whose cursor write
      happened, the final session and tables, and the error that aborted the
      pass (its chunk's cursor is never written). */
  datatype SyncRun = SyncRun(heads: seq<int>, chunks: seq<Chunk>, session: Session, db: Db, failure: Option<Error>)

  /** Every logged event in blocks `[from, to)` is settled. */
  ghost predicate SettledBetween(ctx: FundContext, db: Db, log: seq<Event>, from: int, to: int)
  {
    forall e :: e in log && from <= e.blockNumber < to ==> Settled(ctx, db, e)
  }

  /** Events settled before a batch stay settled whatever the batch does. */
  lemma StaySettled(ctx: FundContext, log: seq<Event>, startBlock: int, start: int, d: Db, d': Db)
    requires SettledBetween(ctx, d, log, startBlock, start)
    requires Grows(d, d')
    ensures SettledBetween(ctx, d', log, startBlock, start)
  {
  }

  /** Handling a batch event by event in order, stopping at the first
      failure (whose writes stay); the session and tables carry over from
      one event to the next. */
  function HandleAll(ctx: FundContext, env: Env, s: Session, db: Db, events: seq<Event>): (r: Step)
    requires ValidUsers(db.users)
    ensures Grows(db, r.db) && r.db.networks == db.networks
    decreases |events|
  {
    if |events| == 0 then Step(s, db, None)
    else
      var step := SaveEvent(ctx, env, s, db, events[0]);
      if step.error.Some? then step
      else
        var rest := HandleAll(ctx, env, step.session, step.db, events[1..]);
        GrowsTransitive(db, step.db, rest.db);
        rest
  }

  /** `getTransactionEvents`: query the fund's events in `[start, finish]`
      and handle them one after another in query order, stopping at the
      first failure. `handled` counts the events handled before it (all of
      them on success); those are recorded, and on success so is every
      logged event of the range. */
  method GetTransactionEvents(ctx: FundContext, env: Env, session: Session, db: Db, log: seq<Event>, start: int, finish: int)
    returns (r: Step, handled: nat)
    requires ValidUsers(db.users)
    ensures r == HandleAll(ctx, env, session, db, QueryEvents(log, start, finish))
    ensures Grows(db, r.db) && r.db.networks == db.networks
    ensures handled <= |QueryEvents(log, start, finish)|
    ensures r.error.None? <==> handled == |QueryEvents(log, start, finish)|
    ensures AllSettled(ctx, r.db, QueryEvents(log, start, finish)[..handled])
    ensures r.error.None? ==> SettledBetween(ctx, r.db, log, start, finish + 1)
  {
    var events := QueryEvents(log, start, finish);
    var s, d := session, db;
    var i := 0;
    while i < |events|
      invariant 0 <= i <= |events|
      invariant Grows(db, d) && d.networks == db.networks
      invariant AllSettled(ctx, d, events[..i])
      invariant HandleAll(ctx, env, session, db, events) == HandleAll(ctx, env, s, d, events[i..])
    {
      var step := SaveEvent(ctx, env, s, d, events[i]);
      assert events[i..][0] == events[i] && events[i..][1..] == events[i + 1..];
      GrowsTransitive(db, d, step.db);
      if step.error.Some? {
        assert AllSettled(ctx, step.db, events[..i]) by {
          SettledPrefixStays(ctx, d, step.db, events[..i]);
        }
        return step, i;
      }
      assert Settled(ctx, step.db, events[i]) by {
        SaveEventRecords(ctx, env, s, d, events[i], step);
      }
      SettledAppend(ctx, d, step.db, events, i);
      s, d := step.session, step.db;
      i := i + 1;
    }
    assert events[..i] == events;
    BatchSettled(ctx, d, log, events, start, finish);
    return Step(s, d, None), i;
  }

  /** Every event of `batch` is settled. */
  ghost predicate AllSettled(ctx: FundContext, db: Db, batch: seq<Event>)
  {
    forall j :: 0 <= j < |batch| ==> Settled(ctx, db, batch[j])
  }

  /** Events settled stay settled while the tables only grow. */
  lemma SettledPrefixStays(ctx: FundContext, d: Db, d': Db, batch: seq<Event>)
    requires AllSettled(ctx, d, batch) && Grows(d, d')
    ensures AllSettled(ctx, d', batch)
  {
  }

  /** Settling one more event of a batch, while the tables only grow. */
  lemma SettledAppend(ctx: FundContext, d: Db, d': Db, batch: seq<Event>, i: nat)
    requires i < |batch|
    requires AllSettled(ctx, d, batch[..i]) && Grows(d, d') && Settled(ctx, d', batch[i])
    ensures AllSettled(ctx, d', batch[..i + 1])
  {
  }

  /** A batch holding every logged event of `[start, finish]`, all settled,
      settles that whole range. */
  lemma BatchSettled(ctx: FundContext, d: Db, log: seq<Event>, batch: seq<Event>, start: int, finish: int)
    requires AllSettled(ctx, d, batch)
    requires forall e :: e in log && start <= e.blockNumber <= finish ==> e in batch
    ensures SettledBetween(ctx, d, log, start, finish + 1)
  {
  }

  /** The Network table plays no part in whether an event is recorded. */
  lemma SettledNetworksIrrelevant(ctx: FundContext, d: Db, d': Db, log: seq<Event>, a: int, b: int)
    requires d'.users == d.users && d'.ledger == d.ledger
    requires SettledBetween(ctx, d, log, a, b)
    ensures SettledBetween(ctx, d', log, a, b)
  {
  }

  lemma SettledJoin(ctx: FundContext, d: Db, log: seq<Event>, a: int, b: int, c: int)
    requires SettledBetween(ctx, d, log, a, b) && SettledBetween(ctx, d, log, b, c + 1)
    ensures SettledBetween(ctx, d, log, a, c + 1)
  {
  }

  /** The chunk schedule of a pass so far: the k-th chunk was cut using the
      k-th head read, each chunk is `[from, min(from + blockStep, head)]`
      and starts right after the previous one. */
  ghost predicate Schedule(chain: ChainHead, startBlock: int, blockStep: int, heads: seq<int>, chunks: seq<Chunk>)
  {
    && |heads| == |chunks|
    && (forall j :: 0 <= j < |heads| ==> heads[j] == HeadAt(chain, j))
    && Contiguous(chunks, startBlock)
    && NonEmptyChunks(chunks)
    && (forall i :: 0 <= i < |chunks| ==>
          chunks[i].from <= heads[i] && chunks[i].to == Min(chunks[i].from + blockStep, heads[i]))
  }

  /** One more iteration that does not stop extends the schedule by the
      chunk starting at the next start. */
  lemma ScheduleExtends(chain: ChainHead, startBlock: int, blockStep: int, heads: seq<int>, chunks: seq<Chunk>, head: int)
    requires Schedule(chain, startBlock, blockStep, heads, chunks) && blockStep >= 0
    requires head == HeadAt(chain, |heads|) && NextStart(chunks, startBlock) <= head
    ensures var start := NextStart(chunks, startBlock);
            Schedule(chain, startBlock, blockStep, heads + [head], chunks + [Chunk(start, Min(start + blockStep, head))])
  {
  }

  /** Where a pass stands after some iterations: the heads read and the
      chunks whose cursor write happened, with the session and tables. */
  datatype Pass = Pass(heads: seq<int>, chunks: seq<Chunk>, session: Session, db: Db)

  /** What holds after every completed iteration of a pass that started at
      `startBlock` on tables `db0`: the chunks follow the schedule, the
      Network table shows the last chunk's end as cursor, the tables only
      grew, and every logged event below the next start is recorded. */
  ghost predicate PassInv(ctx: FundContext, chain: ChainHead, log: seq<Event>, startBlock: int, blockStep: int,
                          db0: Db, p: Pass)
  {
    && Schedule(chain, startBlock, blockStep, p.heads, p.chunks)
    && p.db.networks == CursorWrites(db0.networks, ctx.networkId, p.chunks)
    && Grows(db0, p.db)
    && SettledBetween(ctx, p.db, log, startBlock, NextStart(p.chunks, startBlock))
  }

  /** What a finished pass guarantees: the chunk schedule, the last head
      read (below the next start when the pass ended cleanly, at or above it
      when a chunk failed), the cursor left at the last completed chunk's
      end, growth of the tables, and every logged event of the completed
      chunks recorded. */
  ghost predicate Ended(ctx: FundContext, chain: ChainHead, log: seq<Event>, startBlock: int, blockStep: int,
                        db0: Db, run: SyncRun)
  {
    && |run.heads| == |run.chunks| + 1
    && Schedule(chain, startBlock, blockStep, run.heads[..|run.chunks|], run.chunks)
    && run.heads[|run.chunks|] == HeadAt(chain, |run.chunks|)
    && (run.failure.None? ==> run.heads[|run.chunks|] < NextStart(run.chunks, startBlock))
    && (run.failure.Some? ==> NextStart(run.chunks, startBlock) <= run.heads[|run.chunks|])
    && run.db.networks == CursorWrites(db0.networks, ctx.networkId, run.chunks)
    && Grows(db0, run.db)
    && SettledBetween(ctx, run.db, log, startBlock, NextStart(run.chunks, startBlock))
  }

  /** The state after a completed iteration: the chunk `[start, finish]` is
      appended and its end written as the cursor. */
  function Advance(ctx: FundContext, startBlock: int, blockStep: int, p: Pass, head: int, step: Step): Pass
  {
    var start := NextStart(p.chunks, startBlock);
    var finish := Min(start + blockStep, head);
    Pass(p.heads + [head], p.chunks + [Chunk(start, finish)], step.session,
         step.db.(networks := SetSyncBlock(step.db.networks, ctx.networkId, finish)))
  }

  lemma PassAdvances(ctx: FundContext, chain: ChainHead, log: seq<Event>, startBlock: int, blockStep: int,
                                        db0: Db, p: Pass, head: int, step: Step)
    requires PassInv(ctx, chain, log, startBlock, blockStep, db0, p) && blockStep >= 0
    requires head == HeadAt(chain, |p.heads|) && NextStart(p.chunks, startBlock) <= head
    requires Grows(p.db, step.db) && step.db.networks == p.db.networks
    requires SettledBetween(ctx, step.db, log, NextStart(p.chunks, startBlock),
                            Min(NextStart(p.chunks, startBlock) + blockStep, head) + 1)
    ensures PassInv(ctx, chain, log, startBlock, blockStep, db0, Advance(ctx, startBlock, blockStep, p, head, step))
    ensures NextStart(Advance(ctx, startBlock, blockStep, p, head, step).chunks, startBlock) ==
              Min(NextStart(p.chunks, startBlock) + blockStep, head) + 1
  {
    var start := NextStart(p.chunks, startBlock);
    var finish := Min(start + blockStep, head);
    var p' := Advance(ctx, startBlock, blockStep, p, head, step);
    assert Schedule(chain, startBlock, blockStep, p'.heads, p'.chunks) by {
      ScheduleExtends(chain, startBlock, blockStep, p.heads, p.chunks, head);
    }
    assert p'.db.networks == CursorWrites(db0.networks, ctx.networkId, p'.chunks) by {
      CursorWritesExtend(db0.networks, ctx.networkId, p.chunks, Chunk(start, finish));
    }
    assert Grows(db0, p'.db) by {
      GrowsTransitive(db0, p.db, step.db);
    }
    assert NextStart(p'.chunks, startBlock) == finish + 1;
    assert SettledBetween(ctx, p'.db, log, startBlock, finish + 1) by {
      StaySettled(ctx, log, startBlock, start, p.db, step.db);
      SettledJoin(ctx, step.db, log, startBlock, start, finish);
      SettledNetworksIrrelevant(ctx, step.db, p'.db, log, startBlock, finish + 1);
    }
  }

  /** The pass ends: cleanly when the head is below the next start, or with
      the error of the chunk that failed (its cursor is not written). */
  lemma PassEnds(ctx: FundContext, chain: ChainHead, log: seq<Event>, startBlock: int, blockStep: int,
                                    db0: Db, p: Pass, head: int, session: Session, db: Db, failure: Option<Error>)
    requires PassInv(ctx, chain, log, startBlock, blockStep, db0, p)
    requires head == HeadAt(chain, |p.heads|)
    requires failure.None? ==> head < NextStart(p.chunks, startBlock) && session == p.session && db == p.db
    requires failure.Some? ==> NextStart(p.chunks, startBlock) <= head && Grows(p.db, db) && db.networks == p.db.networks
    ensures Ended(ctx, chain, log, startBlock, blockStep, db0, SyncRun(p.heads + [head], p.chunks, session, db, failure))
  {
    var heads := p.heads + [head];
    assert heads[..|p.chunks|] == p.heads && heads[|p.chunks|] == head;
    if failure.Some? {
      GrowsTransitive(db0, p.db, db);
      StaySettled(ctx, log, startBlock, NextStart(p.chunks, startBlock), p.db, db);
    }
  }

  /** The dedup key an event resolves to does not change while user rows
      are only appended. */
  lemma EventKeyStable(ctx: FundContext, users: seq<UserRow>, users': seq<UserRow>, ev: Event)
    requires users <= users' && EventKey(ctx, users, ev).Some?
    ensures EventKey(ctx, users', ev) == EventKey(ctx, users, ev)
  {
    FindUserInPrefix(users, users', Validate(ctx, ev).value.user);
  }

  /** `key` is the dedup key, resolved with `users`, of one of `events`. */
  ghost predicate BatchKey(ctx: FundContext, users: seq<UserRow>, events: seq<Event>, key: TxKey)
  {
    exists e :: e in events && EventKey(ctx, users, e) == Some(key)
  }

  /** Every ledger row appended from `db` to `db'` is recorded under the
      dedup key, resolved with the user rows of `db'`, of one of `events`. */
  ghost predicate RowsFrom(ctx: FundContext, db: Db, db': Db, events: seq<Event>)
  {
    forall k :: |db.ledger| <= k < |db'.ledger| ==> BatchKey(ctx, db'.users.rows, events, KeyOf(db'.ledger[k]))
  }

  /** Handling one event appends no ledger row but the event's own. */
  lemma SaveEventRows(ctx: FundContext, env: Env, s: Session, db: Db, ev: Event, r: Step)
    requires ValidUsers(db.users) && r == SaveEvent(ctx, env, s, db, ev)
    ensures RowsFrom(ctx, db, r.db, [ev])
  {
    SaveEventOutcome(ctx, env, s, db, ev, r);
    if r.error.None? {
      SaveEventRecords(ctx, env, s, db, ev, r);
      var row :| r.db.ledger == AddTransaction(db.ledger, row) && Some(KeyOf(row)) == EventKey(ctx, r.db.users.rows, ev);
      InsertedRowFrom(ctx, db, r.db, ev, row);
    }
  }

  /** Recording a row under an event's key appends no other row. */
  lemma InsertedRowFrom(ctx: FundContext, db: Db, db': Db, ev: Event, row: TxRow)
    requires db'.ledger == AddTransaction(db.ledger, row) && Some(KeyOf(row)) == EventKey(ctx, db'.users.rows, ev)
    ensures RowsFrom(ctx, db, db', [ev])
  {
    forall k | |db.ledger| <= k < |db'.ledger|
      ensures BatchKey(ctx, db'.users.rows, [ev], KeyOf(db'.ledger[k]))
    {
      assert db'.ledger[k] == row;
      assert ev in [ev];
    }
  }

  /** Rows appended for one batch and then for another are rows of any
      batch holding both, while user rows are only appended. */
  lemma RowsJoin(ctx: FundContext, db: Db, mid: Db, db': Db, a: seq<Event>, b: seq<Event>, all: seq<Event>)
    requires RowsFrom(ctx, db, mid, a) && RowsFrom(ctx, mid, db', b)
    requires mid.users.rows <= db'.users.rows && mid.ledger <= db'.ledger
    requires (forall e :: e in a ==> e in all) && (forall e :: e in b ==> e in all)
    ensures RowsFrom(ctx, db, db', all)
  {
    forall k | |db.ledger| <= k < |db'.ledger|
      ensures BatchKey(ctx, db'.users.rows, all, KeyOf(db'.ledger[k]))
    {
      if k < |mid.ledger| {
        assert BatchKey(ctx, mid.users.rows, a, KeyOf(mid.ledger[k]));
        var e :| e in a && EventKey(ctx, mid.users.rows, e) == Some(KeyOf(mid.ledger[k]));
        assert db'.ledger[k] == mid.ledger[k];
        EventKeyStable(ctx, mid.users.rows, db'.users.rows, e);
      } else {
        assert BatchKey(ctx, db'.users.rows, b, KeyOf(db'.ledger[k]));
        var e :| e in b && EventKey(ctx, db'.users.rows, e) == Some(KeyOf(db'.ledger[k]));
      }
    }
  }

  /** Handling a batch appends no ledger row but the batch's own events'. */
  lemma {:induction false} HandleAllRows(ctx: FundContext, env: Env, s: Session, db: Db, events: seq<Event>)
    requires ValidUsers(db.users)
    ensures RowsFrom(ctx, db, HandleAll(ctx, env, s, db, events).db, events)
    decreases |events|
  {
    if |events| > 0 {
      var step := SaveEvent(ctx, env, s, db, events[0]);
      SaveEventOutcome(ctx, env, s, db, events[0], step);
      if step.error.Some? {
        assert HandleAll(ctx, env, s, db, events) == step;
      } else {
        SaveEventRows(ctx, env, s, db, events[0], step);
        var rest := events[1..];
        var r := HandleAll(ctx, env, step.session, step.db, rest);
        assert HandleAll(ctx, env, s, db, events) == r;
        HandleAllRows(ctx, env, step.session, step.db, rest);
        RowsJoin(ctx, db, step.db, r.db, [events[0]], rest, events);
      }
    }
  }

  /** The chunks of a pass handled from its initial session and tables:
      each chunk's events are handled as `getTransactionEvents` handles them,
      and the chunk's end is written as the cursor unless handling failed;
      the first failure ends the replay with its writes kept. */
  function HandleChunks(ctx: FundContext, env: Env, s: Session, db: Db, log: seq<Event>, chunks: seq<Chunk>): (r: Step)
    requires ValidUsers(db.users)
    ensures Grows(db, r.db)
    decreases |chunks|
  {
    if |chunks| == 0 then Step(s, db, None)
    else
      var prev := HandleChunks(ctx, env, s, db, log, chunks[..|chunks| - 1]);
      if prev.error.Some? then prev
      else
        var c := chunks[|chunks| - 1];
        var step := HandleAll(ctx, env, prev.session, prev.db, QueryEvents(log, c.from, c.to));
        GrowsTransitive(db, prev.db, step.db);
        if step.error.Some? then step
        else Step(step.session, step.db.(networks := SetSyncBlock(step.db.networks, ctx.networkId, c.to)), None)
  }

  /** One more chunk: nothing more happens after a failed chunk; after
      clean ones the chunk's events are handled, then its end is written as
      the cursor when that handling succeeded. */
  lemma HandleChunksExtend(ctx: FundContext, env: Env, s: Session, db: Db, log: seq<Event>, chunks: seq<Chunk>,
                           c: Chunk, prev: Step, step: Step, chunks': seq<Chunk>)
    requires ValidUsers(db.users) && prev == HandleChunks(ctx, env, s, db, log, chunks)
    requires step == HandleAll(ctx, env, prev.session, prev.db, QueryEvents(log, c.from, c.to))
    requires chunks' == chunks + [c]
    ensures prev.error.Some? ==> HandleChunks(ctx, env, s, db, log, chunks') == prev
    ensures prev.error.None? && step.error.Some? ==> HandleChunks(ctx, env, s, db, log, chunks') == step
    ensures prev.error.None? && step.error.None? ==>
              HandleChunks(ctx, env, s, db, log, chunks') ==
              Step(step.session, step.db.(networks := SetSyncBlock(step.db.networks, ctx.networkId, c.to)), None)
  {
    assert chunks'[..|chunks|] == chunks;
  }

  /** One more chunk after clean ones, for the session and tables they left;
      `chunks'` is the extended sequence however it is written. */
  lemma HandleChunksAppend(ctx: FundContext, env: Env, s: Session, db: Db, log: seq<Event>, chunks: seq<Chunk>,
                           ps: Session, pd: Db, from: int, to: int, step: Step, chunks': seq<Chunk>)
    requires ValidUsers(db.users) && ValidUsers(pd.users)
    requires HandleChunks(ctx, env, s, db, log, chunks) == Step(ps, pd, None)
    requires step == HandleAll(ctx, env, ps, pd, QueryEvents(log, from, to))
    requires chunks' == chunks + [Chunk(from, to)]
    ensures HandleChunks(ctx, env, s, db, log, chunks') ==
              if step.error.Some? then step
              else Step(step.session, step.db.(networks := SetSyncBlock(step.db.networks, ctx.networkId, to)), None)
  {
    HandleChunksExtend(ctx, env, s, db, log, chunks, Chunk(from, to), Step(ps, pd, None), step, chunks');
  }

  /** Every ledger row appended from `db` to `db'` is recorded under the
      dedup key of a logged event in blocks `[from, to)`. */
  ghost predicate WrittenFrom(ctx: FundContext, db: Db, db': Db, log: seq<Event>, from: int, to: int)
  {
    forall k :: |db.ledger| <= k < |db'.ledger| ==> LoggedKey(ctx, db'.users.rows, log, from, to, KeyOf(db'.ledger[k]))
  }

  /** `key` is the dedup key of a logged event in blocks `[from, to)`. */
  ghost predicate LoggedKey(ctx: FundContext, users: seq<UserRow>, log: seq<Event>, from: int, to: int, key: TxKey)
  {
    exists e :: e in log && from <= e.blockNumber < to && EventKey(ctx, users, e) == Some(key)
  }

  /** Handling contiguous chunks appends no ledger row but those of logged
      events inside the chunks. */
  lemma {:induction false} HandleChunksRows(ctx: FundContext, env: Env, s: Session, db: Db, log: seq<Event>,
                                            chunks: seq<Chunk>, startBlock: int)
    requires ValidUsers(db.users)
    requires Contiguous(chunks, startBlock) && NonEmptyChunks(chunks)
    ensures WrittenFrom(ctx, db, HandleChunks(ctx, env, s, db, log, chunks).db, log, startBlock, NextStart(chunks, startBlock))
    decreases |chunks|
  {
    if |chunks| > 0 {
      HandleChunksRows(ctx, env, s, db, log, chunks[..|chunks| - 1], startBlock);
      LastChunkRows(ctx, env, s, db, log, chunks, startBlock);
    }
  }

  /** The rows the last chunk appends come from logged events inside it. */
  lemma LastChunkRows(ctx: FundContext, env: Env, s: Session, db: Db, log: seq<Event>, chunks: seq<Chunk>, startBlock: int)
    requires ValidUsers(db.users) && |chunks| > 0
    requires Contiguous(chunks, startBlock) && NonEmptyChunks(chunks)
    requires WrittenFrom(ctx, db, HandleChunks(ctx, env, s, db, log, chunks[..|chunks| - 1]).db, log,
                         startBlock, NextStart(chunks[..|chunks| - 1], startBlock))
    ensures WrittenFrom(ctx, db, HandleChunks(ctx, env, s, db, log, chunks).db, log, startBlock, NextStart(chunks, startBlock))
  {
    LastSplit(chunks, startBlock);
    ChunkAfterRows(ctx, env, s, db, log, chunks[..|chunks| - 1], chunks[|chunks| - 1], chunks, startBlock,
                   HandleChunks(ctx, env, s, db, log, chunks[..|chunks| - 1]));
  }

  /** A non-empty chunk sequence is its init followed by its last chunk,
      which starts where the init ends. */
  lemma LastSplit(chunks: seq<Chunk>, startBlock: int)
    requires |chunks| > 0 && Contiguous(chunks, startBlock) && NonEmptyChunks(chunks)
    ensures chunks == chunks[..|chunks| - 1] + [chunks[|chunks| - 1]]
    ensures chunks[|chunks| - 1].from == NextStart(chunks[..|chunks| - 1], startBlock)
    ensures startBlock <= chunks[|chunks| - 1].from <= chunks[|chunks| - 1].to
  {
    ChunksCover(chunks[..|chunks| - 1], startBlock, startBlock);
  }

  /** The rows of one more chunk `c` after `init` come from logged events in it. */
  lemma ChunkAfterRows(ctx: FundContext, env: Env, s: Session, db: Db, log: seq<Event>,
                       init: seq<Chunk>, c: Chunk, chunks: seq<Chunk>, startBlock: int, prev: Step)
    requires ValidUsers(db.users) && chunks == init + [c] && prev == HandleChunks(ctx, env, s, db, log, init)
    requires startBlock <= c.from <= c.to && c.from == NextStart(init, startBlock)
    requires WrittenFrom(ctx, db, prev.db, log, startBlock, c.from)
    ensures WrittenFrom(ctx, db, HandleChunks(ctx, env, s, db, log, chunks).db, log, startBlock, c.to + 1)
  {
    HandleChunksExtend(ctx, env, s, db, log, init, c, prev,
                       HandleAll(ctx, env, prev.session, prev.db, QueryEvents(log, c.from, c.to)), chunks);
    if prev.error.Some? {
      WrittenWiden(ctx, db, prev.db, log, startBlock, c.from, c.to + 1);
    } else {
      HandleAllRows(ctx, env, prev.session, prev.db, QueryEvents(log, c.from, c.to));
      WrittenJoin(ctx, db, prev.db, HandleAll(ctx, env, prev.session, prev.db, QueryEvents(log, c.from, c.to)).db,
                  log, QueryEvents(log, c.from, c.to), startBlock, c.from, c.to + 1);
    }
  }

  /** A wider block range admits every row a narrower one does. */
  lemma WrittenWiden(ctx: FundContext, db: Db, db': Db, log: seq<Event>, from: int, to: int, to': int)
    requires WrittenFrom(ctx, db, db', log, from, to) && to <= to'
    ensures WrittenFrom(ctx, db, db', log, from, to')
  {
  }

  /** Rows written for the range `[a, b)` and then for a batch of logged
      events in `[b, c)` are rows of logged events in `[a, c)`. */
  lemma WrittenJoin(ctx: FundContext, db: Db, mid: Db, db': Db, log: seq<Event>, batch: seq<Event>, a: int, b: int, c: int)
    requires WrittenFrom(ctx, db, mid, log, a, b) && RowsFrom(ctx, mid, db', batch)
    requires forall i :: 0 <= i < |batch| ==> batch[i] in log && b <= batch[i].blockNumber < c
    requires mid.users.rows <= db'.users.rows && mid.ledger <= db'.ledger && a <= b <= c
    ensures WrittenFrom(ctx, db, db', log, a, c)
  {
    forall k | |db.ledger| <= k < |db'.ledger|
      ensures LoggedKey(ctx, db'.users.rows, log, a, c, KeyOf(db'.ledger[k]))
    {
      if k < |mid.ledger| {
        assert LoggedKey(ctx, mid.users.rows, log, a, b, KeyOf(mid.ledger[k]));
        var e :| e in log && a <= e.blockNumber < b && EventKey(ctx, mid.users.rows, e) == Some(KeyOf(mid.ledger[k]));
        assert db'.ledger[k] == mid.ledger[k];
        EventKeyStable(ctx, mid.users.rows, db'.users.rows, e);
        assert e in log && a <= e.blockNumber < c && EventKey(ctx, db'.users.rows, e) == Some(KeyOf(db'.ledger[k]));
      } else {
        assert BatchKey(ctx, db'.users.rows, batch, KeyOf(db'.ledger[k]));
        var e :| e in batch && EventKey(ctx, db'.users.rows, e) == Some(KeyOf(db'.ledger[k]));
        var i :| 0 <= i < |batch| && batch[i] == e;
        assert e in log && a <= e.blockNumber < c;
      }
    }
  }

  /** The chunks a finished pass handled: the completed ones, followed by
      the one that failed when the pass ended with an error. */
  function Attempted(startBlock: int, blockStep: int, run: SyncRun): seq<Chunk>
    requires |run.heads| == |run.chunks| + 1
  {
    if run.failure.None? then run.chunks
    else
      var start := NextStart(run.chunks, startBlock);
      run.chunks + [Chunk(start, Min(start + blockStep, run.heads[|run.chunks|]))]
  }

  /** Handling the chunks a pass handled, from its initial session and
      tables, gives back exactly the session, tables and error it ended
      with: the pass writes nothing beyond its chunks' events and cursors. */
  ghost predicate Replays(ctx: FundContext, env: Env, log: seq<Event>, startBlock: int, blockStep: int,
                          session: Session, db0: Db, run: SyncRun)
  {
    && ValidUsers(db0.users)
    && |run.heads| == |run.chunks| + 1
    && HandleChunks(ctx, env, session, db0, log, Attempted(startBlock, blockStep, run)) == Step(run.session, run.db, run.failure)
  }

  /** The chunks a finished pass handled are contiguous and none is empty,
      and they end where the completed ones end or one chunk further. */
  lemma AttemptedContiguous(ctx: FundContext, chain: ChainHead, log: seq<Event>, startBlock: int, blockStep: int,
                            db0: Db, run: SyncRun)
    requires Ended(ctx, chain, log, startBlock, blockStep, db0, run) && blockStep >= 0
    ensures Contiguous(Attempted(startBlock, blockStep, run), startBlock)
    ensures NonEmptyChunks(Attempted(startBlock, blockStep, run))
    ensures run.failure.None? ==> NextStart(Attempted(startBlock, blockStep, run), startBlock) == NextStart(run.chunks, startBlock)
    ensures run.failure.Some? ==>
              NextStart(Attempted(startBlock, blockStep, run), startBlock) ==
              Min(NextStart(run.chunks, startBlock) + blockStep, run.heads[|run.chunks|]) + 1
  {
  }

  /** A finished pass appended no ledger row but those of logged events in
      the chunks it handled, the failing one included. */
  lemma PassRows(ctx: FundContext, env: Env, chain: ChainHead, log: seq<Event>, startBlock: int, blockStep: int,
                 session: Session, db0: Db, run: SyncRun)
    requires blockStep >= 0
    requires Ended(ctx, chain, log, startBlock, blockStep, db0, run)
    requires Replays(ctx, env, log, startBlock, blockStep, session, db0, run)
    ensures WrittenFrom(ctx, db0, run.db, log, startBlock, NextStart(Attempted(startBlock, blockStep, run), startBlock))
  {
    AttemptedContiguous(ctx, chain, log, startBlock, blockStep, db0, run);
    HandleChunksRows(ctx, env, session, db0, log, Attempted(startBlock, blockStep, run), startBlock);
  }

  /** The chunks a pass handled when it fails on the chunk after `p`'s. */
  lemma AttemptedFailing(startBlock: int, blockStep: int, p: Pass, head: int, step: Step)
    requires |p.heads| == |p.chunks| && step.error.Some?
    ensures var start := NextStart(p.chunks, startBlock);
            Attempted(startBlock, blockStep, SyncRun(p.heads + [head], p.chunks, step.session, step.db, step.error)) ==
            p.chunks + [Chunk(start, Min(start + blockStep, head))]
  {
    assert (p.heads + [head])[|p.chunks|] == head;
  }

  /** A pass that ends cleanly replays as its completed chunks. */
  lemma ReplayEnds(ctx: FundContext, env: Env, log: seq<Event>, startBlock: int, blockStep: int,
                   session: Session, db0: Db, p: Pass, head: int)
    requires ValidUsers(db0.users) && |p.heads| == |p.chunks|
    requires HandleChunks(ctx, env, session, db0, log, p.chunks) == Step(p.session, p.db, None)
    ensures Replays(ctx, env, log, startBlock, blockStep, session, db0, SyncRun(p.heads + [head], p.chunks, p.session, p.db, None))
  {
    var run := SyncRun(p.heads + [head], p.chunks, p.session, p.db, None);
    assert Attempted(startBlock, blockStep, run) == p.chunks;
  }

  /** Replay of one iteration of a pass from the batch handled for its chunk. */
  lemma ChunkReplay(ctx: FundContext, env: Env, log: seq<Event>, startBlock: int, blockStep: int,
                    session: Session, db0: Db, p: Pass, head: int, step: Step)
    requires ValidUsers(db0.users) && ValidUsers(p.db.users) && |p.heads| == |p.chunks|
    requires HandleChunks(ctx, env, session, db0, log, p.chunks) == Step(p.session, p.db, None)
    requires var start := NextStart(p.chunks, startBlock);
             step == HandleAll(ctx, env, p.session, p.db, QueryEvents(log, start, Min(start + blockStep, head)))
    ensures step.error.Some? ==>
              Replays(ctx, env, log, startBlock, blockStep, session, db0,
                      SyncRun(p.heads + [head], p.chunks, step.session, step.db, step.error))
    ensures step.error.None? ==>
              var p' := Advance(ctx, startBlock, blockStep, p, head, step);
              HandleChunks(ctx, env, session, db0, log, p'.chunks) == Step(p'.session, p'.db, None)
  {
    if step.error.Some? {
      AttemptedFailing(startBlock, blockStep, p, head, step);
      HandleChunksAppend(ctx, env, session, db0, log, p.chunks, p.session, p.db,
                         NextStart(p.chunks, startBlock), Min(NextStart(p.chunks, startBlock) + blockStep, head), step,
                         Attempted(startBlock, blockStep, SyncRun(p.heads + [head], p.chunks, step.session, step.db, step.error)));
    } else {
      HandleChunksAppend(ctx, env, session, db0, log, p.chunks, p.session, p.db,
                         NextStart(p.chunks, startBlock), Min(NextStart(p.chunks, startBlock) + blockStep, head), step,
                         Advance(ctx, startBlock, blockStep, p, head, step).chunks);
    }
  }

  /** One iteration of a pass that does not stop at the head: handle the
      chunk's events; on success the pass advances past the chunk, and on
      failure it ends with that chunk's error. */
  method HandleChunk(ctx: FundContext, env: Env, chain: ChainHead, log: seq<Event>, startBlock: int, blockStep: int,
                     session: Session, db0: Db, p: Pass, head: int) returns (step: Step)
    requires PassInv(ctx, chain, log, startBlock, blockStep, db0, p) && blockStep >= 0 && ValidUsers(db0.users)
    requires HandleChunks(ctx, env, session, db0, log, p.chunks) == Step(p.session, p.db, None)
    requires head == HeadAt(chain, |p.heads|) && NextStart(p.chunks, startBlock) <= head
    ensures step.error.Some? ==>
              var run := SyncRun(p.heads + [head], p.chunks, step.session, step.db, step.error);
              Ended(ctx, chain, log, startBlock, blockStep, db0, run) &&
              Replays(ctx, env, log, startBlock, blockStep, session, db0, run)
    ensures step.error.None? ==>
              var p' := Advance(ctx, startBlock, blockStep, p, head, step);
              && PassInv(ctx, chain, log, startBlock, blockStep, db0, p')
              && HandleChunks(ctx, env, session, db0, log, p'.chunks) == Step(p'.session, p'.db, None)
              && NextStart(p'.chunks, startBlock) == Min(NextStart(p.chunks, startBlock) + blockStep, head) + 1
              && |p'.heads| == |p.heads| + 1
  {
    var handled;
    step, handled := GetTransactionEvents(ctx, env, p.session, p.db, log, NextStart(p.chunks, startBlock),
                                          Min(NextStart(p.chunks, startBlock) + blockStep, head));
    ChunkReplay(ctx, env, log, startBlock, blockStep, session, db0, p, head, step);
    if step.error.Some? {
      PassEnds(ctx, chain, log, startBlock, blockStep, db0, p, head, step.session, step.db, step.error);
    } else {
      PassAdvances(ctx, chain, log, startBlock, blockStep, db0, p, head, step);
    }
  }

  /** `synchronizeEvents`: read the head; stop once it is below the cursor;
      otherwise handle the events of `[start, min(start + blockStep, head)]`,
      write that chunk's end as the SyncBlock, and continue after it. */
  method SynchronizeEvents(ctx: FundContext, env: Env, chain: ChainHead, log: seq<Event>,
                           startBlock: int, blockStep: int, session: Session, db: Db) returns (run: SyncRun)
    requires blockStep >= 0
    requires ValidUsers(db.users)
    ensures Ended(ctx, chain, log, startBlock, blockStep, db, run)
    ensures Replays(ctx, env, log, startBlock, blockStep, session, db, run)
  {
    var p := Pass([], [], session, db);
    var start := startBlock;
    while true
      invariant PassInv(ctx, chain, log, startBlock, blockStep, db, p)
      invariant start == NextStart(p.chunks, startBlock)
      invariant HandleChunks(ctx, env, session, db, log, p.chunks) == Step(p.session, p.db, None)
      decreases (if |p.heads| < |chain.replies| then |chain.replies| - |p.heads| else 0),
                (if chain.settled + 1 - start >= 0 then chain.settled + 1 - start else 0)
    {
      var head := HeadAt(chain, |p.heads|);
      if head < start {
        PassEnds(ctx, chain, log, startBlock, blockStep, db, p, head, p.session, p.db, None);
        ReplayEnds(ctx, env, log, startBlock, blockStep, session, db, p, head);
        return SyncRun(p.heads + [head], p.chunks, p.session, p.db, None);
      }
      var finish := Min(start + blockStep, head);
      var step := HandleChunk(ctx, env, chain, log, startBlock, blockStep, session, db, p, head);
      if step.error.Some? {
        return SyncRun(p.heads + [head], p.chunks, step.session, step.db, step.error);
      }
      p := Advance(ctx, startBlock, blockStep, p, head, step);
      start := finish + 1;
    }
  }

  /** The SyncBlock of network `id`, when its row exists and the value is
      not null. */
  function SyncBlockOf(networks: map<int, BlockLib.NetworkRow>, id: int): (r: Option<int>)
    ensures r.Some? ==> id in networks && networks[id].syncBlock == r
    ensures r.None? <==> id !in networks || networks[id].syncBlock.None?
  {
    if id in networks then networks[id].syncBlock else None
  }

  /** After a pass from `cursor + 1` the stored cursor is the last block of
      the last chunk, or unchanged when no chunk was cut; it never moves
      backwards. */
  lemma CursorAfterPass(networks: map<int, BlockLib.NetworkRow>, id: int, chunks: seq<Chunk>, cursor: int)
    requires SyncBlockOf(networks, id) == Some(cursor)
    requires Contiguous(chunks, cursor + 1) && NonEmptyChunks(chunks)
    ensures SyncBlockOf(CursorWrites(networks, id, chunks), id) == Some(NextStart(chunks, cursor + 1) - 1)
    ensures cursor <= NextStart(chunks, cursor + 1) - 1
  {
    if |chunks| > 0 {
      CursorAdvances(chunks, cursor + 1);
    }
  }

  /** What a pass from the block after the stored cursor `cursor` leaves
      behind: the pass itself (`Ended`) and its replay from a fresh session
      (`Replays`); the chunk ends, which are the cursor values written,
      strictly increase; the new cursor is the last completed chunk's end
      and not below the old one; every logged event up to it is recorded;
      a pass that ended without error read a head at or below it; the
      tables only grew, and no ledger row was appended but those of logged
      events in the chunks handled. */
  ghost predicate CaughtUpFrom(ctx: FundContext, env: Env, chain: ChainHead, log: seq<Event>, blockStep: int, db: Db,
                               cursor: int, run: SyncRun)
  {
    var start := cursor + 1;
    var cursor' := NextStart(run.chunks, start) - 1;
    && Ended(ctx, chain, log, start, blockStep, db, run)
    && Replays(ctx, env, log, start, blockStep, FreshSession, db, run)
    && (forall i, j :: 0 <= i < j < |run.chunks| ==> run.chunks[i].to < run.chunks[j].to)
    && SyncBlockOf(run.db.networks, ctx.networkId) == Some(cursor')
    && cursor <= cursor'
    && SettledBetween(ctx, run.db, log, start, cursor' + 1)
    && (run.failure.None? ==> run.heads[|run.chunks|] <= cursor')
    && Grows(db, run.db)
    && (UniqueKeys(db.ledger) ==> UniqueKeys(run.db.ledger))
    && WrittenFrom(ctx, db, run.db, log, start, NextStart(Attempted(start, blockStep, run), start))
  }

  /** A pass from the block after the stored cursor is caught up from it. */
  lemma CaughtUp(ctx: FundContext, env: Env, chain: ChainHead, log: seq<Event>, blockStep: int, db: Db,
                 cursor: int, run: SyncRun)
    requires blockStep >= 0 && SyncBlockOf(db.networks, ctx.networkId) == Some(cursor)
    requires Ended(ctx, chain, log, cursor + 1, blockStep, db, run)
    requires Replays(ctx, env, log, cursor + 1, blockStep, FreshSession, db, run)
    ensures CaughtUpFrom(ctx, env, chain, log, blockStep, db, cursor, run)
  {
    CursorFacts(ctx, chain, log, blockStep, db, cursor, run);
    PassRows(ctx, env, chain, log, cursor + 1, blockStep, FreshSession, db, run);
  }

  /** The cursor side of a pass from the block after the stored cursor. */
  lemma CursorFacts(ctx: FundContext, chain: ChainHead, log: seq<Event>, blockStep: int, db: Db,
                    cursor: int, run: SyncRun)
    requires blockStep >= 0 && SyncBlockOf(db.networks, ctx.networkId) == Some(cursor)
    requires Ended(ctx, chain, log, cursor + 1, blockStep, db, run)
    ensures forall i, j :: 0 <= i < j < |run.chunks| ==> run.chunks[i].to < run.chunks[j].to
    ensures SyncBlockOf(run.db.networks, ctx.networkId) == Some(NextStart(run.chunks, cursor + 1) - 1)
    ensures cursor <= NextStart(run.chunks, cursor + 1) - 1
    ensures SettledBetween(ctx, run.db, log, cursor + 1, NextStart(run.chunks, cursor + 1))
    ensures run.failure.None? ==> run.heads[|run.chunks|] < NextStart(run.chunks, cursor + 1)
  {
    ChunksOrdered(run.chunks, cursor + 1);
    CursorAfterPass(db.networks, ctx.networkId, run.chunks, cursor);
  }

  /** `synchronize`: the pass fails at once when the network row is missing
      or its SyncBlock is null; otherwise a fresh session catches up from the
      block after SyncBlock. The cursor never moves backwards, successive
      cursor writes strictly increase, every logged event up to the new
      cursor is recorded, and a pass that ends without error leaves the last
      head read at or below the cursor. */
  method Synchronize(ctx: FundContext, env: Env, chain: ChainHead, log: seq<Event>, blockStep: int, db: Db)
    returns (r: Result<SyncRun>)
    requires blockStep >= 0
    requires ValidUsers(db.users)
    ensures r.Err? <==> SyncBlockOf(db.networks, ctx.networkId).None?
    ensures r.Err? ==> r.error == SyncBlockNull(ctx.networkId)
    ensures r.Ok? ==> CaughtUpFrom(ctx, env, chain, log, blockStep, db, SyncBlockOf(db.networks, ctx.networkId).value, r.value)
  {
    if SyncBlockOf(db.networks, ctx.networkId).None? {
      return Err(SyncBlockNull(ctx.networkId));
    }
    var run := CatchUp(ctx, env, chain, log, blockStep, db, SyncBlockOf(db.networks, ctx.networkId).value);
    return Ok(run);
  }

  /** A pass with a fresh session from the block after the stored cursor. */
  method CatchUp(ctx: FundContext, env: Env, chain: ChainHead, log: seq<Event>, blockStep: int, db: Db, cursor: int)
    returns (run: SyncRun)
    requires blockStep >= 0 && ValidUsers(db.users)
    requires SyncBlockOf(db.networks, ctx.networkId) == Some(cursor)
    ensures CaughtUpFrom(ctx, env, chain, log, blockStep, db, cursor, run)
  {
    run := SynchronizeEvents(ctx, env, chain, log, cursor + 1, blockStep, FreshSession, db);
    CaughtUp(ctx, env, chain, log, blockStep, db, cursor, run);
  }

  /** Chunk ends never fall below the chunk start, so the last end is at
      least the first start. */
  lemma {:induction false} CursorAdvances(chunks: seq<Chunk>, start: int)
    requires Contiguous(chunks, start) && |chunks| > 0
    requires NonEmptyChunks(chunks)
    ensures start <= chunks[|chunks| - 1].to
    decreases |chunks|
  {
    if |chunks| > 1 {
      CursorAdvances(chunks[..|chunks| - 1], start);
    }
  }

  /** `funds[i]` is the first fund row at `address` (`rows[0]` of
      `SELECT * FROM Fund WHERE Address = ?`). */
  ghost predicate FirstFund(funds: seq<FundRow>, address: string, i: int)
  {
    && 0 <= i < |funds|
    && funds[i].address == address
    && forall j :: 0 <= j < i ==> funds[j].address != address
  }

  /** The live path (`Synchronizer.saveTransactionEvent`): the fund is found
      by the emitting contract's address, a new session is set up for the
      first fund row at that address, and the event goes through the same
      handling as in a catch-up pass; a failed setup writes nothing. */
  method HandleLiveEvent(funds: seq<FundRow>, config: Config, env: Env, db: Db, ev: Event) returns (r: Step)
    requires ValidUsers(db.users)
    ensures Grows(db, r.db) && r.db.networks == db.networks
    ensures (forall i :: 0 <= i < |funds| ==> funds[i].address != ev.address) ==>
              r.error == Some(FundAddressUnknown(ev.address)) && r.db == db
    ensures forall i :: FirstFund(funds, ev.address, i) && Setup(funds[i], config).Ok? ==>
              r == SaveEvent(Setup(funds[i], config).value, env, FreshSession, db, ev)
    ensures forall i :: FirstFund(funds, ev.address, i) && Setup(funds[i], config).Err? ==>
              r.error == Some(Setup(funds[i], config).error) && r.db == db
    ensures r.error.None? ==>
              (exists i :: FirstFund(funds, ev.address, i) &&
                 Setup(funds[i], config).Ok? && Settled(Setup(funds[i], config).value, r.db, ev))
  {
    var fund := BlockLib.FindFirst(funds, (f: FundRow) => f.address == ev.address);
    if fund.None? {
      return Step(FreshSession, db, Some(FundAddressUnknown(ev.address)));
    }
    var k :| 0 <= k < |funds| && funds[k] == fund.value && funds[k].address == ev.address &&
             forall j :: 0 <= j < k ==> funds[j].address != ev.address;
    assert FirstFund(funds, ev.address, k);
    forall i | FirstFund(funds, ev.address, i) ensures i == k {
    }
    var setup := Setup(fund.value, config);
    if setup.Err? {
      return Step(FreshSession, db, Some(setup.error));
    }
    r := SaveEvent(setup.value, env, FreshSession, db, ev);
    SaveEventRecords(setup.value, env, FreshSession, db, ev, r);
  }
}
