/** The two tables the synchronization engine writes: the User directory
    (`addOrFindUserId`) and the Transaction ledger (`addTransaction`). Both
    writes are idempotent, which is what lets the poller and the live
    listener deliver the same event any number of times. */
module Ledger {
  import opened Common

  /** The User table and its auto-increment counter. */
  datatype UserRow = UserRow(id: int, address: string, timeAdded: Option<int>)
  datatype UserTable = UserTable(rows: seq<UserRow>, nextId: int)

  /** Ids are below the counter and distinct, and an address appears at most
      once (the table's unique key that makes `INSERT IGNORE` ignore). */
  ghost predicate ValidUsers(t: UserTable)
  {
    && (forall i :: 0 <= i < |t.rows| ==> t.rows[i].id < t.nextId)
    && (forall i, j :: 0 <= i < j < |t.rows| ==> t.rows[i].id != t.rows[j].id)
    && (forall i, j :: 0 <= i < j < |t.rows| ==> t.rows[i].address != t.rows[j].address)
  }

  function Addresses(t: UserTable): set<string>
  {
    set i | 0 <= i < |t.rows| :: t.rows[i].address
  }

  /** `SELECT Id FROM User WHERE Address = ?`, first row. */
  function FindUser(rows: seq<UserRow>, address: string): (r: Option<int>)
    ensures r.None? <==> forall i :: 0 <= i < |rows| ==> rows[i].address != address
    ensures r.Some? ==> exists i :: 0 <= i < |rows| && rows[i].address == address && rows[i].id == r.value &&
                                    forall j :: 0 <= j < i ==> rows[j].address != address
  {
    if |rows| == 0 then None
    else if rows[0].address == address then Some(rows[0].id)
    else
      var r := FindUser(rows[1..], address);
      if r.Some? then
        var i :| 0 <= i < |rows| - 1 && rows[1..][i].address == address && rows[1..][i].id == r.value &&
                 forall j :: 0 <= j < i ==> rows[1..][j].address != address;
        assert rows[i + 1].address == address;
        r
      else r
  }

  /** `INSERT IGNORE INTO User (Address, TimeAdded)`: a row with the next id,
      unless the address is already present (the unique key on `Address`
      turns the insert into a no-op). Either way the address is in the table
      afterwards, and no existing row changes. */
  function InsertUserIgnore(t: UserTable, address: string, time: Option<int>): (t': UserTable)
    ensures t.rows <= t'.rows
    ensures exists i :: 0 <= i < |t'.rows| && t'.rows[i].address == address
    ensures (exists i :: 0 <= i < |t.rows| && t.rows[i].address == address) ==> t' == t
    ensures (forall i :: 0 <= i < |t.rows| ==> t.rows[i].address != address) ==>
              |t'.rows| == |t.rows| + 1 && t'.rows[|t.rows|] == UserRow(t.nextId, address, time) && t'.nextId == t.nextId + 1
  {
    if FindUser(t.rows, address).Some? then t
    else
      var t' := UserTable(t.rows + [UserRow(t.nextId, address, time)], t.nextId + 1);
      assert t'.rows[|t.rows|].address == address;
      t'
  }

  lemma AddressesAfterInsert(t: UserTable, address: string, time: Option<int>)
    ensures address in Addresses(t) <==> FindUser(t.rows, address).Some?
    ensures Addresses(InsertUserIgnore(t, address, time)) == Addresses(t) + {address}
  {
    var t' := InsertUserIgnore(t, address, time);
    if address in Addresses(t) {
      var i :| 0 <= i < |t.rows| && t.rows[i].address == address;
    } else {
      assert t'.rows[|t.rows|].address == address;
      assert forall i :: 0 <= i < |t.rows| ==> t'.rows[i] == t.rows[i];
      forall x | x in Addresses(t') ensures x in Addresses(t) + {address} {
        var i :| 0 <= i < |t'.rows| && t'.rows[i].address == x;
      }
    }
  }

  /** Result of a directory call: the table afterwards and the id returned. */
  datatype UserLookup = UserLookup(table: UserTable, userId: Option<int>)

  /** `addOrFindUserId` exactly as written: on the insert path the declared
      `userId` is never assigned, so nothing comes back. */
  function AddOrFindUserIdAsWritten(t: UserTable, address: string, time: Option<int>): (r: UserLookup)
    ensures FindUser(t.rows, address).Some? ==> r == UserLookup(t, FindUser(t.rows, address))
    ensures FindUser(t.rows, address).None? ==> r.userId.None? && r.table.rows == t.rows + [UserRow(t.nextId, address, time)]
  {
    var found := FindUser(t.rows, address);
    if found.Some? then UserLookup(t, found)
    else UserLookup(InsertUserIgnore(t, address, time), None)
  }

  /** The insert path as written loses the new user's id, although the row
      holding it is now in the table; the corrected lookup returns it. */
  lemma NewUserIdLostAsWritten(t: UserTable, address: string, time: Option<int>)
    requires ValidUsers(t) && address !in Addresses(t)
    ensures AddOrFindUserIdAsWritten(t, address, time).userId == None
    ensures FindUser(AddOrFindUserIdAsWritten(t, address, time).table.rows, address) == Some(t.nextId)
    ensures AddOrFindUserId(t, address, time).userId == Some(t.nextId)
  {
    FindUserAppend(t.rows, UserRow(t.nextId, address, time));
  }

  /** Concrete witness: the first event of a new address on an empty user
      table. */
  lemma NewUserOnEmptyTable()
    ensures AddOrFindUserIdAsWritten(UserTable([], 1), "0xab", Some(0)).userId == None
    ensures AddOrFindUserId(UserTable([], 1), "0xab", Some(0)).userId == Some(1)
  {
  }

  /** Appending a row for an address not yet present makes that row the one
      found. */
  lemma {:induction false} FindUserAppend(rows: seq<UserRow>, row: UserRow)
    requires FindUser(rows, row.address).None?
    ensures FindUser(rows + [row], row.address) == Some(row.id)
    decreases |rows|
  {
    if |rows| > 0 {
      assert (rows + [row])[1..] == rows[1..] + [row];
      FindUserAppend(rows[1..], row);
    }
  }

  /** `addOrFindUserId` as intended (the read-through-then-write directory):
      a known address returns its id and changes nothing; an unknown one gets
      exactly one new row, and the id is read back. */
  function AddOrFindUserId(t: UserTable, address: string, time: Option<int>): (r: UserLookup)
    requires ValidUsers(t)
    ensures ValidUsers(r.table)
    ensures r.userId.Some?
    ensures Addresses(r.table) == Addresses(t) + {address}
    ensures |r.table.rows| == |t.rows| + (if address in Addresses(t) then 0 else 1)
    ensures exists i :: 0 <= i < |r.table.rows| && r.table.rows[i].address == address && r.table.rows[i].id == r.userId.value
    ensures (exists i :: 0 <= i < |t.rows| && t.rows[i].address == address) ==> r.table == t
    ensures (forall i :: 0 <= i < |t.rows| ==> t.rows[i].address != address) ==>
              r.table.rows == t.rows + [UserRow(t.nextId, address, time)] && r.userId.value == t.nextId
  {
    var t' := InsertUserIgnore(t, address, time);
    AddressesAfterInsert(t, address, time);
    if FindUser(t.rows, address).None? then
      InsertNewUser(t, address, time);
      UserLookup(t', FindUser(t'.rows, address))
    else
      UserLookup(t', FindUser(t'.rows, address))
  }

  /** A row for a new address, with the counter's id, keeps the table well
      formed and is the row found for that address. */
  lemma InsertNewUser(t: UserTable, address: string, time: Option<int>)
    requires ValidUsers(t) && FindUser(t.rows, address).None?
    ensures var t' := UserTable(t.rows + [UserRow(t.nextId, address, time)], t.nextId + 1);
            ValidUsers(t') && FindUser(t'.rows, address) == Some(t.nextId)
  {
    var row := UserRow(t.nextId, address, time);
    var rows' := t.rows + [row];
    FindUserAppend(t.rows, row);
    forall i, j | 0 <= i < j < |rows'|
      ensures rows'[i].id != rows'[j].id && rows'[i].address != rows'[j].address
    {
      assert rows'[i] == t.rows[i];
      if j < |t.rows| {
        assert rows'[j] == t.rows[j];
      }
    }
    forall i | 0 <= i < |rows'| ensures rows'[i].id < t.nextId + 1 {
      if i < |t.rows| {
        assert rows'[i] == t.rows[i];
      }
    }
  }

  /** The same address always resolves to the same id, and asking again
      neither inserts nor changes anything. */
  lemma UserIdStable(t: UserTable, address: string, time: Option<int>, time': Option<int>)
    requires ValidUsers(t)
    ensures var first := AddOrFindUserId(t, address, time);
            var second := AddOrFindUserId(first.table, address, time');
            second.table == first.table && second.userId == first.userId
  {
  }

  /** A well-formed table has exactly one row per address. */
  lemma {:induction false} OneRowPerAddress(t: UserTable)
    requires ValidUsers(t)
    ensures |Addresses(t)| == |t.rows|
    decreases |t.rows|
  {
    if |t.rows| > 0 {
      var n := |t.rows| - 1;
      var init := UserTable(t.rows[..n], t.nextId);
      var last := t.rows[n];
      assert t.rows == init.rows + [last];
      assert ValidUsers(init);
      OneRowPerAddress(init);
      AddressesSnoc(init, last);
      assert last.address !in Addresses(init) by {
        assert forall i :: 0 <= i < n ==> init.rows[i].address != last.address;
      }
    }
  }

  lemma AddressesSnoc(t: UserTable, row: UserRow)
    ensures Addresses(UserTable(t.rows + [row], t.nextId)) == Addresses(t) + {row.address}
  {
    var t' := UserTable(t.rows + [row], t.nextId);
    assert t'.rows[|t.rows|] == row;
    forall x | x in Addresses(t') ensures x in Addresses(t) + {row.address} {
      var i :| 0 <= i < |t'.rows| && t'.rows[i].address == x;
      if i < |t.rows| {
        assert t.rows[i] == t'.rows[i];
      }
    }
    forall x | x in Addresses(t) ensures x in Addresses(t') {
      var i :| 0 <= i < |t.rows| && t.rows[i].address == x;
      assert t'.rows[i] == t.rows[i];
    }
  }

  /** The valuation of one event in USD, BTC and ETH. */
  datatype Valuation = Valuation(usd: real, btc: real, eth: real)

  /** One Transaction row. */
  datatype TxRow = TxRow(fundId: int, assetId: int, userId: int, amount: real, value: Valuation,
                         txHash: string, timestamp: Option<int>)

  /** The dedup key: (fund, asset, user, amount, transaction hash). */
  datatype TxKey = TxKey(fundId: int, assetId: int, userId: int, amount: real, txHash: string)

  function KeyOf(t: TxRow): TxKey
  {
    TxKey(t.fundId, t.assetId, t.userId, t.amount, t.txHash)
  }

  predicate Recorded(ledger: seq<TxRow>, k: TxKey)
  {
    exists i :: 0 <= i < |ledger| && KeyOf(ledger[i]) == k
  }

  /** At most one row per dedup key. */
  ghost predicate UniqueKeys(ledger: seq<TxRow>)
  {
    forall i, j :: 0 <= i < j < |ledger| ==> KeyOf(ledger[i]) != KeyOf(ledger[j])
  }

  /** `addTransaction`: the existence check on the dedup key, then the insert.
      An already recorded key leaves the ledger as it is; a new key appends
      exactly the given row. */
  function AddTransaction(ledger: seq<TxRow>, row: TxRow): (r: seq<TxRow>)
    ensures Recorded(r, KeyOf(row))
    ensures Recorded(ledger, KeyOf(row)) ==> r == ledger
    ensures !Recorded(ledger, KeyOf(row)) ==> r == ledger + [row]
    ensures UniqueKeys(ledger) ==> UniqueKeys(r)
  {
    if Recorded(ledger, KeyOf(row)) then ledger
    else
      assert KeyOf((ledger + [row])[|ledger|]) == KeyOf(row);
      ledger + [row]
  }

  /** A Transaction row as the as-written insert path stores it: the new
      sender's id is undefined, which the driver sends as NULL. */
  datatype NullableTxRow = NullableTxRow(fundId: int, assetId: int, userId: Option<int>, amount: real, txHash: string)

  /** The dedup `SELECT ... WHERE FundId = ? AND AssetId = ? AND UserId = ?
      AND Amount = ? AND TxHash = ?`: a comparison with NULL is never true,
      so a row matches only when both user ids are set and equal. */
  predicate SqlKeyMatch(stored: NullableTxRow, row: NullableTxRow)
  {
    && stored.fundId == row.fundId && stored.assetId == row.assetId
    && stored.userId.Some? && row.userId.Some? && stored.userId == row.userId
    && stored.amount == row.amount && stored.txHash == row.txHash
  }

  /** `addTransaction` over nullable rows, with no unique index on the
      Transaction table (its schema is not part of this model): the
      existence check, then the insert. */
  function AddTransactionAsWritten(ledger: seq<NullableTxRow>, row: NullableTxRow): (r: seq<NullableTxRow>)
    ensures (exists i :: 0 <= i < |ledger| && SqlKeyMatch(ledger[i], row)) ==> r == ledger
    ensures (forall i :: 0 <= i < |ledger| ==> !SqlKeyMatch(ledger[i], row)) ==> r == ledger + [row]
  {
    if exists i :: 0 <= i < |ledger| && SqlKeyMatch(ledger[i], row) then ledger else ledger + [row]
  }

  /** The directory and the ledger on the as-written path. */
  datatype Delivery = Delivery(users: UserTable, ledger: seq<NullableTxRow>)

  /** One delivery of an event as written: `addOrFindUserId`, then
      `addTransaction` with whatever id came back (NULL for a new sender).
      Both tables only grow, the ledger by at most one row. */
  function DeliverAsWritten(d: Delivery, address: string, time: Option<int>,
                            fundId: int, assetId: int, amount: real, txHash: string): (r: Delivery)
    ensures d.users.rows <= r.users.rows
    ensures d.ledger <= r.ledger && |r.ledger| <= |d.ledger| + 1
  {
    var lookup := AddOrFindUserIdAsWritten(d.users, address, time);
    Delivery(lookup.table, AddTransactionAsWritten(d.ledger, NullableTxRow(fundId, assetId, lookup.userId, amount, txHash)))
  }

  /** The same event from a new sender delivered three times, as written.
      The first delivery adds the user but stores the transaction with a
      NULL user id. The second finds the user, and since the NULL row never
      matches the existence check, stores a second row under the user's id.
      The third matches that row and changes nothing. The corrected lookup
      stores one row (`AddTransactionIdempotent`, `SaveEventReplay`). No
      transaction may refer to the id not yet handed out. */
  lemma NewSenderDeliveredAsWritten(d: Delivery, address: string, time: Option<int>,
                                    fundId: int, assetId: int, amount: real, txHash: string)
    requires ValidUsers(d.users) && address !in Addresses(d.users)
    requires forall i :: 0 <= i < |d.ledger| ==> d.ledger[i].userId != Some(d.users.nextId)
    ensures var d1 := DeliverAsWritten(d, address, time, fundId, assetId, amount, txHash);
            var d2 := DeliverAsWritten(d1, address, time, fundId, assetId, amount, txHash);
            var d3 := DeliverAsWritten(d2, address, time, fundId, assetId, amount, txHash);
            && d1.ledger == d.ledger + [NullableTxRow(fundId, assetId, None, amount, txHash)]
            && d2.ledger == d1.ledger + [NullableTxRow(fundId, assetId, Some(d.users.nextId), amount, txHash)]
            && d3 == d2
  {
    NewUserIdLostAsWritten(d.users, address, time);
    var d1 := DeliverAsWritten(d, address, time, fundId, assetId, amount, txHash);
    var row2 := NullableTxRow(fundId, assetId, Some(d.users.nextId), amount, txHash);
    assert d1.ledger == d.ledger + [NullableTxRow(fundId, assetId, None, amount, txHash)];
    assert forall i :: 0 <= i < |d1.ledger| ==> !SqlKeyMatch(d1.ledger[i], row2);
    var d2 := DeliverAsWritten(d1, address, time, fundId, assetId, amount, txHash);
    assert d2.users == d1.users;
    assert d2.ledger == d1.ledger + [row2];
    assert SqlKeyMatch(d2.ledger[|d1.ledger|], row2);
  }

  /** Recording the same event twice is the same as recording it once. */
  lemma AddTransactionIdempotent(ledger: seq<TxRow>, row: TxRow)
    ensures AddTransaction(AddTransaction(ledger, row), row) == AddTransaction(ledger, row)
  {
  }

  /** A sequence of deliveries, from either path, recorded one after another. */
  function RecordAll(ledger: seq<TxRow>, rows: seq<TxRow>): (r: seq<TxRow>)
    decreases |rows|
  {
    if |rows| == 0 then ledger
    else RecordAll(AddTransaction(ledger, rows[0]), rows[1..])
  }

  /** Whatever the interleaving of deliveries, the ledger ends with one row per
      key: the keys already there plus the keys delivered, and nothing else. */
  lemma {:induction false} RecordAllKeys(ledger: seq<TxRow>, rows: seq<TxRow>)
    requires UniqueKeys(ledger)
    ensures UniqueKeys(RecordAll(ledger, rows))
    ensures forall k :: Recorded(RecordAll(ledger, rows), k) <==> Recorded(ledger, k) || Recorded(rows, k)
    decreases |rows|
  {
    if |rows| > 0 {
      var l1 := AddTransaction(ledger, rows[0]);
      RecordAllKeys(l1, rows[1..]);
      forall k ensures Recorded(l1, k) <==> Recorded(ledger, k) || KeyOf(rows[0]) == k {
        if Recorded(l1, k) && !Recorded(ledger, k) {
          var i :| 0 <= i < |l1| && KeyOf(l1[i]) == k;
          assert i == |ledger|;
        }
        if Recorded(ledger, k) {
          var i :| 0 <= i < |ledger| && KeyOf(ledger[i]) == k;
          assert l1[i] == ledger[i];
        }
      }
      forall k ensures Recorded(rows, k) <==> KeyOf(rows[0]) == k || Recorded(rows[1..], k) {
        if Recorded(rows, k) {
          var i :| 0 <= i < |rows| && KeyOf(rows[i]) == k;
          if i > 0 { assert rows[1..][i - 1] == rows[i]; }
        }
        if Recorded(rows[1..], k) {
          var i :| 0 <= i < |rows[1..]| && KeyOf(rows[1..][i]) == k;
          assert rows[i + 1] == rows[1..][i];
        }
      }
    }
  }
}
