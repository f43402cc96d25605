/** What every transaction of the store keeps, and how the tables may evolve from one to the next. */
module StoreFacts {
  import opened RelayTypes
  import opened Store

  type Hash = string -> string

  // ----- The integrity of the tables -----

  /** Only batches collect, and without a code; afterwards the hash of a relay is the hash of its code. */
  predicate RelayRow(row: Relay, hash: Hash) {
    if row.status == Collecting then row.codeHash == None && row.codeValue == "" && row.sourceUpdateId == None
    else row.codeHash == Some(hash(row.codeValue))
  }

  ghost predicate RelayRows(db: Db, hash: Hash) {
    forall r :: r in db.relays ==> db.relays[r].id == r && 1 <= r < db.nextRelay && RelayRow(db.relays[r], hash)
  }

  ghost predicate HashesUnique(db: Db) {
    forall a, b :: a in db.relays && b in db.relays && db.relays[a].codeHash == db.relays[b].codeHash != None ==> a == b
  }

  /** The rows of a relay belong to it and their orders run 1, 2, 3, ... in the order of insertion. */
  ghost predicate RowsInOrder(rows: seq<RelayItem>, relayId: int, nextItem: int) {
    forall i :: 0 <= i < |rows| ==> rows[i].relayId == relayId && rows[i].itemOrder == i + 1 && rows[i].id < nextItem
  }

  ghost predicate ItemRows(db: Db) {
    && db.items.Keys == db.relays.Keys
    && forall r :: r in db.items ==> RowsInOrder(db.items[r], r, db.nextItem)
  }

  ghost predicate UpdatesUnique(db: Db) {
    forall u, r1, i1, r2, i2 :: ItemAt(db, r1, i1, u) && ItemAt(db, r2, i2, u) ==> r1 == r2 && i1 == i2
  }

  ghost predicate DeliveryRows(db: Db) {
    forall d :: d in db.deliveries ==>
      && db.deliveries[d].id == d && 1 <= d < db.nextDelivery
      && db.deliveries[d].relayId in db.relays
  }

  ghost predicate RequestsUnique(db: Db) {
    forall d, e | d in db.deliveries && e in db.deliveries ::
      db.deliveries[d].requestUpdateId == db.deliveries[e].requestUpdateId ==> d == e
  }

  ghost predicate Integrity(db: Db, hash: Hash) {
    && 1 <= db.nextRelay && 1 <= db.nextDelivery
    && RelayRows(db, hash) && HashesUnique(db) && ItemRows(db) && UpdatesUnique(db) && DeliveryRows(db) && RequestsUnique(db)
  }

  // ----- Evolution -----

  function Rank(status: RelayStatus): int {
    match status
    case Collecting => 0
    case Ready => 1
    case Expired => 2
  }

  /** A row never changes hands or goes back, and its code and expiry are frozen once it is ready. */
  predicate RowEvolves(a: Relay, b: Relay) {
    && a.id == b.id && a.sourceUpdateId == b.sourceUpdateId && a.createdAt == b.createdAt
    && a.uploaderUserId == b.uploaderUserId && a.uploaderChatId == b.uploaderChatId
    && Rank(a.status) <= Rank(b.status) && a.deliveryCount <= b.deliveryCount
    && (a.status != Collecting ==> a.codeValue == b.codeValue && a.codeHash == b.codeHash && a.expiresAt == b.expiresAt)
  }

  /** The rows of a relay only grow at the end, and not at all once it is ready. */
  predicate ItemsEvolve(db: Db, next: Db, r: int)
    requires r in db.relays
  {
    && Rows(db, r) <= Rows(next, r)
    && (db.relays[r].status != Collecting ==> Rows(db, r) == Rows(next, r))
  }

  ghost predicate RelaysEvolve(db: Db, next: Db) {
    forall r :: r in next.relays && r < db.nextRelay ==>
      r in db.relays && RowEvolves(db.relays[r], next.relays[r]) && ItemsEvolve(db, next, r)
  }

  ghost predicate DeliveriesEvolve(db: Db, next: Db) {
    forall d :: d in next.deliveries && d < db.nextDelivery ==>
      && d in db.deliveries
      && db.deliveries[d].relayId == next.deliveries[d].relayId
      && db.deliveries[d].requestUpdateId == next.deliveries[d].requestUpdateId
      && db.deliveries[d].createdAt == next.deliveries[d].createdAt
  }

  /** From `db` to `next` nothing comes back, nothing changes identity and what is sealed stays sealed. */
  ghost predicate Evolves(db: Db, next: Db) {
    && db.nextRelay <= next.nextRelay && db.nextDelivery <= next.nextDelivery
    && RelaysEvolve(db, next) && DeliveriesEvolve(db, next)
  }

  lemma EvolvesReflexive(db: Db)
    ensures Evolves(db, db)
  {
  }

  lemma EvolvesTransitive(a: Db, b: Db, c: Db)
    requires Evolves(a, b) && Evolves(b, c)
    ensures Evolves(a, c)
  {
    forall r | r in c.relays && r < a.nextRelay
      ensures r in a.relays && RowEvolves(a.relays[r], c.relays[r]) && ItemsEvolve(a, c, r)
    {
      assert r in b.relays && r in a.relays;
      assert ItemsEvolve(a, b, r) && ItemsEvolve(b, c, r);
    }
  }

  // ----- The listing -----

  /** With orders 1, 2, 3, ... the ORDER BY of the listing changes nothing: it is the order of insertion. */
  lemma ListingIsInsertionOrder(db: Db, r: int)
    requires ItemRows(db)
    ensures Listing(db, r) == Rows(db, r)
  {
    if r in db.items {
      assert RowsInOrder(db.items[r], r, db.nextItem);
      OrderRowsKeepsSorted(db.items[r]);
    }
  }

  lemma {:induction false} MaxOrderIsLength(rows: seq<RelayItem>, relayId: int, nextItem: int)
    requires RowsInOrder(rows, relayId, nextItem)
    ensures MaxOrder(rows) == |rows|
  {
    if |rows| > 1 {
      MaxOrderIsLength(rows[..|rows| - 1], relayId, nextItem);
    }
  }

  // ----- Inserting relays and items -----

  lemma InsertRelayKeeps(db: Db, row: Relay, hash: Hash)
    requires Integrity(db, hash) && row.id == db.nextRelay && RelayRow(row, hash)
    requires row.codeHash.Some? ==> !HashTaken(db, row.codeHash.value)
    ensures Integrity(InsertRelay(db, row), hash) && Evolves(db, InsertRelay(db, row))
  {
    var next := InsertRelay(db, row);
    assert HashesUnique(next) by {
      forall a, b | a in next.relays && b in next.relays && next.relays[a].codeHash == next.relays[b].codeHash != None
        ensures a == b
      {
        assert a != row.id ==> a in db.relays && next.relays[a] == db.relays[a];
        assert b != row.id ==> b in db.relays && next.relays[b] == db.relays[b];
      }
    }
    InsertRelayItems(db, row, hash);
  }

  lemma InsertRelayItems(db: Db, row: Relay, hash: Hash)
    requires Integrity(db, hash) && row.id == db.nextRelay
    ensures ItemRows(InsertRelay(db, row)) && UpdatesUnique(InsertRelay(db, row))
    ensures RelaysEvolve(db, InsertRelay(db, row))
  {
    var next := InsertRelay(db, row);
    assert forall u, r, i :: ItemAt(next, r, i, u) ==> ItemAt(db, r, i, u);
    assert forall r :: r in db.relays ==> Rows(next, r) == Rows(db, r);
  }

  lemma InsertItemKeeps(db: Db, item: RelayItem, hash: Hash)
    requires Integrity(db, hash) && item.relayId in db.relays && item.id == db.nextItem
    requires item.itemOrder == |Rows(db, item.relayId)| + 1
    requires !HasItemFor(db, item.sourceUpdateId)
    ensures Integrity(InsertItem(db, item), hash)
    ensures db.relays[item.relayId].status == Collecting ==> Evolves(db, InsertItem(db, item))
  {
    var next := InsertItem(db, item);
    assert forall s | s in next.relays :: next.relays[s] == db.relays[s].(updatedAt := next.relays[s].updatedAt);
    assert ItemRows(next) by {
      assert RowsInOrder(db.items[item.relayId], item.relayId, db.nextItem);
    }
    InsertItemUnique(db, item);
    InsertItemEvolves(db, item);
  }

  lemma InsertItemEvolves(db: Db, item: RelayItem)
    requires item.relayId in db.relays
    ensures db.relays[item.relayId].status == Collecting ==> Evolves(db, InsertItem(db, item))
  {
    var next := InsertItem(db, item);
    assert forall s :: s in db.relays && s != item.relayId ==> Rows(next, s) == Rows(db, s);
  }

  lemma InsertItemUnique(db: Db, item: RelayItem)
    requires UpdatesUnique(db) && ItemRows(db) && item.relayId in db.relays && !HasItemFor(db, item.sourceUpdateId)
    ensures UpdatesUnique(InsertItem(db, item))
  {
    var next, n := InsertItem(db, item), |Rows(db, item.relayId)|;
    assert forall r, i :: !ItemAt(db, r, i, item.sourceUpdateId);
    forall u, r, i | ItemAt(next, r, i, u)
      ensures (r == item.relayId && i == n && u == item.sourceUpdateId) || ItemAt(db, r, i, u)
    {
    }
  }

  /** AddItemTx without a chosen order: the new row goes to the end, everything else stays. */
  lemma AddItemKeeps(db: Db, relayId: int, upload: Upload, maxItems: int, now: Time, hash: Hash)
    requires Integrity(db, hash)
    ensures var (next, r) := AddItemTx(db, relayId, upload, 0, maxItems, now, false);
      && Integrity(next, hash) && Evolves(db, next)
      && (r.Ok? && r.value.1 ==>
            && relayId in db.relays && db.relays[relayId].status == Collecting
            && Rows(next, relayId) == Rows(db, relayId) + [r.value.0]
            && r.value.0 == NewItem(db.nextItem, relayId, upload, |Rows(db, relayId)| + 1, now)
            && next.relays.Keys == db.relays.Keys
            && (maxItems > 0 ==> |Rows(next, relayId)| <= maxItems))
      && (!(r.Ok? && r.value.1) ==> next == db)
  {
    var (next, r) := AddItemTx(db, relayId, upload, 0, maxItems, now, false);
    EvolvesReflexive(db);
    if r.Ok? && r.value.1 {
      assert RowsInOrder(Rows(db, relayId), relayId, db.nextItem);
      MaxOrderIsLength(Rows(db, relayId), relayId, db.nextItem);
      InsertItemKeeps(db, r.value.0, hash);
    }
  }

  // ----- Single uploads and batches -----

  lemma CreateRelayKeeps(db: Db, upload: Upload, code: string, userId: int, chatId: int, expiresAt: Time, now: Time, hash: Hash)
    requires Integrity(db, hash)
    ensures var (next, r) := CreateRelayTx(db, upload, code, hash(code), userId, chatId, expiresAt, now);
      && Integrity(next, hash) && Evolves(db, next) && next.deliveries == db.deliveries
      && (r.Err? ==> next == db)
      && (r.Ok? ==>
            && r.value == SingleRow(db.nextRelay, upload, code, hash(code), userId, chatId, expiresAt, now)
            && next.relays == db.relays[db.nextRelay := r.value]
            && (forall s :: s in db.relays ==> Rows(next, s) == Rows(db, s))
            && Rows(next, db.nextRelay) == (if HasItemFor(db, upload.sourceUpdateId) then [] else [NewItem(db.nextItem, db.nextRelay, upload.(mediaGroupId := ""), 1, now)]))
  {
    hide Integrity, Evolves, HasItemFor;
    var (next, r) := CreateRelayTx(db, upload, code, hash(code), userId, chatId, expiresAt, now);
    if r.Err? {
      EvolvesReflexive(db);
    } else {
      SingleIs(db, upload, code, hash(code), userId, chatId, expiresAt, now, hash);
      SingleKeeps(db, r.value, upload, now, hash);
    }
  }

  /** What a single upload leaves behind: its row, and its item unless there is one already. */
  function WithSingle(db: Db, row: Relay, upload: Upload, now: Time): Db
    requires row.id == db.nextRelay
  {
    if HasItemFor(db, upload.sourceUpdateId) then InsertRelay(db, row)
    else InsertItem(InsertRelay(db, row), NewItem(db.nextItem, row.id, upload.(mediaGroupId := ""), 1, now))
  }

  lemma SingleIs(db: Db, upload: Upload, code: string, codeHash: string, userId: int, chatId: int, expiresAt: Time, now: Time, hash: Hash)
    requires Integrity(db, hash) && CreateRelayTx(db, upload, code, codeHash, userId, chatId, expiresAt, now).1.Ok?
    ensures var row := SingleRow(db.nextRelay, upload, code, codeHash, userId, chatId, expiresAt, now);
      CreateRelayTx(db, upload, code, codeHash, userId, chatId, expiresAt, now) == (WithSingle(db, row, upload, now), Ok(row)) && !HashTaken(db, codeHash)
  {
    hide HashesUnique, UpdatesUnique, DeliveryRows, RequestsUnique, HasItemFor;
    var row := SingleRow(db.nextRelay, upload, code, codeHash, userId, chatId, expiresAt, now);
    SameItems(db, row, upload.sourceUpdateId);
    assert Rows(InsertRelay(db, row), row.id) == [];
  }

  lemma SingleKeeps(db: Db, row: Relay, upload: Upload, now: Time, hash: Hash)
    requires Integrity(db, hash) && row.id == db.nextRelay && RelayRow(row, hash) && row.status == Ready && row.updatedAt == now
    requires row.codeHash.Some? ==> !HashTaken(db, row.codeHash.value)
    ensures var next := WithSingle(db, row, upload, now);
      && Integrity(next, hash) && Evolves(db, next) && next.deliveries == db.deliveries
      && next.relays == db.relays[db.nextRelay := row]
      && (forall s :: s in db.relays ==> Rows(next, s) == Rows(db, s))
      && Rows(next, db.nextRelay) == (if HasItemFor(db, upload.sourceUpdateId) then [] else [NewItem(db.nextItem, row.id, upload.(mediaGroupId := ""), 1, now)])
  {
    hide HasItemFor, HashesUnique, UpdatesUnique, DeliveryRows, RequestsUnique, ItemRows, RelaysEvolve, DeliveriesEvolve;
    InsertRelayKeeps(db, row, hash);
    NextIsNew(db, hash);
    SameItems(db, row, upload.sourceUpdateId);
    if !HasItemFor(db, upload.sourceUpdateId) {
      var middle, item := InsertRelay(db, row), NewItem(db.nextItem, row.id, upload.(mediaGroupId := ""), 1, now);
      assert Rows(middle, row.id) == [] && [] + [item] == [item];
      InsertItemKeeps(middle, item, hash);
      SingleEvolves(db, row, item);
    }
  }

  lemma NextIsNew(db: Db, hash: Hash)
    requires Integrity(db, hash)
    ensures ItemRows(db) && db.nextRelay !in db.relays
  {
  }

  lemma SameItems(db: Db, row: Relay, updateId: int)
    requires ItemRows(db) && row.id == db.nextRelay && row.id !in db.relays
    ensures HasItemFor(InsertRelay(db, row), updateId) <==> HasItemFor(db, updateId)
  {
    var next := InsertRelay(db, row);
    assert forall r, i :: ItemAt(next, r, i, updateId) <==> ItemAt(db, r, i, updateId);
    if HasItemFor(db, updateId) {
      var r, i :| r in db.items && 0 <= i < |db.items[r]| && ItemAt(db, r, i, updateId);
      assert ItemAt(next, r, i, updateId);
    }
  }

  lemma SingleEvolves(db: Db, row: Relay, item: RelayItem)
    requires row.id == db.nextRelay == item.relayId && row.updatedAt == item.createdAt
    requires Evolves(db, InsertRelay(db, row))
    ensures Evolves(db, InsertItem(InsertRelay(db, row), item))
    ensures InsertItem(InsertRelay(db, row), item).relays == db.relays[row.id := row]
  {
    var middle := InsertRelay(db, row);
    var next := InsertItem(middle, item);
    assert middle.relays[row.id].(updatedAt := item.createdAt) == row;
    assert forall r :: r in db.relays && r < db.nextRelay ==> Rows(next, r) == Rows(middle, r);
    assert forall r :: r in next.relays && r < db.nextRelay ==> r in middle.relays && next.relays[r] == middle.relays[r];
  }

  lemma CreateBatchKeeps(db: Db, userId: int, chatId: int, now: Time, hash: Hash)
    requires Integrity(db, hash)
    ensures var (next, row) := CreateBatchTx(db, userId, chatId, now);
      Integrity(next, hash) && Evolves(db, next)
  {
    InsertRelayKeeps(db, BatchRow(db.nextRelay, userId, chatId, now), hash);
  }

  /** FinalizeTx rewrites the one row it returns, and leaves a row that is already ready as it is. */
  lemma FinalizeFacts(db: Db, id: int, code: string, codeHash: string, expiresAt: Time, now: Time)
    ensures var (next, r) := FinalizeTx(db, id, code, codeHash, expiresAt, now);
      && (r.Err? ==> next == db && (r.error == UniqueViolation || r.error == RelayNotFound))
      && (r.Ok? ==>
            && id in db.relays && r.value.id == db.relays[id].id && r.value.status == Ready
            && r.value.sourceUpdateId == db.relays[id].sourceUpdateId
            && (db.relays[id].status == Collecting ==> r.value.codeHash == Some(codeHash))
            && (db.relays[id].status != Collecting ==> r.value == db.relays[id])
            && next == db.(relays := db.relays[id := r.value]))
  {
    var (next, r) := FinalizeTx(db, id, code, codeHash, expiresAt, now);
    if r.Ok? && next == db {
      assert db.relays == db.relays[id := r.value];
    }
  }

  lemma FinalizeKeeps(db: Db, id: int, code: string, expiresAt: Time, now: Time, hash: Hash)
    requires Integrity(db, hash)
    ensures var (next, r) := FinalizeTx(db, id, code, hash(code), expiresAt, now);
      Integrity(next, hash) && Evolves(db, next)
  {
    hide Integrity, Evolves;
    var (next, r) := FinalizeTx(db, id, code, hash(code), expiresAt, now);
    if next == db {
      EvolvesReflexive(db);
    } else {
      SealingKeeps(db, id, code, next, hash);
    }
  }

  /** One collecting row gets a new code and becomes ready. */
  lemma SealingKeeps(db: Db, id: int, code: string, next: Db, hash: Hash)
    requires Integrity(db, hash) && id in db.relays && id in next.relays && db.relays[id].status == Collecting && !HashTaken(db, hash(code))
    requires var row := next.relays[id];
      && next == db.(relays := db.relays[id := row]) && row.status == Ready && row.codeValue == code && row.codeHash == Some(hash(code))
      && row == db.relays[id].(codeValue := row.codeValue, codeHash := row.codeHash, status := row.status, expiresAt := row.expiresAt, updatedAt := row.updatedAt)
    ensures Integrity(next, hash) && Evolves(db, next)
  {
    assert forall s :: s in next.relays && s != id ==> next.relays[s] == db.relays[s];
    assert forall s :: Rows(next, s) == Rows(db, s);
    SameItemsUnique(db, next);
    assert HashesUnique(next) by {
      assert forall s :: s in db.relays ==> db.relays[s].codeHash != Some(hash(code));
    }
  }

  lemma SameItemsUnique(db: Db, next: Db)
    requires UpdatesUnique(db) && next.items == db.items
    ensures UpdatesUnique(next)
  {
    assert forall u, s, i :: ItemAt(next, s, i, u) ==> ItemAt(db, s, i, u);
  }

  // ----- Deleting and expiring -----

  lemma DeleteKeeps(db: Db, ids: set<int>, hash: Hash)
    requires Integrity(db, hash)
    ensures Integrity(DeleteRelaysTx(db, ids), hash) && Evolves(db, DeleteRelaysTx(db, ids))
  {
    var next := DeleteRelaysTx(db, ids);
    assert forall r :: r in next.relays ==> r in db.relays && next.relays[r] == db.relays[r] && Rows(next, r) == Rows(db, r);
    assert forall u, r, i :: ItemAt(next, r, i, u) ==> ItemAt(db, r, i, u);
    assert forall d :: d in next.deliveries ==> d in db.deliveries && next.deliveries[d] == db.deliveries[d];
  }

  /** A change of relay rows alone that moves each row on and keeps its code. */
  lemma RelayChangeKeeps(db: Db, next: Db, hash: Hash)
    requires Integrity(db, hash)
    requires next == db.(relays := next.relays) && next.relays.Keys == db.relays.Keys
    requires forall r | r in next.relays ::
      RowEvolves(db.relays[r], next.relays[r]) && next.relays[r].codeHash == db.relays[r].codeHash && RelayRow(next.relays[r], hash)
    ensures Integrity(next, hash) && Evolves(db, next)
  {
    assert forall r :: Rows(next, r) == Rows(db, r);
    assert forall u, r, i :: ItemAt(next, r, i, u) ==> ItemAt(db, r, i, u);
  }

  lemma ExpireKeeps(db: Db, now: Time, hash: Hash)
    requires Integrity(db, hash)
    ensures Integrity(ExpireTx(db, now), hash) && Evolves(db, ExpireTx(db, now))
  {
    RelayChangeKeeps(db, ExpireTx(db, now), hash);
  }

  // ----- Deliveries -----

  /** A change of deliveries alone, one that only removes rows or rewrites their status. */
  lemma DeliveryChangeKeeps(db: Db, next: Db, hash: Hash)
    requires Integrity(db, hash)
    requires next == db.(deliveries := next.deliveries)
    requires forall d | d in next.deliveries ::
      && d in db.deliveries
      && next.deliveries[d] == db.deliveries[d].(status := next.deliveries[d].status, updatedAt := next.deliveries[d].updatedAt)
    ensures Integrity(next, hash) && Evolves(db, next)
  {
    assert forall u, r, i :: ItemAt(next, r, i, u) ==> ItemAt(db, r, i, u);
    assert forall r :: Rows(next, r) == Rows(db, r);
  }

  lemma CreateDeliveryKeeps(db: Db, relayId: int, requestId: int, now: Time, hash: Hash)
    requires Integrity(db, hash)
    ensures var (next, r) := CreateDeliveryTx(db, relayId, requestId, now);
      && Integrity(next, hash) && Evolves(db, next)
      && (r.Err? ==> next == db)
  {
    hide Integrity, Evolves, HasDeliveryFor;
    var (next, r) := CreateDeliveryTx(db, relayId, requestId, now);
    if r.Err? {
      EvolvesReflexive(db);
    } else {
      NewDeliveryKeeps(db, r.value, hash);
    }
  }

  lemma NewDeliveryKeeps(db: Db, row: Delivery, hash: Hash)
    requires Integrity(db, hash) && row.id == db.nextDelivery && row.relayId in db.relays && !HasDeliveryFor(db, row.requestUpdateId)
    ensures var next := db.(deliveries := db.deliveries[row.id := row], nextDelivery := db.nextDelivery + 1);
      Integrity(next, hash) && Evolves(db, next)
  {
    var next := db.(deliveries := db.deliveries[row.id := row], nextDelivery := db.nextDelivery + 1);
    SameItemsUnique(db, next);
    assert forall s :: Rows(next, s) == Rows(db, s);
  }

  lemma MarkKeeps(db: Db, d: int, status: DeliveryStatus, now: Time, hash: Hash)
    requires Integrity(db, hash)
    ensures Integrity(MarkTx(db, d, status, now), hash) && Evolves(db, MarkTx(db, d, status, now))
  {
    DeliveryChangeKeeps(db, MarkTx(db, d, status, now), hash);
  }

  /** Only the status of the one row and the counter of the one relay move, with their times. */
  lemma MarkSentKeeps(db: Db, d: int, relayId: int, now: Time, hash: Hash)
    requires Integrity(db, hash)
    ensures Integrity(MarkSentTx(db, d, relayId, now), hash) && Evolves(db, MarkSentTx(db, d, relayId, now))
    ensures var next := MarkSentTx(db, d, relayId, now);
      && next == db.(relays := next.relays, deliveries := next.deliveries)
      && next.relays.Keys == db.relays.Keys && next.deliveries.Keys == db.deliveries.Keys
      && (forall e :: e in db.deliveries ==>
            next.deliveries[e] == if e == d then db.deliveries[e].(status := Sent, updatedAt := now) else db.deliveries[e])
      && (forall r :: r in db.relays ==>
            next.relays[r] == if r == relayId then db.relays[r].(deliveryCount := db.relays[r].deliveryCount + 1, updatedAt := now) else db.relays[r])
  {
    hide Integrity, Evolves;
    var marked, next := MarkTx(db, d, Sent, now), MarkSentTx(db, d, relayId, now);
    MarkKeeps(db, d, Sent, now, hash);
    CounterKeeps(marked, relayId, now, next, hash);
    EvolvesTransitive(db, marked, next);
  }

  lemma CounterKeeps(db: Db, relayId: int, now: Time, next: Db, hash: Hash)
    requires Integrity(db, hash)
    requires next == if relayId in db.relays
      then db.(relays := db.relays[relayId := db.relays[relayId].(deliveryCount := db.relays[relayId].deliveryCount + 1, updatedAt := now)]) else db
    ensures Integrity(next, hash) && Evolves(db, next)
  {
    RelayChangeKeeps(db, next, hash);
  }

  lemma TimeoutKeeps(db: Db, before: Time, hash: Hash)
    requires Integrity(db, hash)
    ensures Integrity(TimeoutTx(db, before), hash) && Evolves(db, TimeoutTx(db, before))
  {
    DeliveryChangeKeeps(db, TimeoutTx(db, before), hash);
  }

  /** Exactly the rows that may go are gone, and nothing else changes. */
  lemma PurgeKeeps(db: Db, before: Time, hash: Hash)
    requires Integrity(db, hash)
    ensures Integrity(PurgeTx(db, before), hash) && Evolves(db, PurgeTx(db, before))
    ensures var next := PurgeTx(db, before);
      && next == db.(deliveries := next.deliveries)
      && (forall d :: d in next.deliveries <==> d in db.deliveries && !Purgeable(db, d, before))
      && (forall d :: d in next.deliveries ==> next.deliveries[d] == db.deliveries[d])
  {
    hide Integrity, Evolves;
    DeliveryChangeKeeps(db, PurgeTx(db, before), hash);
  }
}
