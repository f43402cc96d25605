/**
 * internal/store/postgres/store.go over the schema of db/migrations: three tables and the transactions on them.
 * Each transaction is a function on the tables; the class executes them on its fields.
 */
module Store {
  import opened RelayTypes

  /**
   * The tables. `items` holds the rows of relay_items grouped by relay_id, each group in insertion order; the
   * counters are the BIGSERIAL sequences, which never give out an id twice.
   */
  datatype Db = Db(
    relays: map<int, Relay>,
    items: map<int, seq<RelayItem>>,
    deliveries: map<int, Delivery>,
    nextRelay: int,
    nextItem: int,
    nextDelivery: int)

  const EMPTY := Db(map[], map[], map[], 1, 1, 1)

  // ----- Queries -----

  predicate HasRelayFor(db: Db, updateId: int) {
    exists r :: r in db.relays && db.relays[r].sourceUpdateId == Some(updateId)
  }

  predicate HashTaken(db: Db, codeHash: string) {
    exists r :: r in db.relays && db.relays[r].codeHash == Some(codeHash)
  }

  predicate ItemAt(db: Db, r: int, i: int, updateId: int) {
    r in db.items && 0 <= i < |db.items[r]| && db.items[r][i].sourceUpdateId == updateId
  }

  predicate HasItemFor(db: Db, updateId: int) {
    exists r, i | r in db.items && 0 <= i < |db.items[r]| :: ItemAt(db, r, i, updateId)
  }

  predicate HasDeliveryFor(db: Db, requestId: int) {
    exists d :: d in db.deliveries && db.deliveries[d].requestUpdateId == requestId
  }

  /** getRelayItemBySourceUpdateID */
  ghost function ItemFor(db: Db, updateId: int): Option<RelayItem> {
    if HasItemFor(db, updateId) then
      var r, i :| ItemAt(db, r, i, updateId);
      Some(db.items[r][i])
    else None
  }

  /** GetRelayByID */
  function RelayById(db: Db, id: int): Result<Relay> {
    if id in db.relays then Ok(db.relays[id]) else Err(RelayNotFound)
  }

  /** GetRelayBySourceUpdateID: through the item, not through the relay's own column. */
  ghost function RelayByUpdate(db: Db, updateId: int): Result<Relay> {
    if ItemFor(db, updateId).Some? then RelayById(db, ItemFor(db, updateId).value.relayId) else Err(RelayNotFound)
  }

  /** GetRelayByCodeHash */
  ghost function RelayByHash(db: Db, codeHash: string, now: Time): Result<Relay> {
    if !HashTaken(db, codeHash) then Err(RelayNotFound)
    else
      var r :| r in db.relays && db.relays[r].codeHash == Some(codeHash);
      if db.relays[r].status == Expired || db.relays[r].expiresAt <= now then Err(RelayExpired) else Ok(db.relays[r])
  }

  function ActiveRelays(db: Db, userId: int, now: Time): set<int> {
    set r | r in db.relays && db.relays[r].uploaderUserId == userId && db.relays[r].status == Ready && db.relays[r].expiresAt > now
  }

  /** Relays only cease to be active with time. */
  lemma ActiveLater(db: Db, userId: int, now: Time, later: Time)
    requires now <= later
    ensures ActiveRelays(db, userId, later) <= ActiveRelays(db, userId, now)
    ensures |ActiveRelays(db, userId, later)| <= |ActiveRelays(db, userId, now)|
  {
    SubsetSize(ActiveRelays(db, userId, later), ActiveRelays(db, userId, now));
  }

  lemma {:induction false} SubsetSize<T>(a: set<T>, b: set<T>)
    requires a <= b
    ensures |a| <= |b|
  {
    if a != {} {
      var x :| x in a;
      SubsetSize(a - {x}, b - {x});
    }
  }

  /** Two sets that differ at most in `t`. */
  lemma OneChanged<T>(a: set<T>, b: set<T>, t: T)
    requires forall x :: x != t ==> (x in a <==> x in b)
    ensures |b| == |a| + (if t in b then 1 else 0) - (if t in a then 1 else 0)
  {
    if t in a && t !in b {
      assert a == b + {t};
    } else if t !in a && t in b {
      assert b == a + {t};
    } else {
      assert a == b;
    }
  }

  function Rows(db: Db, relayId: int): seq<RelayItem> {
    if relayId in db.items then db.items[relayId] else []
  }

  /** `ORDER BY item_order ASC, id ASC` */
  predicate Precedes(a: RelayItem, b: RelayItem) {
    a.itemOrder < b.itemOrder || (a.itemOrder == b.itemOrder && a.id <= b.id)
  }

  function InsertRow(rows: seq<RelayItem>, row: RelayItem): seq<RelayItem> {
    if rows == [] then [row]
    else if Precedes(rows[|rows| - 1], row) then rows + [row]
    else InsertRow(rows[..|rows| - 1], row) + [rows[|rows| - 1]]
  }

  function OrderRows(rows: seq<RelayItem>): seq<RelayItem> {
    if rows == [] then [] else InsertRow(OrderRows(rows[..|rows| - 1]), rows[|rows| - 1])
  }

  /** ListRelayItemsByRelayID */
  function Listing(db: Db, relayId: int): seq<RelayItem> {
    OrderRows(Rows(db, relayId))
  }

  predicate OrderTaken(rows: seq<RelayItem>, order: int) {
    exists i :: 0 <= i < |rows| && rows[i].itemOrder == order
  }

  /** `COALESCE(MAX(item_order), 0)` */
  function MaxOrder(rows: seq<RelayItem>): int {
    if rows == [] then 0
    else if |rows| == 1 then rows[0].itemOrder
    else
      var m := MaxOrder(rows[..|rows| - 1]);
      if rows[|rows| - 1].itemOrder > m then rows[|rows| - 1].itemOrder else m
  }

  // ----- Transactions -----

  /** lockRelayForItemInsert */
  function LockError(db: Db, relayId: int, allowReady: bool): Option<Error> {
    if relayId !in db.relays then Some(RelayNotFound)
    else if db.relays[relayId].status == Collecting then None
    else if allowReady && db.relays[relayId].status == Ready then None
    else Some(BatchNotCollecting)
  }

  /** addRelayItemTx; an existing item of the same update is returned as it is, whichever relay it belongs to. */
  ghost function AddItemTx(db: Db, relayId: int, upload: Upload, order: int, maxItems: int, now: Time, allowReady: bool)
    : (Db, Result<(RelayItem, bool)>)
  {
    if LockError(db, relayId, allowReady).Some? then (db, Err(LockError(db, relayId, allowReady).value))
    else if ItemFor(db, upload.sourceUpdateId).Some? then (db, Ok((ItemFor(db, upload.sourceUpdateId).value, false)))
    else
      var rows := Rows(db, relayId);
      if maxItems > 0 && |rows| >= maxItems then (db, Err(BatchItemLimit))
      else
        var position := if order == 0 then MaxOrder(rows) + 1 else order;
        if OrderTaken(rows, position) then (db, Err(UniqueViolation))
        else
          var item := NewItem(db.nextItem, relayId, upload, position, now);
          (InsertItem(db, item), Ok((item, true)))
  }

  function NewItem(id: int, relayId: int, upload: Upload, order: int, now: Time): RelayItem {
    RelayItem(id, relayId, upload.sourceUpdateId, upload.mediaGroupId, order, upload.mediaKind, upload.fileId, now)
  }

  function InsertItem(db: Db, item: RelayItem): Db
    requires item.relayId in db.relays
  {
    db.(items := db.items[item.relayId := Rows(db, item.relayId) + [item]],
        relays := db.relays[item.relayId := db.relays[item.relayId].(updatedAt := item.createdAt)],
        nextItem := db.nextItem + 1)
  }

  function InsertRelay(db: Db, row: Relay): Db {
    db.(relays := db.relays[row.id := row], items := db.items[row.id := []], nextRelay := db.nextRelay + 1)
  }

  function SingleRow(id: int, upload: Upload, code: string, codeHash: string, userId: int, chatId: int, expiresAt: Time, now: Time): Relay {
    Relay(id, Some(upload.sourceUpdateId), code, Some(codeHash), Ready, userId, chatId, 0, expiresAt, now, now)
  }

  /**
   * CreateRelay. On a conflicting source update id the scan already reports ErrRelayNotFound, so the branch that
   * would return the existing row is never reached. The `created` flag of the item insert is ignored.
   */
  ghost function CreateRelayTx(db: Db, upload: Upload, code: string, codeHash: string, userId: int, chatId: int, expiresAt: Time, now: Time)
    : (Db, Result<Relay>)
  {
    if HasRelayFor(db, upload.sourceUpdateId) then (db, Err(RelayNotFound))
    else if HashTaken(db, codeHash) then (db, Err(UniqueViolation))
    else
      var row := SingleRow(db.nextRelay, upload, code, codeHash, userId, chatId, expiresAt, now);
      var added := AddItemTx(InsertRelay(db, row), row.id, upload.(mediaGroupId := ""), 1, 0, now, true);
      if added.1.Err? then (db, Err(added.1.error)) else (added.0, Ok(row))
  }

  function BatchRow(id: int, userId: int, chatId: int, now: Time): Relay {
    Relay(id, None, "", None, Collecting, userId, chatId, 0, now, now, now)
  }

  /** CreateRelayBatch */
  function CreateBatchTx(db: Db, userId: int, chatId: int, now: Time): (Db, Relay) {
    var row := BatchRow(db.nextRelay, userId, chatId, now);
    (InsertRelay(db, row), row)
  }

  /** FinalizeRelayBatch */
  ghost function FinalizeTx(db: Db, id: int, code: string, codeHash: string, expiresAt: Time, now: Time): (Db, Result<Relay>) {
    if id in db.relays && db.relays[id].status == Collecting then
      if HashTaken(db, codeHash) then (db, Err(UniqueViolation))
      else
        var row := db.relays[id].(codeValue := code, codeHash := Some(codeHash), status := Ready, expiresAt := expiresAt, updatedAt := now);
        (db.(relays := db.relays[id := row]), Ok(row))
    else if id in db.relays && db.relays[id].status == Ready then (db, Ok(db.relays[id]))
    else (db, Err(RelayNotFound))
  }

  /** Deleting relays takes their items and deliveries along (ON DELETE CASCADE). */
  function DeleteRelaysTx(db: Db, ids: set<int>): Db {
    db.(relays := map r | r in db.relays && r !in ids :: db.relays[r],
        items := map r | r in db.items && r !in ids :: db.items[r],
        deliveries := map d | d in db.deliveries && db.deliveries[d].relayId !in ids :: db.deliveries[d])
  }

  function StaleBatches(db: Db, before: Time): set<int> {
    set r | r in db.relays && db.relays[r].status == Collecting && db.relays[r].updatedAt < before
  }

  /** CreateDelivery. Here too a conflict ends as ErrRelayNotFound instead of returning the existing row. */
  function CreateDeliveryTx(db: Db, relayId: int, requestId: int, now: Time): (Db, Result<Delivery>) {
    if HasDeliveryFor(db, requestId) then (db, Err(RelayNotFound))
    else if relayId !in db.relays then (db, Err(ForeignKeyViolation))
    else
      var row := Delivery(db.nextDelivery, relayId, requestId, Pending, now, now);
      (db.(deliveries := db.deliveries[row.id := row], nextDelivery := db.nextDelivery + 1), Ok(row))
  }

  /** MarkDeliveryFailed, MarkDeliveryUnknown: no status guard. */
  function MarkTx(db: Db, d: int, status: DeliveryStatus, now: Time): Db {
    if d in db.deliveries then db.(deliveries := db.deliveries[d := db.deliveries[d].(status := status, updatedAt := now)]) else db
  }

  /** MarkDeliverySent: no status guard either, and the relay's counter goes up whether or not the row is still there. */
  function MarkSentTx(db: Db, d: int, relayId: int, now: Time): Db {
    var marked := MarkTx(db, d, Sent, now);
    if relayId in db.relays then
      marked.(relays := db.relays[relayId := db.relays[relayId].(deliveryCount := db.relays[relayId].deliveryCount + 1, updatedAt := now)])
    else marked
  }

  /** ExpireRelays */
  function ExpireTx(db: Db, now: Time): Db {
    db.(relays := map r | r in db.relays ::
      if db.relays[r].status == Ready && db.relays[r].expiresAt <= now then db.relays[r].(status := Expired, updatedAt := now)
      else db.relays[r])
  }

  /** MarkUnknownDeliveriesBefore */
  function TimeoutTx(db: Db, before: Time): Db {
    db.(deliveries := map d | d in db.deliveries ::
      if db.deliveries[d].status == Pending && db.deliveries[d].createdAt < before
      then db.deliveries[d].(status := Unknown, updatedAt := before)
      else db.deliveries[d])
  }

  predicate Purgeable(db: Db, d: int, before: Time)
    requires d in db.deliveries
  {
    var r := db.deliveries[d].relayId;
    r in db.relays && db.relays[r].status == Expired && db.relays[r].expiresAt < before && db.deliveries[d].createdAt < before
  }

  /** DeleteExpiredDeliveriesBefore */
  function PurgeTx(db: Db, before: Time): Db {
    db.(deliveries := map d | d in db.deliveries && !Purgeable(db, d, before) :: db.deliveries[d])
  }

  // ----- What the transactions do, column by column -----

  /** The item is what the upload says. */
  ghost predicate Carries(item: RelayItem, upload: Upload) {
    && item.sourceUpdateId == upload.sourceUpdateId && item.mediaGroupId == upload.mediaGroupId
    && item.mediaKind == upload.mediaKind && item.fileId == upload.fileId
  }

  /** Some relay has an item of this update. */
  ghost predicate Stored(db: Db, updateId: int) {
    exists r, i | r in db.items && 0 <= i < |db.items[r]| :: db.items[r][i].sourceUpdateId == updateId
  }

  ghost predicate TakesItems(db: Db, relayId: int, allowReady: bool) {
    relayId in db.relays && (db.relays[relayId].status == Collecting || (allowReady && db.relays[relayId].status == Ready))
  }

  /** One more than the greatest order so far, or 1. */
  ghost predicate NextOrder(rows: seq<RelayItem>, order: int) {
    if rows == [] then order == 1
    else (forall i :: 0 <= i < |rows| ==> rows[i].itemOrder < order) && exists i :: 0 <= i < |rows| && rows[i].itemOrder == order - 1
  }

  /** The item has been added behind the rows of the relay, which has been touched; nothing else has changed. */
  ghost predicate ItemAdded(db: Db, next: Db, relayId: int, upload: Upload, now: Time, item: RelayItem) {
    && Carries(item, upload) && item.id == db.nextItem && item.relayId == relayId && item.createdAt == now
    && relayId in db.relays
    && next == db.(
      items := db.items[relayId := (if relayId in db.items then db.items[relayId] else []) + [item]],
      relays := db.relays[relayId := db.relays[relayId].(updatedAt := now)],
      nextItem := db.nextItem + 1)
  }

  lemma {:induction false} MaxOrderIsGreatest(rows: seq<RelayItem>)
    ensures NextOrder(rows, MaxOrder(rows) + 1)
  {
    if |rows| > 1 {
      var front := rows[..|rows| - 1];
      MaxOrderIsGreatest(front);
      var i :| 0 <= i < |front| && front[i].itemOrder == MaxOrder(front);
      assert rows[i].itemOrder == MaxOrder(front);
    }
  }

  lemma StoredIsFound(db: Db, updateId: int)
    ensures Stored(db, updateId) <==> ItemFor(db, updateId).Some?
    ensures ItemFor(db, updateId).Some? ==> ItemFor(db, updateId).value.sourceUpdateId == updateId
  {
    if Stored(db, updateId) {
      var r, i :| r in db.items && 0 <= i < |db.items[r]| && db.items[r][i].sourceUpdateId == updateId;
      assert ItemAt(db, r, i, updateId);
    }
  }

  /** When an item is added and what it carries; otherwise nothing changes, and why. */
  lemma AddItemExactly(db: Db, relayId: int, upload: Upload, order: int, maxItems: int, now: Time, allowReady: bool)
    ensures var (next, r) := AddItemTx(db, relayId, upload, order, maxItems, now, allowReady);
      var rows := if relayId in db.items then db.items[relayId] else [];
      && (r == Err(RelayNotFound) <==> relayId !in db.relays)
      && (r == Err(BatchNotCollecting) <==> relayId in db.relays && !TakesItems(db, relayId, allowReady))
      && (r.Ok? && !r.value.1 <==> TakesItems(db, relayId, allowReady) && Stored(db, upload.sourceUpdateId))
      && (r == Err(BatchItemLimit) <==> TakesItems(db, relayId, allowReady) && !Stored(db, upload.sourceUpdateId) && 0 < maxItems <= |rows|)
      && (r == Err(UniqueViolation) ==> order != 0 && exists i :: 0 <= i < |rows| && rows[i].itemOrder == order)
      && (r.Err? ==> r.error in {RelayNotFound, BatchNotCollecting, BatchItemLimit, UniqueViolation})
      && (!(r.Ok? && r.value.1) ==> next == db)
      && (r.Ok? && !r.value.1 ==> r.value.0.sourceUpdateId == upload.sourceUpdateId)
      && (r.Ok? && r.value.1 ==>
            && ItemAdded(db, next, relayId, upload, now, r.value.0)
            && (if order == 0 then NextOrder(rows, r.value.0.itemOrder) else r.value.0.itemOrder == order))
  {
    StoredIsFound(db, upload.sourceUpdateId);
    MaxOrderIsGreatest(Rows(db, relayId));
  }

  /** The row and the tables after a single upload. */
  ghost predicate FileAdded(db: Db, next: Db, upload: Upload, code: string, codeHash: string, userId: int, chatId: int, expiresAt: Time, now: Time, row: Relay) {
    && row == Relay(db.nextRelay, Some(upload.sourceUpdateId), code, Some(codeHash), Ready, userId, chatId, 0, expiresAt, now, now)
    && next.relays == db.relays[row.id := row] && next.nextRelay == db.nextRelay + 1
    && next.deliveries == db.deliveries && next.nextDelivery == db.nextDelivery
    && (Stored(db, upload.sourceUpdateId) ==> next.items == db.items[row.id := []] && next.nextItem == db.nextItem)
    && (!Stored(db, upload.sourceUpdateId) ==> next.nextItem == db.nextItem + 1 && exists item :: FileItem(db, next, row.id, upload, now, item))
  }

  ghost predicate FileItem(db: Db, next: Db, relayId: int, upload: Upload, now: Time, item: RelayItem) {
    && Carries(item, upload.(mediaGroupId := "")) && item.id == db.nextItem && item.relayId == relayId && item.itemOrder == 1 && item.createdAt == now
    && next.items == db.items[relayId := [item]]
  }

  /** A single upload is refused only for an update or a hash that a relay has already. */
  lemma CreateRelayExactly(db: Db, upload: Upload, code: string, codeHash: string, userId: int, chatId: int, expiresAt: Time, now: Time)
    requires db.nextRelay !in db.items
    ensures var (next, r) := CreateRelayTx(db, upload, code, codeHash, userId, chatId, expiresAt, now);
      && (r == Err(RelayNotFound) <==> exists x :: x in db.relays && db.relays[x].sourceUpdateId == Some(upload.sourceUpdateId))
      && (r.Err? && r.error != RelayNotFound ==> r == Err(UniqueViolation) && exists x :: x in db.relays && db.relays[x].codeHash == Some(codeHash))
      && (r.Err? ==> next == db)
      && (r.Ok? ==> FileAdded(db, next, upload, code, codeHash, userId, chatId, expiresAt, now, r.value))
  {
    var row := SingleRow(db.nextRelay, upload, code, codeHash, userId, chatId, expiresAt, now);
    var middle, single := InsertRelay(db, row), upload.(mediaGroupId := "");
    SameStored(db, row, upload.sourceUpdateId);
    AddItemExactly(middle, row.id, single, 1, 0, now, true);
    var (next, r) := CreateRelayTx(db, upload, code, codeHash, userId, chatId, expiresAt, now);
    if r.Ok? {
      FileLanded(db, middle, next, upload, row, now);
    }
  }

  lemma FileLanded(db: Db, middle: Db, next: Db, upload: Upload, row: Relay, now: Time)
    requires row.id == db.nextRelay && row.updatedAt == now && middle == InsertRelay(db, row)
    requires var added := AddItemTx(middle, row.id, upload.(mediaGroupId := ""), 1, 0, now, true); added.0 == next && added.1.Ok?
    requires Stored(middle, upload.sourceUpdateId) <==> Stored(db, upload.sourceUpdateId)
    ensures next.relays == db.relays[row.id := row]
    ensures if Stored(db, upload.sourceUpdateId) then next.items == db.items[row.id := []] && next.nextItem == db.nextItem
            else next.nextItem == db.nextItem + 1 && exists item :: FileItem(db, next, row.id, upload, now, item)
  {
    var single := upload.(mediaGroupId := "");
    AddItemExactly(middle, row.id, single, 1, 0, now, true);
    var item := AddItemTx(middle, row.id, single, 1, 0, now, true).1.value.0;
    if !Stored(db, upload.sourceUpdateId) {
      assert middle.items[row.id] + [item] == [item];
      assert FileItem(db, next, row.id, upload, now, item);
    }
  }

  lemma SameStored(db: Db, row: Relay, updateId: int)
    requires row.id !in db.items
    ensures Stored(InsertRelay(db, row), updateId) <==> Stored(db, updateId)
  {
    var next := InsertRelay(db, row);
    if Stored(db, updateId) {
      var r, i :| r in db.items && 0 <= i < |db.items[r]| && db.items[r][i].sourceUpdateId == updateId;
      assert next.items[r][i].sourceUpdateId == updateId;
    }
  }

  /** A batch begins collecting, without code and items, under the next id; nothing else changes. */
  ghost predicate BatchAdded(db: Db, next: Db, userId: int, chatId: int, now: Time, row: Relay) {
    && row == Relay(db.nextRelay, None, "", None, Collecting, userId, chatId, 0, now, now, now)
    && next == db.(relays := db.relays[row.id := row], items := db.items[row.id := []], nextRelay := db.nextRelay + 1)
  }

  /** A collecting batch becomes ready with this code and expiry; only its row changes. */
  ghost predicate BatchSealed(db: Db, next: Db, id: int, code: string, codeHash: string, expiresAt: Time, now: Time, row: Relay) {
    && id in db.relays && db.relays[id].status == Collecting
    && row == db.relays[id].(codeValue := code, codeHash := Some(codeHash), status := Ready, expiresAt := expiresAt, updatedAt := now)
    && next == db.(relays := db.relays[id := row])
  }

  /** Finishing seals a collecting batch, returns a ready one, and finds no other. */
  lemma FinalizeExactly(db: Db, id: int, code: string, codeHash: string, expiresAt: Time, now: Time)
    ensures var (next, r) := FinalizeTx(db, id, code, codeHash, expiresAt, now);
      && (r == Err(RelayNotFound) <==> id !in db.relays || db.relays[id].status == Expired)
      && (r.Err? && r.error != RelayNotFound ==> r == Err(UniqueViolation) && exists x :: x in db.relays && db.relays[x].codeHash == Some(codeHash))
      && (r.Ok? && db.relays[id].status == Collecting ==> BatchSealed(db, next, id, code, codeHash, expiresAt, now, r.value))
      && (r.Ok? && db.relays[id].status != Collecting ==> db.relays[id].status == Ready && r.value == db.relays[id] && next == db)
      && (r.Err? ==> next == db)
  {
  }

  /** The relays are gone, with their items and deliveries, and all other rows are as they were. */
  ghost predicate RelaysDeleted(db: Db, next: Db, ids: set<int>) {
    && (forall r :: r in next.relays <==> r in db.relays && r !in ids) && (forall r :: r in next.relays ==> next.relays[r] == db.relays[r])
    && (forall r :: r in next.items <==> r in db.items && r !in ids) && (forall r :: r in next.items ==> next.items[r] == db.items[r])
    && (forall d :: d in next.deliveries <==> d in db.deliveries && db.deliveries[d].relayId !in ids)
    && (forall d :: d in next.deliveries ==> next.deliveries[d] == db.deliveries[d])
    && next.nextRelay == db.nextRelay && next.nextItem == db.nextItem && next.nextDelivery == db.nextDelivery
  }

  lemma DeleteExactly(db: Db, ids: set<int>)
    ensures RelaysDeleted(db, DeleteRelaysTx(db, ids), ids)
  {
  }

  /** The delivery is pending under the next id; a request has one row at most, and a relay that is there. */
  lemma CreateDeliveryExactly(db: Db, relayId: int, requestId: int, now: Time)
    ensures var (next, r) := CreateDeliveryTx(db, relayId, requestId, now);
      && (r == Err(RelayNotFound) <==> exists d :: d in db.deliveries && db.deliveries[d].requestUpdateId == requestId)
      && (r.Err? && r.error != RelayNotFound <==> r == Err(ForeignKeyViolation))
      && (r == Err(ForeignKeyViolation) ==> relayId !in db.relays)
      && (r.Ok? ==> relayId in db.relays)
      && (if r.Ok? then r.value == Delivery(db.nextDelivery, relayId, requestId, Pending, now, now)
             && next == db.(deliveries := db.deliveries[r.value.id := r.value], nextDelivery := db.nextDelivery + 1)
          else next == db)
  {
  }

  /** Whatever the row says, it gets this status, and only it changes. */
  ghost predicate Marked(db: Db, next: Db, d: int, status: DeliveryStatus, now: Time) {
    && next.deliveries.Keys == db.deliveries.Keys
    && (forall e :: e in db.deliveries ==> next.deliveries[e] == if e == d then db.deliveries[e].(status := status, updatedAt := now) else db.deliveries[e])
    && next == db.(deliveries := next.deliveries)
  }

  /** A sent row, and one more delivery for the relay, each if it is there. */
  ghost predicate MarkedSent(db: Db, next: Db, d: int, relayId: int, now: Time) {
    && Marked(db, next.(relays := db.relays), d, Sent, now)
    && next.relays.Keys == db.relays.Keys
    && forall r :: r in db.relays ==>
      next.relays[r] == if r == relayId then db.relays[r].(deliveryCount := db.relays[r].deliveryCount + 1, updatedAt := now) else db.relays[r]
  }

  lemma MarkExactly(db: Db, d: int, status: DeliveryStatus, relayId: int, now: Time)
    ensures Marked(db, MarkTx(db, d, status, now), d, status, now) && MarkedSent(db, MarkSentTx(db, d, relayId, now), d, relayId, now)
  {
    assert MarkSentTx(db, d, relayId, now).(relays := db.relays) == MarkTx(db, d, Sent, now);
  }

  // The tasks of the maintenance cycle.

  ghost predicate Swept(db: Db, next: Db, before: Time) {
    forall ids :: (forall r :: r in ids <==> r in db.relays && db.relays[r].status == Collecting && db.relays[r].updatedAt < before) ==> RelaysDeleted(db, next, ids)
  }

  ghost predicate OverdueExpired(db: Db, next: Db, now: Time) {
    && next.relays.Keys == db.relays.Keys && next == db.(relays := next.relays)
    && forall r :: r in db.relays ==>
      next.relays[r] == if db.relays[r].status == Ready && db.relays[r].expiresAt <= now then db.relays[r].(status := Expired, updatedAt := now) else db.relays[r]
  }

  ghost predicate OldUnknown(db: Db, next: Db, before: Time) {
    && next.deliveries.Keys == db.deliveries.Keys && next == db.(deliveries := next.deliveries)
    && forall d :: d in db.deliveries ==>
      next.deliveries[d] ==
        if db.deliveries[d].status == Pending && db.deliveries[d].createdAt < before then db.deliveries[d].(status := Unknown, updatedAt := before) else db.deliveries[d]
  }

  /** A row of a relay that has expired before the cutoff, itself from before the cutoff. */
  ghost predicate LongGone(db: Db, d: int, before: Time)
    requires d in db.deliveries
  {
    exists r :: r in db.relays && db.deliveries[d].relayId == r && db.relays[r].status == Expired && db.relays[r].expiresAt < before && db.deliveries[d].createdAt < before
  }

  ghost predicate Purged(db: Db, next: Db, before: Time) {
    && next == db.(deliveries := next.deliveries)
    && (forall d :: d in next.deliveries <==> d in db.deliveries && !LongGone(db, d, before))
    && (forall d :: d in next.deliveries ==> next.deliveries[d] == db.deliveries[d])
  }

  lemma MaintenanceExactly(db: Db, now: Time, before: Time)
    ensures Swept(db, DeleteRelaysTx(db, StaleBatches(db, before)), before)
    ensures OverdueExpired(db, ExpireTx(db, now), now) && OldUnknown(db, TimeoutTx(db, before), before)
    ensures Purged(db, PurgeTx(db, before), before)
  {
    forall ids | (forall r :: r in ids <==> r in db.relays && db.relays[r].status == Collecting && db.relays[r].updatedAt < before)
      ensures RelaysDeleted(db, DeleteRelaysTx(db, StaleBatches(db, before)), ids)
    {
      assert forall r :: r in ids <==> r in StaleBatches(db, before);
      DeleteExactly(db, ids);
    }
    forall d | d in db.deliveries ensures LongGone(db, d, before) <==> Purgeable(db, d, before) {
    }
  }

  // ----- ORDER BY -----

  predicate Sorted(rows: seq<RelayItem>) {
    forall i, j :: 0 <= i < j < |rows| ==> Precedes(rows[i], rows[j])
  }

  lemma {:induction false} InsertRowContents(rows: seq<RelayItem>, row: RelayItem)
    ensures multiset(InsertRow(rows, row)) == multiset(rows) + multiset{row}
  {
    if rows != [] {
      var front, last := rows[..|rows| - 1], rows[|rows| - 1];
      InsertRowContents(front, row);
      assert rows == front + [last];
    }
  }

  lemma InsertedMember(rows: seq<RelayItem>, row: RelayItem, x: RelayItem)
    requires x in InsertRow(rows, row)
    ensures x in rows || x == row
  {
    InsertRowContents(rows, row);
    assert x in multiset(InsertRow(rows, row));
  }

  lemma {:induction false} InsertRowSorts(rows: seq<RelayItem>, row: RelayItem)
    requires Sorted(rows)
    ensures Sorted(InsertRow(rows, row))
  {
    if rows != [] && !Precedes(rows[|rows| - 1], row) {
      var front, last := rows[..|rows| - 1], rows[|rows| - 1];
      InsertRowSorts(front, row);
      var inserted := InsertRow(front, row);
      forall i | 0 <= i < |inserted| ensures Precedes(inserted[i], last) {
        InsertedMember(front, row, inserted[i]);
        if inserted[i] != row {
          var j :| 0 <= j < |front| && front[j] == inserted[i];
          assert Precedes(rows[j], rows[|rows| - 1]);
        }
      }
    }
  }

  /** The listing is the rows in the order the query asks for. */
  lemma {:induction false} OrderRowsSorts(rows: seq<RelayItem>)
    ensures Sorted(OrderRows(rows)) && multiset(OrderRows(rows)) == multiset(rows)
  {
    if rows != [] {
      var front, last := rows[..|rows| - 1], rows[|rows| - 1];
      OrderRowsSorts(front);
      InsertRowSorts(OrderRows(front), last);
      InsertRowContents(OrderRows(front), last);
      SplitMultiset(rows);
    }
  }

  lemma SplitMultiset<T>(rows: seq<T>)
    requires rows != []
    ensures multiset(rows) == multiset(rows[..|rows| - 1]) + multiset{rows[|rows| - 1]}
  {
    SnocMultiset(rows[..|rows| - 1], rows[|rows| - 1]);
    assert rows == rows[..|rows| - 1] + [rows[|rows| - 1]];
  }

  lemma SnocMultiset<T>(front: seq<T>, last: T)
    ensures multiset(front + [last]) == multiset(front) + multiset{last}
  {
  }

  lemma {:induction false} OrderRowsKeepsSorted(rows: seq<RelayItem>)
    requires Sorted(rows)
    ensures OrderRows(rows) == rows
  {
    if rows != [] {
      var front := rows[..|rows| - 1];
      OrderRowsKeepsSorted(front);
      assert rows == front + [rows[|rows| - 1]];
    }
  }

  // ----- The store object -----

  /** What a scan helper makes of an empty result. */
  function ScanError(error: Error): Error {
    if error == NoRows then RelayNotFound else error
  }

  lemma PurgeCounts<T>(all: map<int, T>, kept: map<int, T>, purged: set<int>)
    requires purged <= all.Keys && kept.Keys == all.Keys - purged
    ensures |purged| == |all| - |kept|
  {
    assert |all| == |all.Keys| && |kept| == |kept.Keys|;
  }

  lemma PurgeLeaves(db: Db, before: Time, purged: set<int>)
    requires purged == set d | d in db.deliveries && Purgeable(db, d, before)
    ensures var next := PurgeTx(db, before);
      && |purged| == |db.deliveries| - |next.deliveries| && next == db.(deliveries := next.deliveries) && Purged(db, next, before)
      && forall d :: d in next.deliveries ==> !Purgeable(next, d, before)
  {
    MaintenanceExactly(db, before, before);
    PurgeCounts(db.deliveries, PurgeTx(db, before).deliveries, purged);
  }

  class PostgresStore {
    var relays: map<int, Relay>
    var items: map<int, seq<RelayItem>>
    var deliveries: map<int, Delivery>
    var nextRelay: int
    var nextItem: int
    var nextDelivery: int

    function Tables(): Db
      reads this
    {
      Db(relays, items, deliveries, nextRelay, nextItem, nextDelivery)
    }

    constructor ()
      ensures Tables() == EMPTY
    {
      relays, items, deliveries, nextRelay, nextItem, nextDelivery := map[], map[], map[], 1, 1, 1;
    }

    method GetRelayById(id: int) returns (r: Result<Relay>)
      ensures r == RelayById(Tables(), id)
      ensures r == if id in relays then Ok(relays[id]) else Err(RelayNotFound)
    {
      if id in relays {
        return Ok(relays[id]);
      }
      r := Err(ScanError(NoRows));
    }

    method GetRelayByCodeHash(codeHash: string, now: Time) returns (r: Result<Relay>)
      requires forall a, b :: a in relays && b in relays && relays[a].codeHash == relays[b].codeHash == Some(codeHash) ==> a == b
      ensures r == RelayByHash(Tables(), codeHash, now)
      ensures forall id :: id in relays && relays[id].codeHash == Some(codeHash) ==>
        r == if relays[id].status == Expired || relays[id].expiresAt <= now then Err(RelayExpired) else Ok(relays[id])
      ensures (forall id :: id in relays ==> relays[id].codeHash != Some(codeHash)) ==> r == Err(RelayNotFound)
    {
      if HashTaken(Tables(), codeHash) {
        var id :| id in relays && relays[id].codeHash == Some(codeHash);
        var record := relays[id];
        if record.status == Expired || record.expiresAt <= now {
          return Err(RelayExpired);
        }
        return Ok(record);
      }
      r := Err(ScanError(NoRows));
    }

    method GetRelayBySourceUpdateId(updateId: int) returns (r: Result<Relay>)
      requires UpdateUnique(updateId)
      ensures r == RelayByUpdate(Tables(), updateId)
      ensures !Stored(Tables(), updateId) ==> r == Err(RelayNotFound)
      ensures r.Ok? ==> exists id, i | id in items && 0 <= i < |items[id]| ::
        items[id][i].sourceUpdateId == updateId && items[id][i].relayId in relays && r.value == relays[items[id][i].relayId]
    {
      StoredIsFound(Tables(), updateId);
      var item := GetRelayItemBySourceUpdateId(updateId);
      if item.Err? {
        return Err(item.error);
      }
      r := GetRelayById(item.value.relayId);
    }

    /** All items of the relay, each once, in the order asked for. */
    method ListRelayItemsByRelayId(relayId: int) returns (rows: seq<RelayItem>)
      ensures Sorted(rows) && multiset(rows) == multiset(if relayId in items then items[relayId] else [])
      ensures rows == Listing(Tables(), relayId)
    {
      rows := OrderRows(if relayId in items then items[relayId] else []);
      OrderRowsSorts(if relayId in items then items[relayId] else []);
    }

    /** The number of active relays, which those active at any later moment do not exceed as long as the tables stay. */
    method CountActiveRelaysByUploader(userId: int, now: Time) returns (count: int)
      ensures count == |ActiveRelays(Tables(), userId, now)|
      ensures forall later :: later >= now ==> |ActiveRelays(Tables(), userId, later)| <= count
    {
      count := |set r | r in relays && relays[r].uploaderUserId == userId && relays[r].status == Ready && relays[r].expiresAt > now|;
      forall later | later >= now ensures |ActiveRelays(Tables(), userId, later)| <= |ActiveRelays(Tables(), userId, now)| {
        ActiveLater(Tables(), userId, now, later);
      }
    }

    method LockRelayForItemInsert(relayId: int, allowReady: bool) returns (error: Option<Error>)
      ensures error == LockError(Tables(), relayId, allowReady)
      ensures error == if relayId !in relays then Some(RelayNotFound) else if TakesItems(Tables(), relayId, allowReady) then None else Some(BatchNotCollecting)
    {
      if relayId !in relays {
        return Some(RelayNotFound);
      }
      var status := relays[relayId].status;
      if status == Collecting {
        return None;
      }
      if allowReady && status == Ready {
        return None;
      }
      return Some(BatchNotCollecting);
    }

    /** The UNIQUE key of relay_items.source_update_id, as far as a lookup needs it. */
    ghost predicate UpdateUnique(updateId: int)
      reads this
    {
      forall r1, i1, r2, i2 :: ItemAt(Tables(), r1, i1, updateId) && ItemAt(Tables(), r2, i2, updateId) ==> r1 == r2 && i1 == i2
    }

    method GetRelayItemBySourceUpdateId(updateId: int) returns (r: Result<RelayItem>)
      requires UpdateUnique(updateId)
      ensures ItemFor(Tables(), updateId).Some? ==> r == Ok(ItemFor(Tables(), updateId).value)
      ensures ItemFor(Tables(), updateId).None? ==> r == Err(RelayNotFound)
    {
      if HasItemFor(Tables(), updateId) {
        var id, i :| id in items && 0 <= i < |items[id]| && items[id][i].sourceUpdateId == updateId;
        assert ItemAt(Tables(), id, i, updateId);
        return Ok(items[id][i]);
      }
      r := Err(ScanError(NoRows));
    }

    method AddRelayItemTx(relayId: int, upload: Upload, order: int, maxItems: int, now: Time, allowReady: bool)
      returns (r: Result<(RelayItem, bool)>)
      requires UpdateUnique(upload.sourceUpdateId)
      modifies this
      ensures (Tables(), r) == AddItemTx(old(Tables()), relayId, upload, order, maxItems, now, allowReady)
      ensures r.Ok? && r.value.1 ==> ItemAdded(old(Tables()), Tables(), relayId, upload, now, r.value.0)
      ensures !(r.Ok? && r.value.1) ==> Tables() == old(Tables())
      ensures order == 0 ==>
        (r.Ok? && r.value.1 <==>
          && old(TakesItems(Tables(), relayId, allowReady)) && !old(Stored(Tables(), upload.sourceUpdateId))
          && (maxItems <= 0 || |old(Rows(Tables(), relayId))| < maxItems))
    {
      AddItemExactly(Tables(), relayId, upload, order, maxItems, now, allowReady);
      var locked := LockRelayForItemInsert(relayId, allowReady);
      if locked.Some? {
        return Err(locked.value);
      }
      var existing := GetRelayItemBySourceUpdateId(upload.sourceUpdateId);
      if existing.Ok? {
        return Ok((existing.value, false));
      }
      var rows := if relayId in items then items[relayId] else [];
      if maxItems > 0 && |rows| >= maxItems {
        return Err(BatchItemLimit);
      }
      var position := order;
      if position == 0 {
        position := MaxOrder(rows) + 1;
      }
      if OrderTaken(rows, position) {
        return Err(UniqueViolation);
      }
      var item := NewItem(nextItem, relayId, upload, position, now);
      items := items[relayId := rows + [item]];
      nextItem := nextItem + 1;
      relays := relays[relayId := relays[relayId].(updatedAt := now)];
      r := Ok((item, true));
    }

    method CreateRelay(upload: Upload, code: string, codeHash: string, userId: int, chatId: int, expiresAt: Time, now: Time)
      returns (r: Result<Relay>)
      requires UpdateUnique(upload.sourceUpdateId) && nextRelay !in items
      modifies this
      ensures (Tables(), r) == CreateRelayTx(old(Tables()), upload, code, codeHash, userId, chatId, expiresAt, now)
      ensures r.Ok? ==> FileAdded(old(Tables()), Tables(), upload, code, codeHash, userId, chatId, expiresAt, now, r.value)
      ensures r.Err? ==> Tables() == old(Tables())
    {
      CreateRelayExactly(Tables(), upload, code, codeHash, userId, chatId, expiresAt, now);
      if HasRelayFor(Tables(), upload.sourceUpdateId) {
        // DO NOTHING returned no row; the scan helper has turned that into ErrRelayNotFound already.
        return Err(ScanError(NoRows));
      }
      if HashTaken(Tables(), codeHash) {
        return Err(UniqueViolation);
      }
      var row := SingleRow(nextRelay, upload, code, codeHash, userId, chatId, expiresAt, now);
      relays, items, nextRelay := relays[row.id := row], items[row.id := []], nextRelay + 1;
      assert UpdateUnique(upload.sourceUpdateId) by {
        assert forall r, i :: ItemAt(Tables(), r, i, upload.sourceUpdateId) ==> old(ItemAt(Tables(), r, i, upload.sourceUpdateId));
      }
      var added := AddRelayItemTx(row.id, upload.(mediaGroupId := ""), 1, 0, now, true);
      assert added.Ok?; // the row is new, ready and empty, so nothing has to be rolled back
      r := Ok(row);
    }

    method CreateRelayBatch(userId: int, chatId: int, now: Time) returns (row: Relay)
      modifies this
      ensures (Tables(), row) == CreateBatchTx(old(Tables()), userId, chatId, now)
      ensures BatchAdded(old(Tables()), Tables(), userId, chatId, now, row)
    {
      row := BatchRow(nextRelay, userId, chatId, now);
      relays, items, nextRelay := relays[row.id := row], items[row.id := []], nextRelay + 1;
    }

    method FinalizeRelayBatch(id: int, code: string, codeHash: string, expiresAt: Time, now: Time) returns (r: Result<Relay>)
      modifies this
      ensures (Tables(), r) == FinalizeTx(old(Tables()), id, code, codeHash, expiresAt, now)
      ensures r.Ok? ==> id in old(relays)
      ensures r.Ok? && old(relays[id].status) == Collecting ==> BatchSealed(old(Tables()), Tables(), id, code, codeHash, expiresAt, now, r.value)
      ensures r.Ok? && old(relays[id].status) != Collecting ==> relays[id].status == Ready && r.value == relays[id] && Tables() == old(Tables())
      ensures r.Err? ==> Tables() == old(Tables())
    {
      if id in relays && relays[id].status == Collecting {
        if HashTaken(Tables(), codeHash) {
          return Err(UniqueViolation);
        }
        var row := relays[id].(codeValue := code, codeHash := Some(codeHash), status := Ready, expiresAt := expiresAt, updatedAt := now);
        relays := relays[id := row];
        return Ok(row);
      }
      if id in relays && relays[id].status == Ready {
        return Ok(relays[id]);
      }
      r := Err(ScanError(NoRows));
    }

    method DeleteRelay(id: int)
      modifies this
      ensures Tables() == DeleteRelaysTx(old(Tables()), {id}) && RelaysDeleted(old(Tables()), Tables(), {id})
    {
      hide RelaysDeleted;
      DeleteExactly(Tables(), {id});
      relays := map r | r in relays && r != id :: relays[r];
      items := map r | r in items && r != id :: items[r];
      deliveries := map d | d in deliveries && deliveries[d].relayId != id :: deliveries[d];
      assert Tables() == DeleteRelaysTx(old(Tables()), {id});
    }

    method CreateDelivery(relayId: int, requestId: int, now: Time) returns (r: Result<Delivery>)
      modifies this
      ensures (Tables(), r) == CreateDeliveryTx(old(Tables()), relayId, requestId, now)
      ensures r.Ok? ==> r.value == Delivery(old(nextDelivery), relayId, requestId, Pending, now, now)
      ensures r.Ok? ==> Tables() == old(Tables()).(deliveries := old(deliveries)[r.value.id := r.value], nextDelivery := r.value.id + 1)
      ensures r.Err? ==> Tables() == old(Tables())
    {
      if HasDeliveryFor(Tables(), requestId) {
        // DO NOTHING returned no row; the scan helper has turned that into ErrRelayNotFound already.
        return Err(ScanError(NoRows));
      }
      if relayId !in relays {
        return Err(ForeignKeyViolation);
      }
      var row := Delivery(nextDelivery, relayId, requestId, Pending, now, now);
      deliveries, nextDelivery := deliveries[row.id := row], nextDelivery + 1;
      r := Ok(row);
    }

    method MarkDeliverySent(d: int, relayId: int, now: Time)
      modifies this
      ensures Tables() == MarkSentTx(old(Tables()), d, relayId, now) && MarkedSent(old(Tables()), Tables(), d, relayId, now)
    {
      MarkExactly(Tables(), d, Sent, relayId, now);
      if d in deliveries {
        deliveries := deliveries[d := deliveries[d].(status := Sent, updatedAt := now)];
      }
      if relayId in relays {
        relays := relays[relayId := relays[relayId].(deliveryCount := relays[relayId].deliveryCount + 1, updatedAt := now)];
      }
    }

    /** MarkDeliveryFailed and MarkDeliveryUnknown. */
    method MarkDelivery(d: int, status: DeliveryStatus, now: Time)
      modifies this
      ensures Tables() == MarkTx(old(Tables()), d, status, now) && Marked(old(Tables()), Tables(), d, status, now)
    {
      MarkExactly(Tables(), d, status, 0, now);
      if d in deliveries {
        deliveries := deliveries[d := deliveries[d].(status := status, updatedAt := now)];
      }
    }

    method ExpireRelays(now: Time) returns (count: int)
      modifies this
      ensures Tables() == ExpireTx(old(Tables()), now) && OverdueExpired(old(Tables()), Tables(), now)
      ensures count == |old(set r | r in relays && relays[r].status == Ready && relays[r].expiresAt <= now)|
      ensures forall r :: r in relays && relays[r].status == Ready ==> relays[r].expiresAt > now
    {
      count := |set r | r in relays && relays[r].status == Ready && relays[r].expiresAt <= now|;
      relays := ExpireTx(Tables(), now).relays;
    }

    method DeleteCollectingRelaysBefore(before: Time) returns (count: int)
      modifies this
      ensures Tables() == DeleteRelaysTx(old(Tables()), StaleBatches(old(Tables()), before)) && Swept(old(Tables()), Tables(), before)
      ensures count == |old(relays)| - |relays|
      ensures forall r :: r in relays && relays[r].status == Collecting ==> relays[r].updatedAt >= before
    {
      MaintenanceExactly(Tables(), before, before);
      var stale := StaleBatches(Tables(), before);
      var rest := DeleteRelaysTx(Tables(), stale);
      relays, items, deliveries := rest.relays, rest.items, rest.deliveries;
      PurgeCounts(old(relays), relays, stale);
      count := |stale|;
    }

    method MarkUnknownDeliveriesBefore(before: Time) returns (count: int)
      modifies this
      ensures count == |old(set d | d in deliveries && deliveries[d].status == Pending && deliveries[d].createdAt < before)|
      ensures Tables() == TimeoutTx(old(Tables()), before) && OldUnknown(old(Tables()), Tables(), before)
      ensures forall d :: d in deliveries && deliveries[d].status == Pending ==> deliveries[d].createdAt >= before
    {
      count := |set d | d in deliveries && deliveries[d].status == Pending && deliveries[d].createdAt < before|;
      deliveries := TimeoutTx(Tables(), before).deliveries;
    }

    method DeleteExpiredDeliveriesBefore(before: Time) returns (count: int)
      modifies this
      ensures count == |old(deliveries)| - |deliveries|
      ensures Tables() == PurgeTx(old(Tables()), before) && Purged(old(Tables()), Tables(), before)
      ensures forall d :: d in deliveries ==> !Purgeable(Tables(), d, before)
    {
      hide PurgeTx, Purged, Purgeable;
      ghost var db := Tables();
      var purged := set d | d in deliveries && Purgeable(Tables(), d, before);
      PurgeLeaves(db, before, purged);
      deliveries := PurgeTx(Tables(), before).deliveries;
      assert Tables() == PurgeTx(db, before);
      count := |purged|;
    }
  }
}
