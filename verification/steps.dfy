/** Every step of every handler keeps the shared invariant, only evolves the shared state and ends where it may. */
module Steps {
  import opened RelayTypes
  import opened Store
  import opened StoreFacts
  import opened Protocol
  import opened Invariants
  import Paging
  import SessionMerge

  // ----- Cache commands -----

  lemma WarmKeeps(cfg: Config, sh: Shared, relay: Relay, now: Time, choice: Choice, next: Shared)
    requires SharedInv(cfg, sh) && Captured(sh, relay) && next == Warm(sh, relay, now, choice)
    ensures SharedInv(cfg, next) && SharedEvolves(sh, next) && next.db == sh.db && next.sealed == sh.sealed && next.clock == sh.clock
  {
    SharedEvolvesReflexive(sh);
  }

  lemma ForgetKeeps(cfg: Config, sh: Shared, chat: int, next: Shared)
    requires SharedInv(cfg, sh) && next == Forget(sh, chat)
    ensures SharedInv(cfg, next) && SharedEvolves(sh, next) && next.db == sh.db && next.sealed == sh.sealed
  {
    SharedEvolvesReflexive(sh);
  }

  lemma MergeKeeps(cfg: Config, sh: Shared, session: Session, next: Shared)
    requires SharedInv(cfg, sh) && SessionOk(cfg, sh.db, session.uploaderChatId, session) && next == Merge(cfg, sh, session)
    ensures SharedInv(cfg, next) && SharedEvolves(sh, next)
  {
    SharedEvolvesReflexive(sh);
    var chat := session.uploaderChatId;
    if chat in sh.sessions {
      assert SessionOk(cfg, sh.db, chat, sh.sessions[chat]);
    }
  }

  lemma SendKeeps(cfg: Config, sh: Shared, send: Send, next: Shared)
    requires SharedInv(cfg, sh) && next == sh.(sends := sh.sends + [send])
    ensures SharedInv(cfg, next) && SharedEvolves(sh, next)
  {
    SharedEvolvesReflexive(sh);
  }

  lemma SetKeeps(cfg: Config, sh: Shared, session: Session, chat: int, next: Shared)
    requires SharedInv(cfg, sh) && SessionOk(cfg, sh.db, chat, session)
    requires next == sh.(sessions := sh.sessions[chat := session], intact := next.intact)
    ensures SharedInv(cfg, next) && SharedEvolves(sh, next)
  {
    SharedEvolvesReflexive(sh);
  }

  // ----- Reads -----

  lemma ReadyIsCaptured(cfg: Config, sh: Shared, id: int)
    requires SharedInv(cfg, sh) && id in sh.db.relays && sh.db.relays[id].status == Ready
    ensures Captured(sh, sh.db.relays[id]) && sh.db.relays[id].id == id
    ensures sh.db.relays[id].codeHash == sh.sealed[id].codeHash
  {
    assert SealMatches(sh, id);
  }

  /** The listing of a relay that was captured: its sealed items, or nothing when it is gone. */
  lemma ListingIsSealed(cfg: Config, sh: Shared, r: int)
    requires SharedInv(cfg, sh) && r in sh.sealed
    ensures r in sh.db.relays ==> Listing(sh.db, r) == sh.sealed[r].items
    ensures r !in sh.db.relays ==> Listing(sh.db, r) == []
  {
    ListingIsInsertionOrder(sh.db, r);
    if r in sh.db.relays {
      assert SealMatches(sh, r);
    }
  }

  lemma ByHashFinds(cfg: Config, sh: Shared, h: string, now: Time)
    requires SharedInv(cfg, sh)
    ensures RelayByHash(sh.db, h, now).Ok? ==>
      var relay := RelayByHash(sh.db, h, now).value;
      && relay.id in sh.db.relays && relay == sh.db.relays[relay.id]
      && relay.codeHash == Some(h) && relay.expiresAt > now && relay.status == Ready && Captured(sh, relay)
  {
    if RelayByHash(sh.db, h, now).Ok? {
      var relay := RelayByHash(sh.db, h, now).value;
      assert relay.id in sh.db.relays && relay == sh.db.relays[relay.id];
      assert RelayRow(relay, cfg.hash);
      ReadyIsCaptured(cfg, sh, relay.id);
    }
  }

  // ----- Commits -----

  lemma NothingSealed(cfg: Config, sh: Shared, db: Db)
    requires SharedInv(cfg, sh) && db.relays == sh.db.relays
    ensures Commit(sh, db).sealed == sh.sealed
    ensures forall r :: r in db.relays && db.relays[r].status != Collecting ==> r in sh.sealed
  {
    assert forall r :: r in sh.db.relays ==> SealMatches(sh, r);
  }

  lemma DeliveryCommits(cfg: Config, sh: Shared, relay: Relay, request: int, now: Time, next: Shared)
    requires SharedInv(cfg, sh) && Captured(sh, relay)
    requires next == Commit(sh, CreateDeliveryTx(sh.db, relay.id, request, now).0).(claimed := next.claimed)
    requires forall q :: q in sh.claimed ==> q in next.claimed && next.claimed[q] == sh.claimed[q]
    ensures SharedInv(cfg, next) && SharedEvolves(sh, next) && next.sealed == sh.sealed
  {
    var (db, r) := CreateDeliveryTx(sh.db, relay.id, request, now);
    CreateDeliveryKeeps(sh.db, relay.id, request, now, cfg.hash);
    assert db.relays == sh.db.relays && db.items == sh.db.items;
    NothingSealed(cfg, sh, db);
    CommitKeeps(cfg, sh, db);
  }

  lemma MarkCommits(cfg: Config, sh: Shared, relay: Relay, d: int, outcome: DeliveryStatus, now: Time, next: Shared)
    requires SharedInv(cfg, sh)
    requires next == Commit(sh, if outcome == Sent then MarkSentTx(sh.db, d, relay.id, now) else MarkTx(sh.db, d, outcome, now))
    ensures SharedInv(cfg, next) && SharedEvolves(sh, next) && next.sealed == sh.sealed
  {
    if outcome == Sent {
      MarkSentKeeps(sh.db, d, relay.id, now, cfg.hash);
      PlainCommitKeeps(cfg, sh, MarkSentTx(sh.db, d, relay.id, now));
    } else {
      MarkKeeps(sh.db, d, outcome, now, cfg.hash);
      PlainCommitKeeps(cfg, sh, MarkTx(sh.db, d, outcome, now));
    }
  }

  lemma CreateCommits(cfg: Config, sh: Shared, chat: int, upload: Upload, now: Time, code: string, next: Shared, row: Relay)
    requires SharedInv(cfg, sh) && Fresh(cfg, sh, code)
    requires var (db, r) := CreateRelayTx(sh.db, upload, code, cfg.hash(code), cfg.userOf(chat), chat, now + cfg.defaultTtl, now);
      r == Ok(row) && next == Commit(sh, db)
    ensures SharedInv(cfg, next) && SharedEvolves(sh, next) && Captured(next, row)
  {
    hide Integrity, Evolves, Fresh, SharedEvolves, Captured, CreateRelayTx, Commit, SealsInv, CodesInv, SessionsInv, BatchesBounded, DeliveriesSealed;
    var (db, r) := CreateRelayTx(sh.db, upload, code, cfg.hash(code), cfg.userOf(chat), chat, now + cfg.defaultTtl, now);
    CreateRelayKeeps(sh.db, upload, code, cfg.userOf(chat), chat, now + cfg.defaultTtl, now, cfg.hash);
    SingleCommits(cfg, sh, db, row, code);
  }

  /** Committing one new ready relay; all others keep their rows. */
  lemma SingleCommits(cfg: Config, sh: Shared, db: Db, row: Relay, code: string)
    requires SharedInv(cfg, sh) && Fresh(cfg, sh, code) && Evolves(sh.db, db) && Integrity(db, cfg.hash)
    requires row.id == sh.db.nextRelay && row.codeHash == Some(cfg.hash(code)) && row.sourceUpdateId.Some? && row.status == Ready
    requires db.relays == sh.db.relays[row.id := row] && |Rows(db, row.id)| <= 1 && db.deliveries == sh.db.deliveries
    requires forall s :: s in sh.db.relays ==> Rows(db, s) == Rows(sh.db, s)
    ensures SharedInv(cfg, Commit(sh, db)) && SharedEvolves(sh, Commit(sh, db)) && Captured(Commit(sh, db), row)
  {
    forall r | r in db.relays && r != row.id
      ensures r in sh.db.relays && SealMatches(sh, r) && (cfg.maxBatchItems > 0 ==> |Rows(db, r)| <= cfg.maxBatchItems)
    {
      assert r in sh.db.relays && SealMatches(sh, r);
    }
    CommitKeeps(cfg, sh, db);
    ReadyIsCaptured(cfg, Commit(sh, db), row.id);
  }

  lemma StartCommits(cfg: Config, sh: Shared, chat: int, now: Time, next: Shared, row: Relay)
    requires SharedInv(cfg, sh)
    requires (next, row) == (Commit(sh, CreateBatchTx(sh.db, cfg.userOf(chat), chat, now).0), CreateBatchTx(sh.db, cfg.userOf(chat), chat, now).1)
    ensures SharedInv(cfg, next) && SharedEvolves(sh, next) && next.sealed == sh.sealed && BatchOf(cfg, next, chat, row.id) && next.clock == sh.clock
  {
    hide Evolves, SharedEvolves, SealsInv, CodesInv, SessionsInv, BatchesBounded, DeliveriesSealed, Commit, CreateBatchTx,
      HashesUnique, ItemRows, UpdatesUnique, DeliveryRows, RequestsUnique;
    var (db, _) := CreateBatchTx(sh.db, cfg.userOf(chat), chat, now);
    CreateBatchKeeps(sh.db, cfg.userOf(chat), chat, now, cfg.hash);
    BatchFacts(sh.db, cfg.userOf(chat), chat, now);
    OpenCommits(cfg, sh, db, row);
    CommitsTables(sh, db);
  }

  /** What a new batch adds to the tables. */
  lemma BatchFacts(db: Db, userId: int, chatId: int, now: Time)
    ensures var (next, row) := CreateBatchTx(db, userId, chatId, now);
      && row == BatchRow(db.nextRelay, userId, chatId, now) && next == InsertRelay(db, row)
  {
  }

  lemma CommitsTables(sh: Shared, db: Db)
    ensures Commit(sh, db).db == db && Commit(sh, db).clock == sh.clock
  {
  }

  /** Committing one new collecting relay without items. */
  lemma OpenCommits(cfg: Config, sh: Shared, db: Db, row: Relay)
    requires SharedInv(cfg, sh) && Integrity(db, cfg.hash) && Evolves(sh.db, db)
    requires db == InsertRelay(sh.db, row) && row.id == sh.db.nextRelay && row.status == Collecting
    ensures SharedInv(cfg, Commit(sh, db)) && SharedEvolves(sh, Commit(sh, db)) && Commit(sh, db).sealed == sh.sealed
  {
    hide Evolves, CodesInv, SessionsInv, HashesUnique, ItemRows, UpdatesUnique, DeliveryRows, RequestsUnique;
    NothingNewSealed(cfg, sh, db);
    CommitKeeps(cfg, sh, db);
  }

  /** When the relays that are not collecting are those that were not, no seal is added. */
  lemma NothingNewSealed(cfg: Config, sh: Shared, db: Db)
    requires SharedInv(cfg, sh)
    requires forall r :: r in db.relays && db.relays[r].status != Collecting ==> r in sh.db.relays && sh.db.relays[r].status != Collecting
    ensures Commit(sh, db).sealed == sh.sealed
    ensures forall r :: r in db.relays && db.relays[r].status != Collecting ==> r in sh.sealed
  {
    hide Integrity, CodesInv, SessionsInv, BatchesBounded, DeliveriesSealed;
    assert forall r :: r in sh.db.relays ==> SealMatches(sh, r);
  }

  lemma DeleteCommits(cfg: Config, sh: Shared, ids: set<int>, next: Shared)
    requires SharedInv(cfg, sh) && next == Commit(sh, DeleteRelaysTx(sh.db, ids))
    ensures SharedInv(cfg, next) && SharedEvolves(sh, next) && next.sealed == sh.sealed
  {
    DeleteKeeps(sh.db, ids, cfg.hash);
    PlainCommitKeeps(cfg, sh, DeleteRelaysTx(sh.db, ids));
  }

  lemma AppendCommits(cfg: Config, sh: Shared, upload: Upload, session: Session, now: Time, next: Shared, item: RelayItem)
    requires SharedInv(cfg, sh) && SessionOk(cfg, sh.db, session.uploaderChatId, session)
    requires var (db, r) := AddItemTx(sh.db, session.relayId, upload, 0, cfg.maxBatchItems, now, false);
      r == Ok((item, true)) && next == Commit(sh, db)
    ensures SharedInv(cfg, next) && SharedEvolves(sh, next) && next.sealed == sh.sealed
    ensures SessionOk(cfg, next.db, session.uploaderChatId, session.(itemCount := item.itemOrder, lastActivityAt := now))
    ensures session.relayId in next.db.relays && item.itemOrder == |Rows(next.db, session.relayId)|
  {
    hide SharedInv, SharedEvolves, Integrity, Evolves, AddItemTx, Commit;
    var (db, r) := AddItemTx(sh.db, session.relayId, upload, 0, cfg.maxBatchItems, now, false);
    InvariantTables(cfg, sh);
    AddItemKeeps(sh.db, session.relayId, upload, cfg.maxBatchItems, now, cfg.hash);
    AppendKeepsOthers(sh.db, session.relayId, upload, cfg.maxBatchItems, now);
    GrowCommits(cfg, sh, db, session.relayId);
    CommitsTables(sh, db);
    SessionOkStable(cfg, sh, next, session.uploaderChatId, session);
  }

  lemma InvariantTables(cfg: Config, sh: Shared)
    requires SharedInv(cfg, sh)
    ensures Integrity(sh.db, cfg.hash)
  {
  }

  /** Committing a longer list of one relay; otherwise rows change in their time of update only. */
  lemma GrowCommits(cfg: Config, sh: Shared, db: Db, id: int)
    requires SharedInv(cfg, sh) && Integrity(db, cfg.hash) && Evolves(sh.db, db)
    requires db.deliveries == sh.db.deliveries && db.relays.Keys == sh.db.relays.Keys
    requires forall s :: s in db.relays ==> db.relays[s] == sh.db.relays[s].(updatedAt := db.relays[s].updatedAt)
    requires forall s :: s != id ==> Rows(db, s) == Rows(sh.db, s)
    requires cfg.maxBatchItems > 0 ==> |Rows(db, id)| <= cfg.maxBatchItems
    ensures SharedInv(cfg, Commit(sh, db)) && SharedEvolves(sh, Commit(sh, db)) && Commit(sh, db).sealed == sh.sealed
  {
    hide Integrity, Evolves, CodesInv, SessionsInv, Rows;
    NothingNewSealed(cfg, sh, db);
    CommitKeeps(cfg, sh, db);
  }

  lemma AppendKeepsOthers(db: Db, relayId: int, upload: Upload, maxItems: int, now: Time)
    ensures var (next, r) := AddItemTx(db, relayId, upload, 0, maxItems, now, false);
      && next.deliveries == db.deliveries && next.nextRelay == db.nextRelay && next.nextDelivery == db.nextDelivery
      && (forall s :: s in next.relays && s in db.relays ==> next.relays[s] == db.relays[s].(updatedAt := next.relays[s].updatedAt))
      && (forall s :: s != relayId ==> Rows(next, s) == Rows(db, s))
  {
  }

  lemma FinishCommits(cfg: Config, sh: Shared, chat: int, id: int, now: Time, code: string, next: Shared, row: Relay)
    requires SharedInv(cfg, sh) && Fresh(cfg, sh, code) && NonEmpty(sh, id)
    requires var (db, r) := FinalizeTx(sh.db, id, code, cfg.hash(code), now + cfg.defaultTtl, now);
      r == Ok(row) && next == Commit(sh, db)
    ensures SharedInv(cfg, next) && SharedEvolves(sh, next) && Captured(next, row)
  {
    hide SharedInv, Integrity, Evolves, Fresh, SharedEvolves, Captured, FinalizeTx, Commit, Rows;
    var (db, r) := FinalizeTx(sh.db, id, code, cfg.hash(code), now + cfg.defaultTtl, now);
    InvariantTables(cfg, sh);
    RowIds(sh.db, cfg.hash);
    FinalizeKeeps(sh.db, id, code, now + cfg.defaultTtl, now, cfg.hash);
    FinalizeFacts(sh.db, id, code, cfg.hash(code), now + cfg.defaultTtl, now);
    SealCommits(cfg, sh, db, row, code);
  }

  lemma RowIds(db: Db, hash: Hash)
    requires Integrity(db, hash)
    ensures forall r :: r in db.relays ==> db.relays[r].id == r
  {
  }

  /** Committing the row of one relay that becomes ready, or already is. */
  lemma SealCommits(cfg: Config, sh: Shared, db: Db, row: Relay, code: string)
    requires SharedInv(cfg, sh) && Fresh(cfg, sh, code) && Evolves(sh.db, db) && Integrity(db, cfg.hash) && NonEmpty(sh, row.id)
    requires row.id in sh.db.relays && row.status == Ready && db == sh.db.(relays := sh.db.relays[row.id := row])
    requires row.sourceUpdateId == sh.db.relays[row.id].sourceUpdateId
    requires sh.db.relays[row.id].status == Collecting ==> row.codeHash == Some(cfg.hash(code))
    requires sh.db.relays[row.id].status != Collecting ==> row == sh.db.relays[row.id]
    ensures SharedInv(cfg, Commit(sh, db)) && SharedEvolves(sh, Commit(sh, db)) && Captured(Commit(sh, db), row)
  {
    hide Evolves, CodesInv, SessionsInv, HashesUnique, ItemRows, UpdatesUnique, DeliveryRows, RequestsUnique;
    assert forall s :: Rows(db, s) == Rows(sh.db, s);
    forall s | s in db.relays ensures s in sh.db.relays && SealMatches(sh, s) {
    }
    CommitKeeps(cfg, sh, db);
    ReadyIsCaptured(cfg, Commit(sh, db), row.id);
  }

  lemma SealsIgnorePurged(cfg: Config, sh: Shared, next: Shared)
    requires SealsInv(cfg, sh) && next == sh.(purged := next.purged)
    ensures SealsInv(cfg, next)
  {
    assert forall r :: r in sh.db.relays ==> SealMatches(sh, r);
  }

  lemma PurgeCommits(cfg: Config, sh: Shared, before: Time, next: Shared)
    requires SharedInv(cfg, sh)
    requires next == Commit(sh, PurgeTx(sh.db, before)).(purged := sh.purged + Losers(sh.db, before))
    ensures SharedInv(cfg, next) && SharedEvolves(sh, next) && next.sealed == sh.sealed
  {
    hide Integrity, Evolves, SealsInv, Purgeable;
    var db := PurgeTx(sh.db, before);
    PurgeKeeps(sh.db, before, cfg.hash);
    NothingSealed(cfg, sh, db);
    CommitSeals(cfg, sh, db);
    SealsIgnorePurged(cfg, Commit(sh, db), next);
    assert next.db.relays == sh.db.relays && next.db.items == sh.db.items;
    assert forall chat :: chat in next.sessions ==> SessionOk(cfg, sh.db, chat, next.sessions[chat]);
    forall d | d in sh.db.deliveries && d !in next.db.deliveries ensures sh.db.deliveries[d].relayId in next.purged {
      assert Purgeable(sh.db, d, before);
    }
  }

  lemma ExpireCommits(cfg: Config, sh: Shared, now: Time, next: Shared)
    requires SharedInv(cfg, sh) && next == Commit(sh, ExpireTx(sh.db, now))
    ensures SharedInv(cfg, next) && SharedEvolves(sh, next) && next.sealed == sh.sealed
  {
    ExpireKeeps(sh.db, now, cfg.hash);
    PlainCommitKeeps(cfg, sh, ExpireTx(sh.db, now));
  }

  lemma TimeoutCommits(cfg: Config, sh: Shared, before: Time, next: Shared)
    requires SharedInv(cfg, sh) && next == Commit(sh, TimeoutTx(sh.db, before))
    ensures SharedInv(cfg, next) && SharedEvolves(sh, next) && next.sealed == sh.sealed
  {
    TimeoutKeeps(sh.db, before, cfg.hash);
    PlainCommitKeeps(cfg, sh, TimeoutTx(sh.db, before));
  }

  // ----- The handlers -----

  lemma ClaimKeeps(cfg: Config, sh: Shared, pc: ClaimPc, choice: Choice, next: Shared, to: Pc)
    requires SharedInv(cfg, sh) && ClaimOk(cfg, sh, pc) && ClaimStep(cfg, sh, pc, choice) == (next, to)
    ensures SharedInv(cfg, next) && SharedEvolves(sh, next)
  {
    hide SharedInv, SharedEvolves, CreateDeliveryTx, MarkTx, MarkSentTx, Warm, Captured, Owns;
    SharedEvolvesReflexive(sh);
    match pc
    case ClaimWarm(request, now, relay) => WarmKeeps(cfg, sh, relay, now, choice, next);
    case ClaimSend(request, now, relay, items, delivery) => SendKeeps(cfg, sh, Send(request, relay.id, FirstPage(items)), next);
    case ClaimInsert(request, now, relay, items) =>
      if next != sh {
        DeliveryCommits(cfg, sh, relay, request, now, next);
      }
    case ClaimMark(request, now, relay, delivery, outcome) =>
      if next != sh {
        MarkCommits(cfg, sh, relay, delivery, outcome, now, next);
      }
    case _ =>
  }

  lemma ClaimEnds(cfg: Config, sh: Shared, pc: ClaimPc, choice: Choice, next: Shared, to: Pc)
    requires SharedInv(cfg, sh) && ClaimOk(cfg, sh, pc) && ClaimStep(cfg, sh, pc, choice) == (next, to)
    requires pc.ClaimInsert? && pc.request in sh.claimed ==> sh.claimed[pc.request] == pc.relay.id
    ensures PcOk(cfg, next, to)
  {
    hide SharedEvolves, CreateDeliveryTx, MarkTx, MarkSentTx, Commit, Listing, RelayByHash, Integrity, BatchesBounded, DeliveriesSealed, SessionsInv, Paging.Fragmented;
    match pc
    case ClaimById(request, now, id) =>
      if id in sh.db.relays && sh.db.relays[id].status == Ready {
        ReadyIsCaptured(cfg, sh, id);
      }
    case ClaimByHash(request, now) => ByHashFinds(cfg, sh, CodeHash(cfg, request), now);
    case ClaimWarm(request, now, relay) => WarmKeeps(cfg, sh, relay, now, choice, next);
    case ClaimList(request, now, relay) => ListingIsSealed(cfg, sh, relay.id);
    case ClaimInsert(request, now, relay, items) =>
      if to != Done {
        InsertOwns(cfg, sh, pc, choice, next, to);
      }
    case _ =>
  }

  lemma InsertOwns(cfg: Config, sh: Shared, pc: ClaimPc, choice: Choice, next: Shared, to: Pc)
    requires SharedInv(cfg, sh) && ClaimOk(cfg, sh, pc) && ClaimStep(cfg, sh, pc, choice) == (next, to) && pc.ClaimInsert? && to != Done
    requires pc.request in sh.claimed ==> sh.claimed[pc.request] == pc.relay.id
    ensures PcOk(cfg, next, to)
  {
    hide Integrity, SealsInv, CodesInv, SessionsInv, BatchesBounded, DeliveriesSealed, SharedEvolves, Paging.Fragmented;
    DeliveryCommits(cfg, sh, pc.relay, pc.request, pc.now, next);
    NextDeliveryPositive(cfg, sh);
  }

  lemma NextDeliveryPositive(cfg: Config, sh: Shared)
    requires SharedInv(cfg, sh)
    ensures 1 <= sh.db.nextDelivery
  {
  }

  lemma CreateKeeps(cfg: Config, sh: Shared, pc: CreatePc, choice: Choice, next: Shared, to: Pc)
    requires SharedInv(cfg, sh) && CreateOk(cfg, sh, pc) && CreateStep(cfg, sh, pc, choice) == (next, to)
    ensures SharedInv(cfg, next) && SharedEvolves(sh, next) && PcOk(cfg, next, to)
  {
    hide SharedInv, SharedEvolves, CreateRelayTx, Commit, Warm, Captured, Fresh, ActiveRelays, RelayByUpdate;
    SharedEvolvesReflexive(sh);
    match pc
    case CreateInsert(now, chat, upload) =>
      if to.Creating? && to.create.CreateWarm? {
        CreateCommits(cfg, sh, chat, upload, now, choice.code, next, to.create.relay);
      }
    case CreateWarm(now, relay) => WarmKeeps(cfg, sh, relay, now, choice, next);
    case _ =>
  }

  lemma StartKeeps(cfg: Config, sh: Shared, pc: StartPc, choice: Choice, next: Shared, to: Pc)
    requires SharedInv(cfg, sh) && StartOk(cfg, sh, pc) && StartStep(cfg, sh, pc, choice) == (next, to)
    ensures SharedInv(cfg, next) && SharedEvolves(sh, next) && PcOk(cfg, next, to)
  {
    hide SharedInv, SharedEvolves, DeleteRelaysTx, CreateBatchTx, Commit;
    SharedEvolvesReflexive(sh);
    match pc
    case StartDrop(now, chat) => if next != sh { ForgetKeeps(cfg, sh, chat, next); }
    case StartInsert(now, chat) =>
      if !choice.fail {
        StartCommits(cfg, sh, chat, now, next, CreateBatchTx(sh.db, cfg.userOf(chat), chat, now).1);
      }
    case StartSet(now, chat, id) => if next != sh { SetKeeps(cfg, sh, NewSession(cfg, id, chat, now), chat, next); }
    case StartUndo(id) => if next != sh { DeleteCommits(cfg, sh, {id}, next); }
    case _ =>
  }

  lemma AppendKeeps(cfg: Config, sh: Shared, pc: AppendPc, choice: Choice, next: Shared, to: Pc)
    requires SharedInv(cfg, sh) && AppendOk(cfg, sh, pc) && AppendStep(cfg, sh, pc, choice) == (next, to)
    ensures SharedInv(cfg, next) && SharedEvolves(sh, next) && PcOk(cfg, next, to)
  {
    SharedEvolvesReflexive(sh);
    match pc
    case AppendInsert(now, upload, session) =>
      var (db, r) := AddItemTx(sh.db, session.relayId, upload, 0, cfg.maxBatchItems, now, false);
      if !choice.fail && r.Ok? && r.value.1 {
        AppendCommits(cfg, sh, upload, session, now, next, r.value.0);
      }
    case AppendList(now, session) => ListingIsInsertionOrder(sh.db, session.relayId);
    case AppendMerge(session) => if !choice.fail { MergeKeeps(cfg, sh, session, next); }
    case _ =>
  }

  lemma FinishKeeps(cfg: Config, sh: Shared, pc: FinishPc, choice: Choice, next: Shared, to: Pc)
    requires SharedInv(cfg, sh) && FinishOk(cfg, sh, pc) && FinishStep(cfg, sh, pc, choice) == (next, to)
    ensures SharedInv(cfg, next) && SharedEvolves(sh, next) && PcOk(cfg, next, to)
  {
    hide SharedInv, SharedEvolves, FinalizeTx, Commit, Warm, Forget, Captured, Fresh, BatchOf, NonEmpty, SessionOk;
    SharedEvolvesReflexive(sh);
    match pc
    case FinishSeal(now, chat, id) =>
      if to.Finishing? && to.finish.FinishWarm? {
        FinishCommits(cfg, sh, chat, id, now, choice.code, next, to.finish.relay);
      }
    case FinishWarm(now, chat, relay) =>
      WarmKeeps(cfg, sh, relay, now, choice, next);
      CapturedStable(sh, next, relay);
    case FinishClear(chat, relay) =>
      if next != sh {
        ForgetKeeps(cfg, sh, chat, next);
        CapturedStable(sh, next, relay);
      }
    case _ => FinishReads(cfg, sh, pc, choice, next, to);
  }

  lemma FinishReads(cfg: Config, sh: Shared, pc: FinishPc, choice: Choice, next: Shared, to: Pc)
    requires SharedInv(cfg, sh) && FinishOk(cfg, sh, pc) && FinishStep(cfg, sh, pc, choice) == (next, to)
    requires !pc.FinishSeal? && !pc.FinishWarm? && !pc.FinishClear?
    ensures next == sh && PcOk(cfg, next, to)
  {
    match pc
    case FinishCheck(now, chat, session) =>
      if session.relayId in sh.db.relays && sh.db.relays[session.relayId].status == Ready {
        ReadyIsCaptured(cfg, sh, session.relayId);
      }
    case FinishList(now, chat, id) => ListingIsInsertionOrder(sh.db, id);
    case FinishRecheck(now, chat, id) =>
      if id in sh.db.relays && sh.db.relays[id].status == Ready {
        ReadyIsCaptured(cfg, sh, id);
      }
    case _ =>
  }

  lemma CancelKeeps(cfg: Config, sh: Shared, pc: CancelPc, choice: Choice, next: Shared, to: Pc)
    requires SharedInv(cfg, sh) && CancelStep(cfg, sh, pc, choice) == (next, to)
    ensures SharedInv(cfg, next) && SharedEvolves(sh, next) && PcOk(cfg, next, to)
  {
    SharedEvolvesReflexive(sh);
    match pc
    case CancelDelete(chat, id) => if !choice.fail { DeleteCommits(cfg, sh, {id}, next); }
    case CancelClear(chat) => if next != sh { ForgetKeeps(cfg, sh, chat, next); }
    case _ =>
  }

  lemma ProgressKeeps(cfg: Config, sh: Shared, pc: ProgressPc, choice: Choice, next: Shared, to: Pc)
    requires SharedInv(cfg, sh) && PcOk(cfg, sh, Reporting(pc)) && ProgressStep(cfg, sh, pc, choice) == (next, to)
    ensures SharedInv(cfg, next) && SharedEvolves(sh, next) && PcOk(cfg, next, to)
  {
    SharedEvolvesReflexive(sh);
    match pc
    case ProgressGet(chat, id, message, at, count) =>
      if chat in sh.sessions {
        assert SessionOk(cfg, sh.db, chat, sh.sessions[chat]);
      }
    case ProgressMerge(session) => if !choice.fail { MergeKeeps(cfg, sh, session, next); }
  }

  lemma WorkerKeeps(cfg: Config, sh: Shared, pc: WorkerPc, choice: Choice, next: Shared, to: Pc)
    requires SharedInv(cfg, sh) && pc.now <= sh.clock && WorkerStep(cfg, sh, pc, choice) == (next, to)
    ensures SharedInv(cfg, next) && SharedEvolves(sh, next) && PcOk(cfg, next, to) && next.clock == sh.clock
  {
    hide SharedInv, SharedEvolves, DeleteRelaysTx, StaleBatches, ExpireTx, TimeoutTx, PurgeTx, Losers;
    SharedEvolvesReflexive(sh);
    if !choice.fail {
      match pc
      case SweepBatches(now) => DeleteCommits(cfg, sh, StaleBatches(sh.db, now - cfg.batchSessionTtl), next);
      case ExpireReady(now) => ExpireCommits(cfg, sh, now, next);
      case TimeoutDeliveries(now) => TimeoutCommits(cfg, sh, now - cfg.unknownDeliveryAfter, next);
      case PurgeDeliveries(now) => PurgeCommits(cfg, sh, now - cfg.expiredDeliveryPurge, next);
    }
  }
}
