/**
 * The invariant of the whole system and its proof by rely and guarantee: every step of every handler keeps the
 * shared invariant and only evolves the shared state, and what a waiting handler knows survives any evolution.
 */
module Invariants {
  import opened RelayTypes
  import opened Store
  import opened StoreFacts
  import opened Protocol
  import Paging
  import SessionMerge

  // ----- The shared invariant -----

  /** A relay that is no longer collecting is exactly what its seal says. */
  ghost predicate SealMatches(sh: Shared, r: int)
    requires r in sh.db.relays
  {
    var row := sh.db.relays[r];
    && (row.status != Collecting <==> r in sh.sealed)
    && (r in sh.sealed ==> sh.sealed[r] == SealOf(sh.db, r))
  }

  ghost predicate SealsInv(cfg: Config, sh: Shared) {
    && (forall r :: r in sh.db.relays ==> SealMatches(sh, r))
    && (forall r :: r in sh.sealed ==>
          && 1 <= r < sh.db.nextRelay
          && sh.sealed[r].codeHash == Some(cfg.hash(sh.sealed[r].code))
          && (sh.sealed[r].batch ==> sh.sealed[r].items != []))
    && (forall a, b :: a in sh.sealed && b in sh.sealed && sh.sealed[a].codeHash == sh.sealed[b].codeHash ==> a == b)
  }

  /** A cached pair names a relay that was made ready under that hash; the relay may be gone by now. */
  ghost predicate CodesInv(sh: Shared) {
    forall h :: h in sh.codes ==> sh.codes[h] in sh.sealed && sh.sealed[sh.codes[h]].codeHash == Some(h)
  }

  /** A session belongs to its chat, and never counts more items than its relay has. */
  ghost predicate SessionOk(cfg: Config, db: Db, chat: int, session: Session) {
    && 1 <= session.relayId < db.nextRelay && session.uploaderChatId == chat
    && (session.relayId in db.relays ==> OwnBatch(cfg, db, chat, session.relayId) && session.itemCount <= |Rows(db, session.relayId)|)
  }

  predicate OwnBatch(cfg: Config, db: Db, chat: int, id: int)
    requires id in db.relays
  {
    db.relays[id].uploaderChatId == chat && db.relays[id].uploaderUserId == cfg.userOf(chat) && db.relays[id].sourceUpdateId.None?
  }

  ghost predicate SessionsInv(cfg: Config, sh: Shared) {
    forall chat :: chat in sh.sessions ==> SessionOk(cfg, sh.db, chat, sh.sessions[chat])
  }

  ghost predicate BatchesBounded(cfg: Config, db: Db) {
    cfg.maxBatchItems > 0 ==> forall r :: r in db.relays ==> |Rows(db, r)| <= cfg.maxBatchItems
  }

  /** A delivery row belongs to a relay that has been ready. */
  ghost predicate DeliveriesSealed(sh: Shared) {
    forall d :: d in sh.db.deliveries ==> sh.db.deliveries[d].relayId in sh.sealed
  }

  ghost predicate SharedInv(cfg: Config, sh: Shared) {
    && Integrity(sh.db, cfg.hash) && SealsInv(cfg, sh) && CodesInv(sh) && SessionsInv(cfg, sh)
    && BatchesBounded(cfg, sh.db) && DeliveriesSealed(sh)
  }

  // ----- Evolution of the shared state -----

  /** Delivery rows vanish only with their relay, or when the purge takes them. */
  ghost predicate DeliveriesKept(sh: Shared, next: Shared) {
    forall d :: d in sh.db.deliveries ==>
      || d in next.db.deliveries
      || sh.db.deliveries[d].relayId !in next.db.relays
      || sh.db.deliveries[d].relayId in next.purged
  }

  ghost predicate HistoryGrows(sh: Shared, next: Shared) {
    && (forall r :: r in sh.sealed ==> r in next.sealed && next.sealed[r] == sh.sealed[r])
    && (forall q :: q in sh.claimed ==> q in next.claimed && next.claimed[q] == sh.claimed[q])
    && sh.sends <= next.sends && sh.purged <= next.purged
  }

  ghost predicate SharedEvolves(sh: Shared, next: Shared) {
    && Evolves(sh.db, next.db) && sh.clock <= next.clock && HistoryGrows(sh, next) && DeliveriesKept(sh, next)
  }

  lemma SharedEvolvesReflexive(sh: Shared)
    ensures SharedEvolves(sh, sh)
  {
    EvolvesReflexive(sh.db);
  }

  lemma SharedEvolvesTransitive(a: Shared, b: Shared, c: Shared)
    requires SharedEvolves(a, b) && SharedEvolves(b, c)
    requires forall d :: d in a.db.deliveries ==> a.db.deliveries[d].relayId < a.db.nextRelay && d < a.db.nextDelivery
    ensures SharedEvolves(a, c)
  {
    EvolvesTransitive(a.db, b.db, c.db);
    forall d | d in a.db.deliveries
      ensures d in c.db.deliveries || a.db.deliveries[d].relayId !in c.db.relays || a.db.deliveries[d].relayId in c.purged
    {
      if d in b.db.deliveries {
        assert b.db.deliveries[d].relayId == a.db.deliveries[d].relayId;
      }
    }
  }

  // ----- What a handler knows -----

  /** A relay row read while it was ready. */
  ghost predicate Captured(sh: Shared, relay: Relay) {
    && relay.id in sh.sealed
    && sh.sealed[relay.id].code == relay.codeValue
    && sh.sealed[relay.id].codeHash == relay.codeHash
    && sh.sealed[relay.id].expiresAt == relay.expiresAt
  }

  /** The relay a claim is about: it carries the hash of the request's code and was not expired at `now`. */
  ghost predicate Target(cfg: Config, sh: Shared, request: int, now: Time, relay: Relay) {
    now <= sh.clock && Captured(sh, relay) && relay.codeHash == Some(CodeHash(cfg, request)) && relay.expiresAt > now
  }

  /** The claim handler owns delivery row `d`. */
  ghost predicate Owns(sh: Shared, request: int, relay: Relay, d: int) {
    && 1 <= d < sh.db.nextDelivery
    && request in sh.claimed && sh.claimed[request] == relay.id
    && (d in sh.db.deliveries ==> sh.db.deliveries[d].relayId == relay.id && sh.db.deliveries[d].requestUpdateId == request)
    && (relay.id in sh.db.relays ==> d in sh.db.deliveries || relay.id in sh.purged)
  }

  ghost predicate BatchOf(cfg: Config, sh: Shared, chat: int, id: int) {
    1 <= id < sh.db.nextRelay && (id in sh.db.relays ==> OwnBatch(cfg, sh.db, chat, id))
  }

  ghost predicate ClaimOk(cfg: Config, sh: Shared, pc: ClaimPc) {
    match pc
    case ClaimCache(request, now) => now <= sh.clock
    case ClaimById(request, now, id) => now <= sh.clock && id in sh.sealed && sh.sealed[id].codeHash == Some(CodeHash(cfg, request))
    case ClaimByHash(request, now) => now <= sh.clock
    case ClaimWarm(request, now, relay) => Target(cfg, sh, request, now, relay)
    case ClaimList(request, now, relay) => Target(cfg, sh, request, now, relay)
    case ClaimInsert(request, now, relay, items) =>
      Target(cfg, sh, request, now, relay) && items == sh.sealed[relay.id].items && items != [] && !Paging.Fragmented(items)
    case ClaimSend(request, now, relay, items, delivery) =>
      && Target(cfg, sh, request, now, relay) && items == sh.sealed[relay.id].items && items != [] && !Paging.Fragmented(items)
      && Owns(sh, request, relay, delivery)
    case ClaimMark(request, now, relay, delivery, outcome) =>
      Target(cfg, sh, request, now, relay) && Owns(sh, request, relay, delivery) && outcome != Pending
  }

  ghost predicate CreateOk(cfg: Config, sh: Shared, pc: CreatePc) {
    match pc
    case CreateCheck(now, chat, upload) => now <= sh.clock
    case CreateCount(now, chat, upload) => now <= sh.clock
    case CreateInsert(now, chat, upload) => now <= sh.clock
    case CreateWarm(now, relay) => Captured(sh, relay)
  }

  ghost predicate StartOk(cfg: Config, sh: Shared, pc: StartPc) {
    match pc
    case StartGet(now, chat) => now <= sh.clock
    case StartCheck(now, chat, id) => now <= sh.clock
    case StartDrop(now, chat) => now <= sh.clock
    case StartInsert(now, chat) => now <= sh.clock
    case StartSet(now, chat, id) => now <= sh.clock && BatchOf(cfg, sh, chat, id)
    case StartUndo(id) => 1 <= id < sh.db.nextRelay
  }

  ghost predicate AppendOk(cfg: Config, sh: Shared, pc: AppendPc) {
    match pc
    case AppendGet(now, chat, upload) => now <= sh.clock
    case AppendCheck(now, upload, session) => now <= sh.clock && SessionOk(cfg, sh.db, session.uploaderChatId, session)
    case AppendInsert(now, upload, session) => now <= sh.clock && SessionOk(cfg, sh.db, session.uploaderChatId, session)
    case AppendList(now, session) => now <= sh.clock && SessionOk(cfg, sh.db, session.uploaderChatId, session)
    case AppendMerge(session) => SessionOk(cfg, sh.db, session.uploaderChatId, session)
  }

  ghost predicate FinishOk(cfg: Config, sh: Shared, pc: FinishPc) {
    match pc
    case FinishGet(now, chat) => now <= sh.clock
    case FinishCheck(now, chat, session) => now <= sh.clock && SessionOk(cfg, sh.db, chat, session)
    case FinishListReady(now, chat, relay) => Captured(sh, relay)
    case FinishList(now, chat, id) => now <= sh.clock && BatchOf(cfg, sh, chat, id)
    case FinishCount(now, chat, id) => now <= sh.clock && BatchOf(cfg, sh, chat, id) && NonEmpty(sh, id)
    case FinishRecheck(now, chat, id) => now <= sh.clock && BatchOf(cfg, sh, chat, id) && NonEmpty(sh, id)
    case FinishSeal(now, chat, id) => now <= sh.clock && BatchOf(cfg, sh, chat, id) && NonEmpty(sh, id)
    case FinishWarm(now, chat, relay) => Captured(sh, relay)
    case FinishClear(chat, relay) => Captured(sh, relay)
  }

  ghost predicate PcOk(cfg: Config, sh: Shared, pc: Pc) {
    match pc
    case Claiming(p) => ClaimOk(cfg, sh, p)
    case Creating(p) => CreateOk(cfg, sh, p)
    case Starting(p) => StartOk(cfg, sh, p)
    case Appending(p) => AppendOk(cfg, sh, p)
    case Finishing(p) => FinishOk(cfg, sh, p)
    case Canceling(p) => true
    case Reporting(p) => p.ProgressMerge? ==> SessionOk(cfg, sh.db, p.session.uploaderChatId, p.session)
    case Maintaining(p) => p.now <= sh.clock
    case DropSession(chat) => true
    case Finished(relay) => Captured(sh, relay)
    case Refused(_) => true
    case Done => true
  }

  ghost predicate NonEmpty(sh: Shared, id: int) {
    id in sh.db.relays ==> Rows(sh.db, id) != []
  }

  // ----- Rely: what a handler knows survives every evolution -----

  lemma CapturedStable(sh: Shared, next: Shared, relay: Relay)
    requires SharedEvolves(sh, next) && Captured(sh, relay)
    ensures Captured(next, relay) && next.sealed[relay.id] == sh.sealed[relay.id]
  {
  }

  lemma OwnsStable(sh: Shared, next: Shared, request: int, relay: Relay, d: int)
    requires SharedEvolves(sh, next) && Owns(sh, request, relay, d)
    requires relay.id < sh.db.nextRelay
    ensures Owns(next, request, relay, d)
  {
    if relay.id in next.db.relays {
      assert relay.id in sh.db.relays;
    }
  }

  lemma SessionOkStable(cfg: Config, sh: Shared, next: Shared, chat: int, session: Session)
    requires SharedEvolves(sh, next) && SessionOk(cfg, sh.db, chat, session)
    ensures SessionOk(cfg, next.db, chat, session)
  {
    if session.relayId in next.db.relays {
      assert ItemsEvolve(sh.db, next.db, session.relayId);
    }
  }

  lemma BatchStable(cfg: Config, sh: Shared, next: Shared, chat: int, id: int)
    requires SharedEvolves(sh, next) && BatchOf(cfg, sh, chat, id)
    ensures BatchOf(cfg, next, chat, id) && (NonEmpty(sh, id) ==> NonEmpty(next, id))
  {
    if id in next.db.relays {
      assert ItemsEvolve(sh.db, next.db, id);
    }
  }

  lemma ClaimOkStable(cfg: Config, sh: Shared, next: Shared, pc: ClaimPc)
    requires SharedInv(cfg, sh) && SharedEvolves(sh, next) && ClaimOk(cfg, sh, pc)
    ensures ClaimOk(cfg, next, pc)
  {
    if pc.ClaimWarm? || pc.ClaimList? || pc.ClaimInsert? || pc.ClaimSend? || pc.ClaimMark? {
      CapturedStable(sh, next, pc.relay);
    }
    if pc.ClaimSend? || pc.ClaimMark? {
      OwnsStable(sh, next, pc.request, pc.relay, pc.delivery);
    }
  }

  lemma FinishOkStable(cfg: Config, sh: Shared, next: Shared, pc: FinishPc)
    requires SharedInv(cfg, sh) && SharedEvolves(sh, next) && FinishOk(cfg, sh, pc)
    ensures FinishOk(cfg, next, pc)
  {
    if pc.FinishCheck? {
      SessionOkStable(cfg, sh, next, pc.chat, pc.session);
    } else if pc.FinishListReady? || pc.FinishWarm? || pc.FinishClear? {
      CapturedStable(sh, next, pc.relay);
    } else if pc.FinishList? || pc.FinishCount? || pc.FinishRecheck? || pc.FinishSeal? {
      BatchStable(cfg, sh, next, pc.chat, pc.id);
    }
  }

  lemma PcOkStable(cfg: Config, sh: Shared, next: Shared, pc: Pc)
    requires SharedInv(cfg, sh) && SharedEvolves(sh, next) && PcOk(cfg, sh, pc)
    ensures PcOk(cfg, next, pc)
  {
    match pc
    case Claiming(p) => ClaimOkStable(cfg, sh, next, p);
    case Creating(p) => if p.CreateWarm? { CapturedStable(sh, next, p.relay); }
    case Starting(p) => if p.StartSet? { BatchStable(cfg, sh, next, p.chat, p.id); }
    case Appending(p) => if !p.AppendGet? { SessionOkStable(cfg, sh, next, p.session.uploaderChatId, p.session); }
    case Finishing(p) => FinishOkStable(cfg, sh, next, p);
    case Reporting(p) => if p.ProgressMerge? { SessionOkStable(cfg, sh, next, p.session.uploaderChatId, p.session); }
    case Finished(relay) => CapturedStable(sh, next, relay);
    case _ =>
  }

  // ----- Guarantee: committing a transaction -----

  /** The relays that `db` makes ready for the first time have new hashes, and batches among them have items. */
  ghost predicate GoodSeals(sh: Shared, db: Db) {
    forall r | r in db.relays && db.relays[r].status != Collecting && r !in sh.sealed ::
      && (forall a :: a in sh.sealed ==> sh.sealed[a].codeHash != db.relays[r].codeHash)
      && (db.relays[r].sourceUpdateId.None? ==> Rows(db, r) != [])
  }

  lemma CommitSeals(cfg: Config, sh: Shared, db: Db)
    requires SharedInv(cfg, sh) && Integrity(db, cfg.hash) && Evolves(sh.db, db) && GoodSeals(sh, db)
    ensures SealsInv(cfg, Commit(sh, db)) && HistoryGrows(sh, Commit(sh, db))
  {
    var next := Commit(sh, db);
    forall r | r in next.db.relays ensures SealMatches(next, r) {
      if r in sh.sealed {
        assert r in sh.db.relays && SealMatches(sh, r) && ItemsEvolve(sh.db, db, r);
      }
    }
    forall r | r in next.sealed && r !in sh.sealed
      ensures r in db.relays && next.sealed[r] == SealOf(db, r)
    {
    }
  }

  lemma CommitKeeps(cfg: Config, sh: Shared, db: Db)
    requires SharedInv(cfg, sh) && Integrity(db, cfg.hash) && Evolves(sh.db, db) && GoodSeals(sh, db)
    requires BatchesBounded(cfg, db)
    requires forall d :: d in db.deliveries ==> db.deliveries[d].relayId in Commit(sh, db).sealed
    requires DeliveriesKept(sh, Commit(sh, db))
    ensures SharedInv(cfg, Commit(sh, db)) && SharedEvolves(sh, Commit(sh, db))
  {
    var next := Commit(sh, db);
    CommitSeals(cfg, sh, db);
    forall chat | chat in next.sessions ensures SessionOk(cfg, next.db, chat, next.sessions[chat]) {
      SessionOkStable(cfg, sh, next, chat, sh.sessions[chat]);
    }
  }

  /** A transaction that makes no relay ready and creates no delivery and no item. */
  lemma PlainCommitKeeps(cfg: Config, sh: Shared, db: Db)
    requires SharedInv(cfg, sh) && Integrity(db, cfg.hash) && Evolves(sh.db, db)
    requires db.nextRelay == sh.db.nextRelay && db.nextDelivery == sh.db.nextDelivery
    requires forall r :: r in db.relays && r in sh.db.relays && db.relays[r].status != Collecting ==> sh.db.relays[r].status != Collecting
    requires forall r :: r in db.relays ==> |Rows(db, r)| <= |Rows(sh.db, r)|
    requires DeliveriesKept(sh, sh.(db := db))
    ensures SharedInv(cfg, Commit(sh, db)) && SharedEvolves(sh, Commit(sh, db)) && Commit(sh, db).sealed == sh.sealed
  {
    forall r | r in db.relays && db.relays[r].status != Collecting ensures r in sh.sealed {
      assert r in sh.db.relays && SealMatches(sh, r);
    }
    assert Commit(sh, db).sealed == sh.sealed;
    forall r | r in db.relays ensures cfg.maxBatchItems > 0 ==> |Rows(db, r)| <= cfg.maxBatchItems {
      assert r in sh.db.relays;
    }
    CommitKeeps(cfg, sh, db);
  }
}
