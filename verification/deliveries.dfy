/**
 * Delivery rows over whole runs. The UPDATEs that mark a row carry no status guard, so everything here rests on
 * the one handler that owns the row.
 */
module Deliveries {
  import opened RelayTypes
  import opened Store
  import opened StoreFacts
  import opened Protocol
  import opened Invariants
  import opened Steps
  import opened Runs

  predicate OwnsRow(pc: Pc, d: int) {
    pc.Claiming? && (pc.claim.ClaimSend? || pc.claim.ClaimMark?) && pc.claim.delivery == d
  }

  function SentRows(db: Db, r: int): set<int> {
    set d | d in db.deliveries && db.deliveries[d].relayId == r && db.deliveries[d].status == Sent
  }

  // ----- The invariant -----

  ghost predicate OneOwner(w: World) {
    forall t, u, d :: t in w.threads && u in w.threads && OwnsRow(w.threads[t], d) && OwnsRow(w.threads[u], d) ==> t == u
  }

  /** A row that a handler still owns has not been settled. */
  ghost predicate OwnedAreOpen(w: World) {
    forall t, d :: t in w.threads && OwnsRow(w.threads[t], d) && d in w.sh.db.deliveries ==>
      w.sh.db.deliveries[d].status == Pending || w.sh.db.deliveries[d].status == Unknown
  }

  predicate CountFits(sh: Shared, r: int)
    requires r in sh.db.relays
  {
    && |SentRows(sh.db, r)| <= sh.db.relays[r].deliveryCount
    && (r !in sh.purged ==> |SentRows(sh.db, r)| == sh.db.relays[r].deliveryCount)
  }

  ghost predicate CountsFit(sh: Shared) {
    forall r :: r in sh.db.relays ==> CountFits(sh, r)
  }

  ghost predicate DeliveryInv(w: World) {
    OneOwner(w) && OwnedAreOpen(w) && CountsFit(w.sh)
  }

  // ----- Steps that mark nothing -----

  /** Delivery rows may only vanish, and the counters of the relays stay; new relays start at zero. */
  ghost predicate RowsOnlyVanish(db: Db, next: Db) {
    && (forall d :: d in next.deliveries ==> d in db.deliveries && next.deliveries[d] == db.deliveries[d])
    && (forall r :: r in next.relays ==>
          if r in db.relays then next.relays[r].deliveryCount == db.relays[r].deliveryCount
          else r >= db.nextRelay && next.relays[r].deliveryCount == 0)
  }

  predicate Marks(pc: Pc) {
    || (pc.Claiming? && (pc.claim.ClaimInsert? || pc.claim.ClaimMark?))
    || (pc.Maintaining? && pc.worker.TimeoutDeliveries?)
  }

  lemma AddItemQuiet(db: Db, upload: Upload, id: int, most: int, now: Time)
    requires db.nextRelay !in db.relays
    ensures RowsOnlyVanish(db, AddItemTx(db, id, upload, 0, most, now, false).0)
  {
  }

  lemma InsertQuiet(db: Db, upload: Upload, code: string, hash: string, user: int, chat: int, at: Time, now: Time)
    requires db.nextRelay !in db.relays
    ensures RowsOnlyVanish(db, CreateRelayTx(db, upload, code, hash, user, chat, at, now).0)
    ensures RowsOnlyVanish(db, CreateBatchTx(db, user, chat, now).0)
  {
  }

  lemma FinalizeQuiet(db: Db, id: int, code: string, hash: string, at: Time, now: Time)
    ensures RowsOnlyVanish(db, FinalizeTx(db, id, code, hash, at, now).0)
  {
  }

  lemma MaintenanceQuiet(db: Db, ids: set<int>, now: Time, before: Time)
    ensures RowsOnlyVanish(db, DeleteRelaysTx(db, ids)) && RowsOnlyVanish(db, ExpireTx(db, now)) && RowsOnlyVanish(db, PurgeTx(db, before))
  {
  }

  lemma NothingVanishes(db: Db)
    ensures RowsOnlyVanish(db, db)
  {
  }

  lemma QuietDeliveries(cfg: Config, sh: Shared, pc: Pc, choice: Choice, next: Shared, to: Pc)
    requires StepPc(cfg, sh, pc, choice) == (next, to) && !Marks(pc) && sh.db.nextRelay !in sh.db.relays
    ensures RowsOnlyVanish(sh.db, next.db)
  {
    hide AddItemTx, CreateRelayTx, CreateBatchTx, FinalizeTx, DeleteRelaysTx, ExpireTx, TimeoutTx, PurgeTx, Losers, RowsOnlyVanish, StaleBatches,
      Listing, RelayByHash, RelayByUpdate, ActiveRelays, Fresh;
    var db, code := sh.db, choice.code;
    NothingVanishes(db);
    match pc
    case Creating(p) =>
      if p.CreateInsert? {
        InsertQuiet(db, p.upload, code, cfg.hash(code), cfg.userOf(p.chat), p.chat, p.now + cfg.defaultTtl, p.now);
      }
    case Starting(p) =>
      if p.StartInsert? {
        InsertQuiet(db, Upload(0, "", Document, ""), "", "", cfg.userOf(p.chat), p.chat, 0, p.now);
      } else if p.StartUndo? {
        MaintenanceQuiet(db, {p.id}, 0, 0);
      }
    case Appending(p) => if p.AppendInsert? { AddItemQuiet(db, p.upload, p.session.relayId, cfg.maxBatchItems, p.now); }
    case Finishing(p) =>
      if p.FinishSeal? {
        FinalizeQuiet(db, p.id, code, cfg.hash(code), p.now + cfg.defaultTtl, p.now);
      }
    case Canceling(p) => if p.CancelDelete? { MaintenanceQuiet(db, {p.id}, 0, 0); }
    case Maintaining(p) => MaintenanceQuiet(db, StaleBatches(db, p.now - cfg.batchSessionTtl), p.now, p.now - cfg.expiredDeliveryPurge);
    case _ =>
  }

  // ----- Counters -----

  lemma QuietCounts(cfg: Config, sh: Shared, next: Shared)
    requires SharedInv(cfg, sh) && SharedEvolves(sh, next) && RowsOnlyVanish(sh.db, next.db) && CountsFit(sh)
    ensures CountsFit(next)
  {
    hide SealsInv, CodesInv, SessionsInv, BatchesBounded, DeliveriesSealed;
    forall r | r in next.db.relays ensures CountFits(next, r) {
      if r in sh.db.relays {
        assert CountFits(sh, r);
        forall d | d in SentRows(next.db, r) ensures d in SentRows(sh.db, r) {
          assert d in next.db.deliveries;
        }
        SubsetSize(SentRows(next.db, r), SentRows(sh.db, r));
        if r !in next.purged {
          forall d | d in SentRows(sh.db, r) ensures d in SentRows(next.db, r) {
            assert d in sh.db.deliveries;
          }
          assert SentRows(next.db, r) == SentRows(sh.db, r);
        }
      } else {
        NothingSent(sh, next, r);
      }
    }
  }

  lemma NothingSent(sh: Shared, next: Shared, r: int)
    requires RowsOnlyVanish(sh.db, next.db) && r !in sh.db.relays
    requires forall d :: d in sh.db.deliveries ==> sh.db.deliveries[d].relayId in sh.db.relays
    ensures SentRows(next.db, r) == {}
  {
    forall d ensures d !in SentRows(next.db, r) {
      assert d in next.db.deliveries ==> d in sh.db.deliveries;
    }
  }

  /** Rows of which none becomes or ceases to be sent leave the counters right. */
  lemma SameSentCounts(sh: Shared, next: Shared)
    requires CountsFit(sh) && sh.purged <= next.purged && next.db.relays.Keys == sh.db.relays.Keys
    requires forall r :: r in sh.db.relays ==> next.db.relays[r].deliveryCount == sh.db.relays[r].deliveryCount
    requires forall d :: d in sh.db.deliveries && sh.db.deliveries[d].status == Sent ==> d in next.db.deliveries && next.db.deliveries[d] == sh.db.deliveries[d]
    requires forall d :: d in next.db.deliveries && next.db.deliveries[d].status == Sent ==> d in sh.db.deliveries && sh.db.deliveries[d].status == Sent
    ensures CountsFit(next)
  {
    forall r | r in next.db.relays ensures CountFits(next, r) {
      assert CountFits(sh, r);
      forall d ensures d in SentRows(next.db, r) <==> d in SentRows(sh.db, r) {
        assert d in sh.db.deliveries && sh.db.deliveries[d].status == Sent ==> d in next.db.deliveries;
      }
      assert SentRows(next.db, r) == SentRows(sh.db, r);
    }
  }

  /** The mark of a send: one more sent row, or a relay or a row that is gone. */
  lemma SentCounts(sh: Shared, request: int, relay: Relay, d: int, now: Time, next: Shared)
    requires CountsFit(sh) && Owns(sh, request, relay, d) && next.db == MarkSentTx(sh.db, d, relay.id, now) && next.purged == sh.purged
    requires forall r :: r in sh.db.relays ==> sh.db.relays[r].id == r
    requires forall e :: e in sh.db.deliveries ==> sh.db.deliveries[e].relayId in sh.db.relays
    requires d in sh.db.deliveries ==> sh.db.deliveries[d].status != Sent
    ensures CountsFit(next)
  {
    forall r | r in next.db.relays ensures CountFits(next, r) {
      assert CountFits(sh, r);
      var expected := SentRows(sh.db, r) + (if r == relay.id && d in sh.db.deliveries then {d} else {});
      forall e ensures e in SentRows(next.db, r) <==> e in expected {
      }
      assert SentRows(next.db, r) == expected;
    }
  }

  lemma MarkCounts(cfg: Config, sh: Shared, p: ClaimPc, choice: Choice, next: Shared, to: Pc)
    requires SharedInv(cfg, sh) && CountsFit(sh) && ClaimOk(cfg, sh, p) && p.ClaimMark? && ClaimStep(cfg, sh, p, choice) == (next, to)
    requires p.delivery in sh.db.deliveries ==> sh.db.deliveries[p.delivery].status != Sent
    ensures CountsFit(next)
  {
    hide SealsInv, CodesInv, SessionsInv, BatchesBounded, DeliveriesSealed, HashesUnique, ItemRows, UpdatesUnique, RequestsUnique, CountFits;
    if next != sh {
      if p.outcome == Sent {
        SentCounts(sh, p.request, p.relay, p.delivery, p.now, next);
      } else {
        SameSentCounts(sh, next);
      }
    }
  }

  lemma InsertCounts(cfg: Config, sh: Shared, p: ClaimPc, choice: Choice, next: Shared, to: Pc)
    requires SharedInv(cfg, sh) && CountsFit(sh) && p.ClaimInsert? && ClaimStep(cfg, sh, p, choice) == (next, to)
    ensures CountsFit(next)
  {
    hide SealsInv, CodesInv, SessionsInv, BatchesBounded, DeliveriesSealed, HashesUnique, ItemRows, UpdatesUnique, RequestsUnique, CountFits;
    if next != sh {
      SameSentCounts(sh, next);
    }
  }

  lemma TimeoutCounts(cfg: Config, sh: Shared, p: WorkerPc, choice: Choice, next: Shared, to: Pc)
    requires CountsFit(sh) && p.TimeoutDeliveries? && WorkerStep(cfg, sh, p, choice) == (next, to)
    ensures CountsFit(next)
  {
    hide CountFits;
    if next != sh {
      SameSentCounts(sh, next);
    }
  }

  lemma StepCounts(cfg: Config, w: World, t: int, choice: Choice, next: Shared, to: Pc)
    requires WorldInv(cfg, w) && DeliveryInv(w) && t in w.threads && StepPc(cfg, w.sh, w.threads[t], choice) == (next, to)
    ensures CountsFit(next)
  {
    hide SharedInv, SharedEvolves, CountsFit, ClaimStep, WorkerStep, RowsOnlyVanish;
    var pc := w.threads[t];
    if pc.Claiming? && pc.claim.ClaimMark? {
      assert OwnsRow(pc, pc.claim.delivery);
      MarkCounts(cfg, w.sh, pc.claim, choice, next, to);
    } else if pc.Claiming? && pc.claim.ClaimInsert? {
      InsertCounts(cfg, w.sh, pc.claim, choice, next, to);
    } else if pc.Maintaining? && pc.worker.TimeoutDeliveries? {
      TimeoutCounts(cfg, w.sh, pc.worker, choice, next, to);
    } else {
      NextRelayIsNew(cfg, w.sh);
      QuietDeliveries(cfg, w.sh, pc, choice, next, to);
      StepKeeps(cfg, w.sh, pc, choice, next, to);
      QuietCounts(cfg, w.sh, next);
    }
  }

  lemma NextRelayIsNew(cfg: Config, sh: Shared)
    requires SharedInv(cfg, sh)
    ensures sh.db.nextRelay !in sh.db.relays
  {
  }

  // ----- Owners -----

  /** A step hands a row at most to its own handler: the one it had, or one that did not exist before. */
  lemma StepOwns(cfg: Config, sh: Shared, pc: Pc, choice: Choice, next: Shared, to: Pc, d: int)
    requires StepPc(cfg, sh, pc, choice) == (next, to) && OwnsRow(to, d)
    ensures OwnsRow(pc, d) || (d == sh.db.nextDelivery && d in next.db.deliveries && next.db.deliveries[d].status == Pending)
    ensures pc.Claiming? && (pc.claim.ClaimInsert? || pc.claim.ClaimSend?)
  {
    hide AddItemTx, CreateRelayTx, CreateBatchTx, FinalizeTx, MarkTx, MarkSentTx, DeleteRelaysTx, ExpireTx, TimeoutTx, PurgeTx, Losers, Listing, RelayByHash, RelayByUpdate, ActiveRelays, Fresh;
  }

  /** Only the owner settles a row; the timeout turns pending rows into unknown ones. */
  lemma StepSettles(cfg: Config, sh: Shared, pc: Pc, choice: Choice, next: Shared, to: Pc, d: int)
    requires StepPc(cfg, sh, pc, choice) == (next, to) && sh.db.nextRelay !in sh.db.relays
    requires d in sh.db.deliveries && d in next.db.deliveries && d < sh.db.nextDelivery
    requires next.db.deliveries[d].status != sh.db.deliveries[d].status
    ensures Marks(pc)
    ensures OwnsRow(pc, d) || (pc.Maintaining? && sh.db.deliveries[d].status == Pending && next.db.deliveries[d].status == Unknown)
    ensures !OwnsRow(to, d)
  {
    hide StepPc;
    if !Marks(pc) {
      QuietDeliveries(cfg, sh, pc, choice, next, to);
    } else {
      MarkSettles(cfg, sh, pc, choice, next, to, d);
    }
  }

  lemma MarkSettles(cfg: Config, sh: Shared, pc: Pc, choice: Choice, next: Shared, to: Pc, d: int)
    requires StepPc(cfg, sh, pc, choice) == (next, to) && Marks(pc)
    requires d in sh.db.deliveries && d in next.db.deliveries && d < sh.db.nextDelivery
    requires next.db.deliveries[d].status != sh.db.deliveries[d].status
    ensures OwnsRow(pc, d) || (pc.Maintaining? && sh.db.deliveries[d].status == Pending && next.db.deliveries[d].status == Unknown)
    ensures !OwnsRow(to, d)
  {
    hide CreateStep, StartStep, AppendStep, FinishStep, CancelStep, ProgressStep;
  }

  lemma StepOwners(cfg: Config, w: World, t: int, choice: Choice, next: World)
    requires WorldInv(cfg, w) && DeliveryInv(w) && t in w.threads && next == Next(cfg, w, Advance(t, choice))
    ensures OneOwner(next) && OwnedAreOpen(next)
  {
    hide SharedInv, SharedEvolves, CountsFit, StepPc, Marks, OwnsRow;
    var to := next.threads[t];
    NextRelayIsNew(cfg, w.sh);
    forall u, d | u in w.threads && OwnsRow(w.threads[u], d) ensures d < w.sh.db.nextDelivery {
      OwnedIsOld(cfg, w.sh, w.threads[u], d);
    }
    forall d | OwnsRow(to, d)
      ensures OwnsRow(w.threads[t], d) || (d == w.sh.db.nextDelivery && d in next.sh.db.deliveries && next.sh.db.deliveries[d].status == Pending)
    {
      StepOwns(cfg, w.sh, w.threads[t], choice, next.sh, to, d);
    }
    forall u, d | u in next.threads && OwnsRow(next.threads[u], d) && d in next.sh.db.deliveries
      ensures next.sh.db.deliveries[d].status == Pending || next.sh.db.deliveries[d].status == Unknown
    {
      if OwnsRow(w.threads[u], d) {
        StillOpen(cfg, w, t, choice, next, u, d);
      }
    }
  }

  lemma OwnedIsOld(cfg: Config, sh: Shared, pc: Pc, d: int)
    requires PcOk(cfg, sh, pc) && OwnsRow(pc, d)
    ensures d < sh.db.nextDelivery
  {
  }

  lemma StillOpen(cfg: Config, w: World, t: int, choice: Choice, next: World, u: int, d: int)
    requires WorldInv(cfg, w) && DeliveryInv(w) && t in w.threads && next == Next(cfg, w, Advance(t, choice))
    requires u in w.threads && OwnsRow(w.threads[u], d) && OwnsRow(next.threads[u], d) && d in next.sh.db.deliveries
    ensures next.sh.db.deliveries[d].status == Pending || next.sh.db.deliveries[d].status == Unknown
  {
    hide SharedInv, CountsFit, StepPc, Marks, OwnsRow;
    OwnedIsOld(cfg, w.sh, w.threads[u], d);
    NextRelayIsNew(cfg, w.sh);
    StepKeeps(cfg, w.sh, w.threads[t], choice, next.sh, next.threads[t]);
    assert d in w.sh.db.deliveries;
    if next.sh.db.deliveries[d].status != w.sh.db.deliveries[d].status {
      StepSettles(cfg, w.sh, w.threads[t], choice, next.sh, next.threads[t], d);
    }
  }

  // ----- Whole runs -----

  lemma NextDeliveries(cfg: Config, w: World, action: Action, next: World)
    requires WorldInv(cfg, w) && DeliveryInv(w) && next == Next(cfg, w, action)
    ensures DeliveryInv(next)
  {
    hide WorldInv, StepPc;
    if action.Advance? && action.thread in w.threads {
      StepOwners(cfg, w, action.thread, action.choice, next);
      StepCounts(cfg, w, action.thread, action.choice, next.sh, next.threads[action.thread]);
    } else if action.Spawn? {
      assert forall d :: !OwnsRow(Entry(w.sh, action.request), d);
      assert next.sh == w.sh;
    } else {
      assert next.threads == w.threads && next.sh.db == w.sh.db && next.sh.purged == w.sh.purged;
      forall r | r in next.sh.db.relays ensures CountFits(next.sh, r) {
        assert CountFits(w.sh, r);
      }
    }
  }

  lemma {:induction false} RunDeliveries(cfg: Config, actions: seq<Action>)
    ensures DeliveryInv(Run(cfg, actions))
  {
    hide WorldInv, Next;
    if actions != [] {
      var before, last := actions[..|actions| - 1], actions[|actions| - 1];
      RunDeliveries(cfg, before);
      RunKeeps(cfg, before);
      NextDeliveries(cfg, Run(cfg, before), last, Run(cfg, actions));
    }
  }

  /** In every reachable state a delivery row has at most one owner, and a sent or failed row has none. */
  lemma UniqueOwner(cfg: Config, actions: seq<Action>, t: int, u: int, d: int)
    requires var threads := Run(cfg, actions).threads; t in threads && u in threads && OwnsRow(threads[t], d) && OwnsRow(threads[u], d)
    ensures t == u
    ensures var rows := Run(cfg, actions).sh.db.deliveries; d in rows ==> rows[d].status == Pending || rows[d].status == Unknown
  {
    hide Run;
    RunDeliveries(cfg, actions);
  }

  /** delivery_count is never below the number of sent rows, and equal to it until the purge takes a row of the relay. */
  lemma CountMatchesRows(cfg: Config, actions: seq<Action>, r: int)
    requires r in Run(cfg, actions).sh.db.relays
    ensures var sh := Run(cfg, actions).sh;
      && |SentRows(sh.db, r)| <= sh.db.relays[r].deliveryCount
      && (r !in sh.purged ==> |SentRows(sh.db, r)| == sh.db.relays[r].deliveryCount)
  {
    hide Run;
    RunDeliveries(cfg, actions);
    assert CountFits(Run(cfg, actions).sh, r);
  }

  /**
   * One step of any run changes the status of a row only if its owner takes that step, or if the row was pending
   * and the timeout makes it unknown. A sent or failed row has no owner, so it never changes.
   */
  lemma OnlyOwnerSettles(cfg: Config, actions: seq<Action>, action: Action, d: int)
    requires d in Run(cfg, actions).sh.db.deliveries && d in Run(cfg, actions + [action]).sh.db.deliveries
    ensures var w, next := Run(cfg, actions), Run(cfg, actions + [action]);
      var a, b := w.sh.db.deliveries[d].status, next.sh.db.deliveries[d].status;
      a != b ==>
        && (a == Pending || a == Unknown)
        && action.Advance? && action.thread in w.threads
        && (OwnsRow(w.threads[action.thread], d) || (a == Pending && b == Unknown && w.threads[action.thread].Maintaining?))
  {
    hide Run, SharedInv, StepPc;
    var w, next := Run(cfg, actions), Run(cfg, actions + [action]);
    RunSnoc(cfg, actions, action);
    RunKeeps(cfg, actions);
    RunDeliveries(cfg, actions);
    if next.sh.db.deliveries[d].status != w.sh.db.deliveries[d].status {
      NextRelayIsNew(cfg, w.sh);
      DeliveriesBelow(cfg, w.sh);
      StepSettles(cfg, w.sh, w.threads[action.thread], action.choice, next.sh, next.threads[action.thread], d);
    }
  }

  /** Sent and failed are final, although no UPDATE guards them. */
  lemma {:induction false} SettledStays(cfg: Config, actions: seq<Action>, more: seq<Action>, d: int)
    requires d in Run(cfg, actions).sh.db.deliveries && d in Run(cfg, actions + more).sh.db.deliveries
    requires var status := Run(cfg, actions).sh.db.deliveries[d].status; status == Sent || status == Failed
    ensures Run(cfg, actions + more).sh.db.deliveries[d].status == Run(cfg, actions).sh.db.deliveries[d].status
  {
    hide Run, SharedInv, SharedEvolves;
    if more == [] {
      assert actions + more == actions;
    } else {
      var front, last := more[..|more| - 1], more[|more| - 1];
      assert actions + more == (actions + front) + [last];
      RowBetween(cfg, actions, front, [last], d);
      SettledStays(cfg, actions, front, d);
      OnlyOwnerSettles(cfg, actions + front, last, d);
    }
  }

  /** A row that exists before and after has existed in between. */
  lemma RowBetween(cfg: Config, a: seq<Action>, b: seq<Action>, c: seq<Action>, d: int)
    requires d in Run(cfg, a).sh.db.deliveries && d in Run(cfg, (a + b) + c).sh.db.deliveries
    ensures d in Run(cfg, a + b).sh.db.deliveries
  {
    hide Run, SharedInv;
    RunKeeps(cfg, a);
    DeliveriesBelow(cfg, Run(cfg, a).sh);
    RunEvolves(cfg, a, b);
    RunEvolves(cfg, a + b, c);
  }
}
