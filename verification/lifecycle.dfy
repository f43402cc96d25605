/**
 * The life of one relay over whole runs: a list that only grows at its end, is sealed once with a code and an
 * expiry, never changes from then on, and never comes back once it is gone.
 */
module Lifecycle {
  import opened RelayTypes
  import opened Store
  import opened StoreFacts
  import opened Protocol
  import opened Invariants
  import opened Steps
  import opened Runs
  import Paging

  // ----- The abstract list -----

  datatype Life = Unborn | Open(items: seq<RelayItem>) | Sealed(seal: Seal) | Gone

  function LifeOf(db: Db, r: int): Life {
    if r in db.relays then
      if db.relays[r].status == Collecting then Open(Rows(db, r)) else Sealed(SealOf(db, r))
    else if r < db.nextRelay then Gone
    else Unborn
  }

  /** What may happen to one list in one step. `most` is the limit on batches, 0 for none. */
  ghost predicate LifeStep(most: int, a: Life, b: Life) {
    || a == b
    || (a.Unborn? && b == Open([]))
    || (a.Unborn? && b.Sealed? && !b.seal.batch && |b.seal.items| <= 1)
    || (a.Open? && b.Open? && |b.items| == |a.items| + 1 && a.items <= b.items && (most > 0 ==> |b.items| <= most))
    || (a.Open? && b.Sealed? && b.seal.batch && b.seal.items == a.items && a.items != [])
    || ((a.Open? || a.Sealed?) && b.Gone?)
  }

  // ----- What each step does to the rows -----

  /** No new relay, and the rows of every remaining relay as they were. */
  ghost predicate RowsKept(db: Db, next: Db) {
    forall r :: r in next.relays ==> r in db.relays && Rows(next, r) == Rows(db, r)
  }

  ghost predicate Inserts(pc: Pc) {
    || (pc.Appending? && pc.append.AppendInsert?)
    || (pc.Creating? && pc.create.CreateInsert?)
    || (pc.Starting? && pc.start.StartInsert?)
  }

  lemma DeleteRows(db: Db, ids: set<int>)
    ensures RowsKept(db, DeleteRelaysTx(db, ids)) && DeleteRelaysTx(db, ids).nextRelay == db.nextRelay
  {
  }

  lemma FinalizeRows(db: Db, id: int, code: string, codeHash: string, expiresAt: Time, now: Time)
    ensures RowsKept(db, FinalizeTx(db, id, code, codeHash, expiresAt, now).0)
    ensures FinalizeTx(db, id, code, codeHash, expiresAt, now).0.nextRelay == db.nextRelay
  {
  }

  lemma MarkRows(db: Db, d: int, r: int, status: DeliveryStatus, now: Time)
    ensures RowsKept(db, MarkTx(db, d, status, now)) && MarkTx(db, d, status, now).nextRelay == db.nextRelay
    ensures RowsKept(db, MarkSentTx(db, d, r, now)) && MarkSentTx(db, d, r, now).nextRelay == db.nextRelay
  {
  }

  lemma MaintenanceRows(db: Db, now: Time)
    ensures RowsKept(db, ExpireTx(db, now)) && ExpireTx(db, now).nextRelay == db.nextRelay
    ensures RowsKept(db, TimeoutTx(db, now)) && TimeoutTx(db, now).nextRelay == db.nextRelay
    ensures RowsKept(db, PurgeTx(db, now)) && PurgeTx(db, now).nextRelay == db.nextRelay
  {
  }

  lemma WorkerRows(cfg: Config, sh: Shared, pc: WorkerPc, choice: Choice, next: Shared, to: Pc)
    requires WorkerStep(cfg, sh, pc, choice) == (next, to)
    ensures RowsKept(sh.db, next.db) && next.db.nextRelay == sh.db.nextRelay
  {
    hide DeleteRelaysTx, ExpireTx, TimeoutTx, PurgeTx, StaleBatches, Losers, Rows;
    DeleteRows(sh.db, StaleBatches(sh.db, pc.now - cfg.batchSessionTtl));
    MaintenanceRows(sh.db, pc.now);
    MaintenanceRows(sh.db, pc.now - cfg.unknownDeliveryAfter);
    MaintenanceRows(sh.db, pc.now - cfg.expiredDeliveryPurge);
  }

  lemma ClaimRows(cfg: Config, sh: Shared, pc: ClaimPc, choice: Choice, next: Shared, to: Pc)
    requires ClaimStep(cfg, sh, pc, choice) == (next, to)
    ensures RowsKept(sh.db, next.db) && next.db.nextRelay == sh.db.nextRelay
  {
    hide CreateDeliveryTx, MarkTx, MarkSentTx, Rows, Listing, RelayByHash, FirstPage;
    if pc.ClaimInsert? {
      DeliveryRowsOnly(sh.db, pc.relay.id, pc.request, pc.now);
    } else if pc.ClaimMark? {
      MarkRows(sh.db, pc.delivery, pc.relay.id, pc.outcome, pc.now);
    }
  }

  lemma FinishRows(cfg: Config, sh: Shared, pc: FinishPc, choice: Choice, next: Shared, to: Pc)
    requires FinishStep(cfg, sh, pc, choice) == (next, to)
    ensures RowsKept(sh.db, next.db) && next.db.nextRelay == sh.db.nextRelay
  {
    hide FinalizeTx, Rows, Listing, ActiveRelays, Fresh;
    if pc.FinishSeal? {
      FinalizeRows(sh.db, pc.id, choice.code, cfg.hash(choice.code), pc.now + cfg.defaultTtl, pc.now);
    }
  }

  lemma QuietRows(cfg: Config, sh: Shared, pc: Pc, choice: Choice, next: Shared, to: Pc)
    requires StepPc(cfg, sh, pc, choice) == (next, to) && !Inserts(pc)
    ensures RowsKept(sh.db, next.db) && next.db.nextRelay == sh.db.nextRelay
  {
    hide AddItemTx, CreateRelayTx, CreateBatchTx, DeleteRelaysTx, Rows, ClaimStep, FinishStep, WorkerStep, Listing, RelayByUpdate, ActiveRelays, Fresh;
    match pc
    case Claiming(p) => ClaimRows(cfg, sh, p, choice, next, to);
    case Finishing(p) => FinishRows(cfg, sh, p, choice, next, to);
    case Maintaining(p) => WorkerRows(cfg, sh, p, choice, next, to);
    case Starting(p) => if p.StartUndo? { DeleteRows(sh.db, {p.id}); }
    case Canceling(p) => if p.CancelDelete? { DeleteRows(sh.db, {p.id}); }
    case _ =>
  }

  lemma DeliveryRowsOnly(db: Db, relayId: int, request: int, now: Time)
    ensures RowsKept(db, CreateDeliveryTx(db, relayId, request, now).0)
    ensures CreateDeliveryTx(db, relayId, request, now).0.nextRelay == db.nextRelay
  {
  }

  // ----- Refinement -----

  /** With the rows kept, a list can only be sealed as it is or go away. */
  lemma QuietLife(cfg: Config, sh: Shared, next: Shared, r: int)
    requires SharedInv(cfg, sh) && SharedInv(cfg, next) && SharedEvolves(sh, next)
    requires RowsKept(sh.db, next.db) && next.db.nextRelay == sh.db.nextRelay
    ensures LifeStep(cfg.maxBatchItems, LifeOf(sh.db, r), LifeOf(next.db, r))
  {
    if r in next.db.relays {
      assert r in sh.db.relays && RowEvolves(sh.db.relays[r], next.db.relays[r]);
      assert SealMatches(sh, r) && SealMatches(next, r);
      assert RelayRow(sh.db.relays[r], cfg.hash);
    } else {
      assert r in sh.db.relays ==> r < sh.db.nextRelay;
    }
  }

  lemma AppendLife(cfg: Config, sh: Shared, p: AppendPc, choice: Choice, next: Shared, to: Pc, r: int)
    requires SharedInv(cfg, sh) && SharedInv(cfg, next) && SharedEvolves(sh, next)
    requires p.AppendInsert? && AppendStep(cfg, sh, p, choice) == (next, to)
    ensures LifeStep(cfg.maxBatchItems, LifeOf(sh.db, r), LifeOf(next.db, r))
  {
    hide SharedEvolves, SealsInv, CodesInv, SessionsInv, DeliveriesSealed, AddItemTx;
    AddItemKeeps(sh.db, p.session.relayId, p.upload, cfg.maxBatchItems, p.now, cfg.hash);
    AppendKeepsOthers(sh.db, p.session.relayId, p.upload, cfg.maxBatchItems, p.now);
  }

  lemma CreateLife(cfg: Config, sh: Shared, p: CreatePc, choice: Choice, next: Shared, to: Pc, r: int)
    requires SharedInv(cfg, sh) && SharedInv(cfg, next) && SharedEvolves(sh, next)
    requires p.CreateInsert? && CreateStep(cfg, sh, p, choice) == (next, to)
    ensures LifeStep(cfg.maxBatchItems, LifeOf(sh.db, r), LifeOf(next.db, r))
  {
    hide SharedEvolves, SealsInv, CodesInv, SessionsInv, DeliveriesSealed, BatchesBounded, CreateRelayTx, Fresh;
    CreateRelayKeeps(sh.db, p.upload, choice.code, cfg.userOf(p.chat), p.chat, p.now + cfg.defaultTtl, p.now, cfg.hash);
    CreateCounts(sh.db, p.upload, choice.code, cfg.hash(choice.code), cfg.userOf(p.chat), p.chat, p.now + cfg.defaultTtl, p.now);
    var (db, row) := CreateRelayTx(sh.db, p.upload, choice.code, cfg.hash(choice.code), cfg.userOf(p.chat), p.chat, p.now + cfg.defaultTtl, p.now);
    assert next != sh ==> row.Ok? && next.db == db;
  }

  lemma CreateCounts(db: Db, upload: Upload, code: string, codeHash: string, userId: int, chatId: int, expiresAt: Time, now: Time)
    ensures var (next, r) := CreateRelayTx(db, upload, code, codeHash, userId, chatId, expiresAt, now);
      r.Ok? ==> next.nextRelay == db.nextRelay + 1
  {
  }

  lemma StartLife(cfg: Config, sh: Shared, p: StartPc, choice: Choice, next: Shared, to: Pc, r: int)
    requires SharedInv(cfg, sh) && SharedInv(cfg, next)
    requires p.StartInsert? && StartStep(cfg, sh, p, choice) == (next, to)
    ensures LifeStep(cfg.maxBatchItems, LifeOf(sh.db, r), LifeOf(next.db, r))
  {
    hide SealsInv, CodesInv, SessionsInv, DeliveriesSealed, BatchesBounded;
  }

  lemma StepRefines(cfg: Config, sh: Shared, pc: Pc, choice: Choice, next: Shared, to: Pc, r: int)
    requires SharedInv(cfg, sh) && SharedInv(cfg, next) && SharedEvolves(sh, next) && StepPc(cfg, sh, pc, choice) == (next, to)
    ensures LifeStep(cfg.maxBatchItems, LifeOf(sh.db, r), LifeOf(next.db, r))
  {
    hide SharedInv, SharedEvolves, AppendStep, CreateStep, StartStep, LifeOf, LifeStep, RowsKept;
    if !Inserts(pc) {
      QuietRows(cfg, sh, pc, choice, next, to);
      QuietLife(cfg, sh, next, r);
    } else {
      match pc
      case Appending(p) => AppendLife(cfg, sh, p, choice, next, to, r);
      case Creating(p) => CreateLife(cfg, sh, p, choice, next, to, r);
      case Starting(p) => StartLife(cfg, sh, p, choice, next, to, r);
    }
  }

  /** Every step of every run does to every relay what the abstract list allows. */
  lemma RunRefinesSealedList(cfg: Config, actions: seq<Action>, action: Action, r: int)
    ensures LifeStep(cfg.maxBatchItems, LifeOf(Run(cfg, actions).sh.db, r), LifeOf(Run(cfg, actions + [action]).sh.db, r))
  {
    hide WorldInv, SharedInv, SharedEvolves, StepPc, LifeOf, Run;
    var w, next := Run(cfg, actions), Run(cfg, actions + [action]);
    RunSnoc(cfg, actions, action);
    RunKeeps(cfg, actions);
    RunKeeps(cfg, actions + [action]);
    NextKeeps(cfg, w, action, next);
    if action.Advance? && action.thread in w.threads {
      SharedPart(cfg, w);
      SharedPart(cfg, next);
      StepRefines(cfg, w.sh, w.threads[action.thread], action.choice, next.sh, next.threads[action.thread], r);
    }
  }

  // ----- What a reader of the tables may rely on -----

  /** In every reachable state the listing of a relay is its upload order 1, 2, ..., n, within the limit, and its code fits its hash. */
  lemma ReachableRelay(cfg: Config, actions: seq<Action>, r: int)
    requires r in Run(cfg, actions).sh.db.relays
    ensures var db := Run(cfg, actions).sh.db; var row, listing := db.relays[r], Listing(db, r);
      && listing == Rows(db, r)
      && (forall i :: 0 <= i < |listing| ==> listing[i].relayId == r && listing[i].itemOrder == i + 1)
      && (cfg.maxBatchItems > 0 ==> |listing| <= cfg.maxBatchItems)
      && (row.status == Collecting ==> row.codeHash == None)
      && (row.status != Collecting ==> row.codeHash == Some(cfg.hash(row.codeValue)))
      && (row.status != Collecting && row.sourceUpdateId == None ==> listing != [])
  {
    hide Run, CodesInv, SessionsInv, DeliveriesSealed;
    RunKeeps(cfg, actions);
    var sh := Run(cfg, actions).sh;
    SharedPart(cfg, Run(cfg, actions));
    ListingIsInsertionOrder(sh.db, r);
    assert RowsInOrder(sh.db.items[r], r, sh.db.nextItem) && SealMatches(sh, r) && RelayRow(sh.db.relays[r], cfg.hash);
  }

  /**
   * From any state of a run to any later one: an id that is gone stays gone, a relay only moves forward, its list
   * only grows at the end, and from ready on code, hash, expiry and list are what they were.
   */
  lemma RelayHistory(cfg: Config, actions: seq<Action>, more: seq<Action>, r: int)
    ensures var a, b := Run(cfg, actions).sh.db, Run(cfg, actions + more).sh.db;
      && (r < a.nextRelay && r in b.relays ==> r in a.relays)
      && (r in a.relays && r in b.relays ==>
            && Rank(a.relays[r].status) <= Rank(b.relays[r].status)
            && a.relays[r].uploaderUserId == b.relays[r].uploaderUserId
            && a.relays[r].deliveryCount <= b.relays[r].deliveryCount
            && Listing(a, r) <= Listing(b, r)
            && (a.relays[r].status != Collecting ==>
                  && a.relays[r].codeValue == b.relays[r].codeValue && a.relays[r].codeHash == b.relays[r].codeHash
                  && a.relays[r].expiresAt == b.relays[r].expiresAt
                  && Listing(a, r) == Listing(b, r)))
  {
    hide Run, SealsInv, CodesInv, SessionsInv, DeliveriesSealed, HashesUnique, UpdatesUnique, RequestsUnique;
    RunKeeps(cfg, actions);
    RunKeeps(cfg, actions + more);
    SharedPart(cfg, Run(cfg, actions));
    SharedPart(cfg, Run(cfg, actions + more));
    RunEvolves(cfg, actions, more);
    var a, b := Run(cfg, actions).sh.db, Run(cfg, actions + more).sh.db;
    ListingIsInsertionOrder(a, r);
    ListingIsInsertionOrder(b, r);
    if r in a.relays && r in b.relays {
      assert ItemsEvolve(a, b, r);
    }
  }

  /** No two relays ever carry the same hash, not even one that is gone and one that came later. */
  lemma HashesNeverReused(cfg: Config, actions: seq<Action>, more: seq<Action>, r1: int, r2: int)
    requires r1 in Run(cfg, actions).sh.db.relays && Run(cfg, actions).sh.db.relays[r1].codeHash != None
    requires r2 in Run(cfg, actions + more).sh.db.relays
    requires Run(cfg, actions + more).sh.db.relays[r2].codeHash == Run(cfg, actions).sh.db.relays[r1].codeHash
    ensures r1 == r2
  {
    hide Run, CodesInv, SessionsInv, DeliveriesSealed, Evolves;
    RunKeeps(cfg, actions);
    RunKeeps(cfg, actions + more);
    SharedPart(cfg, Run(cfg, actions));
    SharedPart(cfg, Run(cfg, actions + more));
    RunEvolves(cfg, actions, more);
    var a, b := Run(cfg, actions).sh, Run(cfg, actions + more).sh;
    assert SealMatches(a, r1) && SealMatches(b, r2);
    assert RelayRow(a.db.relays[r1], cfg.hash) && RelayRow(b.db.relays[r2], cfg.hash);
  }

  /** All finishes of one batch that succeed, however they overlap, return the same code and expiry. */
  lemma FinishesAgree(cfg: Config, actions: seq<Action>, more: seq<Action>, t1: int, t2: int, x: Relay, y: Relay)
    requires t1 in Run(cfg, actions).threads && Run(cfg, actions).threads[t1] == Finished(x)
    requires t2 in Run(cfg, actions + more).threads && Run(cfg, actions + more).threads[t2] == Finished(y)
    requires x.id == y.id
    ensures x.codeValue == y.codeValue && x.codeHash == y.codeHash && x.expiresAt == y.expiresAt
  {
    hide Run, SharedInv, Evolves;
    RunKeeps(cfg, actions);
    RunKeeps(cfg, actions + more);
    RunEvolves(cfg, actions, more);
    assert PcOk(cfg, Run(cfg, actions).sh, Finished(x));
    assert PcOk(cfg, Run(cfg, actions + more).sh, Finished(y));
  }

  /**
   * Pages claimed one by one at any moments of a run are the pages of one list: put together they are the list that
   * the relay still shows at the end.
   */
  lemma ClaimedPagesAreTheList(cfg: Config, actions: seq<Action>, r: int, moments: seq<nat>)
    requires r in Run(cfg, actions).sh.db.relays
    requires var list := Listing(Run(cfg, actions).sh.db, r); !Paging.Fragmented(list) && |moments| == |Paging.Pages(list)|
    requires forall i :: 0 <= i < |moments| ==> moments[i] <= |actions| && Claimable(Run(cfg, actions[..moments[i]]).sh.db, r)
    ensures var list := Listing(Run(cfg, actions).sh.db, r);
      && (forall i :: 0 <= i < |moments| ==> Paging.Pages(Listing(Run(cfg, actions[..moments[i]]).sh.db, r)) == Paging.Pages(list))
      && Paging.Concat(seq(|moments|, i requires 0 <= i < |moments| => PageAt(Run(cfg, actions[..moments[i]]).sh.db, r, i))) == list
  {
    hide Run, Listing, Paging.Pages, Paging.Fragmented, Paging.Concat;
    var list := Listing(Run(cfg, actions).sh.db, r);
    forall i | 0 <= i < |moments| ensures Listing(Run(cfg, actions[..moments[i]]).sh.db, r) == list {
      assert actions == actions[..moments[i]] + actions[moments[i]..];
      RelayHistory(cfg, actions[..moments[i]], actions[moments[i]..], r);
    }
    assert seq(|moments|, i requires 0 <= i < |moments| => PageAt(Run(cfg, actions[..moments[i]]).sh.db, r, i)) == Paging.Pages(list);
    Paging.PagesAreOptimal(list, []);
  }

  /** A claim of one of its pages gets past the checks of its row only when the relay has been ready. */
  predicate Claimable(db: Db, r: int) {
    r in db.relays && db.relays[r].status != Collecting
  }

  /** What a claim of page `i + 1` sends. */
  function PageAt(db: Db, r: int, i: nat): seq<RelayItem> {
    if i < |Paging.Pages(Listing(db, r))| then Paging.Pages(Listing(db, r))[i] else []
  }
}
