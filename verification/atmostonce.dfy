/**
 * How often ClaimRelay sends for one request. A request that is processed twice is stopped by its delivery row;
 * once the purge has taken the row, only the expiry of the relay stops it, and a handler checked that earlier.
 */
module AtMostOnce {
  import opened RelayTypes
  import opened Store
  import opened StoreFacts
  import opened Protocol
  import opened Invariants
  import opened Steps
  import opened Runs
  import opened Deliveries
  import Paging

  function CountSends(sends: seq<Send>, q: int): nat {
    if sends == [] then 0
    else CountSends(sends[..|sends| - 1], q) + (if sends[|sends| - 1].request == q then 1 else 0)
  }

  function Sending(w: World, q: int): set<int> {
    set t | t in w.threads && AboutToSend(w.threads[t], q)
  }

  predicate AboutToSend(pc: Pc, q: int) {
    pc.Claiming? && pc.claim.ClaimSend? && pc.claim.request == q
  }

  predicate AboutToInsert(pc: Pc) {
    pc.Claiming? && pc.claim.ClaimInsert?
  }

  /** The delivery row is inserted within `lag` of the moment the handler read its clock. */
  predicate PromptStep(w: World, action: Action, lag: int) {
    action.Advance? && action.thread in w.threads && AboutToInsert(w.threads[action.thread]) ==>
      w.sh.clock <= w.threads[action.thread].claim.now + lag
  }

  ghost predicate Prompt(cfg: Config, actions: seq<Action>, lag: int) {
    forall i :: 0 <= i < |actions| ==> PromptStep(Run(cfg, actions[..i]), actions[i], lag)
  }

  ghost predicate SendsOnce(cfg: Config, actions: seq<Action>) {
    forall q :: CountSends(Run(cfg, actions).sh.sends, q) <= 1
  }

  // ----- The ledger of requests -----

  /** A delivery row names the relay its request is bound to. */
  ghost predicate RowsBound(sh: Shared) {
    forall d :: d in sh.db.deliveries ==>
      sh.db.deliveries[d].requestUpdateId in sh.claimed && sh.claimed[sh.db.deliveries[d].requestUpdateId] == sh.db.deliveries[d].relayId
  }

  /** The purge takes rows only of relays that have been expired for longer than the retention. */
  ghost predicate PurgedLate(cfg: Config, sh: Shared) {
    forall r :: r in sh.purged ==> r in sh.sealed && sh.sealed[r].expiresAt + cfg.expiredDeliveryPurge < sh.clock
  }

  /** Why a bound request will not be inserted again in time. */
  ghost predicate Spent(cfg: Config, sh: Shared, q: int)
    requires q in sh.claimed && sh.claimed[q] in sh.sealed
  {
    || HasDeliveryFor(sh.db, q)
    || sh.claimed[q] !in sh.db.relays
    || sh.sealed[sh.claimed[q]].expiresAt + cfg.expiredDeliveryPurge < sh.clock
  }

  ghost predicate Ledger(cfg: Config, sh: Shared) {
    && RowsBound(sh) && PurgedLate(cfg, sh)
    && forall q :: q in sh.claimed ==> sh.claimed[q] in sh.sealed && Spent(cfg, sh, q)
  }

  /** Steps that neither insert a delivery nor purge keep the ledger. */
  lemma QuietLedger(cfg: Config, sh: Shared, next: Shared)
    requires SharedInv(cfg, sh) && Ledger(cfg, sh) && SharedEvolves(sh, next)
    requires next.claimed == sh.claimed && PurgedLate(cfg, next)
    requires forall d :: d in next.db.deliveries ==> d < sh.db.nextDelivery
    ensures Ledger(cfg, next)
  {
    hide SealsInv, CodesInv, SessionsInv, BatchesBounded, HashesUnique, ItemRows, UpdatesUnique, RequestsUnique, RelayRows;
    forall q | q in next.claimed ensures next.claimed[q] in next.sealed && Spent(cfg, next, q) {
      assert q in sh.claimed && Spent(cfg, sh, q);
      if HasDeliveryFor(sh.db, q) {
        var d :| d in sh.db.deliveries && sh.db.deliveries[d].requestUpdateId == q;
        assert sh.claimed[q] == sh.db.deliveries[d].relayId;
        assert d in next.db.deliveries ==> next.db.deliveries[d].requestUpdateId == q;
      } else {
        SealedBelow(cfg, sh, sh.claimed[q]);
      }
    }
  }

  lemma SealedBelow(cfg: Config, sh: Shared, r: int)
    requires SharedInv(cfg, sh) && r in sh.sealed
    ensures r < sh.db.nextRelay
  {
  }

  lemma InsertLedger(cfg: Config, sh: Shared, p: ClaimPc, choice: Choice, next: Shared, to: Pc)
    requires SharedInv(cfg, sh) && HistoryInv(cfg, sh) && Ledger(cfg, sh) && ClaimOk(cfg, sh, p) && SharedEvolves(sh, next)
    requires p.ClaimInsert? && ClaimStep(cfg, sh, p, choice) == (next, to)
    ensures Ledger(cfg, next)
  {
    hide SharedInv, HistoryInv, SharedEvolves, Commit, Target;
    if next != sh {
      Inserted(cfg, sh, p, choice, next, to);
      if p.request in sh.claimed {
        SameTarget(cfg, sh, p.request, p.now, p.relay);
      }
      BoundIsSealed(cfg, sh, p);
      forall q | q in next.claimed ensures next.claimed[q] in next.sealed && Spent(cfg, next, q) {
        if q == p.request {
          assert HasDeliveryFor(next.db, q) by {
            assert next.db.deliveries[sh.db.nextDelivery].requestUpdateId == q;
          }
        } else {
          assert q in sh.claimed && Spent(cfg, sh, q);
          if HasDeliveryFor(sh.db, q) {
            var d :| d in sh.db.deliveries && sh.db.deliveries[d].requestUpdateId == q;
            assert next.db.deliveries[d].requestUpdateId == q;
          }
        }
      }
    }
  }

  lemma BoundIsSealed(cfg: Config, sh: Shared, p: ClaimPc)
    requires p.ClaimInsert? && ClaimOk(cfg, sh, p)
    ensures p.relay.id in sh.sealed
  {
  }

  /** What the insert of a delivery changes. */
  lemma Inserted(cfg: Config, sh: Shared, p: ClaimPc, choice: Choice, next: Shared, to: Pc)
    requires SharedInv(cfg, sh) && p.ClaimInsert? && ClaimStep(cfg, sh, p, choice) == (next, to) && next != sh
    ensures sh.db.nextDelivery !in sh.db.deliveries && !HasDeliveryFor(sh.db, p.request) && p.relay.id in sh.db.relays
    ensures next.db.deliveries == sh.db.deliveries[sh.db.nextDelivery := Delivery(sh.db.nextDelivery, p.relay.id, p.request, Pending, p.now, p.now)]
    ensures next.claimed == if p.request in sh.claimed then sh.claimed else sh.claimed[p.request := p.relay.id]
    ensures next.db.relays == sh.db.relays && next.sealed == sh.sealed && next.clock == sh.clock && next.purged == sh.purged
  {
    hide HashesUnique, ItemRows, UpdatesUnique, RequestsUnique, CodesInv, SessionsInv, BatchesBounded;
    var (db, r) := CreateDeliveryTx(sh.db, p.relay.id, p.request, p.now);
    NothingSealed(cfg, sh, db);
  }

  lemma PurgeLedger(cfg: Config, sh: Shared, p: WorkerPc, choice: Choice, next: Shared, to: Pc)
    requires SharedInv(cfg, sh) && PurgedLate(cfg, sh) && p.now <= sh.clock
    requires p.PurgeDeliveries? && WorkerStep(cfg, sh, p, choice) == (next, to) && SharedEvolves(sh, next)
    ensures PurgedLate(cfg, next)
  {
    hide CodesInv, SessionsInv, BatchesBounded, HashesUnique, ItemRows, UpdatesUnique, RequestsUnique;
    forall r | r in next.purged && r !in sh.purged
      ensures r in next.sealed && next.sealed[r].expiresAt + cfg.expiredDeliveryPurge < next.clock
    {
      var d :| d in sh.db.deliveries && Purgeable(sh.db, d, p.now - cfg.expiredDeliveryPurge) && sh.db.deliveries[d].relayId == r;
      assert SealMatches(sh, r);
    }
  }

  /** No step but an insert adds delivery rows. */
  lemma QuietRequests(cfg: Config, sh: Shared, pc: Pc, choice: Choice, next: Shared, to: Pc)
    requires SharedInv(cfg, sh) && StepPc(cfg, sh, pc, choice) == (next, to) && !AboutToInsert(pc)
    ensures forall d :: d in next.db.deliveries ==> d in sh.db.deliveries
  {
    hide SharedInv, CreateStep, StartStep, AppendStep, FinishStep, CancelStep, ProgressStep, DeleteRelaysTx, ExpireTx, PurgeTx, Losers, StaleBatches;
    if !Marks(pc) {
      NextRelayIsNew(cfg, sh);
      QuietDeliveries(cfg, sh, pc, choice, next, to);
    }
  }

  lemma StepLedger(cfg: Config, sh: Shared, pc: Pc, choice: Choice, next: Shared, to: Pc)
    requires SharedInv(cfg, sh) && HistoryInv(cfg, sh) && PcOk(cfg, sh, pc) && Ledger(cfg, sh)
    requires StepPc(cfg, sh, pc, choice) == (next, to)
    ensures Ledger(cfg, next)
  {
    hide SharedInv, SharedEvolves, HistoryInv, ClaimStep, WorkerStep, CreateStep, StartStep, AppendStep, FinishStep, CancelStep, ProgressStep, RowsBound, Spent, ClaimOk;
    StepKeeps(cfg, sh, pc, choice, next, to);
    if AboutToInsert(pc) {
      InsertLedger(cfg, sh, pc.claim, choice, next, to);
    } else {
      QuietRequests(cfg, sh, pc, choice, next, to);
      QuietHistory(cfg, sh, pc, choice, next, to);
      DeliveriesBelow(cfg, sh);
      if pc.Maintaining? && pc.worker.PurgeDeliveries? {
        PurgeLedger(cfg, sh, pc.worker, choice, next, to);
      } else {
        SealsStay(sh, next);
      }
      QuietLedger(cfg, sh, next);
    }
  }

  lemma SealsStay(sh: Shared, next: Shared)
    requires SharedEvolves(sh, next)
    ensures sh.clock <= next.clock && forall r :: r in sh.sealed ==> r in next.sealed && next.sealed[r] == sh.sealed[r]
  {
  }

  lemma OtherLedger(cfg: Config, w: World, action: Action, next: World)
    requires Ledger(cfg, w.sh) && next == Next(cfg, w, action) && !(action.Advance? && action.thread in w.threads)
    ensures Ledger(cfg, next.sh)
  {
    assert next.sh.db == w.sh.db && next.sh.claimed == w.sh.claimed && next.sh.sealed == w.sh.sealed && w.sh.clock <= next.sh.clock;
    forall q | q in next.sh.claimed ensures next.sh.claimed[q] in next.sh.sealed && Spent(cfg, next.sh, q) {
      assert Spent(cfg, w.sh, q);
    }
  }

  lemma {:induction false} RunLedger(cfg: Config, actions: seq<Action>)
    ensures Ledger(cfg, Run(cfg, actions).sh)
  {
    hide StepPc, SharedInv, HistoryInv, PcOk, Ledger;
    if actions == [] {
      LedgerAtFirst(cfg);
    } else {
      var before, last := actions[..|actions| - 1], actions[|actions| - 1];
      var w, next := Run(cfg, before), Run(cfg, actions);
      RunLedger(cfg, before);
      RunKeeps(cfg, before);
      if last.Advance? && last.thread in w.threads {
        StepLedger(cfg, w.sh, w.threads[last.thread], last.choice, next.sh, next.threads[last.thread]);
      } else {
        OtherLedger(cfg, w, last, next);
      }
    }
  }

  lemma LedgerAtFirst(cfg: Config)
    ensures Ledger(cfg, Run(cfg, []).sh)
  {
  }

  /** Until the retention has passed since a relay's expiry, its delivery_count is exactly the number of its sent rows. */
  lemma CountExactWhileRetained(cfg: Config, actions: seq<Action>, r: int)
    requires var sh := Run(cfg, actions).sh;
      r in sh.db.relays && (sh.db.relays[r].status == Collecting || sh.clock <= sh.db.relays[r].expiresAt + cfg.expiredDeliveryPurge)
    ensures var sh := Run(cfg, actions).sh; |SentRows(sh.db, r)| == sh.db.relays[r].deliveryCount
  {
    hide Run, Spent, RowsBound, Integrity, CodesInv, SessionsInv, BatchesBounded, DeliveriesSealed;
    RunKeeps(cfg, actions);
    RunLedger(cfg, actions);
    CountMatchesRows(cfg, actions, r);
    SharedPart(cfg, Run(cfg, actions));
    assert SealMatches(Run(cfg, actions).sh, r);
  }

  // ----- Counting sends -----

  ghost predicate OnceFor(w: World, q: int) {
    && CountSends(w.sh.sends, q) + |Sending(w, q)| <= 1
    && (q !in w.sh.claimed ==> CountSends(w.sh.sends, q) + |Sending(w, q)| == 0)
  }

  /** A prompt handler that inserts a row for a request is the first to do so. */
  lemma PromptInsertIsFirst(cfg: Config, sh: Shared, p: ClaimPc, choice: Choice, next: Shared, to: Pc, lag: int)
    requires SharedInv(cfg, sh) && HistoryInv(cfg, sh) && Ledger(cfg, sh) && ClaimOk(cfg, sh, p)
    requires p.ClaimInsert? && ClaimStep(cfg, sh, p, choice) == (next, to) && next != sh
    requires sh.clock <= p.now + lag && lag <= cfg.expiredDeliveryPurge + 1
    ensures p.request !in sh.claimed
  {
    hide SharedInv, HistoryInv, RowsBound, PurgedLate, ClaimStep;
    Inserted(cfg, sh, p, choice, next, to);
    if p.request in sh.claimed {
      SameTarget(cfg, sh, p.request, p.now, p.relay);
    }
  }

  lemma SendingStep(w: World, t: int, to: Pc, next: World, q: int)
    requires t in w.threads && next.threads == w.threads[t := to]
    ensures |Sending(next, q)| == |Sending(w, q)| + (if AboutToSend(to, q) then 1 else 0) - (if AboutToSend(w.threads[t], q) then 1 else 0)
  {
    hide AboutToSend;
    OneChanged(Sending(w, q), Sending(next, q), t);
  }

  /** Who is about to send next: only a handler that has just inserted its row. */
  lemma BeginsToSend(cfg: Config, sh: Shared, pc: Pc, choice: Choice, next: Shared, to: Pc, q: int)
    requires StepPc(cfg, sh, pc, choice) == (next, to)
    ensures AboutToSend(to, q) ==> AboutToInsert(pc) && pc.claim.request == q && next != sh && q in next.claimed
  {
    hide AddItemTx, CreateRelayTx, CreateBatchTx, FinalizeTx, MarkTx, MarkSentTx, DeleteRelaysTx, ExpireTx, TimeoutTx, PurgeTx, Losers,
      Listing, RelayByHash, RelayByUpdate, ActiveRelays, Fresh;
    if AboutToSend(to, q) && AboutToInsert(pc) {
      var r := CreateDeliveryTx(sh.db, pc.claim.relay.id, pc.claim.request, pc.claim.now);
      assert next.db.nextDelivery == sh.db.nextDelivery + 1;
    }
  }

  lemma StepSends(cfg: Config, sh: Shared, pc: Pc, choice: Choice, next: Shared, to: Pc, q: int)
    requires StepPc(cfg, sh, pc, choice) == (next, to)
    ensures CountSends(next.sends, q) == CountSends(sh.sends, q) + (if AboutToSend(pc, q) then 1 else 0)
    ensures AboutToSend(pc, q) ==> !AboutToSend(to, q) && next.claimed == sh.claimed
    ensures forall p :: p in sh.claimed ==> p in next.claimed
    ensures forall p :: p in next.claimed && p !in sh.claimed ==> AboutToSend(to, p)
  {
    hide CreateStep, StartStep, AppendStep, FinishStep, CancelStep, ProgressStep, WorkerStep, CreateDeliveryTx, MarkTx, MarkSentTx,
      Warm, Listing, RelayByHash, FirstPage;
    QuietHistory(cfg, sh, pc, choice, next, to);
    if pc.Claiming? && pc.claim.ClaimSend? {
      assert next.sends[..|next.sends| - 1] == sh.sends;
    }
  }

  lemma StepOnce(cfg: Config, w: World, t: int, choice: Choice, next: World, q: int, lag: int)
    requires WorldInv(cfg, w) && Ledger(cfg, w.sh) && OnceFor(w, q) && t in w.threads && next == Next(cfg, w, Advance(t, choice))
    requires PromptStep(w, Advance(t, choice), lag) && lag <= cfg.expiredDeliveryPurge + 1
    ensures OnceFor(next, q)
  {
    hide SharedInv, HistoryInv, Ledger, StepPc, Sending, ClaimOk;
    var pc, to := w.threads[t], next.threads[t];
    SendingStep(w, t, to, next, q);
    StepSends(cfg, w.sh, pc, choice, next.sh, to, q);
    BeginsToSend(cfg, w.sh, pc, choice, next.sh, to, q);
    if AboutToSend(to, q) {
      FirstInsert(cfg, w, t, choice, next, lag);
    }
  }

  lemma FirstInsert(cfg: Config, w: World, t: int, choice: Choice, next: World, lag: int)
    requires WorldInv(cfg, w) && Ledger(cfg, w.sh) && t in w.threads && next == Next(cfg, w, Advance(t, choice))
    requires PromptStep(w, Advance(t, choice), lag) && lag <= cfg.expiredDeliveryPurge + 1
    requires AboutToInsert(w.threads[t]) && next.sh != w.sh
    ensures w.threads[t].claim.request !in w.sh.claimed
  {
    hide SharedInv, HistoryInv, Ledger, ClaimStep, ClaimOk;
    PromptInsertIsFirst(cfg, w.sh, w.threads[t].claim, choice, next.sh, next.threads[t], lag);
  }

  lemma NextOnce(cfg: Config, w: World, action: Action, next: World, lag: int)
    requires WorldInv(cfg, w) && Ledger(cfg, w.sh) && (forall q :: OnceFor(w, q)) && next == Next(cfg, w, action)
    requires PromptStep(w, action, lag) && lag <= cfg.expiredDeliveryPurge + 1
    ensures forall q :: OnceFor(next, q)
  {
    hide StepPc, SharedInv, HistoryInv, PcOk, OnceFor, Ledger;
    forall q ensures OnceFor(next, q) {
      if action.Advance? && action.thread in w.threads {
        StepOnce(cfg, w, action.thread, action.choice, next, q, lag);
      } else {
        OtherOnce(cfg, w, action, next, q);
      }
    }
  }

  lemma OtherOnce(cfg: Config, w: World, action: Action, next: World, q: int)
    requires OnceFor(w, q) && next == Next(cfg, w, action) && !(action.Advance? && action.thread in w.threads)
    ensures OnceFor(next, q)
  {
    if action.Spawn? && action.thread !in w.threads {
      assert !AboutToSend(Entry(w.sh, action.request), q);
    }
    assert Sending(next, q) == Sending(w, q);
  }

  lemma {:induction false} PromptRunsSendOnce(cfg: Config, actions: seq<Action>, lag: int)
    requires Prompt(cfg, actions, lag) && lag <= cfg.expiredDeliveryPurge + 1
    ensures forall q :: OnceFor(Run(cfg, actions), q)
  {
    hide Next, WorldInv, OnceFor, Ledger, PromptStep;
    if actions == [] {
      OnceAtFirst(cfg);
    } else {
      var before, last := actions[..|actions| - 1], actions[|actions| - 1];
      assert forall i :: 0 <= i < |before| ==> before[..i] == actions[..i] && before[i] == actions[i];
      PromptRunsSendOnce(cfg, before, lag);
      RunKeeps(cfg, before);
      RunLedger(cfg, before);
      NextOnce(cfg, Run(cfg, before), last, Run(cfg, actions), lag);
    }
  }

  lemma OnceAtFirst(cfg: Config)
    ensures forall q :: OnceFor(Run(cfg, []), q)
  {
    assert forall q :: Sending(Run(cfg, []), q) == {};
  }

  // ----- What is sent -----

  lemma ClaimSeals(cfg: Config, sh: Shared, pc: ClaimPc, choice: Choice, next: Shared, to: Pc, r: int)
    requires ClaimStep(cfg, sh, pc, choice) == (next, to) && r in next.sealed
    ensures r in sh.sealed || r in next.db.relays
  {
    hide CreateDeliveryTx, MarkTx, MarkSentTx, Listing, RelayByHash, FirstPage;
  }

  lemma FinishSeals(cfg: Config, sh: Shared, pc: FinishPc, choice: Choice, next: Shared, to: Pc, r: int)
    requires FinishStep(cfg, sh, pc, choice) == (next, to) && r in next.sealed
    ensures r in sh.sealed || r in next.db.relays
  {
    hide FinalizeTx, Listing, ActiveRelays, Fresh;
  }

  lemma WorkerSeals(cfg: Config, sh: Shared, pc: WorkerPc, choice: Choice, next: Shared, to: Pc, r: int)
    requires WorkerStep(cfg, sh, pc, choice) == (next, to) && r in next.sealed
    ensures r in sh.sealed || r in next.db.relays
  {
    hide DeleteRelaysTx, ExpireTx, TimeoutTx, PurgeTx, StaleBatches, Losers;
  }

  /** A relay is sealed while it is in the tables. */
  lemma StepSeals(cfg: Config, sh: Shared, pc: Pc, choice: Choice, next: Shared, to: Pc, r: int)
    requires StepPc(cfg, sh, pc, choice) == (next, to) && r in next.sealed
    ensures r in sh.sealed || r in next.db.relays
  {
    hide AddItemTx, CreateRelayTx, CreateBatchTx, DeleteRelaysTx, Listing, RelayByUpdate, ActiveRelays, Fresh, ClaimStep, FinishStep, WorkerStep;
    match pc
    case Claiming(p) => ClaimSeals(cfg, sh, p, choice, next, to, r);
    case Finishing(p) => FinishSeals(cfg, sh, p, choice, next, to, r);
    case Maintaining(p) => WorkerSeals(cfg, sh, p, choice, next, to, r);
    case _ =>
  }

  /** At some moment of the run, the relay was in the tables with this list and this hash. */
  ghost predicate HasListed(cfg: Config, actions: seq<Action>, r: int, items: seq<RelayItem>, codeHash: string) {
    exists k :: 0 <= k <= |actions| && Lists(Run(cfg, actions[..k]).sh.db, r, items, codeHash)
  }

  predicate Lists(db: Db, r: int, items: seq<RelayItem>, codeHash: string) {
    r in db.relays && Listing(db, r) == items && db.relays[r].codeHash == Some(codeHash)
  }

  lemma {:induction false} SealedWasListed(cfg: Config, actions: seq<Action>, r: int)
    requires r in Run(cfg, actions).sh.sealed
    ensures var seal := Run(cfg, actions).sh.sealed[r]; seal.codeHash.Some? && HasListed(cfg, actions, r, seal.items, seal.codeHash.value)
  {
    hide WorldInv, SharedInv, HistoryInv, SharedEvolves, StepPc, Lists;
    if actions != [] {
      var before, last := actions[..|actions| - 1], actions[|actions| - 1];
      var w, next := Run(cfg, before), Run(cfg, actions);
      RunKeeps(cfg, before);
      RunKeeps(cfg, actions);
      NextKeeps(cfg, w, last, next);
      SealsStay(w.sh, next.sh);
      if r in w.sh.sealed {
        SealedWasListed(cfg, before, r);
        var seal := w.sh.sealed[r];
        var k :| 0 <= k <= |before| && Lists(Run(cfg, before[..k]).sh.db, r, seal.items, seal.codeHash.value);
        assert before[..k] == actions[..k];
      } else {
        StepSeals(cfg, w.sh, w.threads[last.thread], last.choice, next.sh, next.threads[last.thread], r);
        SealedIsListed(cfg, next, r);
        assert actions[..|actions|] == actions;
      }
    }
  }

  lemma SealedIsListed(cfg: Config, w: World, r: int)
    requires WorldInv(cfg, w) && r in w.sh.sealed && r in w.sh.db.relays
    ensures var seal := w.sh.sealed[r]; seal.codeHash.Some? && Lists(w.sh.db, r, seal.items, seal.codeHash.value)
  {
    hide Integrity, CodesInv, SessionsInv, BatchesBounded, DeliveriesSealed, HistoryInv;
    ListingIsSealed(cfg, w.sh, r);
    assert SealMatches(w.sh, r);
  }

  /**
   * Every send of every run carries the beginning of a list that its relay has shown under the hash of the code of the
   * request, as far as one page reaches. The relay has no other list: whenever it is in the tables and no longer
   * collecting, it shows this one.
   */
  lemma SendsCarryFirstPage(cfg: Config, actions: seq<Action>, i: int)
    requires 0 <= i < |Run(cfg, actions).sh.sends|
    ensures var send := Run(cfg, actions).sh.sends[i];
      exists list :: HasListed(cfg, actions, send.relayId, list, CodeHash(cfg, send.request)) && Paging.BeginWith(list, send.page)
    ensures var sh := Run(cfg, actions).sh; var send := sh.sends[i];
      send.relayId in sh.db.relays ==>
        Paging.BeginWith(Listing(sh.db, send.relayId), send.page) && sh.db.relays[send.relayId].codeHash == Some(CodeHash(cfg, send.request))
  {
    hide Run, Integrity, CodesInv, SessionsInv, BatchesBounded, DeliveriesSealed, Paging.BeginWith, Paging.Pages, HasListed;
    RunKeeps(cfg, actions);
    SharedPart(cfg, Run(cfg, actions));
    var sh := Run(cfg, actions).sh;
    var send := sh.sends[i];
    assert SendAgrees(cfg, sh, send);
    var items := sh.sealed[send.relayId].items;
    Paging.FirstPageIsLongest(items);
    SealedWasListed(cfg, actions, send.relayId);
    if send.relayId in sh.db.relays {
      ListingIsSealed(cfg, sh, send.relayId);
      assert SealMatches(sh, send.relayId);
    }
  }
}
