/**
 * The item count of a batch session against the items its relay really has. The count travels through the cache in
 * a merge of its own, so it lags while an append is between its insert and its merge, and only then.
 */
module SessionCount {
  import opened RelayTypes
  import opened Store
  import opened StoreFacts
  import opened Protocol
  import opened Invariants
  import opened Steps
  import opened Runs
  import opened Lifecycle
  import SessionMerge

  // ----- Batches that nobody knows yet -----

  /** The handler holds a session of batch `id`. */
  predicate Carries(pc: Pc, id: int) {
    || (pc.Appending? && !pc.append.AppendGet? && pc.append.session.relayId == id)
    || (pc.Reporting? && pc.progress.ProgressMerge? && pc.progress.session.relayId == id)
  }

  /** The handler has created batch `id` and has not stored its session, or has failed to. */
  predicate Publishes(pc: Pc, id: int) {
    pc.Starting? && (pc.start.StartSet? || pc.start.StartUndo?) && pc.start.id == id
  }

  ghost predicate Unpublished(w: World, id: int) {
    && Rows(w.sh.db, id) == []
    && (forall chat :: chat in w.sh.sessions ==> w.sh.sessions[chat].relayId != id)
    && (forall t :: t in w.threads ==> !Carries(w.threads[t], id))
  }

  ghost predicate StartsAlone(w: World) {
    && (forall t, id :: t in w.threads && Publishes(w.threads[t], id) ==> Unpublished(w, id))
    && (forall t, u, id :: t in w.threads && u in w.threads && Publishes(w.threads[t], id) && Publishes(w.threads[u], id) ==> t == u)
  }

  // ----- The count -----

  /** An append of batch `id` that has inserted item number `count` and has not yet merged that count. */
  predicate Reports(pc: Pc, id: int, count: int) {
    pc.Appending? && pc.append.AppendMerge? && pc.append.session.relayId == id && pc.append.session.itemCount == count
  }

  ghost predicate Exact(w: World, chat: int)
    requires chat in w.sh.sessions
  {
    var s := w.sh.sessions[chat];
    s.relayId in w.sh.db.relays ==>
      || s.itemCount == |Rows(w.sh.db, s.relayId)|
      || exists t :: t in w.threads && Reports(w.threads[t], s.relayId, |Rows(w.sh.db, s.relayId)|)
  }

  ghost predicate CountInv(cfg: Config, w: World) {
    && StartsAlone(w)
    && forall chat :: chat in w.sh.intact ==> cfg.batchSessionTtl > 0 && chat in w.sh.sessions && Exact(w, chat)
  }

  // ----- What one step does to the sessions -----

  predicate Merges(pc: Pc) {
    (pc.Appending? && pc.append.AppendMerge?) || (pc.Reporting? && pc.progress.ProgressMerge?)
  }

  function Merging(pc: Pc): Session
    requires Merges(pc)
  {
    if pc.Appending? then pc.append.session else pc.progress.session
  }

  predicate Sets(pc: Pc) {
    pc.Starting? && pc.start.StartSet?
  }

  predicate Forgets(pc: Pc) {
    || (pc.Starting? && pc.start.StartDrop?) || (pc.Finishing? && pc.finish.FinishClear?)
    || (pc.Canceling? && pc.cancel.CancelClear?) || pc.DropSession?
  }

  /** A cleanup only drops a session, and its chat is no longer intact. */
  lemma ForgottenSessions(cfg: Config, sh: Shared, pc: Pc, choice: Choice, next: Shared, to: Pc)
    requires StepPc(cfg, sh, pc, choice) == (next, to) && Forgets(pc)
    ensures forall chat :: chat in next.sessions ==> chat in sh.sessions && next.sessions[chat] == sh.sessions[chat]
    ensures forall chat :: chat in next.intact ==> chat in sh.intact && (chat in sh.sessions ==> chat in next.sessions)
  {
  }

  /** All other steps leave the sessions alone. */
  lemma QuietSessions(cfg: Config, sh: Shared, pc: Pc, choice: Choice, next: Shared, to: Pc)
    requires StepPc(cfg, sh, pc, choice) == (next, to) && !Merges(pc) && !Sets(pc) && !Forgets(pc)
    ensures next.sessions == sh.sessions && next.intact == sh.intact
  {
    hide ClaimStep, CreateStep, StartStep, AppendStep, FinishStep, CancelStep, WorkerStep;
    match pc
    case Claiming(p) => ClaimFrame(cfg, sh, p, choice, next, to);
    case Creating(p) => CreateFrame(cfg, sh, p, choice, next, to);
    case Starting(p) => StartFrame(cfg, sh, p, choice, next, to);
    case Appending(p) => AppendFrame(cfg, sh, p, choice, next, to);
    case Finishing(p) => FinishFrame(cfg, sh, p, choice, next, to);
    case Canceling(p) => CancelFrame(cfg, sh, p, choice, next, to);
    case Maintaining(p) => WorkerFrame(cfg, sh, p, choice, next, to);
    case _ =>
  }

  /** A merge touches the session of its own chat. */
  lemma MergedSessions(cfg: Config, sh: Shared, pc: Pc, choice: Choice, next: Shared, to: Pc)
    requires StepPc(cfg, sh, pc, choice) == (next, to) && Merges(pc)
    ensures next.db == sh.db && to == Done && next.intact <= sh.intact
    ensures next.sessions == sh.sessions ||
      next.sessions == sh.sessions[Merging(pc).uploaderChatId := SessionMerge.MergeResult(SessionOf(sh, Merging(pc).uploaderChatId), Merging(pc))]
    ensures pc.Appending? && Merging(pc).uploaderChatId in next.intact && cfg.batchSessionTtl > 0 ==>
      next.sessions == sh.sessions[Merging(pc).uploaderChatId := SessionMerge.MergeResult(SessionOf(sh, Merging(pc).uploaderChatId), Merging(pc))]
  {
    hide SessionMerge.MergeResult;
  }

  /** A start publishes its batch with no items counted. */
  lemma SetSessions(cfg: Config, sh: Shared, pc: Pc, choice: Choice, next: Shared, to: Pc)
    requires StepPc(cfg, sh, pc, choice) == (next, to) && Sets(pc)
    ensures next.db == sh.db && (to == Done || to == Starting(StartUndo(pc.start.id)))
    ensures (next.sessions == sh.sessions && next.intact == sh.intact)
         || (cfg.batchSessionTtl > 0 && next.intact == sh.intact + {pc.start.chat}
             && next.sessions == sh.sessions[pc.start.chat := NewSession(cfg, pc.start.id, pc.start.chat, pc.start.now)])
  {
  }

  // ----- Batches stay unpublished until their start publishes them -----

  /** What a handler carries it carried before, or has just read from a session. */
  lemma StepCarries(cfg: Config, sh: Shared, pc: Pc, choice: Choice, next: Shared, to: Pc, id: int)
    requires StepPc(cfg, sh, pc, choice) == (next, to)
    ensures Carries(to, id) ==> Carries(pc, id) || exists chat :: chat in sh.sessions && sh.sessions[chat].relayId == id
    ensures Publishes(to, id) ==> (Publishes(pc, id) && next.sessions == sh.sessions) || (id == sh.db.nextRelay && pc.Starting? && pc.start.StartInsert?)
  {
    hide AddItemTx, CreateRelayTx, FinalizeTx, CreateDeliveryTx, MarkTx, MarkSentTx, DeleteRelaysTx,
      ExpireTx, TimeoutTx, PurgeTx, Losers, Listing, RelayByHash, RelayByUpdate, ActiveRelays, Fresh, Commit;
  }

  predicate AppendsTo(pc: Pc, id: int) {
    pc.Appending? && pc.append.AppendInsert? && pc.append.session.relayId == id
  }

  /** The rows of an existing batch change only by an append that carries it. */
  lemma StepRows(cfg: Config, sh: Shared, pc: Pc, choice: Choice, next: Shared, to: Pc, id: int)
    requires SharedInv(cfg, sh) && SharedInv(cfg, next) && StepPc(cfg, sh, pc, choice) == (next, to)
    requires id < sh.db.nextRelay && !AppendsTo(pc, id)
    ensures id in next.db.relays ==> id in sh.db.relays && Rows(next.db, id) == Rows(sh.db, id)
    ensures Rows(sh.db, id) == [] ==> Rows(next.db, id) == []
  {
    hide SharedInv, ClaimStep, CreateStep, StartStep, AppendStep, FinishStep, CancelStep, ProgressStep, WorkerStep, Rows;
    TablesHold(cfg, sh);
    TablesHold(cfg, next);
    match pc {
      case Appending(p) => if p.AppendInsert? { AppendRows(cfg, sh, p, choice, next, to, id); } else { QuietRows(cfg, sh, pc, choice, next, to); }
      case Creating(p) => if p.CreateInsert? { CreateRows(cfg, sh, p, choice, next, to, id); } else { QuietRows(cfg, sh, pc, choice, next, to); }
      case Starting(p) => if p.StartInsert? { StartRows(cfg, sh, p, choice, next, to, id); } else { QuietRows(cfg, sh, pc, choice, next, to); }
      case _ => QuietRows(cfg, sh, pc, choice, next, to);
    }
    NoRelayNoRows(next.db, id);
  }

  lemma TablesHold(cfg: Config, sh: Shared)
    requires SharedInv(cfg, sh)
    ensures Integrity(sh.db, cfg.hash)
  {
  }

  lemma NoRelayNoRows(db: Db, id: int)
    requires ItemRows(db)
    ensures id !in db.relays ==> Rows(db, id) == []
  {
  }

  lemma AppendRows(cfg: Config, sh: Shared, p: AppendPc, choice: Choice, next: Shared, to: Pc, id: int)
    requires Integrity(sh.db, cfg.hash) && p.AppendInsert? && AppendStep(cfg, sh, p, choice) == (next, to) && p.session.relayId != id
    ensures Rows(next.db, id) == Rows(sh.db, id) && (id in next.db.relays ==> id in sh.db.relays)
  {
    hide Integrity, AddItemTx, Rows, Evolves;
    AppendKeepsOthers(sh.db, p.session.relayId, p.upload, cfg.maxBatchItems, p.now);
    AddItemKeeps(sh.db, p.session.relayId, p.upload, cfg.maxBatchItems, p.now, cfg.hash);
  }

  lemma CreateRows(cfg: Config, sh: Shared, p: CreatePc, choice: Choice, next: Shared, to: Pc, id: int)
    requires Integrity(sh.db, cfg.hash) && p.CreateInsert? && CreateStep(cfg, sh, p, choice) == (next, to) && id < sh.db.nextRelay
    ensures id in next.db.relays ==> id in sh.db.relays && Rows(next.db, id) == Rows(sh.db, id)
  {
    hide Integrity, CreateRelayTx, Rows, Evolves, Fresh;
    CreateRelayKeeps(sh.db, p.upload, choice.code, cfg.userOf(p.chat), p.chat, p.now + cfg.defaultTtl, p.now, cfg.hash);
    var (made, row) := CreateRelayTx(sh.db, p.upload, choice.code, cfg.hash(choice.code), cfg.userOf(p.chat), p.chat, p.now + cfg.defaultTtl, p.now);
    assert next != sh ==> row.Ok? && next.db == made;
  }

  lemma StartRows(cfg: Config, sh: Shared, p: StartPc, choice: Choice, next: Shared, to: Pc, id: int)
    requires p.StartInsert? && StartStep(cfg, sh, p, choice) == (next, to) && id < sh.db.nextRelay
    ensures Rows(next.db, id) == Rows(sh.db, id) && (id in next.db.relays ==> id in sh.db.relays)
  {
  }

  // ----- Batches stay unpublished -----

  /** Sessions and handlers after a step know only batches that were known before, or that this step publishes. */
  lemma StepKnows(cfg: Config, sh: Shared, pc: Pc, choice: Choice, next: Shared, to: Pc, id: int)
    requires StepPc(cfg, sh, pc, choice) == (next, to) && !Publishes(pc, id) && !Carries(pc, id)
    requires forall chat :: chat in sh.sessions ==> sh.sessions[chat].relayId != id
    ensures forall chat :: chat in next.sessions ==> next.sessions[chat].relayId != id
    ensures !Carries(to, id)
  {
    hide StepPc;
    StepCarries(cfg, sh, pc, choice, next, to, id);
    if Merges(pc) {
      MergedSessions(cfg, sh, pc, choice, next, to);
    } else if Sets(pc) {
      SetSessions(cfg, sh, pc, choice, next, to);
    } else if Forgets(pc) {
      ForgottenSessions(cfg, sh, pc, choice, next, to);
    } else {
      QuietSessions(cfg, sh, pc, choice, next, to);
    }
  }

  /** Nothing knows a batch before it exists. */
  lemma UnbornIsUnknown(cfg: Config, w: World)
    requires WorldInv(cfg, w)
    ensures forall chat :: chat in w.sh.sessions ==> w.sh.sessions[chat].relayId != w.sh.db.nextRelay
    ensures forall t, id :: t in w.threads && Carries(w.threads[t], id) ==> id != w.sh.db.nextRelay
    ensures forall t, id :: t in w.threads && Publishes(w.threads[t], id) ==> id < w.sh.db.nextRelay
  {
    hide Integrity, SealsInv, CodesInv, DeliveriesSealed, BatchesBounded, HistoryInv;
    forall t, id | t in w.threads && Carries(w.threads[t], id) ensures id != w.sh.db.nextRelay {
      assert PcOk(cfg, w.sh, w.threads[t]);
    }
  }

  lemma NewBatchIsEmpty(cfg: Config, sh: Shared, pc: Pc, choice: Choice, next: Shared, to: Pc)
    requires pc.Starting? && pc.start.StartInsert? && StepPc(cfg, sh, pc, choice) == (next, to)
    ensures forall id :: Publishes(to, id) ==> Rows(next.db, id) == [] && next.sessions == sh.sessions
  {
  }

  lemma StepAlone(cfg: Config, w: World, t: int, choice: Choice, next: World)
    requires WorldInv(cfg, w) && StartsAlone(w) && t in w.threads && next == Next(cfg, w, Advance(t, choice))
    ensures StartsAlone(next)
  {
    hide SharedInv, SharedEvolves, HistoryInv, StepPc, PcOk, Rows, Carries, Publishes, AppendsTo;
    var pc, to := w.threads[t], next.threads[t];
    StepKeeps(cfg, w.sh, pc, choice, next.sh, to);
    UnbornIsUnknown(cfg, w);
    forall u, id | u in next.threads && Publishes(next.threads[u], id)
      ensures Unpublished(next, id)
      ensures u != t ==> !Publishes(to, id)
    {
      StepCarries(cfg, w.sh, pc, choice, next.sh, to, id);
      if u == t && !Publishes(pc, id) {
        FreshlyInserted(cfg, w, t, choice, next, id);
      } else if u == t {
        assert Unpublished(w, id);
        PublisherCarriesNothing(pc, id);
        PublisherCarriesNothing(to, id);
        NotAppending(pc, id);
        StepRows(cfg, w.sh, pc, choice, next.sh, to, id);
      } else {
        assert Publishes(w.threads[u], id) && Unpublished(w, id);
        StepKnows(cfg, w.sh, pc, choice, next.sh, to, id);
        NotAppending(pc, id);
        StepRows(cfg, w.sh, pc, choice, next.sh, to, id);
      }
    }
  }

  lemma NotAppending(pc: Pc, id: int)
    requires !Carries(pc, id)
    ensures !AppendsTo(pc, id)
  {
  }

  lemma FreshlyInserted(cfg: Config, w: World, t: int, choice: Choice, next: World, id: int)
    requires WorldInv(cfg, w) && t in w.threads && next == Next(cfg, w, Advance(t, choice)) && Publishes(next.threads[t], id) && !Publishes(w.threads[t], id)
    ensures Unpublished(next, id)
  {
    hide SharedInv, SharedEvolves, HistoryInv, StepPc, PcOk, Rows, Carries;
    var pc, to := w.threads[t], next.threads[t];
    UnbornIsUnknown(cfg, w);
    StepCarries(cfg, w.sh, pc, choice, next.sh, to, id);
    NewBatchIsEmpty(cfg, w.sh, pc, choice, next.sh, to);
    PublisherCarriesNothing(to, id);
  }

  lemma PublisherCarriesNothing(pc: Pc, id: int)
    requires Publishes(pc, id)
    ensures !Carries(pc, id)
  {
  }

  // ----- The count stays exact -----

  /** A session about a batch that still exists belongs to the chat of that batch. */
  lemma SameChat(cfg: Config, sh: Shared, chat: int, m: Session)
    requires SharedInv(cfg, sh) && chat in sh.sessions && sh.sessions[chat].relayId == m.relayId && m.relayId in sh.db.relays
    requires SessionOk(cfg, sh.db, m.uploaderChatId, m)
    ensures m.uploaderChatId == chat
  {
    assert SessionOk(cfg, sh.db, chat, sh.sessions[chat]);
  }

  lemma MergingOk(cfg: Config, sh: Shared, pc: Pc)
    requires PcOk(cfg, sh, pc) && Merges(pc)
    ensures SessionOk(cfg, sh.db, Merging(pc).uploaderChatId, Merging(pc))
  {
  }

  /** Merging a count that is never too high keeps an exact count, and merging the exact count makes it so. */
  lemma MergedCount(cfg: Config, sh: Shared, chat: int, m: Session)
    requires SharedInv(cfg, sh) && chat in sh.sessions && SessionOk(cfg, sh.db, chat, m)
    ensures var s, r := sh.sessions[chat], SessionMerge.MergeResult(SessionOf(sh, chat), m);
      && r.relayId == s.relayId
      && (s.relayId in sh.db.relays ==>
            && (s.itemCount == |Rows(sh.db, s.relayId)| ==> r.itemCount == s.itemCount)
            && (m.relayId == s.relayId && m.itemCount == |Rows(sh.db, s.relayId)| ==> r.itemCount == m.itemCount))
  {
    assert SessionOk(cfg, sh.db, chat, sh.sessions[chat]);
  }

  lemma MergeExact(cfg: Config, w: World, t: int, choice: Choice, next: World, chat: int)
    requires WorldInv(cfg, w) && CountInv(cfg, w) && t in w.threads && next == Next(cfg, w, Advance(t, choice))
    requires Merges(w.threads[t]) && chat in next.sh.intact
    ensures chat in next.sh.sessions && Exact(next, chat)
  {
    hide SharedInv, HistoryInv, StepPc, PcOk, StartsAlone, Rows, SessionMerge.MergeResult, SessionOk;
    var pc, m := w.threads[t], Merging(w.threads[t]);
    MergedSessions(cfg, w.sh, pc, choice, next.sh, next.threads[t]);
    MergingOk(cfg, w.sh, pc);
    assert chat in w.sh.intact && Exact(w, chat);
    var s := w.sh.sessions[chat];
    var count := |Rows(w.sh.db, s.relayId)|;
    if chat == m.uploaderChatId {
      MergedCount(cfg, w.sh, chat, m);
    } else if s.relayId == m.relayId && s.relayId in w.sh.db.relays {
      SameChat(cfg, w.sh, chat, m);
    }
    if s.relayId in w.sh.db.relays && next.sh.sessions[chat].itemCount != count {
      var u :| u in w.threads && Reports(w.threads[u], s.relayId, count);
      assert u != t;
      assert Reports(next.threads[u], s.relayId, count);
    }
  }

  lemma SetExact(cfg: Config, w: World, t: int, choice: Choice, next: World, chat: int)
    requires WorldInv(cfg, w) && CountInv(cfg, w) && t in w.threads && next == Next(cfg, w, Advance(t, choice))
    requires Sets(w.threads[t]) && chat in next.sh.intact
    ensures chat in next.sh.sessions && Exact(next, chat) && cfg.batchSessionTtl > 0
  {
    hide WorldInv, StepPc, Rows;
    var pc := w.threads[t];
    SetSessions(cfg, w.sh, pc, choice, next.sh, next.threads[t]);
    if chat in next.sh.sessions && chat in w.sh.sessions && next.sh.sessions[chat] == w.sh.sessions[chat] && chat in w.sh.intact {
      OthersReport(w, t, next, chat);
    } else {
      assert Publishes(pc, pc.start.id) && Unpublished(w, pc.start.id);
    }
  }

  /** With the session, its rows and all other handlers unchanged, a count stays exact. */
  lemma OthersReport(w: World, t: int, next: World, chat: int)
    requires chat in w.sh.sessions && Exact(w, chat) && t in w.threads && t in next.threads && next.threads == w.threads[t := next.threads[t]] && !Merges(w.threads[t])
    requires chat in next.sh.sessions && next.sh.sessions[chat] == w.sh.sessions[chat]
    requires var r := w.sh.sessions[chat].relayId; r in next.sh.db.relays ==> r in w.sh.db.relays && Rows(next.sh.db, r) == Rows(w.sh.db, r)
    ensures Exact(next, chat)
  {
    hide Rows;
    var s := w.sh.sessions[chat];
    var count := |Rows(w.sh.db, s.relayId)|;
    if s.relayId in next.sh.db.relays && s.itemCount != count {
      var u :| u in w.threads && Reports(w.threads[u], s.relayId, count);
      assert Reports(next.threads[u], s.relayId, count);
    }
  }

  /** An append either leaves the rows alone or goes on to report their new number. */
  lemma AppendReports(cfg: Config, sh: Shared, pc: Pc, choice: Choice, next: Shared, to: Pc, id: int)
    requires SharedInv(cfg, sh) && AppendsTo(pc, id) && StepPc(cfg, sh, pc, choice) == (next, to)
    ensures next.db == sh.db || Reports(to, id, |Rows(next.db, id)|)
  {
    hide AddItemTx, SealsInv, CodesInv, SessionsInv, BatchesBounded, DeliveriesSealed;
    var p := pc.append;
    AddItemKeeps(sh.db, id, p.upload, cfg.maxBatchItems, p.now, cfg.hash);
  }

  lemma QuietExact(cfg: Config, w: World, t: int, choice: Choice, next: World, chat: int)
    requires WorldInv(cfg, w) && CountInv(cfg, w) && t in w.threads && next == Next(cfg, w, Advance(t, choice))
    requires !Merges(w.threads[t]) && !Sets(w.threads[t]) && chat in next.sh.intact
    ensures chat in next.sh.sessions && Exact(next, chat)
  {
    hide SharedInv, HistoryInv, StepPc, PcOk, StartsAlone, Rows, Reports, AppendsTo;
    var pc, to := w.threads[t], next.threads[t];
    if Forgets(pc) {
      ForgottenSessions(cfg, w.sh, pc, choice, next.sh, to);
    } else {
      QuietSessions(cfg, w.sh, pc, choice, next.sh, to);
    }
    StepKeeps(cfg, w.sh, pc, choice, next.sh, to);
    var id := w.sh.sessions[chat].relayId;
    SessionBelow(cfg, w.sh, chat);
    if AppendsTo(pc, id) {
      AppendReports(cfg, w.sh, pc, choice, next.sh, to, id);
    } else {
      StepRows(cfg, w.sh, pc, choice, next.sh, to, id);
    }
    if AppendsTo(pc, id) && next.sh.db != w.sh.db {
      assert t in next.threads && Reports(next.threads[t], id, |Rows(next.sh.db, id)|);
    } else {
      OthersReport(w, t, next, chat);
    }
  }

  lemma SessionBelow(cfg: Config, sh: Shared, chat: int)
    requires SharedInv(cfg, sh) && chat in sh.sessions
    ensures sh.sessions[chat].relayId < sh.db.nextRelay
  {
    assert SessionOk(cfg, sh.db, chat, sh.sessions[chat]);
  }

  lemma StepCounted(cfg: Config, w: World, t: int, choice: Choice, next: World)
    requires WorldInv(cfg, w) && CountInv(cfg, w) && t in w.threads && next == Next(cfg, w, Advance(t, choice))
    ensures CountInv(cfg, next)
  {
    hide WorldInv, StepPc, StartsAlone, Exact;
    var pc := w.threads[t];
    StepAlone(cfg, w, t, choice, next);
    forall chat | chat in next.sh.intact ensures cfg.batchSessionTtl > 0 && chat in next.sh.sessions && Exact(next, chat) {
      if Merges(pc) {
        MergedSessions(cfg, w.sh, pc, choice, next.sh, next.threads[t]);
        MergeExact(cfg, w, t, choice, next, chat);
      } else if Sets(pc) {
        SetExact(cfg, w, t, choice, next, chat);
      } else {
        if Forgets(pc) {
          ForgottenSessions(cfg, w.sh, pc, choice, next.sh, next.threads[t]);
        } else {
          QuietSessions(cfg, w.sh, pc, choice, next.sh, next.threads[t]);
        }
        QuietExact(cfg, w, t, choice, next, chat);
      }
    }
  }

  // ----- Whole runs -----

  lemma OtherCounted(cfg: Config, w: World, action: Action, next: World)
    requires CountInv(cfg, w) && next == Next(cfg, w, action) && !(action.Advance? && action.thread in w.threads)
    ensures CountInv(cfg, next)
  {
    hide Rows;
    if action.Spawn? && action.thread !in w.threads {
      assert forall id :: !Carries(Entry(w.sh, action.request), id) && !Publishes(Entry(w.sh, action.request), id);
    }
    forall t, id | t in next.threads && Publishes(next.threads[t], id) ensures Unpublished(next, id) {
      assert t in w.threads && Publishes(w.threads[t], id) && Unpublished(w, id);
    }
    forall chat | chat in next.sh.intact ensures chat in next.sh.sessions && Exact(next, chat) {
      assert chat in w.sh.intact && Exact(w, chat);
      var s := w.sh.sessions[chat];
      var count := |Rows(w.sh.db, s.relayId)|;
      if s.relayId in w.sh.db.relays && s.itemCount != count {
        var u :| u in w.threads && Reports(w.threads[u], s.relayId, count);
        assert Reports(next.threads[u], s.relayId, count);
      }
    }
  }

  lemma {:induction false} RunCounts(cfg: Config, actions: seq<Action>)
    ensures CountInv(cfg, Run(cfg, actions))
  {
    hide WorldInv, Next, CountInv;
    if actions == [] {
      NoSessionsAtFirst(cfg);
    } else {
      var before, last := actions[..|actions| - 1], actions[|actions| - 1];
      var w := Run(cfg, before);
      RunCounts(cfg, before);
      RunKeeps(cfg, before);
      if last.Advance? && last.thread in w.threads {
        StepCounted(cfg, w, last.thread, last.choice, Run(cfg, actions));
      } else {
        OtherCounted(cfg, w, last, Run(cfg, actions));
      }
    }
  }

  lemma NoSessionsAtFirst(cfg: Config)
    ensures CountInv(cfg, Run(cfg, []))
  {
  }

  /**
   * The item count of a session never exceeds the number of items its batch has. It equals that number whenever no
   * append is between its insert and its merge, as long as the session has been there since its start and no merge
   * of an append has failed.
   */
  lemma SessionCountsItems(cfg: Config, actions: seq<Action>, chat: int)
    requires chat in Run(cfg, actions).sh.sessions && Run(cfg, actions).sh.sessions[chat].relayId in Run(cfg, actions).sh.db.relays
    ensures var w := Run(cfg, actions); var s := w.sh.sessions[chat];
      && s.itemCount <= |Listing(w.sh.db, s.relayId)|
      && (chat in w.sh.intact && (forall t, n | t in w.threads :: !Reports(w.threads[t], s.relayId, n)) ==>
            s.itemCount == |Listing(w.sh.db, s.relayId)|)
  {
    hide Run, HistoryInv, SealsInv, CodesInv, BatchesBounded, DeliveriesSealed;
    var w := Run(cfg, actions);
    RunKeeps(cfg, actions);
    RunCounts(cfg, actions);
    ListingIsInsertionOrder(w.sh.db, w.sh.sessions[chat].relayId);
    assert SessionOk(cfg, w.sh.db, chat, w.sh.sessions[chat]);
  }
}
