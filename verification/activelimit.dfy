/**
 * The limit on an uploader's active relays. Counting and inserting are separate steps, so handlers that have
 * counted but not yet inserted can overshoot it; this is by how much.
 */
module ActiveLimit {
  import opened RelayTypes
  import opened Store
  import opened StoreFacts
  import opened Protocol
  import opened Invariants
  import opened Steps
  import opened Runs
  import opened Deliveries

  /** A create or finish handler of user `u` that has counted and has not yet inserted. */
  predicate Counted(cfg: Config, pc: Pc, u: int) {
    || (pc.Creating? && pc.create.CreateInsert? && cfg.userOf(pc.create.chat) == u)
    || (pc.Finishing? && pc.finish.FinishSeal? && cfg.userOf(pc.finish.chat) == u)
  }

  function Inflight(cfg: Config, w: World, u: int): set<int> {
    set t | t in w.threads && Counted(cfg, w.threads[t], u)
  }

  function Active(w: World, u: int): set<int> {
    ActiveRelays(w.sh.db, u, w.sh.clock)
  }

  /** Never more than `k` handlers of `u` between count and insert. */
  ghost predicate InflightBounded(cfg: Config, actions: seq<Action>, u: int, k: int) {
    forall i :: 0 <= i <= |actions| ==> |Inflight(cfg, Run(cfg, actions[..i]), u)| <= k
  }

  // ----- What becomes ready -----

  predicate Inserting(pc: Pc) {
    (pc.Creating? && pc.create.CreateInsert?) || (pc.Finishing? && pc.finish.FinishSeal?)
  }

  /** The one relay that an inserting step can make ready. */
  function Candidate(sh: Shared, pc: Pc): int
    requires Inserting(pc)
  {
    if pc.Creating? then sh.db.nextRelay else pc.finish.id
  }

  ghost predicate ReadyBefore(db: Db, next: Db, except: set<int>) {
    forall r :: r in next.relays && next.relays[r].status == Ready && r !in except ==> r in db.relays && db.relays[r].status == Ready
  }

  lemma ReadyFacts(db: Db, upload: Upload, ids: set<int>, d: int, id: int, most: int, user: int, chat: int, now: Time, before: Time)
    ensures ReadyBefore(db, db, {})
    ensures ReadyBefore(db, AddItemTx(db, id, upload, 0, most, now, false).0, {})
    ensures ReadyBefore(db, CreateBatchTx(db, user, chat, now).0, {})
    ensures ReadyBefore(db, DeleteRelaysTx(db, ids), {}) && ReadyBefore(db, ExpireTx(db, now), {})
    ensures ReadyBefore(db, TimeoutTx(db, before), {}) && ReadyBefore(db, PurgeTx(db, before), {})
  {
  }

  lemma ReadyFactsOfClaims(db: Db, d: int, id: int, request: int, status: DeliveryStatus, now: Time)
    ensures ReadyBefore(db, CreateDeliveryTx(db, id, request, now).0, {})
    ensures ReadyBefore(db, MarkTx(db, d, status, now), {}) && ReadyBefore(db, MarkSentTx(db, d, id, now), {})
  {
  }

  lemma ClaimReady(cfg: Config, sh: Shared, pc: ClaimPc, choice: Choice, next: Shared, to: Pc)
    requires ClaimStep(cfg, sh, pc, choice) == (next, to)
    ensures ReadyBefore(sh.db, next.db, {})
  {
    hide CreateDeliveryTx, MarkTx, MarkSentTx, Listing, RelayByHash, FirstPage;
    if pc.ClaimInsert? {
      ReadyFactsOfClaims(sh.db, 0, pc.relay.id, pc.request, Sent, pc.now);
    } else if pc.ClaimMark? {
      ReadyFactsOfClaims(sh.db, pc.delivery, pc.relay.id, 0, pc.outcome, pc.now);
    }
  }

  lemma WorkerReady(cfg: Config, sh: Shared, pc: WorkerPc, choice: Choice, next: Shared, to: Pc)
    requires WorkerStep(cfg, sh, pc, choice) == (next, to)
    ensures ReadyBefore(sh.db, next.db, {})
  {
    hide DeleteRelaysTx, ExpireTx, TimeoutTx, PurgeTx, Losers, StaleBatches, AddItemTx, CreateBatchTx;
    var none := Upload(0, "", Document, "");
    ReadyFacts(sh.db, none, StaleBatches(sh.db, pc.now - cfg.batchSessionTtl), 0, 0, 0, 0, 0, pc.now, pc.now - cfg.unknownDeliveryAfter);
    ReadyFacts(sh.db, none, {}, 0, 0, 0, 0, 0, pc.now, pc.now - cfg.expiredDeliveryPurge);
  }

  lemma QuietReady(cfg: Config, sh: Shared, pc: Pc, choice: Choice, next: Shared, to: Pc)
    requires StepPc(cfg, sh, pc, choice) == (next, to) && !Inserting(pc)
    ensures ReadyBefore(sh.db, next.db, {})
  {
    hide AddItemTx, CreateRelayTx, CreateBatchTx, FinalizeTx, DeleteRelaysTx, ReadyBefore, ClaimStep, WorkerStep, Listing, RelayByUpdate, ActiveRelays, Fresh;
    var db, none := sh.db, Upload(0, "", Document, "");
    ReadyFacts(db, none, {}, 0, 0, 0, 0, 0, 0, 0);
    match pc
    case Claiming(p) => ClaimReady(cfg, sh, p, choice, next, to);
    case Maintaining(p) => WorkerReady(cfg, sh, p, choice, next, to);
    case Starting(p) =>
      if p.StartInsert? {
        ReadyFacts(db, none, {}, 0, 0, 0, cfg.userOf(p.chat), p.chat, p.now, 0);
      } else if p.StartUndo? {
        ReadyFacts(db, none, {p.id}, 0, 0, 0, 0, 0, 0, 0);
      }
    case Appending(p) => if p.AppendInsert? { ReadyFacts(db, p.upload, {}, 0, p.session.relayId, cfg.maxBatchItems, 0, 0, p.now, 0); }
    case Canceling(p) => if p.CancelDelete? { ReadyFacts(db, none, {p.id}, 0, 0, 0, 0, 0, 0, 0); }
    case _ =>
  }

  lemma CreateReady(cfg: Config, sh: Shared, pc: CreatePc, choice: Choice, next: Shared, to: Pc)
    requires pc.CreateInsert? && CreateStep(cfg, sh, pc, choice) == (next, to)
    ensures ReadyBefore(sh.db, next.db, {sh.db.nextRelay}) && (to == Creating(pc) ==> next == sh) && !to.Finishing?
    ensures to == Creating(pc) || !(to.Creating? && to.create.CreateInsert?)
  {
    hide Fresh, HasRelayFor, HashTaken, ItemFor, OrderTaken, MaxOrder;
  }

  lemma FinishReady(cfg: Config, sh: Shared, pc: FinishPc, choice: Choice, next: Shared, to: Pc)
    requires pc.FinishSeal? && FinishStep(cfg, sh, pc, choice) == (next, to)
    ensures ReadyBefore(sh.db, next.db, {pc.id}) && (to == Finishing(pc) ==> next == sh) && !to.Creating?
    ensures to == Finishing(pc) || !(to.Finishing? && to.finish.FinishSeal?)
  {
    hide Fresh, HashTaken;
  }

  lemma InsertReady(cfg: Config, sh: Shared, pc: Pc, choice: Choice, next: Shared, to: Pc)
    requires StepPc(cfg, sh, pc, choice) == (next, to) && Inserting(pc)
    ensures ReadyBefore(sh.db, next.db, {Candidate(sh, pc)})
    ensures forall u :: Counted(cfg, to, u) ==> Counted(cfg, pc, u) && next == sh
  {
    hide ClaimStep, CreateStep, StartStep, AppendStep, FinishStep, CancelStep, ProgressStep, WorkerStep, ReadyBefore;
    if pc.Creating? {
      CreateReady(cfg, sh, pc.create, choice, next, to);
    } else {
      FinishReady(cfg, sh, pc.finish, choice, next, to);
    }
  }

  lemma CandidateOwner(cfg: Config, sh: Shared, pc: Pc, choice: Choice, next: Shared, to: Pc)
    requires SharedInv(cfg, sh) && PcOk(cfg, sh, pc) && StepPc(cfg, sh, pc, choice) == (next, to) && Inserting(pc)
    ensures var x := Candidate(sh, pc); x in next.db.relays ==> Counted(cfg, pc, next.db.relays[x].uploaderUserId)
  {
    hide Fresh, SealsInv, CodesInv, SessionsInv, BatchesBounded, DeliveriesSealed, HashesUnique, UpdatesUnique, DeliveryRows, RequestsUnique,
      StartStep, AppendStep, ClaimStep, CancelStep, ProgressStep, WorkerStep;
    if pc.Finishing? {
      assert BatchOf(cfg, sh, pc.finish.chat, pc.finish.id);
    }
  }

  // ----- Active relays -----

  lemma ActiveWithin(sh: Shared, next: Shared, u: int, except: set<int>)
    requires SharedEvolves(sh, next) && ReadyBefore(sh.db, next.db, except)
    requires forall r :: r in sh.db.relays ==> r < sh.db.nextRelay
    ensures ActiveRelays(next.db, u, next.clock) <= ActiveRelays(sh.db, u, sh.clock) + except
  {
    forall r | r in ActiveRelays(next.db, u, next.clock) && r !in except ensures r in ActiveRelays(sh.db, u, sh.clock) {
      assert r in next.db.relays && r in sh.db.relays;
    }
  }

  /** A handler that starts to count as in flight has just seen fewer active relays than the limit. */
  lemma EntersBelowLimit(cfg: Config, sh: Shared, pc: Pc, choice: Choice, next: Shared, to: Pc, u: int)
    requires PcOk(cfg, sh, pc) && StepPc(cfg, sh, pc, choice) == (next, to) && Counted(cfg, to, u) && !Counted(cfg, pc, u)
    ensures |ActiveRelays(sh.db, u, sh.clock)| < cfg.maxActiveRelays && next == sh
  {
    hide Fresh, SharedInv, ActiveRelays, FinalizeTx, CreateRelayTx, CreateBatchTx, AddItemTx, CreateDeliveryTx, MarkTx, MarkSentTx, DeleteRelaysTx, Commit, Warm, Forget, Merge, Listing;
    if pc.Creating? {
      ActiveLater(sh.db, u, pc.create.now, sh.clock);
    } else if pc.Finishing? && pc.finish.FinishCount? {
      ActiveLater(sh.db, u, pc.finish.now, sh.clock);
    }
  }

  lemma InflightStep(cfg: Config, w: World, t: int, to: Pc, next: World, u: int)
    requires t in w.threads && next.threads == w.threads[t := to]
    ensures |Inflight(cfg, next, u)| ==
      |Inflight(cfg, w, u)| + (if Counted(cfg, to, u) then 1 else 0) - (if Counted(cfg, w.threads[t], u) then 1 else 0)
  {
    hide Counted;
    OneChanged(Inflight(cfg, w, u), Inflight(cfg, next, u), t);
  }

  ghost predicate Room(cfg: Config, w: World, u: int, k: int) {
    |Active(w, u)| + |Inflight(cfg, w, u)| <= cfg.maxActiveRelays - 1 + k
  }

  lemma StepRoom(cfg: Config, w: World, t: int, choice: Choice, next: World, u: int, k: int)
    requires WorldInv(cfg, w) && Room(cfg, w, u, k) && t in w.threads && next == Next(cfg, w, Advance(t, choice))
    requires |Inflight(cfg, next, u)| <= k
    ensures Room(cfg, next, u, k)
  {
    hide SharedInv, SharedEvolves, StepPc, PcOk, ActiveRelays, Inflight, Counted, Inserting, Candidate;
    var pc, to := w.threads[t], next.threads[t];
    StepKeeps(cfg, w.sh, pc, choice, next.sh, to);
    InflightStep(cfg, w, t, to, next, u);
    RelaysBelow(cfg, w.sh);
    if Counted(cfg, to, u) && !Counted(cfg, pc, u) {
      EntersBelowLimit(cfg, w.sh, pc, choice, next.sh, to, u);
    } else if Inserting(pc) {
      InsertRoom(cfg, w, t, choice, next, u);
    } else {
      QuietReady(cfg, w.sh, pc, choice, next.sh, to);
      ActiveWithin(w.sh, next.sh, u, {});
      SubsetSize(Active(next, u), Active(w, u));
    }
  }

  /** An inserting step adds at most one active relay, and only to its own user, who then has one handler less in flight. */
  lemma InsertRoom(cfg: Config, w: World, t: int, choice: Choice, next: World, u: int)
    requires WorldInv(cfg, w) && t in w.threads && Inserting(w.threads[t]) && next == Next(cfg, w, Advance(t, choice))
    ensures Counted(cfg, next.threads[t], u) ==> next.sh == w.sh
    ensures |Active(next, u)| <= |Active(w, u)| + (if Counted(cfg, w.threads[t], u) then 1 else 0)
  {
    hide SharedInv, SharedEvolves, StepPc, PcOk, Inserting, Candidate, Counted;
    var pc, to := w.threads[t], next.threads[t];
    var x := Candidate(w.sh, pc);
    StepKeeps(cfg, w.sh, pc, choice, next.sh, to);
    RelaysBelow(cfg, w.sh);
    InsertReady(cfg, w.sh, pc, choice, next.sh, to);
    CandidateOwner(cfg, w.sh, pc, choice, next.sh, to);
    ActiveWithin(w.sh, next.sh, u, {x});
    SubsetSize(Active(next, u), Active(w, u) + {x});
    if x in Active(next, u) {
      assert Counted(cfg, pc, u);
    } else {
      SubsetSize(Active(next, u), Active(w, u));
    }
  }

  lemma RelaysBelow(cfg: Config, sh: Shared)
    requires SharedInv(cfg, sh)
    ensures forall r :: r in sh.db.relays ==> r < sh.db.nextRelay
  {
  }

  lemma NextRoom(cfg: Config, w: World, action: Action, next: World, u: int, k: int)
    requires WorldInv(cfg, w) && Room(cfg, w, u, k) && next == Next(cfg, w, action) && |Inflight(cfg, next, u)| <= k
    ensures Room(cfg, next, u, k)
  {
    hide WorldInv, StepPc;
    match action
    case Spawn(t, request) => assert Inflight(cfg, next, u) == Inflight(cfg, w, u);
    case Advance(t, choice) => if t in w.threads { StepRoom(cfg, w, t, choice, next, u, k); }
    case Tick(to) =>
      assert Active(next, u) <= Active(w, u);
      SubsetSize(Active(next, u), Active(w, u));
      assert Inflight(cfg, next, u) == Inflight(cfg, w, u);
    case _ => assert Inflight(cfg, next, u) == Inflight(cfg, w, u);
  }

  /**
   * With at most `k` handlers of one uploader between count and insert at any time, the uploader never has more
   * than MaxActiveRelays + k - 1 active relays; one at a time keeps the limit exactly.
   */
  lemma {:induction false} ActiveRelaysBounded(cfg: Config, actions: seq<Action>, u: int, k: int)
    requires k >= 1 && cfg.maxActiveRelays >= 0 && InflightBounded(cfg, actions, u, k)
    ensures |ActiveRelays(Run(cfg, actions).sh.db, u, Run(cfg, actions).sh.clock)| <= cfg.maxActiveRelays + k - 1
  {
    RoomAlways(cfg, actions, u, k);
  }

  lemma {:induction false} RoomAlways(cfg: Config, actions: seq<Action>, u: int, k: int)
    requires k >= 1 && cfg.maxActiveRelays >= 0 && InflightBounded(cfg, actions, u, k)
    ensures Room(cfg, Run(cfg, actions), u, k)
  {
    hide WorldInv, Next, Inflight, Active;
    if actions == [] {
      NothingAtFirst(cfg, u);
    } else {
      var before, last := actions[..|actions| - 1], actions[|actions| - 1];
      assert forall i :: 0 <= i <= |before| ==> before[..i] == actions[..i];
      RoomAlways(cfg, before, u, k);
      RunKeeps(cfg, before);
      assert actions[..|actions|] == actions;
      NextRoom(cfg, Run(cfg, before), last, Run(cfg, actions), u, k);
    }
  }

  lemma NothingAtFirst(cfg: Config, u: int)
    ensures Active(Run(cfg, []), u) == {} && Inflight(cfg, Run(cfg, []), u) == {}
  {
  }
}
