/**
 * internal/relay/service.go and internal/worker/runner.go as one transition system. Every handler is a program
 * whose steps are single store transactions or single cache commands; handlers and maintenance interleave freely.
 */
module Protocol {
  import opened RelayTypes
  import opened Store
  import opened StoreFacts
  import Paging
  import SessionMerge

  /** Limits and the two fixed functions of a deployment: the keyed hash and who sits in a private chat. */
  datatype Config = Config(
    hash: Hash,
    userOf: int -> int,        // the one user of a private chat
    codeOf: int -> string,     // the normalised code that a claim request carries
    defaultTtl: int,
    batchSessionTtl: int,
    unknownDeliveryAfter: int,
    expiredDeliveryPurge: int,
    maxActiveRelays: int,
    maxBatchItems: int)

  function CodeHash(cfg: Config, request: int): string {
    cfg.hash(cfg.codeOf(request))
  }

  /** What was fixed when a relay became ready. */
  datatype Seal = Seal(code: string, codeHash: Option<string>, expiresAt: Time, items: seq<RelayItem>, batch: bool)

  /** ClaimRelay handed a page to the sender. */
  datatype Send = Send(request: int, relayId: int, page: seq<RelayItem>)

  /**
   * What all handlers share. The last five components are history: the seals, the relay of the first delivery
   * row of each request, the sends of ClaimRelay, the relays that lost delivery rows to the purge, and the chats
   * whose session key has been present, with every append merged into it, since StartBatchUpload set it.
   */
  datatype Shared = Shared(
    db: Db,
    codes: map<string, int>,
    sessions: map<int, Session>,
    clock: Time,
    sealed: map<int, Seal>,
    claimed: map<int, int>,
    sends: seq<Send>,
    purged: set<int>,
    intact: set<int>)

  const INITIAL := Shared(EMPTY, map[], map[], 0, map[], map[], [], {}, {})

  // Where a handler stands, with the local variables it still needs. `now` is the clock it read on entry.

  datatype ClaimPc =
    | ClaimCache(request: int, now: Time)
    | ClaimById(request: int, now: Time, id: int)
    | ClaimByHash(request: int, now: Time)
    | ClaimWarm(request: int, now: Time, relay: Relay)
    | ClaimList(request: int, now: Time, relay: Relay)
    | ClaimInsert(request: int, now: Time, relay: Relay, items: seq<RelayItem>)
    | ClaimSend(request: int, now: Time, relay: Relay, items: seq<RelayItem>, delivery: int)
    | ClaimMark(request: int, now: Time, relay: Relay, delivery: int, outcome: DeliveryStatus)

  datatype CreatePc =
    | CreateCheck(now: Time, chat: int, upload: Upload)
    | CreateCount(now: Time, chat: int, upload: Upload)
    | CreateInsert(now: Time, chat: int, upload: Upload)
    | CreateWarm(now: Time, relay: Relay)

  datatype StartPc =
    | StartGet(now: Time, chat: int)
    | StartCheck(now: Time, chat: int, id: int)
    | StartDrop(now: Time, chat: int)
    | StartInsert(now: Time, chat: int)
    | StartSet(now: Time, chat: int, id: int)
    | StartUndo(id: int)

  datatype AppendPc =
    | AppendGet(now: Time, chat: int, upload: Upload)
    | AppendCheck(now: Time, upload: Upload, session: Session)
    | AppendInsert(now: Time, upload: Upload, session: Session)
    | AppendList(now: Time, session: Session)
    | AppendMerge(session: Session)

  datatype FinishPc =
    | FinishGet(now: Time, chat: int)
    | FinishCheck(now: Time, chat: int, session: Session)
    | FinishListReady(now: Time, chat: int, relay: Relay)
    | FinishList(now: Time, chat: int, id: int)
    | FinishCount(now: Time, chat: int, id: int)
    | FinishRecheck(now: Time, chat: int, id: int)
    | FinishSeal(now: Time, chat: int, id: int)
    | FinishWarm(now: Time, chat: int, relay: Relay)
    | FinishClear(chat: int, relay: Relay)

  datatype CancelPc =
    | CancelGet(chat: int)
    | CancelCheck(chat: int, session: Session)
    | CancelList(chat: int, id: int)
    | CancelDelete(chat: int, id: int)
    | CancelClear(chat: int)

  datatype ProgressPc =
    | ProgressGet(chat: int, id: int, message: int, at: Time, count: int)
    | ProgressMerge(session: Session)

  datatype WorkerPc =
    | SweepBatches(now: Time)
    | ExpireReady(now: Time)
    | TimeoutDeliveries(now: Time)
    | PurgeDeliveries(now: Time)

  datatype Pc =
    | Claiming(claim: ClaimPc)
    | Creating(create: CreatePc)
    | Starting(start: StartPc)
    | Appending(append: AppendPc)
    | Finishing(finish: FinishPc)
    | Canceling(cancel: CancelPc)
    | Reporting(progress: ProgressPc)
    | Maintaining(worker: WorkerPc)
    | DropSession(chat: int)     // the stale-session cleanup shared by append, finish and cancel
    | Finished(relay: Relay)     // FinishBatchUpload returned this relay
    | Refused(error: Error)      // the lookup of a claim returned this error
    | Done

  /**
   * What the environment decides in a step: whether the command fails (or a limiter or check refuses), which code
   * Generate draws, and how a send ends.
   */
  datatype Choice = Choice(fail: bool, code: string, outcome: DeliveryStatus)

  // ----- Effects -----

  function SealOf(db: Db, r: int): Seal
    requires r in db.relays
  {
    var row := db.relays[r];
    Seal(row.codeValue, row.codeHash, row.expiresAt, Rows(db, r), row.sourceUpdateId.None?)
  }

  /** A committed transaction; relays that are no longer collecting get their seal. */
  function Commit(sh: Shared, db: Db): Shared {
    sh.(db := db,
        sealed := map r | r in sh.sealed.Keys + db.relays.Keys && (r in sh.sealed || db.relays[r].status != Collecting)
                    :: if r in sh.sealed then sh.sealed[r] else SealOf(db, r))
  }

  /** SetRelayIDByCodeHash; a failure only leaves the cache as it was. */
  function Warm(sh: Shared, relay: Relay, now: Time, choice: Choice): Shared {
    if relay.expiresAt > now && !choice.fail && relay.codeHash.Some?
    then sh.(codes := sh.codes[relay.codeHash.value := relay.id]) else sh
  }

  /** DeleteBatchUploadSession, ignoring failures, and equally the expiry of the key. */
  function Forget(sh: Shared, chat: int): Shared {
    sh.(sessions := sh.sessions - {chat}, intact := sh.intact - {chat})
  }

  function SessionOf(sh: Shared, chat: int): Option<Session> {
    if chat in sh.sessions then Some(sh.sessions[chat]) else None
  }

  /** MergeBatchUploadSession, atomic as the WATCH loop makes it. */
  function Merge(cfg: Config, sh: Shared, session: Session): Shared {
    if cfg.batchSessionTtl <= 0 then sh
    else
      var chat := session.uploaderChatId;
      sh.(sessions := sh.sessions[chat := SessionMerge.MergeResult(SessionOf(sh, chat), session)])
  }

  /** Generate never repeats a code: its hash differs from that of every relay ever made ready. */
  predicate Fresh(cfg: Config, sh: Shared, code: string) {
    forall r :: r in sh.sealed ==> sh.sealed[r].codeHash != Some(cfg.hash(code))
  }

  /** The last checks of lookupRelay, made on the row it found either way. */
  function Verdict(relay: Relay, now: Time): Result<Relay> {
    if relay.status == Expired || relay.expiresAt <= now then Err(RelayExpired)
    else if relay.status != Ready then Err(RelayNotFound)
    else Ok(relay)
  }

  // ----- The handlers -----

  ghost function ClaimStep(cfg: Config, sh: Shared, pc: ClaimPc, choice: Choice): (Shared, Pc) {
    match pc
    case ClaimCache(request, now) =>
      var h := CodeHash(cfg, request);
      if choice.fail || h !in sh.codes then (sh, Claiming(ClaimByHash(request, now))) else (sh, Claiming(ClaimById(request, now, sh.codes[h])))
    case ClaimById(request, now, id) =>
      if choice.fail then (sh, Done)
      else if RelayById(sh.db, id).Err? then (sh, Claiming(ClaimByHash(request, now)))
      else
        var found := Verdict(RelayById(sh.db, id).value, now);
        if found.Err? then (sh, Refused(found.error)) else (sh, Claiming(ClaimList(request, now, found.value)))
    case ClaimByHash(request, now) =>
      if choice.fail then (sh, Done)
      else
        var row := RelayByHash(sh.db, CodeHash(cfg, request), now);
        if row.Err? then (sh, Refused(row.error))
        else
          var found := Verdict(row.value, now);
          if found.Err? then (sh, Refused(found.error)) else (sh, Claiming(ClaimWarm(request, now, found.value)))
    case ClaimWarm(request, now, relay) => (Warm(sh, relay, now, choice), Claiming(ClaimList(request, now, relay)))
    case ClaimList(request, now, relay) =>
      var items := Listing(sh.db, relay.id);
      if choice.fail || items == [] || Paging.Fragmented(items) then (sh, Done)
      else (sh, Claiming(ClaimInsert(request, now, relay, items)))
    case ClaimInsert(request, now, relay, items) =>
      var (db, r) := CreateDeliveryTx(sh.db, relay.id, request, now);
      if choice.fail || r.Err? then (sh, Done)
      else
        (Commit(sh, db).(claimed := if request in sh.claimed then sh.claimed else sh.claimed[request := relay.id]),
         Claiming(ClaimSend(request, now, relay, items, r.value.id)))
    case ClaimSend(request, now, relay, items, delivery) =>
      (sh.(sends := sh.sends + [Send(request, relay.id, FirstPage(items))]),
       Claiming(ClaimMark(request, now, relay, delivery, if choice.outcome == Pending then Unknown else choice.outcome)))
    case ClaimMark(request, now, relay, delivery, outcome) =>
      if choice.fail then (sh, Done)
      else if outcome == Sent then (Commit(sh, MarkSentTx(sh.db, delivery, relay.id, now)), Done)
      else (Commit(sh, MarkTx(sh.db, delivery, outcome, now)), Done)
  }

  function FirstPage(items: seq<RelayItem>): seq<RelayItem> {
    if Paging.Pages(items) == [] then [] else Paging.Pages(items)[0]
  }

  ghost function CreateStep(cfg: Config, sh: Shared, pc: CreatePc, choice: Choice): (Shared, Pc) {
    match pc
    case CreateCheck(now, chat, upload) =>
      if choice.fail || RelayByUpdate(sh.db, upload.sourceUpdateId).Ok? then (sh, Done)
      else (sh, Creating(CreateCount(now, chat, upload)))
    case CreateCount(now, chat, upload) =>
      if choice.fail || |ActiveRelays(sh.db, cfg.userOf(chat), now)| >= cfg.maxActiveRelays then (sh, Done)
      else (sh, Creating(CreateInsert(now, chat, upload)))
    case CreateInsert(now, chat, upload) =>
      if choice.fail then (sh, Done)
      else if !Fresh(cfg, sh, choice.code) then (sh, Creating(pc))
      else
        var (db, r) := CreateRelayTx(sh.db, upload, choice.code, cfg.hash(choice.code), cfg.userOf(chat), chat, now + cfg.defaultTtl, now);
        if r.Err? then (sh, Done) else (Commit(sh, db), Creating(CreateWarm(now, r.value)))
    case CreateWarm(now, relay) => (Warm(sh, relay, now, choice), Done)
  }

  function NewSession(cfg: Config, id: int, chat: int, now: Time): Session {
    Session(id, cfg.userOf(chat), chat, 0, 0, 0, 0, now, now)
  }

  ghost function StartStep(cfg: Config, sh: Shared, pc: StartPc, choice: Choice): (Shared, Pc) {
    match pc
    case StartGet(now, chat) =>
      if choice.fail then (sh, Done)
      else if chat in sh.sessions then (sh, Starting(StartCheck(now, chat, sh.sessions[chat].relayId)))
      else (sh, Starting(StartInsert(now, chat)))
    case StartCheck(now, chat, id) =>
      if choice.fail then (sh, Done)
      else if RelayById(sh.db, id).Ok? && RelayById(sh.db, id).value.status == Collecting then (sh, Done)
      else (sh, Starting(StartDrop(now, chat)))
    case StartDrop(now, chat) => (if choice.fail then sh else Forget(sh, chat), Starting(StartInsert(now, chat)))
    case StartInsert(now, chat) =>
      if choice.fail then (sh, Done)
      else
        var (db, row) := CreateBatchTx(sh.db, cfg.userOf(chat), chat, now);
        (Commit(sh, db), Starting(StartSet(now, chat, row.id)))
    case StartSet(now, chat, id) =>
      if choice.fail then (sh, Starting(StartUndo(id)))
      else if cfg.batchSessionTtl <= 0 then (sh, Done)
      else (sh.(sessions := sh.sessions[chat := NewSession(cfg, id, chat, now)], intact := sh.intact + {chat}), Done)
    case StartUndo(id) => (if choice.fail then sh else Commit(sh, DeleteRelaysTx(sh.db, {id})), Done)
  }

  ghost function AppendStep(cfg: Config, sh: Shared, pc: AppendPc, choice: Choice): (Shared, Pc) {
    match pc
    case AppendGet(now, chat, upload) =>
      if choice.fail || chat !in sh.sessions then (sh, Done) else (sh, Appending(AppendCheck(now, upload, sh.sessions[chat])))
    case AppendCheck(now, upload, session) =>
      if choice.fail then (sh, Done)
      else if RelayById(sh.db, session.relayId).Ok? && RelayById(sh.db, session.relayId).value.status == Collecting
      then (sh, Appending(AppendInsert(now, upload, session)))
      else (sh, DropSession(session.uploaderChatId))
    case AppendInsert(now, upload, session) =>
      var (db, r) := AddItemTx(sh.db, session.relayId, upload, 0, cfg.maxBatchItems, now, false);
      if choice.fail || r.Err? then (sh, Done)
      else if r.value.1 then (Commit(sh, db), Appending(AppendMerge(session.(itemCount := r.value.0.itemOrder, lastActivityAt := now))))
      else (sh, Appending(AppendList(now, session)))
    case AppendList(now, session) =>
      if choice.fail then (sh, Done)
      else (sh, Appending(AppendMerge(session.(itemCount := |Listing(sh.db, session.relayId)|, lastActivityAt := now))))
    case AppendMerge(session) =>
      if choice.fail then (sh.(intact := sh.intact - {session.uploaderChatId}), Done) else (Merge(cfg, sh, session), Done)
  }

  ghost function FinishStep(cfg: Config, sh: Shared, pc: FinishPc, choice: Choice): (Shared, Pc) {
    match pc
    case FinishGet(now, chat) =>
      if choice.fail || chat !in sh.sessions then (sh, Done) else (sh, Finishing(FinishCheck(now, chat, sh.sessions[chat])))
    case FinishCheck(now, chat, session) =>
      if choice.fail then (sh, Done)
      else if RelayById(sh.db, session.relayId).Err? then (sh, DropSession(chat))
      else
        var batch := RelayById(sh.db, session.relayId).value;
        if batch.status == Ready then (sh, Finishing(FinishListReady(now, chat, batch)))
        else if batch.status != Collecting then (sh, DropSession(chat))
        else (sh, Finishing(FinishList(now, chat, batch.id)))
    case FinishListReady(now, chat, relay) => if choice.fail then (sh, Done) else (sh, Finishing(FinishWarm(now, chat, relay)))
    case FinishList(now, chat, id) =>
      if choice.fail || Listing(sh.db, id) == [] then (sh, Done) else (sh, Finishing(FinishCount(now, chat, id)))
    case FinishCount(now, chat, id) =>
      if choice.fail then (sh, Done)
      else if |ActiveRelays(sh.db, cfg.userOf(chat), now)| >= cfg.maxActiveRelays then (sh, Finishing(FinishRecheck(now, chat, id)))
      else (sh, Finishing(FinishSeal(now, chat, id)))
    case FinishRecheck(now, chat, id) =>
      if !choice.fail && RelayById(sh.db, id).Ok? && RelayById(sh.db, id).value.status == Ready
      then (sh, Finishing(FinishWarm(now, chat, RelayById(sh.db, id).value))) else (sh, Done)
    case FinishSeal(now, chat, id) =>
      if choice.fail then (sh, Done)
      else if !Fresh(cfg, sh, choice.code) then (sh, Finishing(pc))
      else
        var (db, r) := FinalizeTx(sh.db, id, choice.code, cfg.hash(choice.code), now + cfg.defaultTtl, now);
        if r.Err? then (sh, Done) else (Commit(sh, db), Finishing(FinishWarm(now, chat, r.value)))
    case FinishWarm(now, chat, relay) => (Warm(sh, relay, now, choice), Finishing(FinishClear(chat, relay)))
    case FinishClear(chat, relay) => (if choice.fail then sh else Forget(sh, chat), Finished(relay))
  }

  ghost function CancelStep(cfg: Config, sh: Shared, pc: CancelPc, choice: Choice): (Shared, Pc) {
    match pc
    case CancelGet(chat) =>
      if choice.fail || chat !in sh.sessions then (sh, Done) else (sh, Canceling(CancelCheck(chat, sh.sessions[chat])))
    case CancelCheck(chat, session) =>
      if choice.fail then (sh, Done)
      else if RelayById(sh.db, session.relayId).Ok? && RelayById(sh.db, session.relayId).value.status == Collecting
      then (sh, Canceling(CancelList(chat, session.relayId)))
      else (sh, DropSession(chat))
    case CancelList(chat, id) => if choice.fail then (sh, Done) else (sh, Canceling(CancelDelete(chat, id)))
    // deletes by id alone: the batch may have become ready since it was checked
    case CancelDelete(chat, id) => if choice.fail then (sh, Done) else (Commit(sh, DeleteRelaysTx(sh.db, {id})), Canceling(CancelClear(chat)))
    case CancelClear(chat) => (if choice.fail then sh else Forget(sh, chat), Done)
  }

  ghost function ProgressStep(cfg: Config, sh: Shared, pc: ProgressPc, choice: Choice): (Shared, Pc) {
    match pc
    case ProgressGet(chat, id, message, at, count) =>
      if choice.fail || chat !in sh.sessions then (sh, Done)
      else if id != 0 && sh.sessions[chat].relayId != id then (sh, Done)
      else
        var session := sh.sessions[chat];
        (sh, Reporting(ProgressMerge(session.(
          progressMessageId := if message > 0 then message else session.progressMessageId,
          lastProgressNotifiedAt := if at != 0 then at else session.lastProgressNotifiedAt,
          lastProgressNotifiedCount := if count > 0 then count else session.lastProgressNotifiedCount,
          lastActivityAt := sh.clock))))
    case ProgressMerge(session) => (if choice.fail then sh else Merge(cfg, sh, session), Done)
  }

  /** The relays that lose delivery rows to a purge. */
  function Losers(db: Db, before: Time): set<int> {
    set d | d in db.deliveries && Purgeable(db, d, before) :: db.deliveries[d].relayId
  }

  /** runOnce: four tasks in a row, each going on whether or not the one before failed. */
  ghost function WorkerStep(cfg: Config, sh: Shared, pc: WorkerPc, choice: Choice): (Shared, Pc) {
    match pc
    case SweepBatches(now) =>
      (if choice.fail then sh else Commit(sh, DeleteRelaysTx(sh.db, StaleBatches(sh.db, now - cfg.batchSessionTtl))), Maintaining(ExpireReady(now)))
    case ExpireReady(now) => (if choice.fail then sh else Commit(sh, ExpireTx(sh.db, now)), Maintaining(TimeoutDeliveries(now)))
    case TimeoutDeliveries(now) =>
      (if choice.fail then sh else Commit(sh, TimeoutTx(sh.db, now - cfg.unknownDeliveryAfter)), Maintaining(PurgeDeliveries(now)))
    case PurgeDeliveries(now) =>
      var before := now - cfg.expiredDeliveryPurge;
      (if choice.fail then sh else Commit(sh, PurgeTx(sh.db, before)).(purged := sh.purged + Losers(sh.db, before)), Done)
  }

  ghost function StepPc(cfg: Config, sh: Shared, pc: Pc, choice: Choice): (Shared, Pc) {
    match pc
    case Claiming(p) => ClaimStep(cfg, sh, p, choice)
    case Creating(p) => CreateStep(cfg, sh, p, choice)
    case Starting(p) => StartStep(cfg, sh, p, choice)
    case Appending(p) => AppendStep(cfg, sh, p, choice)
    case Finishing(p) => FinishStep(cfg, sh, p, choice)
    case Canceling(p) => CancelStep(cfg, sh, p, choice)
    case Reporting(p) => ProgressStep(cfg, sh, p, choice)
    case Maintaining(p) => WorkerStep(cfg, sh, p, choice)
    case DropSession(chat) => (if choice.fail then sh else Forget(sh, chat), Done)
    case Finished(_) => (sh, pc)
    case Refused(_) => (sh, pc)
    case Done => (sh, pc)
  }

  // ----- Whole runs -----

  /** What a new handler is asked to do. */
  datatype Request =
    | Claim(request: int)
    | Create(chat: int, upload: Upload)
    | Start(chat: int)
    | Append(chat: int, upload: Upload)
    | Finish(chat: int)
    | Cancel(chat: int)
    | Progress(chat: int, id: int, message: int, at: Time, count: int)
    | Maintain

  function Entry(sh: Shared, request: Request): Pc {
    match request
    case Claim(r) => Claiming(ClaimCache(r, sh.clock))
    case Create(chat, upload) =>
      Creating(if upload.sourceUpdateId != 0 then CreateCheck(sh.clock, chat, upload) else CreateCount(sh.clock, chat, upload))
    case Start(chat) => Starting(StartGet(sh.clock, chat))
    case Append(chat, upload) => Appending(AppendGet(sh.clock, chat, upload))
    case Finish(chat) => Finishing(FinishGet(sh.clock, chat))
    case Cancel(chat) => Canceling(CancelGet(chat))
    case Progress(chat, id, message, at, count) => Reporting(ProgressGet(chat, id, message, at, count))
    case Maintain => Maintaining(SweepBatches(sh.clock))
  }

  datatype World = World(sh: Shared, threads: map<int, Pc>)

  datatype Action =
    | Spawn(thread: int, request: Request)
    | Advance(thread: int, choice: Choice)
    | Tick(to: Time)
    | EvictCode(codeHash: string)      // the cache loses or expires an entry
    | ExpireSession(chat: int)

  ghost function Next(cfg: Config, w: World, action: Action): World {
    match action
    case Spawn(t, request) => if t in w.threads then w else w.(threads := w.threads[t := Entry(w.sh, request)])
    case Advance(t, choice) =>
      if t !in w.threads then w
      else
        var (sh, pc) := StepPc(cfg, w.sh, w.threads[t], choice);
        World(sh, w.threads[t := pc])
    case Tick(to) => if to < w.sh.clock then w else w.(sh := w.sh.(clock := to))
    case EvictCode(h) => w.(sh := w.sh.(codes := w.sh.codes - {h}))
    case ExpireSession(chat) => w.(sh := Forget(w.sh, chat))
  }

  /** The state after a run: any finite sequence of actions from the empty system. */
  ghost function Run(cfg: Config, actions: seq<Action>): World {
    if actions == [] then World(INITIAL, map[])
    else Next(cfg, Run(cfg, actions[..|actions| - 1]), actions[|actions| - 1])
  }
}
