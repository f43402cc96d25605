/**
 * The handlers of internal/relay/service.go and the cycle of internal/worker/runner.go as straight-line code on the
 * store and the cache. Each is proved to do, when it runs alone, exactly what its program in Protocol does step by
 * step; Protocol then lets those programs interleave.
 */
module Service {
  import opened RelayTypes
  import opened Store
  import opened StoreFacts
  import opened Protocol
  import opened Invariants
  import opened Steps
  import opened Runs
  import Lookup
  import Navigation
  import Paging
  import SessionMerge

  // ----- A handler running alone -----

  ghost function Solo(cfg: Config, sh: Shared, pc: Pc, choices: seq<Choice>): (Shared, Pc) {
    if choices == [] then (sh, pc)
    else
      var before := Solo(cfg, sh, pc, choices[..|choices| - 1]);
      StepPc(cfg, before.0, before.1, choices[|choices| - 1])
  }

  lemma SoloSnoc(cfg: Config, sh: Shared, pc: Pc, choices: seq<Choice>, choice: Choice)
    ensures var before := Solo(cfg, sh, pc, choices); Solo(cfg, sh, pc, choices + [choice]) == StepPc(cfg, before.0, before.1, choice)
  {
    hide StepPc;
    assert (choices + [choice])[..|choices|] == choices;
  }

  lemma {:induction false} SoloKeeps(cfg: Config, sh: Shared, pc: Pc, choices: seq<Choice>)
    requires SharedInv(cfg, sh) && HistoryInv(cfg, sh) && PcOk(cfg, sh, pc)
    ensures var (next, to) := Solo(cfg, sh, pc, choices); SharedInv(cfg, next) && HistoryInv(cfg, next) && PcOk(cfg, next, to) && SharedEvolves(sh, next)
  {
    hide StepPc, SharedInv, HistoryInv, PcOk, Evolves, DeliveriesKept;
    if choices == [] {
      SharedEvolvesReflexive(sh);
    } else {
      var before := Solo(cfg, sh, pc, choices[..|choices| - 1]);
      var (next, to) := Solo(cfg, sh, pc, choices);
      SoloKeeps(cfg, sh, pc, choices[..|choices| - 1]);
      StepKeeps(cfg, before.0, before.1, choices[|choices| - 1], next, to);
      DeliveriesBelow(cfg, sh);
      SharedEvolvesTransitive(sh, before.0, next);
    }
  }

  function Advances(t: int, choices: seq<Choice>): seq<Action> {
    seq(|choices|, i requires 0 <= i < |choices| => Advance(t, choices[i]))
  }

  /** A handler running alone is a run of the whole system in which only its thread advances. */
  lemma {:induction false} SoloIsRun(cfg: Config, actions: seq<Action>, t: int, choices: seq<Choice>)
    requires t in Run(cfg, actions).threads
    ensures var w := Run(cfg, actions); var (next, to) := Solo(cfg, w.sh, w.threads[t], choices);
      Run(cfg, actions + Advances(t, choices)) == World(next, w.threads[t := to])
  {
    hide StepPc;
    if choices == [] {
      assert actions + Advances(t, choices) == actions;
      assert Run(cfg, actions).threads == Run(cfg, actions).threads[t := Run(cfg, actions).threads[t]];
    } else {
      var front, last := choices[..|choices| - 1], choices[|choices| - 1];
      SoloIsRun(cfg, actions, t, front);
      assert actions + Advances(t, choices) == (actions + Advances(t, front)) + [Advance(t, last)];
      RunSnoc(cfg, actions + Advances(t, front), Advance(t, last));
      var w := Run(cfg, actions);
      var (middle, at) := Solo(cfg, w.sh, w.threads[t], front);
      var (next, to) := Solo(cfg, w.sh, w.threads[t], choices);
      assert w.threads[t := at][t := to] == w.threads[t := to];
    }
  }

  // ----- What the invariant means to a handler -----

  lemma CachedIsPlain(cfg: Config, sh: Shared, codeHash: string, now: Time)
    requires SharedInv(cfg, sh) && codeHash in sh.codes && sh.codes[codeHash] in sh.db.relays
    ensures Verdict(sh.db.relays[sh.codes[codeHash]], now) == Lookup.PlainLookup(sh.db, codeHash, now)
  {
    Lookup.CachedAnswerIsPlain(cfg, sh, codeHash, sh.codes[codeHash], now);
  }

  lemma KeysHold(cfg: Config, sh: Shared)
    requires SharedInv(cfg, sh)
    ensures Integrity(sh.db, cfg.hash) && HashesUnique(sh.db) && UpdatesUnique(sh.db) && ItemRows(sh.db)
    ensures sh.db.nextRelay !in sh.db.items && sh.db.nextRelay !in sh.db.relays && forall r :: r in sh.db.relays ==> sh.db.relays[r].id == r
  {
  }

  lemma HashErrors(db: Db, codeHash: string, now: Time)
    ensures var r := RelayByHash(db, codeHash, now); r.Err? ==> r.error == RelayNotFound || r.error == RelayExpired
  {
  }

  lemma VerdictIsRow(row: Relay, now: Time)
    ensures Verdict(row, now).Ok? ==> Verdict(row, now).value == row
  {
  }

  lemma AnswerFacts(db: Db, codeHash: string, now: Time, r: Result<Relay>)
    requires Lookup.Answers(db, codeHash, now, r)
    ensures r.Ok? ==> HasRelay(db, r.value) && r.value.codeHash == Some(codeHash) && r.value.status == Ready && r.value.expiresAt > now
    ensures r.Err? ==> r.error == RelayNotFound || r.error == RelayExpired
  {
  }

  /** Besides the tables, a commit changes the seals only. */
  lemma CommitSealsOnly(sh: Shared, db: Db)
    ensures Commit(sh, db) == sh.(db := db, sealed := Commit(sh, db).sealed)
  {
  }

  /** The session of a chat is about a batch of that chat, and counts at most its items. */
  lemma OwnSession(cfg: Config, sh: Shared, chat: int)
    requires SharedInv(cfg, sh) && chat in sh.sessions
    ensures sh.sessions[chat].uploaderChatId == chat && sh.sessions[chat].relayId != 0
    ensures sh.sessions[chat].relayId in sh.db.relays ==>
      sh.sessions[chat].itemCount <= |Rows(sh.db, sh.sessions[chat].relayId)| && sh.db.relays[sh.sessions[chat].relayId].sourceUpdateId == None
  {
    assert SessionOk(cfg, sh.db, chat, sh.sessions[chat]);
  }

  // ----- What the handlers bring about -----

  predicate HasRelay(db: Db, row: Relay) {
    row.id in db.relays && db.relays[row.id] == row
  }

  /** A claim has got as far as its delivery row, which says how that ended; nothing but a sent one shows in the relay. */
  ghost predicate Delivered(db: Db, next: Db, request: int, relayId: int, now: Time, status: DeliveryStatus) {
    && relayId in db.relays
    && next == db.(
      deliveries := db.deliveries[db.nextDelivery := Delivery(db.nextDelivery, relayId, request, status, now, now)],
      nextDelivery := db.nextDelivery + 1,
      relays := if status != Sent then db.relays
                else db.relays[relayId := db.relays[relayId].(deliveryCount := db.relays[relayId].deliveryCount + 1, updatedAt := now)])
  }

  /** One page has been sent: as much of the relay's list, from its beginning, as makes a page. */
  ghost predicate PageSent(before: seq<Send>, after: seq<Send>, request: int, relayId: int, list: seq<RelayItem>) {
    |after| == |before| + 1 && before <= after && after[|before|].request == request && after[|before|].relayId == relayId && Paging.BeginWith(list, after[|before|].page)
  }

  lemma FirstPageBegins(items: seq<RelayItem>)
    requires items != []
    ensures Paging.BeginWith(items, FirstPage(items))
  {
    Paging.FirstPageIsLongest(items);
  }

  /** The tables have one answer to a code. */
  lemma OneAnswer(db: Db, hash: Hash, codeHash: string, now: Time)
    requires Integrity(db, hash)
    ensures forall r, x :: Lookup.Answers(db, codeHash, now, r) && Lookup.Answers(db, codeHash, now, x) ==> r == x
  {
    hide Lookup.Answers, Lookup.PlainLookup, Integrity;
    forall r, x | Lookup.Answers(db, codeHash, now, r) && Lookup.Answers(db, codeHash, now, x) ensures r == x {
      Lookup.PlainAnswers(db, hash, codeHash, now, r);
      Lookup.PlainAnswers(db, hash, codeHash, now, x);
    }
  }

  lemma InsertsPending(db: Db, relayId: int, request: int, now: Time)
    ensures var (next, r) := CreateDeliveryTx(db, relayId, request, now);
      && (if r.Ok? then Delivered(db, next, request, relayId, now, Pending) && r.value.id == db.nextDelivery else next == db)
      && (r.Err? ==> r.error == RelayNotFound || r.error == ForeignKeyViolation)
      && (r == Err(RelayNotFound) <==> Requested(db, request)) && (r == Err(ForeignKeyViolation) ==> relayId !in db.relays)
  {
    CreateDeliveryExactly(db, relayId, request, now);
  }

  ghost predicate Requested(db: Db, request: int) {
    exists d :: d in db.deliveries && db.deliveries[d].requestUpdateId == request
  }

  /** The insert step of a claim, written out. */
  lemma InsertStepIs(cfg: Config, sh: Shared, request: int, now: Time, record: Relay, items: seq<RelayItem>, c: Choice)
    ensures ClaimStep(cfg, sh, ClaimInsert(request, now, record, items), c) ==
      var (db, r) := CreateDeliveryTx(sh.db, record.id, request, now);
      if c.fail || r.Err? then (sh, Done)
      else
        (Commit(sh, db).(claimed := if request in sh.claimed then sh.claimed else sh.claimed[request := record.id]),
         Claiming(ClaimSend(request, now, record, items, r.value.id)))
  {
  }

  lemma Settles(db: Db, middle: Db, relayId: int, request: int, now: Time, outcome: DeliveryStatus)
    requires Delivered(db, middle, request, relayId, now, Pending)
    ensures var next := if outcome == Sent then MarkSentTx(middle, db.nextDelivery, relayId, now) else MarkTx(middle, db.nextDelivery, outcome, now);
      Delivered(db, next, request, relayId, now, outcome)
  {
    var next := if outcome == Sent then MarkSentTx(middle, db.nextDelivery, relayId, now) else MarkTx(middle, db.nextDelivery, outcome, now);
    MarkExactly(middle, db.nextDelivery, outcome, relayId, now);
    assert next.deliveries == db.deliveries[db.nextDelivery := Delivery(db.nextDelivery, relayId, request, outcome, now, now)];
  }

  /** The relay is in the tables and has an item of this update. */
  ghost predicate Holds(db: Db, row: Relay, updateId: int) {
    HasRelay(db, row) && exists i :: 0 <= i < |Rows(db, row.id)| && Rows(db, row.id)[i].sourceUpdateId == updateId
  }

  lemma KnownHolds(db: Db, updateId: int, hash: Hash)
    requires Integrity(db, hash)
    ensures var r := RelayByUpdate(db, updateId); if r.Ok? then Holds(db, r.value, updateId) && Stored(db, updateId) else !Stored(db, updateId)
  {
    StoredIsFound(db, updateId);
    if HasItemFor(db, updateId) {
      var item := ItemFor(db, updateId).value;
      var r, i :| ItemAt(db, r, i, updateId) && db.items[r][i] == item;
      assert RowsInOrder(db.items[r], r, db.nextItem);
      assert Rows(db, r)[i].sourceUpdateId == updateId;
    }
  }

  ghost predicate UpdateTaken(db: Db, updateId: int) {
    exists x :: x in db.relays && db.relays[x].sourceUpdateId == Some(updateId)
  }

  lemma FileCode(db: Db, next: Db, upload: Upload, code: string, codeHash: string, userId: int, chatId: int, expiresAt: Time, now: Time, row: Relay)
    requires FileAdded(db, next, upload, code, codeHash, userId, chatId, expiresAt, now, row)
    ensures row.codeValue == code && row.codeHash == Some(codeHash) && row.expiresAt == expiresAt && row.id == db.nextRelay
  {
  }

  /** A code that Generate has not drawn before has a hash that no relay carries. */
  lemma FreshIsFree(cfg: Config, sh: Shared, code: string)
    requires SharedInv(cfg, sh) && Fresh(cfg, sh, code)
    ensures forall x :: x in sh.db.relays ==> sh.db.relays[x].codeHash != Some(cfg.hash(code))
  {
    hide CodesInv, SessionsInv, BatchesBounded, DeliveriesSealed;
    forall x | x in sh.db.relays ensures sh.db.relays[x].codeHash != Some(cfg.hash(code)) {
      assert SealMatches(sh, x) && RelayRow(sh.db.relays[x], cfg.hash);
    }
  }

  /** After a start that failed, the rows are as before, unless the batch could not be deleted again. */
  ghost predicate OnlyBatchLeft(db: Db, next: Db, userId: int, chatId: int, now: Time, stuck: bool) {
    || (next.relays == db.relays && next.items == db.items && next.deliveries == db.deliveries)
    || (stuck && exists row :: BatchAdded(db, next, userId, chatId, now, row))
  }

  lemma UndoneBatch(db: Db, middle: Db, next: Db, userId: int, chatId: int, now: Time, row: Relay, hash: Hash)
    requires Integrity(db, hash) && BatchAdded(db, middle, userId, chatId, now, row)
    ensures RelaysDeleted(middle, next, {row.id}) ==> next.relays == db.relays && next.items == db.items && next.deliveries == db.deliveries
  {
    hide HashesUnique, UpdatesUnique, RequestsUnique;
    NextIsNew(db, hash);
    if RelaysDeleted(middle, next, {row.id}) {
      assert forall r :: r in next.relays <==> r in db.relays;
      assert forall r :: r in db.relays ==> next.relays[r] == db.relays[r];
      assert next.relays == db.relays;
      assert forall r :: r in next.items <==> r in db.items;
      assert forall r :: r in db.items ==> next.items[r] == db.items[r];
      assert next.items == db.items;
      assert forall d :: d in next.deliveries <==> d in db.deliveries;
      assert forall d :: d in db.deliveries ==> next.deliveries[d] == db.deliveries[d];
      assert next.deliveries == db.deliveries;
    }
  }

  /** Merging the number of items and the time into the session they were added to sets just these. */
  lemma CountMerges(session: Session, count: int, now: Time)
    requires session.relayId != 0 && session.itemCount <= count
    ensures SessionMerge.MergeResult(Some(session), session.(itemCount := count, lastActivityAt := now)) ==
      session.(itemCount := count, lastActivityAt := if now > session.lastActivityAt then now else session.lastActivityAt)
  {
  }

  /** The insert step of an append, written out. */
  lemma AppendStepIs(cfg: Config, sh: Shared, now: Time, upload: Upload, session: Session, c: Choice)
    ensures AppendStep(cfg, sh, AppendInsert(now, upload, session), c) ==
      var (db, r) := AddItemTx(sh.db, session.relayId, upload, 0, cfg.maxBatchItems, now, false);
      if c.fail || r.Err? then (sh, Done)
      else if r.value.1 then (Commit(sh, db), Appending(AppendMerge(session.(itemCount := r.value.0.itemOrder, lastActivityAt := now))))
      else (sh, Appending(AppendList(now, session)))
  {
  }

  /** The last step of an append, written out. */
  lemma ReportStepIs(cfg: Config, sh: Shared, session: Session, c: Choice)
    ensures AppendStep(cfg, sh, AppendMerge(session), c) ==
      (if c.fail then sh.(intact := sh.intact - {session.uploaderChatId}) else Merge(cfg, sh, session), Done)
  {
    hide Merge;
  }

  /** The chat has a session, and the batch that it names is collecting. */
  ghost predicate Collects(sessions: map<int, Session>, relays: map<int, Relay>, chat: int) {
    chat in sessions && sessions[chat].relayId in relays && relays[sessions[chat].relayId].status == Collecting
  }

  /** The item of the upload is now the last of the batch. */
  ghost predicate Grown(db: Db, next: Db, id: int, upload: Upload, now: Time) {
    exists item :: ItemAdded(db, next, id, upload, now, item) && Listing(next, id) == Listing(db, id) + [item] && item.itemOrder == |Listing(db, id)| + 1
  }

  /** How the insert of an append ends. */
  lemma Appends(db: Db, id: int, upload: Upload, most: int, now: Time, hash: Hash)
    requires Integrity(db, hash)
    ensures var (next, r) := AddItemTx(db, id, upload, 0, most, now, false);
      && (r == Err(RelayNotFound) || r == Err(BatchNotCollecting) <==> !TakesItems(db, id, false))
      && (r.Ok? && !r.value.1 <==> TakesItems(db, id, false) && Stored(db, upload.sourceUpdateId))
      && (r == Err(BatchItemLimit) <==> TakesItems(db, id, false) && !Stored(db, upload.sourceUpdateId) && 0 < most <= |Listing(db, id)|)
      && (r.Err? ==> r.error in {RelayNotFound, BatchNotCollecting, BatchItemLimit})
      && (if r.Ok? && r.value.1 then Grown(db, next, id, upload, now) && r.value.0.itemOrder == |Listing(next, id)| == |Listing(db, id)| + 1 else next == db)
  {
    hide Evolves, Integrity, Listing, ItemAdded, Stored, NextOrder, AddItemTx;
    var (next, r) := AddItemTx(db, id, upload, 0, most, now, false);
    AddItemKeeps(db, id, upload, most, now, hash);
    AddItemExactly(db, id, upload, 0, most, now, false);
    TablesListed(db, hash, id);
    TablesListed(next, hash, id);
    if r.Ok? && r.value.1 {
      assert ItemAdded(db, next, id, upload, now, r.value.0) && Listing(next, id) == Listing(db, id) + [r.value.0];
    }
  }

  lemma TablesListed(db: Db, hash: Hash, id: int)
    requires Integrity(db, hash)
    ensures Listing(db, id) == Rows(db, id)
  {
    ListingIsInsertionOrder(db, id);
  }

  /** A ready batch is not empty, and until it expires the plain lookup of its hash finds it. */
  lemma ReadyBatchIsFound(cfg: Config, sh: Shared, id: int)
    requires SharedInv(cfg, sh) && id in sh.db.relays && sh.db.relays[id].status == Ready && sh.db.relays[id].sourceUpdateId == None
    ensures Listing(sh.db, id) != []
    ensures var row := sh.db.relays[id];
      row.codeHash == Some(cfg.hash(row.codeValue)) && forall at :: at < row.expiresAt ==> Lookup.Answers(sh.db, cfg.hash(row.codeValue), at, Ok(row))
  {
    hide CodesInv, SessionsInv, BatchesBounded, DeliveriesSealed, Lookup.PlainLookup, Listing;
    var row := sh.db.relays[id];
    assert SealMatches(sh, id) && RelayRow(row, cfg.hash);
    ListingIsSealed(cfg, sh, id);
    assert row.id == id;
  }

  /** The session that a progress update hands to the merge. */
  function Reported(session: Session, message: int, notifiedAt: Time, count: int, now: Time): Session {
    session.(
      progressMessageId := if message > 0 then message else session.progressMessageId,
      lastProgressNotifiedAt := if notifiedAt != 0 then notifiedAt else session.lastProgressNotifiedAt,
      lastProgressNotifiedCount := if count > 0 then count else session.lastProgressNotifiedCount,
      lastActivityAt := now)
  }

  /** The session after a progress update: what was reported, and of counts and times the later one. */
  function Progressed(session: Session, message: int, notifiedAt: Time, count: int, now: Time): Session {
    session.(
      progressMessageId := if message > 0 then message else session.progressMessageId,
      lastProgressNotifiedAt := if notifiedAt != 0 && notifiedAt > session.lastProgressNotifiedAt then notifiedAt else session.lastProgressNotifiedAt,
      lastProgressNotifiedCount := if count > 0 && count > session.lastProgressNotifiedCount then count else session.lastProgressNotifiedCount,
      lastActivityAt := if now > session.lastActivityAt then now else session.lastActivityAt)
  }

  // ----- Where the programs go on -----

  /** After a lookup that returned `r`. */
  function LookedUp(request: int, now: Time, r: Result<Relay>, warm: bool): Pc {
    match r
    case Ok(relay) => Claiming(if warm then ClaimWarm(request, now, relay) else ClaimList(request, now, relay))
    case Err(error) => if error == CommandFailed then Done else Refused(error)
  }

  predicate AsksForSession(pc: Pc, chat: int) {
    || (pc.Appending? && pc.append.AppendGet? && pc.append.chat == chat)
    || (pc.Canceling? && pc.cancel.CancelGet? && pc.cancel.chat == chat)
  }

  /** getCollectingBatchSession is shared by two handlers; this is its second step in the program of either. */
  function CheckingSession(asking: Pc, session: Session): Pc
    requires AsksForSession(asking, session.uploaderChatId)
  {
    if asking.Appending? then Appending(AppendCheck(asking.append.now, asking.append.upload, session))
    else Canceling(CancelCheck(session.uploaderChatId, session))
  }

  /** And what follows it. */
  function WithSession(asking: Pc, session: Session): Pc
    requires exists chat :: AsksForSession(asking, chat)
  {
    if asking.Appending? then Appending(AppendInsert(asking.append.now, asking.append.upload, session))
    else Canceling(CancelList(asking.cancel.chat, session.relayId))
  }

  function SessionChecked(asking: Pc, session: Session, r: Option<Error>): Pc
    requires AsksForSession(asking, session.uploaderChatId)
  {
    match r
    case None => WithSession(asking, session)
    case Some(error) => if error == CommandFailed then Done else DropSession(session.uploaderChatId)
  }

  function Inserted(now: Time, session: Session, r: Result<Option<RelayItem>>): Pc {
    match r
    case Ok(Some(item)) => Appending(AppendMerge(session.(itemCount := item.itemOrder, lastActivityAt := now)))
    case Ok(None) => Appending(AppendList(now, session))
    case Err(_) => Done
  }

  function BatchAsked(now: Time, chat: int, r: Result<Option<int>>): Pc {
    match r
    case Ok(Some(id)) => Starting(StartCheck(now, chat, id))
    case Ok(None) => Starting(StartInsert(now, chat))
    case Err(_) => Done
  }

  function BatchChecked(now: Time, chat: int, r: Result<Relay>): Pc {
    match r
    case Ok(batch) => Finishing(if batch.status == Ready then FinishListReady(now, chat, batch) else FinishList(now, chat, batch.id))
    case Err(error) => if error == CommandFailed then Done else DropSession(chat)
  }

  function FinishCounted(now: Time, chat: int, id: int, r: Result<bool>): Pc {
    match r
    case Ok(below) => Finishing(if below then FinishSeal(now, chat, id) else FinishRecheck(now, chat, id))
    case Err(_) => Done
  }

  function BatchSettled(now: Time, chat: int, r: Result<Relay>): Pc {
    if r.Ok? then Finishing(FinishWarm(now, chat, r.value)) else Done
  }

  predicate Over(pc: Pc) {
    pc.Done? || pc.Finished? || pc.Refused?
  }

  // ----- The process -----

  /** The part of Protocol.Shared that is history. */
  datatype History = History(sealed: map<int, Seal>, claimed: map<int, int>, purged: set<int>, intact: set<int>)

  /** Where a handler began: the state, the first point of its program, and its place on the tape. */
  datatype Origin = Origin(sh: Shared, pc: Pc, drawn: nat)

  class Backend {
    const cfg: Config
    const store: PostgresStore
    var codes: map<string, int>       // cache: code hash to relay id
    var sessions: map<int, Session>   // cache: chat to batch session
    var outbox: seq<Send>
    var clock: Time
    const tape: seq<Choice>           // how the commands turn out, one after the other
    var drawn: nat                    // how many of them have been carried out
    ghost var history: History
    ghost var origin: Origin          // of the current handler
    ghost var upTo: nat               // how far its program has followed the tape
    ghost var pc: Pc                  // and where it stands

    constructor (cfg: Config, tape: seq<Choice>)
      ensures fresh(store) && this.cfg == cfg && this.tape == tape
      ensures State() == INITIAL && Valid()
    {
      this.cfg, this.tape := cfg, tape;
      store := new PostgresStore();
      codes, sessions, outbox, clock := map[], map[], [], 0;
      history := History(map[], map[], {}, {});
      drawn, origin, upTo, pc := 0, Origin(INITIAL, Done, 0), 0, Done;
      new;
      RunKeeps(cfg, []);
    }

    ghost function State(): Shared
      reads this`codes, this`sessions, this`outbox, this`clock, this`history, store
    {
      Shared(store.Tables(), codes, sessions, clock, history.sealed, history.claimed, outbox, history.purged, history.intact)
    }

    ghost predicate Valid()
      reads this`codes, this`sessions, this`outbox, this`clock, this`history, store
    {
      SharedInv(cfg, State()) && HistoryInv(cfg, State())
    }

    /** The program of the handler, run alone on its part of the tape, has led to the state `sh` and stands at `pc`. */
    ghost predicate Follows(sh: Shared)
      reads this`origin, this`upTo, this`pc
    {
      origin.drawn <= upTo <= |tape| && Solo(cfg, origin.sh, origin.pc, tape[origin.drawn..upTo]) == (sh, pc)
    }

    /** The program has led to the present state, and stands at `p`. */
    ghost predicate At(p: Pc)
      reads this`codes, this`sessions, this`outbox, this`clock, this`history, store, this`origin, this`upTo, this`pc, this`drawn
    {
      Follows(State()) && pc == p && upTo == drawn
    }

    /** A handler has run from `start` on `request` alone, and is over. */
    ghost predicate Ran(start: Shared, request: Request, first: nat)
      reads this`codes, this`sessions, this`outbox, this`clock, this`history, store, this`origin, this`upTo, this`pc, this`drawn
    {
      At(pc) && origin == Origin(start, Entry(start, request), first) && Over(pc)
    }

    /** A command of this part of the tape has failed. */
    ghost predicate CommandsFailed(from: nat, to: nat) {
      exists i :: from <= i < to <= |tape| && tape[i].fail
    }

    ghost method Enter(request: Request)
      requires drawn <= |tape|
      modifies this`origin, this`upTo, this`pc
      ensures origin == Origin(State(), Entry(State(), request), drawn) && At(Entry(State(), request)) && PcOk(cfg, State(), origin.pc)
    {
      hide Entry, PcOk, StepPc, SharedInv;
      EntryOk(cfg, State(), request);
      origin, upTo, pc := Origin(State(), Entry(State(), request), drawn), drawn, Entry(State(), request);
      assert tape[drawn..drawn] == [];
    }

    method Draw() returns (c: Choice)
      requires drawn < |tape|
      modifies this`drawn
      ensures c == tape[old(drawn)] && drawn == old(drawn) + 1
    {
      c := tape[drawn];
      drawn := drawn + 1;
    }

    /** The program has taken the step that led from `before` to the present state. */
    ghost method Stepped(before: Shared, c: Choice, to: Pc)
      requires Follows(before) && upTo + 1 == drawn <= |tape| && c == tape[upTo] && StepPc(cfg, before, pc, c) == (State(), to)
      modifies this`upTo, this`pc
      ensures At(to)
    {
      hide StepPc, Solo;
      SoloSnoc(cfg, origin.sh, origin.pc, tape[origin.drawn..upTo], c);
      assert tape[origin.drawn..upTo] + [c] == tape[origin.drawn..upTo + 1];
      upTo, pc := drawn, to;
    }

    // The same for each kind of handler.

    ghost method Claimed(before: Shared, c: Choice, to: Pc)
      requires Follows(before) && upTo + 1 == drawn <= |tape| && c == tape[upTo] && pc.Claiming? && ClaimStep(cfg, before, pc.claim, c) == (State(), to)
      modifies this`upTo, this`pc
      ensures At(to)
    {
      hide Follows, ClaimStep;
      Stepped(before, c, to);
    }

    ghost method Created(before: Shared, c: Choice, to: Pc)
      requires Follows(before) && upTo + 1 == drawn <= |tape| && c == tape[upTo] && pc.Creating? && CreateStep(cfg, before, pc.create, c) == (State(), to)
      modifies this`upTo, this`pc
      ensures At(to)
    {
      hide Follows, CreateStep;
      Stepped(before, c, to);
    }

    ghost method Started(before: Shared, c: Choice, to: Pc)
      requires Follows(before) && upTo + 1 == drawn <= |tape| && c == tape[upTo] && pc.Starting? && StartStep(cfg, before, pc.start, c) == (State(), to)
      modifies this`upTo, this`pc
      ensures At(to)
    {
      hide Follows, StartStep;
      Stepped(before, c, to);
    }

    ghost method Appended(before: Shared, c: Choice, to: Pc)
      requires Follows(before) && upTo + 1 == drawn <= |tape| && c == tape[upTo] && pc.Appending? && AppendStep(cfg, before, pc.append, c) == (State(), to)
      modifies this`upTo, this`pc
      ensures At(to)
    {
      hide Follows, AppendStep;
      Stepped(before, c, to);
    }

    ghost method Finishes(before: Shared, c: Choice, to: Pc)
      requires Follows(before) && upTo + 1 == drawn <= |tape| && c == tape[upTo] && pc.Finishing? && FinishStep(cfg, before, pc.finish, c) == (State(), to)
      modifies this`upTo, this`pc
      ensures At(to)
    {
      hide Follows, FinishStep;
      Stepped(before, c, to);
    }

    ghost method Canceled(before: Shared, c: Choice, to: Pc)
      requires Follows(before) && upTo + 1 == drawn <= |tape| && c == tape[upTo] && pc.Canceling? && CancelStep(cfg, before, pc.cancel, c) == (State(), to)
      modifies this`upTo, this`pc
      ensures At(to)
    {
      hide Follows, CancelStep;
      Stepped(before, c, to);
    }

    ghost method Maintained(before: Shared, c: Choice, to: Pc)
      requires Follows(before) && upTo + 1 == drawn <= |tape| && c == tape[upTo] && pc.Maintaining? && WorkerStep(cfg, before, pc.worker, c) == (State(), to)
      modifies this`upTo, this`pc
      ensures At(to)
    {
      hide Follows, WorkerStep;
      Stepped(before, c, to);
    }

    /** A handler is over; what it leaves behind is a reachable state again. */
    ghost method Ends(end: Pc)
      requires At(end) && Over(end) && SharedInv(cfg, origin.sh) && HistoryInv(cfg, origin.sh) && PcOk(cfg, origin.sh, origin.pc)
      ensures At(pc) && Over(pc) && pc == end && Valid() && SharedEvolves(origin.sh, State())
    {
      hide SharedInv, HistoryInv, PcOk, StepPc, SharedEvolves;
      SoloKeeps(cfg, origin.sh, origin.pc, tape[origin.drawn..upTo]);
    }

    // ----- Caches -----

    /** SetRelayIDByCodeHash, where it is only a warm-up: a failure leaves the cache as it was. */
    method WarmCache(record: Relay, now: Time, c: Choice)
      modifies this`codes
      ensures State() == Warm(old(State()), record, now, c)
      ensures codes == if record.expiresAt > now && !c.fail && record.codeHash.Some? then old(codes)[record.codeHash.value := record.id] else old(codes)
    {
      if record.expiresAt > now && !c.fail && record.codeHash.Some? {
        codes := codes[record.codeHash.value := record.id];
      }
    }

    /** DeleteBatchUploadSession, whose failure the handlers ignore. */
    method DeleteSession(chat: int, c: Choice)
      modifies this`sessions, this`history
      ensures State() == if c.fail then old(State()) else Forget(old(State()), chat)
      ensures sessions == if c.fail then old(sessions) else old(sessions) - {chat}
    {
      if !c.fail {
        sessions := sessions - {chat};
        history := history.(intact := history.intact - {chat});
      }
    }

    /** MergeBatchUploadSession; SessionMerge.SessionKey shows that its retry loop is this one atomic merge. */
    method MergeSession(session: Session) returns (merged: Session)
      modifies this`sessions
      ensures State() == Merge(cfg, old(State()), session)
      ensures cfg.batchSessionTtl > 0 ==>
        && merged == SessionMerge.MergeResult(if session.uploaderChatId in old(sessions) then Some(old(sessions)[session.uploaderChatId]) else None, session)
        && sessions == old(sessions)[session.uploaderChatId := merged]
      ensures cfg.batchSessionTtl <= 0 ==> merged == session && sessions == old(sessions)
    {
      if cfg.batchSessionTtl <= 0 {
        return session;
      }
      var chat := session.uploaderChatId;
      merged := SessionMerge.MergeResult(if chat in sessions then Some(sessions[chat]) else None, session);
      sessions := sessions[chat := merged];
    }

    /** The cleanup of a session whose batch is gone or no longer collecting. */
    method DropStaleSession(chat: int)
      requires At(DropSession(chat)) && drawn < |tape|
      modifies this`sessions, this`history, this`drawn, this`upTo, this`pc
      ensures At(Done) && drawn == old(drawn) + 1
      ensures sessions == if tape[old(drawn)].fail then old(sessions) else old(sessions) - {chat}
    {
      hide Follows, Forget, ClaimStep, CreateStep, StartStep, AppendStep, FinishStep, CancelStep, ProgressStep, WorkerStep;
      ghost var before := State();
      var c := Draw();
      DeleteSession(chat, c);
      Stepped(before, c, Done);
    }

    // ----- Claims -----

    /** GetRelayIDByCodeHash, whose failure counts as a miss. */
    method AskCache(request: int, now: Time) returns (id: Option<int>)
      requires At(Claiming(ClaimCache(request, now))) && drawn < |tape|
      modifies this`drawn, this`upTo, this`pc
      ensures At(if id.Some? then Claiming(ClaimById(request, now, id.value)) else Claiming(ClaimByHash(request, now))) && drawn == old(drawn) + 1
      ensures id == if !tape[old(drawn)].fail && CodeHash(cfg, request) in codes then Some(codes[CodeHash(cfg, request)]) else None
    {
      hide Follows;
      ghost var before := State();
      var c := Draw();
      id := if !c.fail && CodeHash(cfg, request) in codes then Some(codes[CodeHash(cfg, request)]) else None;
      Claimed(before, c, if id.Some? then Claiming(ClaimById(request, now, id.value)) else Claiming(ClaimByHash(request, now)));
    }

    /** The half of lookupRelay that asks for the cached id; without a row for it, the other half goes on. */
    method LookupById(request: int, now: Time, id: int) returns (r: Option<Result<Relay>>)
      requires At(Claiming(ClaimById(request, now, id))) && drawn < |tape|
      modifies this`drawn, this`upTo, this`pc
      ensures At(if r.Some? then LookedUp(request, now, r.value, false) else Claiming(ClaimByHash(request, now))) && drawn == old(drawn) + 1
      ensures r == if tape[old(drawn)].fail then Some(Err(CommandFailed)) else if id in store.relays then Some(Verdict(store.relays[id], now)) else None
    {
      hide Follows;
      ghost var before := State();
      var c := Draw();
      r := Some(Err(CommandFailed));
      if !c.fail {
        var row := store.GetRelayById(id);
        r := if row.Ok? then Some(Verdict(row.value, now)) else None;
      }
      Claimed(before, c, if r.Some? then LookedUp(request, now, r.value, false) else Claiming(ClaimByHash(request, now)));
    }

    /** The half of lookupRelay that asks by hash. */
    method LookupByHash(request: int, now: Time) returns (r: Result<Relay>)
      requires At(Claiming(ClaimByHash(request, now))) && drawn < |tape| && HashesUnique(store.Tables())
      modifies this`drawn, this`upTo, this`pc
      ensures At(LookedUp(request, now, r, true)) && drawn == old(drawn) + 1
      ensures r == if tape[old(drawn)].fail then Err(CommandFailed) else Lookup.PlainLookup(store.Tables(), CodeHash(cfg, request), now)
    {
      hide Follows, RelayByHash;
      ghost var before := State();
      var c := Draw();
      r := Err(CommandFailed);
      if !c.fail {
        HashErrors(before.db, CodeHash(cfg, request), now);
        r := store.GetRelayByCodeHash(CodeHash(cfg, request), now);
        if r.Ok? {
          r := Verdict(r.value, now);
        }
      }
      Claimed(before, c, LookedUp(request, now, r, true));
    }

    method WarmAfterLookup(request: int, now: Time, record: Relay)
      requires At(Claiming(ClaimWarm(request, now, record))) && drawn < |tape|
      modifies this`codes, this`drawn, this`upTo, this`pc
      ensures At(Claiming(ClaimList(request, now, record))) && drawn == old(drawn) + 1
      ensures record.expiresAt > now && record.codeHash.Some? && !tape[old(drawn)].fail ==> codes == old(codes)[record.codeHash.value := record.id]
    {
      hide Follows, Warm;
      ghost var before := State();
      var c := Draw();
      WarmCache(record, now, c);
      Claimed(before, c, Claiming(ClaimList(request, now, record)));
    }

    /**
     * lookupRelay: what the tables say to the code, unless the store fails; and the next lookup finds the relay in the
     * cache, unless a command of the cache fails.
     */
    method LookupRelay(request: int, now: Time) returns (r: Result<Relay>)
      requires Valid() && At(Claiming(ClaimCache(request, now))) && drawn <= |tape| - 4
      modifies this`codes, this`drawn, this`upTo, this`pc
      ensures At(LookedUp(request, now, r, false)) && old(drawn) <= drawn <= old(drawn) + 4
      ensures r == Err(CommandFailed) || r == Lookup.PlainLookup(store.Tables(), CodeHash(cfg, request), now)
      ensures if r == Err(CommandFailed) then CommandsFailed(old(drawn), drawn) else Lookup.Answers(store.Tables(), CodeHash(cfg, request), now, r)
      ensures r.Ok? && !CommandsFailed(old(drawn), drawn) ==> CodeHash(cfg, request) in codes && codes[CodeHash(cfg, request)] == r.value.id
    {
      hide SharedInv, HistoryInv, RelayByHash, At, Verdict, Lookup.PlainLookup, Integrity, Lookup.Answers;
      ghost var before := State();
      KeysHold(cfg, before);
      ghost var plain := Lookup.PlainLookup(store.Tables(), CodeHash(cfg, request), now);
      Lookup.PlainAnswers(store.Tables(), cfg.hash, CodeHash(cfg, request), now, plain);
      AnswerFacts(store.Tables(), CodeHash(cfg, request), now, plain);
      var found := None;
      var id := AskCache(request, now);
      if id.Some? {
        if id.value in store.relays {
          CachedIsPlain(cfg, before, CodeHash(cfg, request), now);
          VerdictIsRow(store.relays[id.value], now);
        }
        found := LookupById(request, now, id.value);
      }
      if found.Some? {
        r := found.value;
      } else {
        r := LookupByHash(request, now);
        if r.Ok? {
          WarmAfterLookup(request, now, r.value);
        }
      }
    }

    /** ListRelayItemsByRelayID for a claim, and the pages it is to deliver. */
    method ListPages(request: int, now: Time, record: Relay) returns (r: Result<seq<RelayItem>>)
      requires At(Claiming(ClaimList(request, now, record))) && drawn < |tape|
      modifies this`drawn, this`upTo, this`pc
      ensures At(if r.Ok? then Claiming(ClaimInsert(request, now, record, r.value)) else Done) && drawn == old(drawn) + 1
      ensures var list := Listing(store.Tables(), record.id);
        r == if tape[old(drawn)].fail then Err(CommandFailed) else if list == [] then Err(ItemsMissing) else if Paging.Fragmented(list) then Err(GroupFragmented) else Ok(list)
    {
      hide Follows, Listing, Paging.Fragmented, Paging.Pages;
      ghost var before := State();
      var c := Draw();
      r := Err(CommandFailed);
      if !c.fail {
        var items := store.ListRelayItemsByRelayId(record.id);
        var pages := Navigation.BuildClaimDeliveryPages(items);
        r := if |items| == 0 then Err(ItemsMissing) else if pages.Err? then Err(GroupFragmented) else Ok(items);
      }
      Claimed(before, c, if r.Ok? then Claiming(ClaimInsert(request, now, record, r.value)) else Done);
    }

    method InsertDelivery(request: int, now: Time, record: Relay, items: seq<RelayItem>) returns (r: Result<Delivery>)
      requires At(Claiming(ClaimInsert(request, now, record, items))) && drawn < |tape|
      modifies store, this`history, this`drawn, this`upTo, this`pc
      ensures At(if r.Ok? then Claiming(ClaimSend(request, now, record, items, r.value.id)) else Done) && drawn == old(drawn) + 1
      ensures r == Err(CommandFailed) <==> tape[old(drawn)].fail
      ensures r.Ok? ==> Delivered(old(store.Tables()), store.Tables(), request, record.id, now, Pending) && r.value.id == old(store.nextDelivery)
      ensures r.Err? ==> store.Tables() == old(store.Tables())
      ensures r == Err(RelayNotFound) <==> !tape[old(drawn)].fail && Requested(old(store.Tables()), request)
      ensures r.Err? && r.error != CommandFailed && r.error != RelayNotFound ==> r.error == ForeignKeyViolation && record.id !in store.relays
    {
      hide Follows, CreateDeliveryTx, Commit, ClaimStep, Delivered, Requested;
      ghost var before := State();
      var c := Draw();
      InsertStepIs(cfg, before, request, now, record, items, c);
      r := Err(CommandFailed);
      if !c.fail {
        r := store.CreateDelivery(record.id, request, now);
        InsertsPending(before.db, record.id, request, now);
        if r.Ok? {
          CommitSealsOnly(before, store.Tables());
          history := history.(sealed := Commit(before, store.Tables()).sealed,
                              claimed := if request in history.claimed then history.claimed else history.claimed[request := record.id]);
        }
      }
      Claimed(before, c, if r.Ok? then Claiming(ClaimSend(request, now, record, items, r.value.id)) else Done);
    }

    /** DeliverPage for the first page; an outcome that is neither sent nor failed is unknown. */
    method DeliverFirstPage(request: int, now: Time, record: Relay, items: seq<RelayItem>, delivery: int) returns (outcome: DeliveryStatus)
      requires At(Claiming(ClaimSend(request, now, record, items, delivery))) && drawn < |tape|
      modifies this`outbox, this`drawn, this`upTo, this`pc
      ensures At(Claiming(ClaimMark(request, now, record, delivery, outcome))) && drawn == old(drawn) + 1
      ensures outbox == old(outbox) + [Send(request, record.id, FirstPage(items))]
      ensures outcome == if tape[old(drawn)].outcome == Pending then Unknown else tape[old(drawn)].outcome
    {
      hide Follows, FirstPage;
      ghost var before := State();
      var c := Draw();
      outbox := outbox + [Send(request, record.id, FirstPage(items))];
      outcome := if c.outcome == Pending then Unknown else c.outcome;
      Claimed(before, c, Claiming(ClaimMark(request, now, record, delivery, outcome)));
    }

    /** MarkDeliverySent, MarkDeliveryFailed or MarkDeliveryUnknown. */
    method MarkDelivery(request: int, now: Time, record: Relay, delivery: int, outcome: DeliveryStatus) returns (ok: bool)
      requires At(Claiming(ClaimMark(request, now, record, delivery, outcome))) && drawn < |tape|
      modifies store, this`history, this`drawn, this`upTo, this`pc
      ensures At(Done) && drawn == old(drawn) + 1 && ok == !tape[old(drawn)].fail
      ensures store.Tables() == if !ok then old(store.Tables())
        else if outcome == Sent then MarkSentTx(old(store.Tables()), delivery, record.id, now) else MarkTx(old(store.Tables()), delivery, outcome, now)
    {
      hide Follows, MarkTx, MarkSentTx, Commit;
      ghost var before := State();
      var c := Draw();
      ok := !c.fail;
      if ok {
        if outcome == Sent {
          store.MarkDeliverySent(delivery, record.id, now);
        } else {
          store.MarkDelivery(delivery, outcome, now);
        }
        CommitSealsOnly(before, store.Tables());
        history := history.(sealed := Commit(before, store.Tables()).sealed);
      }
      Claimed(before, c, Done);
    }

    /** The rest of ClaimRelay once the pages are there. */
    method DeliverClaim(request: int, now: Time, record: Relay, items: seq<RelayItem>) returns (r: Result<Relay>)
      requires At(Claiming(ClaimInsert(request, now, record, items))) && drawn <= |tape| - 3 && items != [] && record.id in store.relays
      modifies store, this`outbox, this`history, this`drawn, this`upTo, this`pc
      ensures At(Done) && old(drawn) <= drawn <= old(drawn) + 3
      ensures r == Err(CommandFailed) ==> CommandsFailed(old(drawn), drawn)
      ensures r == Err(CommandFailed) ==> store.Tables() == old(store.Tables()) || Delivered(old(store.Tables()), store.Tables(), request, record.id, now, Pending)
      ensures r == Err(RelayNotFound) ==> Requested(old(store.Tables()), request)
      ensures r == Err(RelayNotFound) || r == Err(CommandFailed) || IsOutcome(r, record, drawn)
      ensures r.Err? && r.error !in {SendFailed, SendUnknown, CommandFailed} ==> outbox == old(outbox) && store.Tables() == old(store.Tables())
      ensures outbox == old(outbox) || (PageSent(old(outbox), outbox, request, record.id, items) && !Requested(old(store.Tables()), request))
      ensures r.Ok? || r == Err(SendFailed) || r == Err(SendUnknown) ==>
        && PageSent(old(outbox), outbox, request, record.id, items)
        && Delivered(old(store.Tables()), store.Tables(), request, record.id, now, if r.Ok? then Sent else if r.error == SendFailed then Failed else Unknown)
    {
      hide At, FirstPage, MarkTx, MarkSentTx, Delivered, Requested, Paging.BeginWith;
      ghost var db := store.Tables();
      var delivery := InsertDelivery(request, now, record, items);
      if delivery.Err? {
        return Err(delivery.error);
      }
      FirstPageBegins(items);
      var outcome := DeliverFirstPage(request, now, record, items, delivery.value.id);
      Settles(db, store.Tables(), record.id, request, now, outcome);
      var marked := MarkDelivery(request, now, record, delivery.value.id, outcome);
      if !marked {
        return Err(CommandFailed);
      }
      r := if outcome == Sent then Ok(record) else Err(if outcome == Failed then SendFailed else SendUnknown);
    }

    /** The result is how the send before the last command of the tape so far has ended. */
    ghost predicate IsOutcome(r: Result<Relay>, record: Relay, to: nat) {
      2 <= to <= |tape| && r == match tape[to - 2].outcome
        case Sent => Ok(record)
        case Failed => Err(SendFailed)
        case _ => Err(SendUnknown)
    }

    /**
     * ClaimRelay, past the rate limiter and the check of the code. Unless a command fails, it ends with what the tables
     * say to the code: without a ready relay, without items, with groups that are torn apart or for a request that has a
     * delivery already, nothing is sent and nothing changes. Otherwise the beginning of the relay's list has been sent, as
     * much as makes a page, and the request's one delivery row says how that ended.
     */
    method ClaimRelay(request: int) returns (r: Result<Relay>)
      requires Valid() && drawn + 8 <= |tape|
      modifies this, store
      ensures Ran(old(State()), Claim(request), old(drawn)) && Valid()
      ensures r == Err(CommandFailed) ==> CommandsFailed(old(drawn), drawn)
      ensures forall error :: Lookup.Answers(old(store.Tables()), CodeHash(cfg, request), old(clock), Err(error)) ==>
        (r == Err(error) || r == Err(CommandFailed)) && outbox == old(outbox) && store.Tables() == old(store.Tables())
      ensures forall relay :: Lookup.Answers(old(store.Tables()), CodeHash(cfg, request), old(clock), Ok(relay)) ==>
        ClaimEnded(old(store.Tables()), store.Tables(), old(outbox), outbox, request, old(clock), relay, r, drawn)
      ensures r.Ok? && !CommandsFailed(old(drawn), drawn) ==> CodeHash(cfg, request) in codes && codes[CodeHash(cfg, request)] == r.value.id
    {
      hide SharedInv, HistoryInv, At, PcOk, Lookup.PlainLookup, Lookup.Answers, StepPc, Integrity, ClaimEnded, UpdatesUnique, HashesUnique, ItemRows;
      var now := clock;
      ghost var db := store.Tables();
      Enter(Claim(request));
      KeysHold(cfg, State());
      OneAnswer(db, cfg.hash, CodeHash(cfg, request), now);
      r := LookupRelay(request, now);
      ghost var end := LookedUp(request, now, r, false);
      if r.Ok? {
        AnswerFacts(db, CodeHash(cfg, request), now, r);
        end := Done;
        r := DeliverRelay(request, now, r.value);
      } else {
        NothingClaimed(request, now);
      }
      Ends(end);
    }

    lemma NothingClaimed(request: int, now: Time)
      ensures forall relay :: ClaimEnded(store.Tables(), store.Tables(), outbox, outbox, request, now, relay, Err(CommandFailed), drawn)
    {
    }

    /** ClaimRelay for the relay that the lookup has found. */
    method DeliverRelay(request: int, now: Time, record: Relay) returns (r: Result<Relay>)
      requires At(Claiming(ClaimList(request, now, record))) && drawn <= |tape| - 4 && record.id in store.relays
      modifies store, this`outbox, this`history, this`drawn, this`upTo, this`pc
      ensures At(Done) && old(drawn) <= drawn <= old(drawn) + 4
      ensures r == Err(CommandFailed) ==> CommandsFailed(old(drawn), drawn)
      ensures r.Ok? ==> r.value == record
      ensures ClaimEnded(old(store.Tables()), store.Tables(), old(outbox), outbox, request, now, record, r, drawn)
    {
      hide At, Listing, FirstPage, Paging.Fragmented, Paging.BeginWith, Delivered, Requested;
      var items := ListPages(request, now, record);
      if items.Err? {
        r := Err(items.error);
      } else {
        r := DeliverClaim(request, now, record, items.value);
      }
    }

    /** How a claim of a relay that may be claimed ends. */
    ghost predicate ClaimEnded(db: Db, next: Db, before: seq<Send>, after: seq<Send>, request: int, now: Time, relay: Relay, r: Result<Relay>, to: nat) {
      var list := Listing(db, relay.id);
      if r == Err(CommandFailed) then
        && (next == db || Delivered(db, next, request, relay.id, now, Pending))
        && (after == before || (PageSent(before, after, request, relay.id, list) && !Requested(db, request)))
      else if list == [] then r == Err(ItemsMissing) && next == db && after == before
      else if Paging.Fragmented(list) then r == Err(GroupFragmented) && next == db && after == before
      else if Requested(db, request) then r == Err(RelayNotFound) && next == db && after == before
      else
        && IsOutcome(r, relay, to) && PageSent(before, after, request, relay.id, list)
        && Delivered(db, next, request, relay.id, now, if r.Ok? then Sent else if r.error == SendFailed then Failed else Unknown)
    }

    // ----- Single files -----

    /** GetRelayBySourceUpdateID: a file that is already stored is not stored again. */
    method FindUploaded(now: Time, chat: int, upload: Upload) returns (r: Result<Option<Relay>>)
      requires At(Creating(CreateCheck(now, chat, upload))) && drawn < |tape| && store.UpdateUnique(upload.sourceUpdateId)
      modifies this`drawn, this`upTo, this`pc
      ensures At(if r == Ok(None) then Creating(CreateCount(now, chat, upload)) else Done) && drawn == old(drawn) + 1
      ensures r.Err? ==> r.error == CommandFailed && tape[old(drawn)].fail
      ensures r.Ok? ==> var known := RelayByUpdate(store.Tables(), upload.sourceUpdateId); if r.value.Some? then known == Ok(r.value.value) else known.Err?
    {
      hide Follows, RelayByUpdate;
      ghost var before := State();
      var c := Draw();
      r := Err(CommandFailed);
      if !c.fail {
        var existing := store.GetRelayBySourceUpdateId(upload.sourceUpdateId);
        r := Ok(if existing.Ok? then Some(existing.value) else None);
      }
      Created(before, c, if r == Ok(None) then Creating(CreateCount(now, chat, upload)) else Done);
    }

    /** CountActiveRelaysByUploader against the limit, for a file. */
    method CountForCreate(now: Time, chat: int, upload: Upload) returns (r: Option<Error>)
      requires At(Creating(CreateCount(now, chat, upload))) && drawn < |tape|
      modifies this`drawn, this`upTo, this`pc
      ensures At(if r.None? then Creating(CreateInsert(now, chat, upload)) else Done) && drawn == old(drawn) + 1
      ensures r == if tape[old(drawn)].fail then Some(CommandFailed)
        else if |ActiveRelays(store.Tables(), cfg.userOf(chat), now)| >= cfg.maxActiveRelays then Some(TooManyRelays) else None
    {
      hide Follows, ActiveRelays;
      ghost var before := State();
      var c := Draw();
      var count := store.CountActiveRelaysByUploader(cfg.userOf(chat), now);
      r := if c.fail then Some(CommandFailed) else if count >= cfg.maxActiveRelays then Some(TooManyRelays) else None;
      Created(before, c, if r.None? then Creating(CreateInsert(now, chat, upload)) else Done);
    }

    /** The store's CreateRelay, with the code that Generate has drawn. */
    method InsertFile(now: Time, chat: int, upload: Upload) returns (r: Result<Relay>)
      requires Valid() && At(Creating(CreateInsert(now, chat, upload))) && drawn < |tape|
      requires store.UpdateUnique(upload.sourceUpdateId) && store.nextRelay !in store.items
      requires Fresh(cfg, State(), tape[drawn].code)
      modifies store, this`history, this`drawn, this`upTo, this`pc
      ensures At(if r.Ok? then Creating(CreateWarm(now, r.value)) else Done) && drawn == old(drawn) + 1
      ensures r == Err(CommandFailed) <==> tape[old(drawn)].fail
      ensures r.Err? ==> store.Tables() == old(store.Tables()) && (r.error == CommandFailed || r.error == RelayNotFound)
      ensures !tape[old(drawn)].fail ==> (r.Err? <==> UpdateTaken(old(store.Tables()), upload.sourceUpdateId))
      ensures r.Ok? ==> r.value.codeValue == tape[old(drawn)].code && FileCreated(old(store.Tables()), store.Tables(), chat, upload, now, r.value)
    {
      hide Follows, CreateRelayTx, Commit, Fresh, SharedInv, HistoryInv, FileAdded;
      ghost var before := State();
      var c := Draw();
      r := Err(CommandFailed);
      if !c.fail {
        FreshIsFree(cfg, before, c.code);
        CreateRelayExactly(before.db, upload, c.code, cfg.hash(c.code), cfg.userOf(chat), chat, now + cfg.defaultTtl, now);
        r := store.CreateRelay(upload, c.code, cfg.hash(c.code), cfg.userOf(chat), chat, now + cfg.defaultTtl, now);
        if r.Ok? {
          FileCode(before.db, store.Tables(), upload, c.code, cfg.hash(c.code), cfg.userOf(chat), chat, now + cfg.defaultTtl, now, r.value);
          CommitSealsOnly(before, store.Tables());
          history := history.(sealed := Commit(before, store.Tables()).sealed);
        }
      }
      Created(before, c, if r.Ok? then Creating(CreateWarm(now, r.value)) else Done);
    }

    /** A new relay for the file, of the user of the chat, ready under its code and expiring after the time to live. */
    ghost predicate FileCreated(db: Db, next: Db, chat: int, upload: Upload, now: Time, row: Relay) {
      FileAdded(db, next, upload, row.codeValue, cfg.hash(row.codeValue), cfg.userOf(chat), chat, now + cfg.defaultTtl, now, row)
    }

    method WarmAfterCreate(now: Time, record: Relay)
      requires At(Creating(CreateWarm(now, record))) && drawn < |tape|
      modifies this`codes, this`drawn, this`upTo, this`pc
      ensures At(Done) && drawn == old(drawn) + 1
      ensures record.expiresAt > now && record.codeHash.Some? && !tape[old(drawn)].fail ==> codes == old(codes)[record.codeHash.value := record.id]
    {
      hide Follows, Warm;
      ghost var before := State();
      var c := Draw();
      WarmCache(record, now, c);
      Created(before, c, Done);
    }

    /** The rest of CreateRelay for a file that is new. */
    method StoreFile(now: Time, chat: int, upload: Upload) returns (r: Result<Relay>)
      requires Valid() && At(Creating(CreateCount(now, chat, upload))) && drawn <= |tape| - 3
      requires store.UpdateUnique(upload.sourceUpdateId) && store.nextRelay !in store.items
      requires forall i :: drawn <= i < |tape| ==> Fresh(cfg, State(), tape[i].code)
      modifies store, this`codes, this`history, this`drawn, this`upTo, this`pc
      ensures At(Done) && old(drawn) <= drawn <= old(drawn) + 3
      ensures r == Err(CommandFailed) ==> CommandsFailed(old(drawn), drawn)
      ensures r.Err? ==> store.Tables() == old(store.Tables())
      ensures r == Err(CommandFailed) || FileStored(old(store.Tables()), store.Tables(), chat, upload, now, r)
      ensures r.Ok? ==> exists i :: old(drawn) <= i < drawn && tape[i].code == r.value.codeValue
      ensures r.Ok? && cfg.defaultTtl > 0 && !CommandsFailed(old(drawn), drawn) ==> codes == old(codes)[cfg.hash(r.value.codeValue) := r.value.id]
    {
      hide At, Fresh, SharedInv, HistoryInv, FileAdded, ActiveRelays, UpdateTaken;
      var refused := CountForCreate(now, chat, upload);
      if refused.Some? {
        return Err(refused.value);
      }
      ghost var db := store.Tables();
      r := InsertFile(now, chat, upload);
      if r.Ok? {
        FileCode(db, store.Tables(), upload, r.value.codeValue, cfg.hash(r.value.codeValue), cfg.userOf(chat), chat, now + cfg.defaultTtl, now, r.value);
        WarmAfterCreate(now, r.value);
      }
    }

    /** How the upload of a file that is not stored yet ends. */
    ghost predicate FileStored(db: Db, next: Db, chat: int, upload: Upload, now: Time, r: Result<Relay>) {
      if |ActiveRelays(db, cfg.userOf(chat), now)| >= cfg.maxActiveRelays then r == Err(TooManyRelays)
      else if UpdateTaken(db, upload.sourceUpdateId) then r == Err(RelayNotFound)
      else r.Ok? && FileCreated(db, next, chat, upload, now, r.value)
    }

    /**
     * CreateRelay, past the checks of the file. Unless a command fails, a file that is stored already is answered with
     * the relay that holds it; otherwise an uploader below the limit gets a new relay with exactly that file, which a
     * lookup finds in the cache at once. Errors change nothing.
     */
    method CreateRelay(chat: int, upload: Upload) returns (r: Result<Relay>)
      requires Valid() && drawn + 4 <= |tape|
      requires forall i :: drawn <= i < |tape| ==> Fresh(cfg, State(), tape[i].code)
      modifies this, store
      ensures Ran(old(State()), Create(chat, upload), old(drawn)) && Valid()
      ensures r == Err(CommandFailed) ==> CommandsFailed(old(drawn), drawn)
      ensures r.Err? ==> store.Tables() == old(store.Tables())
      ensures r == Err(CommandFailed) ||
        if upload.sourceUpdateId != 0 && Stored(old(store.Tables()), upload.sourceUpdateId)
        then r.Ok? && store.Tables() == old(store.Tables()) && Holds(store.Tables(), r.value, upload.sourceUpdateId)
        else FileStored(old(store.Tables()), store.Tables(), chat, upload, old(clock), r)
      ensures r.Ok? && store.Tables() != old(store.Tables()) ==> exists i :: old(drawn) <= i < drawn && tape[i].code == r.value.codeValue
      ensures r.Ok? && store.Tables() != old(store.Tables()) && cfg.defaultTtl > 0 && !CommandsFailed(old(drawn), drawn) ==>
        codes == old(codes)[cfg.hash(r.value.codeValue) := r.value.id]
    {
      hide SharedInv, HistoryInv, At, PcOk, StepPc, Fresh, RelayByUpdate, HasRelay, Holds, FileStored, Integrity, HasItemFor, Stored, UpdatesUnique, HashesUnique, ItemRows;
      var now := clock;
      ghost var db := store.Tables();
      Enter(Create(chat, upload));
      KeysHold(cfg, State());
      UploadKeys(upload.sourceUpdateId);
      KnownHolds(db, upload.sourceUpdateId, cfg.hash);
      var known := Ok(None);
      if upload.sourceUpdateId != 0 {
        known := FindUploaded(now, chat, upload);
      }
      if known.Err? {
        r := Err(known.error);
      } else if known.value.Some? {
        r := Ok(known.value.value);
      } else {
        r := StoreFile(now, chat, upload);
      }
      Ends(Done);
    }

    ghost method UploadKeys(updateId: int)
      requires UpdatesUnique(store.Tables()) && store.Tables().nextRelay !in store.Tables().items
      ensures store.UpdateUnique(updateId) && store.nextRelay !in store.items
    {
    }

    // ----- StartBatchUpload -----

    method AskForBatch(now: Time, chat: int) returns (r: Result<Option<int>>)
      requires At(Starting(StartGet(now, chat))) && drawn < |tape|
      modifies this`drawn, this`upTo, this`pc
      ensures At(BatchAsked(now, chat, r)) && drawn == old(drawn) + 1
      ensures r == if tape[old(drawn)].fail then Err(CommandFailed) else Ok(if chat in sessions then Some(sessions[chat].relayId) else None)
    {
      hide Follows;
      ghost var before := State();
      var c := Draw();
      r := if c.fail then Err(CommandFailed) else Ok(if chat in sessions then Some(sessions[chat].relayId) else None);
      Started(before, c, BatchAsked(now, chat, r));
    }

    /** Is that batch still collecting? */
    method StillCollecting(now: Time, chat: int, id: int) returns (r: Option<Error>)
      requires At(Starting(StartCheck(now, chat, id))) && drawn < |tape|
      modifies this`drawn, this`upTo, this`pc
      ensures At(if r.None? then Starting(StartDrop(now, chat)) else Done) && drawn == old(drawn) + 1
      ensures r == Some(CommandFailed) <==> tape[old(drawn)].fail
      ensures r == Some(SessionActive) <==> !tape[old(drawn)].fail && id in store.relays && store.relays[id].status == Collecting
      ensures r.Some? ==> r.value == CommandFailed || r.value == SessionActive
    {
      hide Follows;
      ghost var before := State();
      var c := Draw();
      var existing := store.GetRelayById(id);
      r := if c.fail then Some(CommandFailed)
           else if existing.Ok? && existing.value.status == Collecting then Some(SessionActive)
           else None;
      Started(before, c, if r.None? then Starting(StartDrop(now, chat)) else Done);
    }

    method DropOldSession(now: Time, chat: int)
      requires At(Starting(StartDrop(now, chat))) && drawn < |tape|
      modifies this`sessions, this`history, this`drawn, this`upTo, this`pc
      ensures At(Starting(StartInsert(now, chat))) && drawn == old(drawn) + 1
      ensures sessions == if tape[old(drawn)].fail then old(sessions) else old(sessions) - {chat}
    {
      hide Follows;
      ghost var before := State();
      var c := Draw();
      DeleteSession(chat, c);
      Started(before, c, Starting(StartInsert(now, chat)));
    }

    method InsertBatch(now: Time, chat: int) returns (r: Result<Relay>)
      requires At(Starting(StartInsert(now, chat))) && drawn < |tape|
      modifies store, this`history, this`drawn, this`upTo, this`pc
      ensures At(if r.Ok? then Starting(StartSet(now, chat, r.value.id)) else Done) && drawn == old(drawn) + 1
      ensures if r.Ok? then BatchAdded(old(store.Tables()), store.Tables(), cfg.userOf(chat), chat, now, r.value) else store.Tables() == old(store.Tables())
      ensures r.Err? <==> tape[old(drawn)].fail
      ensures r.Err? ==> r.error == CommandFailed
    {
      hide Follows, CreateBatchTx, Commit, BatchAdded;
      ghost var before := State();
      var c := Draw();
      r := Err(CommandFailed);
      if !c.fail {
        var batch := store.CreateRelayBatch(cfg.userOf(chat), chat, now);
        CommitSealsOnly(before, store.Tables());
        history := history.(sealed := Commit(before, store.Tables()).sealed);
        r := Ok(batch);
      }
      Started(before, c, if r.Ok? then Starting(StartSet(now, chat, r.value.id)) else Done);
    }

    /** SetBatchUploadSession */
    method PublishBatch(now: Time, chat: int, id: int) returns (ok: bool)
      requires At(Starting(StartSet(now, chat, id))) && drawn < |tape|
      modifies this`sessions, this`history, this`drawn, this`upTo, this`pc
      ensures At(if ok then Done else Starting(StartUndo(id))) && drawn == old(drawn) + 1 && ok == !tape[old(drawn)].fail
      ensures sessions == if ok && cfg.batchSessionTtl > 0 then old(sessions)[chat := Session(id, cfg.userOf(chat), chat, 0, 0, 0, 0, now, now)] else old(sessions)
    {
      hide Follows;
      ghost var before := State();
      var c := Draw();
      ok := !c.fail;
      if ok && cfg.batchSessionTtl > 0 {
        sessions := sessions[chat := NewSession(cfg, id, chat, now)];
        history := history.(intact := history.intact + {chat});
      }
      Started(before, c, if ok then Done else Starting(StartUndo(id)));
    }

    /** A batch without a session is deleted again, if the store lets it. */
    method UndoBatch(id: int)
      requires At(Starting(StartUndo(id))) && drawn < |tape|
      modifies store, this`history, this`drawn, this`upTo, this`pc
      ensures At(Done) && drawn == old(drawn) + 1
      ensures if tape[old(drawn)].fail then store.Tables() == old(store.Tables()) else RelaysDeleted(old(store.Tables()), store.Tables(), {id})
    {
      hide Follows, DeleteRelaysTx, Commit, RelaysDeleted;
      ghost var before := State();
      var c := Draw();
      if !c.fail {
        store.DeleteRelay(id);
        CommitSealsOnly(before, store.Tables());
        history := history.(sealed := Commit(before, store.Tables()).sealed);
      }
      Started(before, c, Done);
    }

    /** The check for an active batch at the head of StartBatchUpload; a session without one is dropped. */
    method RefuseSecondBatch(now: Time, chat: int) returns (refused: Option<Error>)
      requires At(Starting(StartGet(now, chat))) && drawn <= |tape| - 3
      modifies this`sessions, this`history, this`drawn, this`upTo, this`pc
      ensures At(if refused.None? then Starting(StartInsert(now, chat)) else Done) && old(drawn) <= drawn <= old(drawn) + 3
      ensures refused == Some(CommandFailed) ==> CommandsFailed(old(drawn), drawn)
      ensures refused == Some(SessionActive) ==> Collects(old(sessions), store.relays, chat)
      ensures refused.Some? ==> sessions == old(sessions) && (refused.value == CommandFailed || refused.value == SessionActive)
      ensures refused.None? ==> !Collects(old(sessions), store.relays, chat)
      ensures refused.None? ==> sessions == old(sessions) - {chat} || (sessions == old(sessions) && CommandsFailed(old(drawn), drawn))
    {
      hide At;
      var known := AskForBatch(now, chat);
      if known.Err? {
        return Some(known.error);
      }
      refused := None;
      if known.value.Some? {
        refused := StillCollecting(now, chat, known.value.value);
        if refused.None? {
          DropOldSession(now, chat);
        }
      } else {
        assert sessions - {chat} == sessions;
      }
    }

    /**
     * StartBatchUpload. While the batch of the chat's session is collecting, and only then, a second one is refused and
     * nothing changes. Otherwise, unless a command fails, the tables gain an empty batch and the chat a session for it, if
     * sessions are kept at all. No other chat's session changes, and no relay but the new batch.
     */
    method StartBatchUpload(chat: int) returns (r: Result<Relay>)
      requires Valid() && drawn + 6 <= |tape|
      modifies this, store
      ensures Ran(old(State()), Start(chat), old(drawn)) && Valid()
      ensures r == Err(CommandFailed) ==> CommandsFailed(old(drawn), drawn)
      ensures StartEnded(old(store.Tables()), store.Tables(), old(sessions), sessions, chat, old(clock), r, LastTwoFailed(old(drawn)))
      ensures r.Ok? && cfg.batchSessionTtl <= 0 && !CommandsFailed(old(drawn), drawn) ==> sessions == old(sessions) - {chat}
    {
      hide SharedInv, HistoryInv, At, PcOk, StepPc, Collects, StartEnded, UpdatesUnique, HashesUnique, ItemRows, Integrity;
      var now := clock;
      ghost var before, first := sessions, drawn;
      Enter(Start(chat));
      KeysHold(cfg, State());
      var refused := RefuseSecondBatch(now, chat);
      if refused.Some? {
        r := Err(refused.value);
        NothingStarted(store.Tables(), before, chat, now, refused.value, LastTwoFailed(old(drawn)));
      } else {
        r := OpenBatch(now, chat, before, first);
      }
      Ends(Done);
    }

    /** The last two commands have failed. */
    ghost predicate LastTwoFailed(from: nat)
      reads this`drawn
    {
      from + 2 <= drawn <= |tape| && tape[drawn - 1].fail && tape[drawn - 2].fail
    }

    /** How a start ends. A batch that failed to get a session stays only if it could not be deleted again either. */
    ghost predicate StartEnded(db: Db, next: Db, before: map<int, Session>, after: map<int, Session>, chat: int, now: Time, r: Result<Relay>, stuck: bool) {
      if Collects(before, db.relays, chat) then (r == Err(SessionActive) || r == Err(CommandFailed)) && next == db && after == before
      else if r.Ok? then
        && BatchAdded(db, next, cfg.userOf(chat), chat, now, r.value)
        && (cfg.batchSessionTtl > 0 ==> after == before[chat := Session(r.value.id, cfg.userOf(chat), chat, 0, 0, 0, 0, now, now)])
        && (cfg.batchSessionTtl <= 0 ==> after == before || after == before - {chat})
      else
        && r == Err(CommandFailed) && (after == before || after == before - {chat})
        && OnlyBatchLeft(db, next, cfg.userOf(chat), chat, now, stuck)
    }

    lemma NothingStarted(db: Db, before: map<int, Session>, chat: int, now: Time, error: Error, stuck: bool)
      ensures Collects(before, db.relays, chat) && (error == SessionActive || error == CommandFailed) ==> StartEnded(db, db, before, before, chat, now, Err(error), stuck)
      ensures error == CommandFailed ==> StartEnded(db, db, before, before, chat, now, Err(error), stuck)
    {
    }

    /** StartBatchUpload once no batch is in the way: the batch and its session, or neither if both can be had. */
    method OpenBatch(now: Time, chat: int, ghost before: map<int, Session>, ghost from: nat) returns (r: Result<Relay>)
      requires At(Starting(StartInsert(now, chat))) && from <= drawn <= |tape| - 3 && Integrity(store.Tables(), cfg.hash)
      requires !Collects(before, store.relays, chat) && (sessions == before || sessions == before - {chat})
      modifies store, this`sessions, this`history, this`drawn, this`upTo, this`pc
      ensures At(Done) && old(drawn) < drawn <= old(drawn) + 3
      ensures r.Err? ==> r.error == CommandFailed && CommandsFailed(old(drawn), drawn)
      ensures StartEnded(old(store.Tables()), store.Tables(), before, sessions, chat, now, r, LastTwoFailed(from))
      ensures r.Ok? && cfg.batchSessionTtl <= 0 ==> sessions == old(sessions)
    {
      hide At, BatchAdded, RelaysDeleted, Collects;
      ghost var db := store.Tables();
      r := InsertBatch(now, chat);
      if r.Ok? {
        ghost var middle := store.Tables();
        var stored := PublishBatch(now, chat, r.value.id);
        if !stored {
          UndoBatch(r.value.id);
          UndoneBatch(db, middle, store.Tables(), cfg.userOf(chat), chat, now, r.value, cfg.hash);
          r := Err(CommandFailed);
        }
      }
    }

    // ----- AppendBatchItem and CancelBatchUpload -----

    method AskForSession(chat: int) returns (r: Result<Session>)
      requires At(pc) && AsksForSession(pc, chat) && drawn < |tape| && (chat in sessions ==> sessions[chat].uploaderChatId == chat)
      modifies this`drawn, this`upTo, this`pc
      ensures r == if tape[old(drawn)].fail then Err(CommandFailed) else if chat in sessions then Ok(sessions[chat]) else Err(SessionNotFound)
      ensures At(if r.Ok? then CheckingSession(old(pc), r.value) else Done)
      ensures drawn == old(drawn) + 1
    {
      hide Follows, ClaimStep, CreateStep, StartStep, FinishStep, ProgressStep, WorkerStep;
      ghost var before, asking := State(), pc;
      var c := Draw();
      r := if c.fail then Err(CommandFailed) else if chat in sessions then Ok(sessions[chat]) else Err(SessionNotFound);
      Stepped(before, c, if r.Ok? then CheckingSession(asking, r.value) else Done);
    }

    method CheckCollecting(ghost asking: Pc, session: Session) returns (r: Option<Error>)
      requires AsksForSession(asking, session.uploaderChatId) && At(CheckingSession(asking, session)) && drawn < |tape|
      modifies this`drawn, this`upTo, this`pc
      ensures At(SessionChecked(asking, session, r)) && drawn == old(drawn) + 1
      ensures r == if tape[old(drawn)].fail then Some(CommandFailed)
        else if session.relayId in store.relays && store.relays[session.relayId].status == Collecting then None else Some(SessionNotFound)
    {
      hide Follows, ClaimStep, CreateStep, StartStep, FinishStep, ProgressStep, WorkerStep;
      ghost var before := State();
      var c := Draw();
      var batch := store.GetRelayById(session.relayId);
      r := if c.fail then Some(CommandFailed)
           else if batch.Ok? && batch.value.status == Collecting then None
           else Some(SessionNotFound);
      Stepped(before, c, SessionChecked(asking, session, r));
    }

    /** getCollectingBatchSession: the chat's session, whose batch is collecting; a session without one is dropped. */
    method GetCollectingBatchSession(chat: int) returns (r: Result<Session>)
      requires Valid() && At(pc) && AsksForSession(pc, chat) && drawn <= |tape| - 3
      modifies this`sessions, this`history, this`drawn, this`upTo, this`pc
      ensures old(drawn) <= drawn <= old(drawn) + 3
      ensures r.Ok? ==> At(WithSession(old(pc), r.value)) && sessions == old(sessions) && history == old(history)
      ensures r.Ok? ==> chat in sessions && r.value == sessions[chat] && r.value.uploaderChatId == chat
      ensures r.Ok? ==> r.value.relayId in store.relays && store.relays[r.value.relayId].status == Collecting
      ensures r.Ok? ==> Collects(sessions, store.relays, chat)
      ensures r.Err? ==> At(Done) && (r.error == CommandFailed || r.error == SessionNotFound)
      ensures r == Err(CommandFailed) ==> CommandsFailed(old(drawn), drawn)
      ensures r == Err(SessionNotFound) ==> !Collects(old(sessions), store.relays, chat)
      ensures r == Err(SessionNotFound) && !CommandsFailed(old(drawn), drawn) ==> chat !in sessions
      ensures r.Err? ==> sessions == old(sessions) || sessions == old(sessions) - {chat}
    {
      hide SharedInv, HistoryInv, At, StepPc;
      ghost var asking := pc;
      if chat in sessions { OwnSession(cfg, State(), chat); }
      r := AskForSession(chat);
      if r.Ok? {
        var refused := CheckCollecting(asking, r.value);
        if refused.Some? {
          r := Err(refused.value);
          if refused.value != CommandFailed {
            DropStaleSession(chat);
          }
        }
      }
    }

    /** AddRelayItem; what remains to be told to the session, or None when the items have to be counted first. */
    method InsertItem(now: Time, upload: Upload, session: Session) returns (r: Result<Option<RelayItem>>)
      requires At(Appending(AppendInsert(now, upload, session))) && drawn < |tape|
      requires Integrity(store.Tables(), cfg.hash) && store.UpdateUnique(upload.sourceUpdateId)
      modifies store, this`history, this`drawn, this`upTo, this`pc
      ensures At(Inserted(now, session, r)) && drawn == old(drawn) + 1
      ensures r == Err(CommandFailed) <==> tape[old(drawn)].fail
      ensures r == Err(CommandFailed) || ItemInserted(old(store.Tables()), store.Tables(), session.relayId, upload, now, r)
      ensures r.Err? ==> store.Tables() == old(store.Tables())
    {
      hide Follows, AddItemTx, Commit, Listing, Grown, Integrity, Stored, ItemAdded, AppendStep;
      ghost var before := State();
      var c := Draw();
      AppendStepIs(cfg, before, now, upload, session, c);
      r := Err(CommandFailed);
      Appends(before.db, session.relayId, upload, cfg.maxBatchItems, now, cfg.hash);
      if !c.fail {
        var added := store.AddRelayItemTx(session.relayId, upload, 0, cfg.maxBatchItems, now, false);
        r := if added.Err? then Err(if added.error == BatchNotCollecting then SessionNotFound else added.error)
             else if added.value.1 then Ok(Some(added.value.0))
             else Ok(None);
        if added.Ok? && added.value.1 {
          CommitSealsOnly(before, store.Tables());
          history := history.(sealed := Commit(before, store.Tables()).sealed);
        }
      }
      Appended(before, c, Inserted(now, session, r));
    }

    /** How the insert of an item into a batch ends. */
    ghost predicate ItemInserted(db: Db, next: Db, id: int, upload: Upload, now: Time, r: Result<Option<RelayItem>>) {
      if !TakesItems(db, id, false) then r == Err(SessionNotFound) || r == Err(RelayNotFound)
      else if Stored(db, upload.sourceUpdateId) then r == Ok(None) && next == db
      else if 0 < cfg.maxBatchItems <= |Listing(db, id)| then r == Err(BatchItemLimit)
      else r.Ok? && r.value.Some? && Grown(db, next, id, upload, now) && r.value.value.itemOrder == |Listing(next, id)| == |Listing(db, id)| + 1
    }

    method CountItems(now: Time, session: Session) returns (r: Result<Session>)
      requires At(Appending(AppendList(now, session))) && drawn < |tape|
      modifies this`drawn, this`upTo, this`pc
      ensures At(if r.Ok? then Appending(AppendMerge(r.value)) else Done) && drawn == old(drawn) + 1
      ensures r == if tape[old(drawn)].fail then Err(CommandFailed) else Ok(session.(itemCount := |Listing(store.Tables(), session.relayId)|, lastActivityAt := now))
    {
      hide Follows, Listing;
      ghost var before := State();
      var c := Draw();
      var items := store.ListRelayItemsByRelayId(session.relayId);
      r := if c.fail then Err(CommandFailed) else Ok(session.(itemCount := |items|, lastActivityAt := now));
      Appended(before, c, if r.Ok? then Appending(AppendMerge(r.value)) else Done);
    }

    /** MergeBatchUploadSession; the caller takes over the merged session only if it is about the same batch. */
    method ReportAppend(session: Session) returns (r: Result<Session>)
      requires At(Appending(AppendMerge(session))) && drawn < |tape|
      modifies this`sessions, this`history, this`drawn, this`upTo, this`pc
      ensures At(Done) && drawn == old(drawn) + 1
      ensures r.Err? ==> r.error == CommandFailed && tape[old(drawn)].fail && sessions == old(sessions)
      ensures r.Ok? ==> var chat := session.uploaderChatId;
        var merged := SessionMerge.MergeResult(if chat in old(sessions) then Some(old(sessions)[chat]) else None, session);
        && r.value == (if cfg.batchSessionTtl > 0 && merged.relayId == session.relayId then merged else session)
        && sessions == (if cfg.batchSessionTtl > 0 then old(sessions)[chat := merged] else old(sessions))
    {
      hide Follows, Merge, SessionMerge.MergeResult, AppendStep;
      ghost var before := State();
      var c := Draw();
      ReportStepIs(cfg, before, session, c);
      if c.fail {
        history := history.(intact := history.intact - {session.uploaderChatId});
        r := Err(CommandFailed);
      } else {
        var merged := MergeSession(session);
        r := Ok(if merged.relayId == session.relayId then merged else session);
      }
      Appended(before, c, Done);
    }

    /** AppendBatchItem once the collecting batch is found. */
    method AppendToBatch(now: Time, upload: Upload, found: Session) returns (r: Result<int>)
      requires At(Appending(AppendInsert(now, upload, found))) && drawn <= |tape| - 3
      requires Integrity(store.Tables(), cfg.hash) && store.UpdateUnique(upload.sourceUpdateId) && Collects(sessions, store.relays, found.uploaderChatId)
      requires sessions[found.uploaderChatId] == found && found.relayId != 0 && found.itemCount <= |Listing(store.Tables(), found.relayId)|
      modifies store, this`history, this`sessions, this`drawn, this`upTo, this`pc
      ensures At(Done) && old(drawn) <= drawn <= old(drawn) + 3
      ensures r == Err(CommandFailed) ==> CommandsFailed(old(drawn), drawn) && sessions == old(sessions)
      ensures r == Err(CommandFailed) ==> store.Tables() == old(store.Tables()) || Grown(old(store.Tables()), store.Tables(), found.relayId, upload, now)
      ensures r == Err(CommandFailed) || AppendEnded(old(store.Tables()), store.Tables(), old(sessions), sessions, found.uploaderChatId, upload, now, r)
      ensures r != Err(SessionNotFound)
    {
      hide At, StepPc, Listing, Integrity, Grown, Rows, Stored, SessionMerge.MergeResult;
      var session := found;
      var added := InsertItem(now, upload, session);
      if added.Err? {
        return Err(added.error);
      }
      if added.value.Some? {
        session := session.(itemCount := added.value.value.itemOrder, lastActivityAt := now);
      } else {
        var counted := CountItems(now, session);
        if counted.Err? {
          return Err(counted.error);
        }
        session := counted.value;
      }
      CountMerges(found, session.itemCount, now);
      var reported := ReportAppend(session);
      if reported.Err? {
        return Err(reported.error);
      }
      r := Ok(reported.value.itemCount);
    }

    /** How an append ends. */
    ghost predicate AppendEnded(db: Db, next: Db, before: map<int, Session>, after: map<int, Session>, chat: int, upload: Upload, now: Time, r: Result<int>) {
      if !Collects(before, db.relays, chat) then r == Err(SessionNotFound) && next == db && (after == before || after == before - {chat})
      else
        var session := before[chat];
        var count := |Listing(db, session.relayId)|;
        if Stored(db, upload.sourceUpdateId) then
          r == Ok(count) && next == db && after == CountStored(before, session, chat, count, now)
        else if 0 < cfg.maxBatchItems <= count then
          r == Err(BatchItemLimit) && next == db && after == before
        else
          r == Ok(count + 1) && Grown(db, next, session.relayId, upload, now) && after == CountStored(before, session, chat, count + 1, now)
    }

    lemma NothingAppended(db: Db, before: map<int, Session>, after: map<int, Session>, chat: int, upload: Upload, now: Time, r: Result<int>)
      ensures r == Err(SessionNotFound) && !Collects(before, db.relays, chat) && (after == before || after == before - {chat}) ==>
        AppendEnded(db, db, before, after, chat, upload, now, r)
    {
    }

    /** The sessions after a count has been merged into that of the chat. */
    ghost function CountStored(before: map<int, Session>, session: Session, chat: int, count: int, now: Time): map<int, Session> {
      if cfg.batchSessionTtl <= 0 then before
      else before[chat := session.(itemCount := count, lastActivityAt := if now > session.lastActivityAt then now else session.lastActivityAt)]
    }

    /**
     * AppendBatchItem. Unless a command fails: without a collecting batch the chat's session is dropped; an update that is
     * stored already changes no table; a full batch refuses the item; and otherwise the list of the batch ends with exactly
     * the uploaded item. The number of its items is returned and kept in the chat's session.
     */
    method AppendBatchItem(chat: int, upload: Upload) returns (r: Result<int>)
      requires Valid() && drawn + 6 <= |tape|
      modifies this, store
      ensures Ran(old(State()), Append(chat, upload), old(drawn)) && Valid()
      ensures r == Err(CommandFailed) ==> CommandsFailed(old(drawn), drawn)
      ensures r == Err(CommandFailed) || AppendEnded(old(store.Tables()), store.Tables(), old(sessions), sessions, chat, upload, old(clock), r)
      ensures r == Err(SessionNotFound) && !CommandsFailed(old(drawn), drawn) ==> chat !in sessions
      ensures r == Err(CommandFailed) && store.Tables() != old(store.Tables()) ==>
        chat in old(sessions) && Grown(old(store.Tables()), store.Tables(), old(sessions)[chat].relayId, upload, old(clock))
    {
      hide SharedInv, HistoryInv, At, PcOk, StepPc, Listing, Grown, Integrity, Rows, AppendEnded, UpdatesUnique, HashesUnique, ItemRows;
      var now := clock;
      Enter(Append(chat, upload));
      KeysHold(cfg, State());
      UploadKeys(upload.sourceUpdateId);
      Stands();
      var found := GetCollectingBatchSession(chat);
      if found.Err? {
        r := Err(found.error);
        NothingAppended(store.Tables(), old(sessions), sessions, chat, upload, now, r);
      } else {
        OwnSession(cfg, State(), chat);
        TablesListed(store.Tables(), cfg.hash, found.value.relayId);
        r := AppendToBatch(now, upload, found.value);
      }
      Ends(Done);
    }

    /** A program that stands somewhere stands at its program counter. */
    ghost method Stands()
      requires At(origin.pc)
      ensures At(pc) && pc == origin.pc
    {
    }

    method CountBeforeCancel(chat: int, id: int) returns (r: Result<int>)
      requires At(Canceling(CancelList(chat, id))) && drawn < |tape|
      modifies this`drawn, this`upTo, this`pc
      ensures At(if r.Ok? then Canceling(CancelDelete(chat, id)) else Done) && drawn == old(drawn) + 1
      ensures r == if tape[old(drawn)].fail then Err(CommandFailed) else Ok(|Listing(store.Tables(), id)|)
    {
      hide Follows, Listing;
      ghost var before := State();
      var c := Draw();
      var items := store.ListRelayItemsByRelayId(id);
      r := if c.fail then Err(CommandFailed) else Ok(|items|);
      Canceled(before, c, if r.Ok? then Canceling(CancelDelete(chat, id)) else Done);
    }

    /** DeleteRelay, by the id alone. */
    method DeleteBatch(chat: int, id: int) returns (ok: bool)
      requires At(Canceling(CancelDelete(chat, id))) && drawn < |tape|
      modifies store, this`history, this`drawn, this`upTo, this`pc
      ensures At(if ok then Canceling(CancelClear(chat)) else Done) && drawn == old(drawn) + 1 && ok == !tape[old(drawn)].fail
      ensures if ok then RelaysDeleted(old(store.Tables()), store.Tables(), {id}) else store.Tables() == old(store.Tables())
    {
      hide Follows, DeleteRelaysTx, Commit, RelaysDeleted;
      ghost var before := State();
      var c := Draw();
      ok := !c.fail;
      if ok {
        store.DeleteRelay(id);
        CommitSealsOnly(before, store.Tables());
        history := history.(sealed := Commit(before, store.Tables()).sealed);
      }
      Canceled(before, c, if ok then Canceling(CancelClear(chat)) else Done);
    }

    method ClearAfterCancel(chat: int)
      requires At(Canceling(CancelClear(chat))) && drawn < |tape|
      modifies this`sessions, this`history, this`drawn, this`upTo, this`pc
      ensures At(Done) && drawn == old(drawn) + 1
      ensures sessions == if tape[old(drawn)].fail then old(sessions) else old(sessions) - {chat}
    {
      hide Follows, Forget;
      ghost var before := State();
      var c := Draw();
      DeleteSession(chat, c);
      Canceled(before, c, Done);
    }

    /** CancelBatchUpload once the collecting batch is found. */
    method CancelBatch(chat: int, id: int) returns (r: Result<int>)
      requires At(Canceling(CancelList(chat, id))) && drawn <= |tape| - 3
      modifies store, this`sessions, this`history, this`drawn, this`upTo, this`pc
      ensures At(Done) && old(drawn) <= drawn <= old(drawn) + 3
      ensures r.Ok? ==> r.value == |Listing(old(store.Tables()), id)| && RelaysDeleted(old(store.Tables()), store.Tables(), {id})
      ensures r.Err? ==> r.error == CommandFailed && CommandsFailed(old(drawn), drawn) && store.Tables() == old(store.Tables()) && sessions == old(sessions)
      ensures sessions == old(sessions) - {chat} || (sessions == old(sessions) && CommandsFailed(old(drawn), drawn))
    {
      hide At, StepPc, Listing, RelaysDeleted;
      r := CountBeforeCancel(chat, id);
      if r.Ok? {
        var deleted := DeleteBatch(chat, id);
        if deleted {
          ClearAfterCancel(chat);
        } else {
          r := Err(CommandFailed);
        }
      }
    }

    /**
     * CancelBatchUpload. Unless a command fails, a collecting batch is gone with its items, whose number is returned, and
     * the chat's session with it; without one there is no session to cancel. Nothing else changes.
     */
    method CancelBatchUpload(chat: int) returns (r: Result<int>)
      requires Valid() && drawn + 6 <= |tape|
      modifies this, store
      ensures Ran(old(State()), Cancel(chat), old(drawn)) && Valid()
      ensures r == Err(CommandFailed) ==> CommandsFailed(old(drawn), drawn)
      ensures r == Err(CommandFailed) || (r.Ok? <==> Collects(old(sessions), old(store.relays), chat))
      ensures r.Ok? ==> chat in old(sessions) && var id := old(sessions)[chat].relayId;
        r.value == |Listing(old(store.Tables()), id)| && RelaysDeleted(old(store.Tables()), store.Tables(), {id})
      ensures r.Err? ==> store.Tables() == old(store.Tables()) && (r.error == CommandFailed || r.error == SessionNotFound)
      ensures sessions == old(sessions) || sessions == old(sessions) - {chat}
      ensures r != Err(CommandFailed) && !CommandsFailed(old(drawn), drawn) ==> chat !in sessions
    {
      hide SharedInv, HistoryInv, At, PcOk, StepPc, Listing, RelaysDeleted;
      Enter(Cancel(chat));
      Stands();
      var found := GetCollectingBatchSession(chat);
      if found.Err? {
        r := Err(found.error);
      } else {
        r := CancelBatch(chat, found.value.relayId);
      }
      Ends(Done);
    }

    // ----- FinishBatchUpload -----

    method AskToFinish(now: Time, chat: int) returns (r: Result<Session>)
      requires At(Finishing(FinishGet(now, chat))) && drawn < |tape|
      modifies this`drawn, this`upTo, this`pc
      ensures At(if r.Ok? then Finishing(FinishCheck(now, chat, r.value)) else Done) && drawn == old(drawn) + 1
      ensures r == if tape[old(drawn)].fail then Err(CommandFailed) else if chat in sessions then Ok(sessions[chat]) else Err(SessionNotFound)
    {
      hide Follows;
      ghost var before := State();
      var c := Draw();
      r := if c.fail then Err(CommandFailed) else if chat in sessions then Ok(sessions[chat]) else Err(SessionNotFound);
      Finishes(before, c, if r.Ok? then Finishing(FinishCheck(now, chat, r.value)) else Done);
    }

    /** GetRelayByID for the session's batch; one that is neither collecting nor ready counts as not found. */
    method CheckBatch(now: Time, chat: int, session: Session) returns (r: Result<Relay>)
      requires At(Finishing(FinishCheck(now, chat, session))) && drawn < |tape|
      modifies this`drawn, this`upTo, this`pc
      ensures At(BatchChecked(now, chat, r)) && drawn == old(drawn) + 1
      ensures r == if tape[old(drawn)].fail then Err(CommandFailed)
        else if session.relayId in store.relays && store.relays[session.relayId].status != Expired then Ok(store.relays[session.relayId]) else Err(SessionNotFound)
    {
      hide Follows;
      ghost var before := State();
      var c := Draw();
      r := Err(CommandFailed);
      if !c.fail {
        r := store.GetRelayById(session.relayId);
        if r.Err? || (r.value.status != Ready && r.value.status != Collecting) {
          r := Err(SessionNotFound);
        }
      }
      Finishes(before, c, BatchChecked(now, chat, r));
    }

    method ListReadyBatch(now: Time, chat: int, batch: Relay) returns (ok: bool)
      requires At(Finishing(FinishListReady(now, chat, batch))) && drawn < |tape|
      modifies this`drawn, this`upTo, this`pc
      ensures At(if ok then Finishing(FinishWarm(now, chat, batch)) else Done) && drawn == old(drawn) + 1 && ok == !tape[old(drawn)].fail
    {
      hide Follows;
      ghost var before := State();
      var c := Draw();
      ok := !c.fail;
      Finishes(before, c, if ok then Finishing(FinishWarm(now, chat, batch)) else Done);
    }

    method RefuseEmptyBatch(now: Time, chat: int, id: int) returns (refused: Option<Error>)
      requires At(Finishing(FinishList(now, chat, id))) && drawn < |tape|
      modifies this`drawn, this`upTo, this`pc
      ensures At(if refused.None? then Finishing(FinishCount(now, chat, id)) else Done) && drawn == old(drawn) + 1
      ensures refused == if tape[old(drawn)].fail then Some(CommandFailed) else if Listing(store.Tables(), id) == [] then Some(SessionEmpty) else None
    {
      hide Follows, Listing;
      ghost var before := State();
      var c := Draw();
      var items := store.ListRelayItemsByRelayId(id);
      refused := if c.fail then Some(CommandFailed) else if |items| == 0 then Some(SessionEmpty) else None;
      Finishes(before, c, if refused.None? then Finishing(FinishCount(now, chat, id)) else Done);
    }

    /** CountActiveRelaysByUploader; at the limit the batch is looked at once more. */
    method CountForFinish(now: Time, chat: int, id: int) returns (r: Result<bool>)
      requires At(Finishing(FinishCount(now, chat, id))) && drawn < |tape|
      modifies this`drawn, this`upTo, this`pc
      ensures At(FinishCounted(now, chat, id, r)) && drawn == old(drawn) + 1
      ensures r == if tape[old(drawn)].fail then Err(CommandFailed) else Ok(|ActiveRelays(store.Tables(), cfg.userOf(chat), now)| < cfg.maxActiveRelays)
    {
      hide Follows, ActiveRelays;
      ghost var before := State();
      var c := Draw();
      var count := store.CountActiveRelaysByUploader(cfg.userOf(chat), now);
      r := if c.fail then Err(CommandFailed) else Ok(count < cfg.maxActiveRelays);
      Finishes(before, c, FinishCounted(now, chat, id, r));
    }

    method RecheckBatch(now: Time, chat: int, id: int) returns (r: Result<Relay>)
      requires At(Finishing(FinishRecheck(now, chat, id))) && drawn < |tape|
      modifies this`drawn, this`upTo, this`pc
      ensures At(BatchSettled(now, chat, r)) && drawn == old(drawn) + 1
      ensures r == if tape[old(drawn)].fail then Err(CommandFailed)
        else if id in store.relays && store.relays[id].status == Ready then Ok(store.relays[id]) else Err(TooManyRelays)
    {
      hide Follows;
      ghost var before := State();
      var c := Draw();
      r := store.GetRelayById(id);
      r := if c.fail then Err(CommandFailed) else if r.Err? || r.value.status != Ready then Err(TooManyRelays) else r;
      Finishes(before, c, BatchSettled(now, chat, r));
    }

    /** FinalizeRelayBatch, with the code that Generate has drawn. */
    method SealBatch(now: Time, chat: int, id: int) returns (r: Result<Relay>)
      requires Valid() && At(Finishing(FinishSeal(now, chat, id))) && drawn < |tape| && Fresh(cfg, State(), tape[drawn].code)
      modifies store, this`history, this`drawn, this`upTo, this`pc
      ensures At(BatchSettled(now, chat, r)) && drawn == old(drawn) + 1
      ensures r == Err(CommandFailed) <==> tape[old(drawn)].fail
      ensures r.Err? ==> store.Tables() == old(store.Tables()) && (r.error == CommandFailed || (r.error == RelayNotFound && (id !in store.relays || store.relays[id].status == Expired)))
      ensures r.Ok? ==> id in old(store.relays) && r.value.status == Ready
      ensures r.Ok? && old(store.relays[id]).status == Collecting ==>
        r.value.codeValue == tape[old(drawn)].code && SealedNow(old(store.Tables()), store.Tables(), id, now, r.value)
      ensures r.Ok? && old(store.relays[id]).status != Collecting ==> r.value == old(store.relays[id]) && store.Tables() == old(store.Tables())
    {
      hide Follows, FinalizeTx, Commit, Fresh, SharedInv, HistoryInv;
      ghost var before := State();
      var c := Draw();
      r := Err(CommandFailed);
      if !c.fail {
        FreshIsFree(cfg, before, c.code);
        FinalizeExactly(before.db, id, c.code, cfg.hash(c.code), now + cfg.defaultTtl, now);
        r := store.FinalizeRelayBatch(id, c.code, cfg.hash(c.code), now + cfg.defaultTtl, now);
        if r.Ok? {
          CommitSealsOnly(before, store.Tables());
          history := history.(sealed := Commit(before, store.Tables()).sealed);
        }
      }
      Finishes(before, c, BatchSettled(now, chat, r));
    }

    method WarmAfterFinish(now: Time, chat: int, batch: Relay)
      requires At(Finishing(FinishWarm(now, chat, batch))) && drawn < |tape|
      modifies this`codes, this`drawn, this`upTo, this`pc
      ensures At(Finishing(FinishClear(chat, batch))) && drawn == old(drawn) + 1
      ensures batch.expiresAt > now && batch.codeHash.Some? && !tape[old(drawn)].fail ==> codes == old(codes)[batch.codeHash.value := batch.id]
    {
      hide Follows, Warm;
      ghost var before := State();
      var c := Draw();
      WarmCache(batch, now, c);
      Finishes(before, c, Finishing(FinishClear(chat, batch)));
    }

    method ClearAfterFinish(chat: int, batch: Relay)
      requires At(Finishing(FinishClear(chat, batch))) && drawn < |tape|
      modifies this`sessions, this`history, this`drawn, this`upTo, this`pc
      ensures At(Finished(batch)) && drawn == old(drawn) + 1
      ensures sessions == if tape[old(drawn)].fail then old(sessions) else old(sessions) - {chat}
    {
      hide Follows, Forget;
      ghost var before := State();
      var c := Draw();
      DeleteSession(chat, c);
      Finishes(before, c, Finished(batch));
    }

    /** The batch is ready with its code and expires after the time to live; only its row has changed. */
    ghost predicate SealedNow(db: Db, next: Db, id: int, now: Time, row: Relay) {
      BatchSealed(db, next, id, row.codeValue, cfg.hash(row.codeValue), now + cfg.defaultTtl, now, row)
    }

    /** How the finish of a batch ends. */
    ghost predicate BatchFinished(db: Db, next: Db, chat: int, id: int, now: Time, r: Result<Relay>)
      requires id in db.relays
    {
      if db.relays[id].status == Ready then r == Ok(db.relays[id]) && next == db
      else if Listing(db, id) == [] then r == Err(SessionEmpty) && next == db
      else if |ActiveRelays(db, cfg.userOf(chat), now)| >= cfg.maxActiveRelays then r == Err(TooManyRelays) && next == db
      else r.Ok? && SealedNow(db, next, id, now, r.value)
    }

    /** FinishBatchUpload for a batch that is still collecting. */
    method FinishCollecting(now: Time, chat: int, id: int) returns (r: Result<Relay>)
      requires Valid() && At(Finishing(FinishList(now, chat, id))) && drawn <= |tape| - 3 && id in store.relays && store.relays[id].status == Collecting
      requires forall i :: drawn <= i < |tape| ==> Fresh(cfg, State(), tape[i].code)
      modifies store, this`history, this`drawn, this`upTo, this`pc
      ensures At(BatchSettled(now, chat, r)) && old(drawn) <= drawn <= old(drawn) + 3
      ensures r == Err(CommandFailed) ==> CommandsFailed(old(drawn), drawn) && store.Tables() == old(store.Tables())
      ensures r == Err(CommandFailed) || BatchFinished(old(store.Tables()), store.Tables(), chat, id, now, r)
      ensures r.Ok? ==> exists i :: old(drawn) <= i < drawn && tape[i].code == r.value.codeValue
    {
      hide At, StepPc, Fresh, Listing, ActiveRelays, SharedInv, HistoryInv, SealedNow;
      var refused := RefuseEmptyBatch(now, chat, id);
      if refused.Some? {
        return Err(refused.value);
      }
      var below := CountForFinish(now, chat, id);
      if below.Err? {
        return Err(below.error);
      }
      if below.value {
        r := SealBatch(now, chat, id);
      } else {
        r := RecheckBatch(now, chat, id);
      }
    }

    /** FinishBatchUpload once the batch is found, collecting or ready. */
    method FinishBatch(now: Time, chat: int, batch: Relay) returns (r: Result<Relay>)
      requires Valid() && At(BatchChecked(now, chat, Ok(batch))) && drawn <= |tape| - 5
      requires batch.id in store.relays && store.relays[batch.id] == batch && batch.status != Expired
      requires forall i :: drawn <= i < |tape| ==> Fresh(cfg, State(), tape[i].code)
      modifies store, this`codes, this`sessions, this`history, this`drawn, this`upTo, this`pc
      ensures At(if r.Ok? then Finished(r.value) else Done) && old(drawn) <= drawn <= old(drawn) + 5
      ensures r == Err(CommandFailed) ==> CommandsFailed(old(drawn), drawn) && store.Tables() == old(store.Tables())
      ensures r == Err(CommandFailed) || BatchFinished(old(store.Tables()), store.Tables(), chat, batch.id, now, r)
      ensures r.Ok? && batch.status == Collecting ==> exists i :: old(drawn) <= i < drawn && tape[i].code == r.value.codeValue
      ensures r.Err? ==> sessions == old(sessions)
      ensures r.Ok? ==> sessions == old(sessions) - {chat} || (sessions == old(sessions) && CommandsFailed(old(drawn), drawn))
      ensures r.Ok? && r.value.expiresAt > now && r.value.codeHash.Some? && !CommandsFailed(old(drawn), drawn) ==>
        codes == old(codes)[r.value.codeHash.value := r.value.id]
    {
      hide At, StepPc, Fresh, Listing, ActiveRelays, SharedInv, HistoryInv, SealedNow;
      if batch.status == Ready {
        var listed := ListReadyBatch(now, chat, batch);
        r := if listed then Ok(batch) else Err(CommandFailed);
      } else {
        r := FinishCollecting(now, chat, batch.id);
      }
      if r.Ok? {
        WarmAfterFinish(now, chat, r.value);
        ClearAfterFinish(chat, r.value);
      }
    }

    /** How a finish ends. */
    ghost predicate FinishEnded(db: Db, next: Db, before: map<int, Session>, chat: int, now: Time, r: Result<Relay>) {
      if chat !in before || before[chat].relayId !in db.relays || db.relays[before[chat].relayId].status == Expired
      then r == Err(SessionNotFound) && next == db
      else BatchFinished(db, next, chat, before[chat].relayId, now, r)
    }

    /**
     * FinishBatchUpload. Unless a command fails, the batch of the chat's session is returned as it is if it is ready
     * already; an empty one, or one of an uploader at the limit, stays as it is; and any other becomes ready under the code
     * that Generate has drawn, with the items it had, and nothing else in the tables changes. The lookup of the code finds
     * the batch until it expires, in the cache at once, and the session is gone.
     */
    method FinishBatchUpload(chat: int) returns (r: Result<Relay>)
      requires Valid() && drawn + 7 <= |tape|
      requires forall i :: drawn <= i < |tape| ==> Fresh(cfg, State(), tape[i].code)
      modifies this, store
      ensures Ran(old(State()), Finish(chat), old(drawn)) && Valid() && pc == if r.Ok? then Finished(r.value) else pc
      ensures r == Err(CommandFailed) ==> CommandsFailed(old(drawn), drawn)
      ensures r.Err? ==> store.Tables() == old(store.Tables())
      ensures r == Err(CommandFailed) || FinishEnded(old(store.Tables()), store.Tables(), old(sessions), chat, old(clock), r)
      ensures r.Ok? && store.Tables() != old(store.Tables()) ==> exists i :: old(drawn) <= i < drawn && tape[i].code == r.value.codeValue
      ensures r.Ok? ==> Listing(store.Tables(), r.value.id) == Listing(old(store.Tables()), r.value.id) != []
      ensures r.Ok? ==> forall at :: at < r.value.expiresAt ==> Lookup.Answers(store.Tables(), cfg.hash(r.value.codeValue), at, r)
      ensures r.Ok? && r.value.expiresAt > old(clock) && !CommandsFailed(old(drawn), drawn) ==> codes == old(codes)[cfg.hash(r.value.codeValue) := r.value.id]
      ensures sessions == old(sessions) || sessions == old(sessions) - {chat}
      ensures (r.Ok? || r.error == SessionNotFound) && !CommandsFailed(old(drawn), drawn) ==> chat !in sessions
    {
      hide SharedInv, HistoryInv, At, PcOk, StepPc, Fresh, Lookup.Answers, Listing, ActiveRelays, Integrity, SharedEvolves, FinishEnded, UpdatesUnique, HashesUnique, ItemRows;
      var now := clock;
      ghost var start := State();
      Enter(Finish(chat));
      KeysHold(cfg, start);
      var session := AskToFinish(now, chat);
      if session.Err? {
        r := Err(session.error);
        NothingToFinish(start.db, sessions, chat, now);
        Ends(Done);
      } else {
        OwnSession(cfg, start, chat);
        r := FinishSession(now, chat, session.value);
        Ends(if r.Ok? then Finished(r.value) else Done);
      }
      if r.Ok? {
        ReadyBatchIsFound(cfg, State(), r.value.id);
      }
    }

    lemma NothingToFinish(db: Db, before: map<int, Session>, chat: int, now: Time)
      ensures chat !in before ==> FinishEnded(db, db, before, chat, now, Err(SessionNotFound))
    {
    }

    /** FinishBatchUpload for the session of the chat. */
    method FinishSession(now: Time, chat: int, session: Session) returns (r: Result<Relay>)
      requires Valid() && At(Finishing(FinishCheck(now, chat, session))) && drawn <= |tape| - 6 && chat in sessions && sessions[chat] == session
      requires forall id :: id in store.relays ==> store.relays[id].id == id
      requires forall i :: drawn <= i < |tape| ==> Fresh(cfg, State(), tape[i].code)
      modifies store, this`codes, this`sessions, this`history, this`drawn, this`upTo, this`pc
      ensures At(if r.Ok? then Finished(r.value) else Done) && old(drawn) <= drawn <= old(drawn) + 6
      ensures r == Err(CommandFailed) ==> CommandsFailed(old(drawn), drawn)
      ensures r == Err(CommandFailed) || FinishEnded(old(store.Tables()), store.Tables(), old(sessions), chat, now, r)
      ensures r.Err? ==> store.Tables() == old(store.Tables())
      ensures r.Ok? && store.Tables() != old(store.Tables()) ==> exists i :: old(drawn) <= i < drawn && tape[i].code == r.value.codeValue
      ensures r.Ok? ==> session.relayId in old(store.relays) && HasRelay(store.Tables(), r.value) && r.value.id == session.relayId && r.value.status == Ready
      ensures r.Ok? ==> r.value.sourceUpdateId == old(store.relays)[session.relayId].sourceUpdateId
      ensures r.Ok? ==> Listing(store.Tables(), session.relayId) == Listing(old(store.Tables()), session.relayId)
      ensures r.Ok? && r.value.expiresAt > now && r.value.codeHash.Some? && !CommandsFailed(old(drawn), drawn) ==>
        codes == old(codes)[r.value.codeHash.value := r.value.id]
      ensures sessions == old(sessions) || sessions == old(sessions) - {chat}
      ensures (r.Ok? || r.error == SessionNotFound) && !CommandsFailed(old(drawn), drawn) ==> chat !in sessions
    {
      hide SharedInv, HistoryInv, At, StepPc, Fresh, Listing, ActiveRelays, SealedNow, BatchFinished;
      ghost var db := store.Tables();
      r := CheckBatch(now, chat, session);
      if r.Err? {
        if r.error != CommandFailed {
          DropStaleSession(chat);
        }
      } else {
        r := FinishBatch(now, chat, r.value);
        if r.Ok? {
          FinishedFacts(db, store.Tables(), chat, session.relayId, now, r);
        } else if r.error != CommandFailed {
          UnfinishedFacts(db, store.Tables(), chat, session.relayId, now, r);
        }
      }
    }

    lemma FinishedFacts(db: Db, next: Db, chat: int, id: int, now: Time, r: Result<Relay>)
      requires id in db.relays && db.relays[id].id == id && BatchFinished(db, next, chat, id, now, r) && r.Ok?
      ensures HasRelay(next, r.value) && r.value.id == id && r.value.status == Ready && r.value.sourceUpdateId == db.relays[id].sourceUpdateId
      ensures Listing(next, id) == Listing(db, id) && (db.relays[id].status != Collecting ==> next == db)
    {
    }

    lemma UnfinishedFacts(db: Db, next: Db, chat: int, id: int, now: Time, r: Result<Relay>)
      requires id in db.relays && BatchFinished(db, next, chat, id, now, r) && r.Err?
      ensures next == db && r.error != SessionNotFound
    {
    }

    // ----- UpdateBatchProgress -----

    method ReadProgress(chat: int, id: int, message: int, notifiedAt: Time, count: int) returns (r: Result<Session>)
      requires At(Reporting(ProgressGet(chat, id, message, notifiedAt, count))) && drawn < |tape|
      modifies this`drawn, this`upTo, this`pc
      ensures At(if r.Ok? then Reporting(ProgressMerge(r.value)) else Done) && drawn == old(drawn) + 1
      ensures r == if tape[old(drawn)].fail then Err(CommandFailed)
        else if chat in sessions && (id == 0 || sessions[chat].relayId == id) then Ok(Reported(sessions[chat], message, notifiedAt, count, clock))
        else Err(SessionNotFound)
    {
      hide Follows, ClaimStep, CreateStep, StartStep, AppendStep, FinishStep, CancelStep, WorkerStep;
      ghost var before := State();
      var c := Draw();
      r := Err(CommandFailed);
      if !c.fail {
        if chat !in sessions || (id != 0 && sessions[chat].relayId != id) {
          r := Err(SessionNotFound);
        } else {
          var session := sessions[chat];
          if message > 0 {
            session := session.(progressMessageId := message);
          }
          if notifiedAt != 0 {
            session := session.(lastProgressNotifiedAt := notifiedAt);
          }
          if count > 0 {
            session := session.(lastProgressNotifiedCount := count);
          }
          r := Ok(session.(lastActivityAt := clock));
        }
      }
      Stepped(before, c, if r.Ok? then Reporting(ProgressMerge(r.value)) else Done);
    }

    method StoreProgress(session: Session) returns (ok: bool)
      requires At(Reporting(ProgressMerge(session))) && drawn < |tape|
      modifies this`sessions, this`drawn, this`upTo, this`pc
      ensures At(Done) && drawn == old(drawn) + 1 && ok == !tape[old(drawn)].fail
      ensures ok && cfg.batchSessionTtl > 0 ==> var chat := session.uploaderChatId;
        sessions == old(sessions)[chat := SessionMerge.MergeResult(if chat in old(sessions) then Some(old(sessions)[chat]) else None, session)]
      ensures !ok || cfg.batchSessionTtl <= 0 ==> sessions == old(sessions)
    {
      hide Follows, Merge, SessionMerge.MergeResult, ClaimStep, CreateStep, StartStep, AppendStep, FinishStep, CancelStep, WorkerStep;
      ghost var before := State();
      var c := Draw();
      ok := !c.fail;
      if ok {
        var _ := MergeSession(session);
      }
      Stepped(before, c, Done);
    }

    /**
     * UpdateBatchProgress. Unless a command fails, the chat's session takes over what was reported and is otherwise as
     * before, as are all others; it has to be about the batch that was asked for, if one was.
     */
    method UpdateBatchProgress(chat: int, id: int, message: int, notifiedAt: Time, count: int) returns (r: Option<Error>)
      requires Valid() && drawn + 2 <= |tape|
      modifies this, store
      ensures Ran(old(State()), Progress(chat, id, message, notifiedAt, count), old(drawn)) && Valid() && store.Tables() == old(store.Tables())
      ensures r == Some(CommandFailed) ==> CommandsFailed(old(drawn), drawn)
      ensures r == Some(CommandFailed) ||
        r == if chat in old(sessions) && (id == 0 || old(sessions)[chat].relayId == id) then None else Some(SessionNotFound)
      ensures r.None? ==> chat in old(sessions) && (cfg.batchSessionTtl <= 0 ==> sessions == old(sessions))
      ensures r.None? && cfg.batchSessionTtl > 0 ==> sessions == old(sessions)[chat := Progressed(old(sessions)[chat], message, notifiedAt, count, clock)]
      ensures r.Some? ==> sessions == old(sessions)
    {
      hide SharedInv, HistoryInv, At, PcOk, StepPc;
      Enter(Progress(chat, id, message, notifiedAt, count));
      if chat in sessions { OwnSession(cfg, State(), chat); }
      var session := ReadProgress(chat, id, message, notifiedAt, count);
      if session.Err? {
        r := Some(session.error);
      } else {
        var stored := StoreProgress(session.value);
        r := if stored then None else Some(CommandFailed);
      }
      Ends(Done);
    }

    // ----- The maintenance cycle -----

    method SweepTask(now: Time) returns (count: int, failed: bool)
      requires At(Maintaining(SweepBatches(now))) && drawn < |tape|
      modifies store, this`history, this`drawn, this`upTo, this`pc
      ensures At(Maintaining(ExpireReady(now))) && drawn == old(drawn) + 1 && failed == tape[old(drawn)].fail
      ensures if failed then count == 0 && store.Tables() == old(store.Tables()) else Swept(old(store.Tables()), store.Tables(), now - cfg.batchSessionTtl)
    {
      hide Swept, Follows, DeleteRelaysTx, StaleBatches, Commit;
      ghost var before := State();
      var c := Draw();
      count, failed := 0, c.fail;
      if !failed {
        count := store.DeleteCollectingRelaysBefore(now - cfg.batchSessionTtl);
        CommitSealsOnly(before, store.Tables());
        history := history.(sealed := Commit(before, store.Tables()).sealed);
      }
      Maintained(before, c, Maintaining(ExpireReady(now)));
    }

    method ExpireTask(now: Time) returns (count: int, failed: bool)
      requires At(Maintaining(ExpireReady(now))) && drawn < |tape|
      modifies store, this`history, this`drawn, this`upTo, this`pc
      ensures At(Maintaining(TimeoutDeliveries(now))) && drawn == old(drawn) + 1 && failed == tape[old(drawn)].fail
      ensures if failed then count == 0 && store.Tables() == old(store.Tables()) else OverdueExpired(old(store.Tables()), store.Tables(), now)
    {
      hide OverdueExpired, Follows, ExpireTx, Commit;
      ghost var before := State();
      var c := Draw();
      count, failed := 0, c.fail;
      if !failed {
        count := store.ExpireRelays(now);
        CommitSealsOnly(before, store.Tables());
        history := history.(sealed := Commit(before, store.Tables()).sealed);
      }
      Maintained(before, c, Maintaining(TimeoutDeliveries(now)));
    }

    method TimeoutTask(now: Time) returns (count: int, failed: bool)
      requires At(Maintaining(TimeoutDeliveries(now))) && drawn < |tape|
      modifies store, this`history, this`drawn, this`upTo, this`pc
      ensures At(Maintaining(PurgeDeliveries(now))) && drawn == old(drawn) + 1 && failed == tape[old(drawn)].fail
      ensures if failed then count == 0 && store.Tables() == old(store.Tables()) else OldUnknown(old(store.Tables()), store.Tables(), now - cfg.unknownDeliveryAfter)
    {
      hide OldUnknown, Follows, TimeoutTx, Commit;
      ghost var before := State();
      var c := Draw();
      count, failed := 0, c.fail;
      if !failed {
        count := store.MarkUnknownDeliveriesBefore(now - cfg.unknownDeliveryAfter);
        CommitSealsOnly(before, store.Tables());
        history := history.(sealed := Commit(before, store.Tables()).sealed);
      }
      Maintained(before, c, Maintaining(PurgeDeliveries(now)));
    }

    method PurgeTask(now: Time) returns (count: int, failed: bool)
      requires At(Maintaining(PurgeDeliveries(now))) && drawn < |tape|
      modifies store, this`history, this`drawn, this`upTo, this`pc
      ensures At(Done) && drawn == old(drawn) + 1 && failed == tape[old(drawn)].fail
      ensures if failed then count == 0 && store.Tables() == old(store.Tables()) else Purged(old(store.Tables()), store.Tables(), now - cfg.expiredDeliveryPurge)
    {
      hide Purged, Follows, PurgeTx, Losers, Commit;
      ghost var before := State();
      var c := Draw();
      count, failed := 0, c.fail;
      if !failed {
        count := store.DeleteExpiredDeliveriesBefore(now - cfg.expiredDeliveryPurge);
        CommitSealsOnly(before, store.Tables());
        history := history.(sealed := Commit(before, store.Tables()).sealed,
                            purged := history.purged + Losers(before.db, now - cfg.expiredDeliveryPurge));
      }
      Maintained(before, c, Done);
    }

    /** What the four tasks make of the tables, each of them unless it failed. */
    ghost predicate Maintenance(db: Db, next: Db, now: Time, from: nat)
      requires from + 4 <= |tape|
    {
      exists swept, expired, timed :: Tasks(db, swept, expired, timed, next, now, from)
    }

    ghost predicate Tasks(db: Db, swept: Db, expired: Db, timed: Db, next: Db, now: Time, from: nat)
      requires from + 4 <= |tape|
    {
      && (if tape[from].fail then swept == db else Swept(db, swept, now - cfg.batchSessionTtl))
      && (if tape[from + 1].fail then expired == swept else OverdueExpired(swept, expired, now))
      && (if tape[from + 2].fail then timed == expired else OldUnknown(expired, timed, now - cfg.unknownDeliveryAfter))
      && (if tape[from + 3].fail then next == timed else Purged(timed, next, now - cfg.expiredDeliveryPurge))
    }

    /**
     * runOnce: the four tasks in order, each whether or not the ones before it failed. Batches that nobody has touched for
     * the time of a session go, overdue relays expire, deliveries that have been pending too long become unknown, and the
     * old ones of relays that expired long ago go.
     */
    method RunOnce() returns (hadError: bool)
      requires Valid() && drawn + 4 <= |tape|
      modifies this, store
      ensures Ran(old(State()), Maintain, old(drawn)) && Valid() && drawn == old(drawn) + 4
      ensures hadError == (tape[drawn - 4].fail || tape[drawn - 3].fail || tape[drawn - 2].fail || tape[drawn - 1].fail)
      ensures Maintenance(old(store.Tables()), store.Tables(), clock, old(drawn))
      ensures sessions == old(sessions) && codes == old(codes) && outbox == old(outbox) && clock == old(clock)
    {
      hide SharedInv, HistoryInv, At, PcOk, StepPc, Maintenance;
      Enter(Maintain);
      hadError := RunTasks(clock);
      Ends(Done);
    }

    method RunTasks(now: Time) returns (hadError: bool)
      requires At(Maintaining(SweepBatches(now))) && drawn + 4 <= |tape|
      modifies store, this`history, this`drawn, this`upTo, this`pc
      ensures At(Done) && drawn == old(drawn) + 4
      ensures hadError == (tape[drawn - 4].fail || tape[drawn - 3].fail || tape[drawn - 2].fail || tape[drawn - 1].fail)
      ensures Maintenance(old(store.Tables()), store.Tables(), now, old(drawn))
    {
      hide At, Swept, OverdueExpired, OldUnknown, Purged;
      var swept, failed := SweepTask(now);
      ghost var afterSweep := store.Tables();
      hadError := failed;
      var expired;
      expired, failed := ExpireTask(now);
      ghost var afterExpiry := store.Tables();
      hadError := hadError || failed;
      var unknown;
      unknown, failed := TimeoutTask(now);
      ghost var afterTimeout := store.Tables();
      hadError := hadError || failed;
      var purgedRows;
      purgedRows, failed := PurgeTask(now);
      hadError := hadError || failed;
      assert Tasks(old(store.Tables()), afterSweep, afterExpiry, afterTimeout, store.Tables(), now, old(drawn));
    }
  }
}
