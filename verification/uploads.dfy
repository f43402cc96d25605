/**
 * Where stored files come from, over whole runs: every item of every relay, and so everything that is ever sent, is a
 * file that some update of the relay's chat has handed in, as it was handed in.
 */
module Uploads {
  import opened RelayTypes
  import opened Store
  import opened StoreFacts
  import opened Protocol
  import opened Invariants
  import opened Steps
  import opened Runs
  import opened Lifecycle
  import AtMostOnce
  import Paging

  // ----- What has been handed in -----

  /** Some action of the run has started a handler on this request. */
  ghost predicate Asked(cfg: Config, actions: seq<Action>, request: Request) {
    exists k :: 0 <= k < |actions| && Asks(cfg, actions, k, request)
  }

  ghost predicate Asks(cfg: Config, actions: seq<Action>, k: nat, request: Request)
    requires k < |actions|
  {
    actions[k].Spawn? && actions[k].request == request && actions[k].thread !in Run(cfg, actions[..k]).threads
  }

  /** The item is a file of the chat: one that was appended to a batch, or one that was uploaded by itself. */
  ghost predicate FromUpload(cfg: Config, actions: seq<Action>, chat: int, item: RelayItem) {
    exists upload ::
      || (Asked(cfg, actions, Append(chat, upload)) && Carries(item, upload))
      || (Asked(cfg, actions, Create(chat, upload)) && Carries(item, upload.(mediaGroupId := "")))
  }

  lemma AskedStays(cfg: Config, actions: seq<Action>, action: Action, request: Request)
    requires Asked(cfg, actions, request)
    ensures Asked(cfg, actions + [action], request)
  {
    hide Run;
    var k :| 0 <= k < |actions| && Asks(cfg, actions, k, request);
    assert (actions + [action])[..k] == actions[..k];
    assert Asks(cfg, actions + [action], k, request);
  }

  lemma FromUploadStays(cfg: Config, actions: seq<Action>, action: Action, chat: int, item: RelayItem)
    requires FromUpload(cfg, actions, chat, item)
    ensures FromUpload(cfg, actions + [action], chat, item)
  {
    hide Asked;
    var upload :| (Asked(cfg, actions, Append(chat, upload)) && Carries(item, upload))
               || (Asked(cfg, actions, Create(chat, upload)) && Carries(item, upload.(mediaGroupId := "")));
    if Asked(cfg, actions, Append(chat, upload)) { AskedStays(cfg, actions, action, Append(chat, upload)); }
    if Asked(cfg, actions, Create(chat, upload)) { AskedStays(cfg, actions, action, Create(chat, upload)); }
  }

  lemma {:induction false} FromUploadLater(cfg: Config, actions: seq<Action>, k: nat, chat: int, item: RelayItem)
    requires k <= |actions| && FromUpload(cfg, actions[..k], chat, item)
    ensures FromUpload(cfg, actions, chat, item)
    decreases |actions| - k
  {
    hide FromUpload;
    if k < |actions| {
      FromUploadStays(cfg, actions[..k], actions[k], chat, item);
      assert actions[..k] + [actions[k]] == actions[..k + 1];
      FromUploadLater(cfg, actions, k + 1, chat, item);
    } else {
      assert actions[..k] == actions;
    }
  }

  // ----- The invariant -----

  /** What a handler is still to store was handed in to it. */
  ghost predicate PcAsked(cfg: Config, actions: seq<Action>, pc: Pc) {
    match pc
    case Creating(CreateCheck(now, chat, upload)) => Asked(cfg, actions, Create(chat, upload))
    case Creating(CreateCount(now, chat, upload)) => Asked(cfg, actions, Create(chat, upload))
    case Creating(CreateInsert(now, chat, upload)) => Asked(cfg, actions, Create(chat, upload))
    case Appending(AppendGet(now, chat, upload)) => Asked(cfg, actions, Append(chat, upload))
    case Appending(AppendCheck(now, upload, session)) => Asked(cfg, actions, Append(session.uploaderChatId, upload))
    case Appending(AppendInsert(now, upload, session)) => Asked(cfg, actions, Append(session.uploaderChatId, upload))
    case _ => true
  }

  ghost predicate RowsFromUploads(cfg: Config, actions: seq<Action>, db: Db) {
    forall r, i :: r in db.relays && 0 <= i < |Rows(db, r)| ==> FromUpload(cfg, actions, db.relays[r].uploaderChatId, Rows(db, r)[i])
  }

  ghost predicate UploadInv(cfg: Config, actions: seq<Action>) {
    var w := Run(cfg, actions);
    RowsFromUploads(cfg, actions, w.sh.db) && forall t :: t in w.threads ==> PcAsked(cfg, actions, w.threads[t])
  }

  lemma PcAskedStays(cfg: Config, actions: seq<Action>, action: Action, pc: Pc)
    requires PcAsked(cfg, actions, pc)
    ensures PcAsked(cfg, actions + [action], pc)
  {
    hide Asked;
    match pc
    case Creating(p) => if !p.CreateWarm? { AskedStays(cfg, actions, action, Create(p.chat, p.upload)); }
    case Appending(p) =>
      if p.AppendGet? {
        AskedStays(cfg, actions, action, Append(p.chat, p.upload));
      } else if p.AppendCheck? || p.AppendInsert? {
        AskedStays(cfg, actions, action, Append(p.session.uploaderChatId, p.upload));
      }
    case _ =>
  }

  lemma EntryAsked(cfg: Config, actions: seq<Action>, t: int, request: Request)
    requires t !in Run(cfg, actions).threads
    ensures PcAsked(cfg, actions + [Spawn(t, request)], Entry(Run(cfg, actions).sh, request))
  {
    hide Run;
    var longer := actions + [Spawn(t, request)];
    assert longer[..|actions|] == actions;
    assert Asks(cfg, longer, |actions|, request);
    assert Asked(cfg, longer, request);
  }

  /** Steps hand an upload on as it is. */
  lemma StepAsked(cfg: Config, actions: seq<Action>, sh: Shared, pc: Pc, choice: Choice, next: Shared, to: Pc)
    requires SharedInv(cfg, sh) && PcAsked(cfg, actions, pc) && StepPc(cfg, sh, pc, choice) == (next, to)
    ensures PcAsked(cfg, actions, to)
  {
    hide Asked, Integrity, SealsInv, CodesInv, BatchesBounded, DeliveriesSealed, AddItemTx, CreateRelayTx, CreateBatchTx, FinalizeTx, CreateDeliveryTx, MarkTx,
      MarkSentTx, DeleteRelaysTx, ExpireTx, TimeoutTx, PurgeTx, Losers, Listing, RelayByHash, RelayByUpdate, ActiveRelays, Fresh, Commit;
    if pc.Appending? && pc.append.AppendGet? && pc.append.chat in sh.sessions {
      assert SessionOk(cfg, sh.db, pc.append.chat, sh.sessions[pc.append.chat]);
    }
  }

  // ----- New items -----

  /** The row was there before, or it is the upload of this handler, in a relay of its chat. */
  ghost predicate OldOrUploaded(sh: Shared, pc: Pc, next: Shared, r: int, i: int)
    requires r in next.db.relays && 0 <= i < |Rows(next.db, r)|
  {
    var item := Rows(next.db, r)[i];
    || (r in sh.db.relays && i < |Rows(sh.db, r)| && item == Rows(sh.db, r)[i])
    || (pc.Appending? && pc.append.AppendInsert? && Carries(item, pc.append.upload) && next.db.relays[r].uploaderChatId == pc.append.session.uploaderChatId)
    || (pc.Creating? && pc.create.CreateInsert? && Carries(item, pc.create.upload.(mediaGroupId := "")) && next.db.relays[r].uploaderChatId == pc.create.chat)
  }

  lemma AppendedRows(cfg: Config, sh: Shared, p: AppendPc, choice: Choice, next: Shared, to: Pc, r: int, i: int)
    requires SharedInv(cfg, sh) && p.AppendInsert? && AppendOk(cfg, sh, p) && AppendStep(cfg, sh, p, choice) == (next, to)
    requires r in next.db.relays && 0 <= i < |Rows(next.db, r)|
    ensures OldOrUploaded(sh, Appending(p), next, r, i)
  {
    hide Integrity, SealsInv, CodesInv, SessionsInv, BatchesBounded, DeliveriesSealed, AddItemTx, Evolves, Stored, NextOrder;
    InvariantTables(cfg, sh);
    AddItemKeeps(sh.db, p.session.relayId, p.upload, cfg.maxBatchItems, p.now, cfg.hash);
    AddItemExactly(sh.db, p.session.relayId, p.upload, 0, cfg.maxBatchItems, p.now, false);
    AppendKeepsOthers(sh.db, p.session.relayId, p.upload, cfg.maxBatchItems, p.now);
  }

  lemma CreatedRows(cfg: Config, sh: Shared, p: CreatePc, choice: Choice, next: Shared, to: Pc, r: int, i: int)
    requires SharedInv(cfg, sh) && p.CreateInsert? && CreateStep(cfg, sh, p, choice) == (next, to)
    requires r in next.db.relays && 0 <= i < |Rows(next.db, r)|
    ensures OldOrUploaded(sh, Creating(p), next, r, i)
  {
    hide SealsInv, CodesInv, SessionsInv, BatchesBounded, DeliveriesSealed, CreateRelayTx, Fresh, Stored,
      HashesUnique, UpdatesUnique, DeliveryRows, RequestsUnique;
    var code := choice.code;
    var (db, row) := CreateRelayTx(sh.db, p.upload, code, cfg.hash(code), cfg.userOf(p.chat), p.chat, p.now + cfg.defaultTtl, p.now);
    CreateRelayExactly(sh.db, p.upload, code, cfg.hash(code), cfg.userOf(p.chat), p.chat, p.now + cfg.defaultTtl, p.now);
    assert next != sh ==> row.Ok? && next.db == db;
    if next != sh && !Stored(sh.db, p.upload.sourceUpdateId) {
      var item :| FileItem(sh.db, db, row.value.id, p.upload, p.now, item);
    }
  }

  lemma StepRowsUploaded(cfg: Config, sh: Shared, pc: Pc, choice: Choice, next: Shared, to: Pc, r: int, i: int)
    requires SharedInv(cfg, sh) && PcOk(cfg, sh, pc) && StepPc(cfg, sh, pc, choice) == (next, to)
    requires r in next.db.relays && 0 <= i < |Rows(next.db, r)|
    ensures OldOrUploaded(sh, pc, next, r, i)
  {
    hide SharedInv, ClaimStep, CreateStep, AppendStep, FinishStep, CancelStep, ProgressStep, WorkerStep, AppendOk;
    if !Inserts(pc) {
      QuietRows(cfg, sh, pc, choice, next, to);
    } else if pc.Appending? {
      AppendedRows(cfg, sh, pc.append, choice, next, to, r, i);
    } else if pc.Creating? {
      CreatedRows(cfg, sh, pc.create, choice, next, to, r, i);
    } else {
      StartedRows(cfg, sh, pc.start, choice, next, to, r);
    }
  }

  lemma StartedRows(cfg: Config, sh: Shared, p: StartPc, choice: Choice, next: Shared, to: Pc, r: int)
    requires p.StartInsert? && StartStep(cfg, sh, p, choice) == (next, to) && r in next.db.relays
    ensures Rows(next.db, r) == [] || (r in sh.db.relays && Rows(next.db, r) == Rows(sh.db, r))
  {
  }

  /** A relay stays in its chat. */
  lemma SameUploader(cfg: Config, sh: Shared, next: Shared, r: int)
    requires SharedInv(cfg, sh) && SharedEvolves(sh, next) && r in sh.db.relays && r in next.db.relays
    ensures next.db.relays[r].uploaderChatId == sh.db.relays[r].uploaderChatId
  {
    assert RowEvolves(sh.db.relays[r], next.db.relays[r]);
  }

  lemma AdvanceUploaded(cfg: Config, actions: seq<Action>, t: int, choice: Choice)
    requires UploadInv(cfg, actions) && t in Run(cfg, actions).threads
    ensures RowsFromUploads(cfg, actions, Run(cfg, actions + [Advance(t, choice)]).sh.db)
  {
    hide Run, SharedInv, HistoryInv, PcOk, StepPc, SharedEvolves, Asked, Carries, Rows;
    var w, next := Run(cfg, actions), Run(cfg, actions + [Advance(t, choice)]);
    var pc := w.threads[t];
    RunSnoc(cfg, actions, Advance(t, choice));
    RunKeeps(cfg, actions);
    NextKeeps(cfg, w, Advance(t, choice), next);
    forall r, i | r in next.sh.db.relays && 0 <= i < |Rows(next.sh.db, r)|
      ensures FromUpload(cfg, actions, next.sh.db.relays[r].uploaderChatId, Rows(next.sh.db, r)[i])
    {
      StepRowsUploaded(cfg, w.sh, pc, choice, next.sh, next.threads[t], r, i);
      if r in w.sh.db.relays {
        SameUploader(cfg, w.sh, next.sh, r);
      }
    }
  }

  lemma {:induction false} RunUploaded(cfg: Config, actions: seq<Action>)
    ensures UploadInv(cfg, actions)
  {
    hide WorldInv, StepPc, FromUpload, PcAsked, Rows;
    if actions != [] {
      var before, last := actions[..|actions| - 1], actions[|actions| - 1];
      var w, next := Run(cfg, before), Run(cfg, actions);
      assert actions == before + [last];
      RunUploaded(cfg, before);
      if last.Advance? && last.thread in w.threads {
        AdvanceUploaded(cfg, before, last.thread, last.choice);
      }
      forall r, i | r in next.sh.db.relays && 0 <= i < |Rows(next.sh.db, r)|
        ensures FromUpload(cfg, actions, next.sh.db.relays[r].uploaderChatId, Rows(next.sh.db, r)[i])
      {
        FromUploadStays(cfg, before, last, next.sh.db.relays[r].uploaderChatId, Rows(next.sh.db, r)[i]);
      }
      forall t | t in next.threads ensures PcAsked(cfg, actions, next.threads[t]) {
        ThreadAsked(cfg, before, last, t);
      }
    }
  }

  lemma ThreadAsked(cfg: Config, actions: seq<Action>, action: Action, t: int)
    requires UploadInv(cfg, actions) && t in Run(cfg, actions + [action]).threads
    ensures PcAsked(cfg, actions + [action], Run(cfg, actions + [action]).threads[t])
  {
    hide Run, WorldInv, StepPc, PcAsked, RowsFromUploads;
    var w, next := Run(cfg, actions), Run(cfg, actions + [action]);
    RunSnoc(cfg, actions, action);
    RunKeeps(cfg, actions);
    SharedPart(cfg, w);
    if t in w.threads {
      if action.Advance? && action.thread == t {
        StepAsked(cfg, actions, w.sh, w.threads[t], action.choice, next.sh, next.threads[t]);
      }
      PcAskedStays(cfg, actions, action, next.threads[t]);
    } else {
      EntryAsked(cfg, actions, t, action.request);
    }
  }

  // ----- The theorems -----

  /** Over every run, each item of each listing is a file that its chat has handed in, with its kind and, in a batch, its media group. */
  lemma StoredItemsWereUploaded(cfg: Config, actions: seq<Action>, r: int, i: nat)
    requires var db := Run(cfg, actions).sh.db; r in db.relays && i < |Listing(db, r)|
    ensures var db := Run(cfg, actions).sh.db; FromUpload(cfg, actions, db.relays[r].uploaderChatId, Listing(db, r)[i])
  {
    hide Run, SharedInv, FromUpload;
    RunUploaded(cfg, actions);
    RunKeeps(cfg, actions);
    InvariantTables(cfg, Run(cfg, actions).sh);
    ListingIsInsertionOrder(Run(cfg, actions).sh.db, r);
  }

  /** All files of a page come from one chat. */
  ghost predicate AllFrom(cfg: Config, actions: seq<Action>, chat: int, page: seq<RelayItem>) {
    forall item :: item in page ==> FromUpload(cfg, actions, chat, item)
  }

  /** Over every run, whatever is sent are files that one chat has handed in. */
  lemma SentItemsWereUploaded(cfg: Config, actions: seq<Action>, i: nat)
    requires i < |Run(cfg, actions).sh.sends|
    ensures exists chat :: AllFrom(cfg, actions, chat, Run(cfg, actions).sh.sends[i].page)
  {
    hide Run, FromUpload, Paging.IsPage, Listing;
    var send := Run(cfg, actions).sh.sends[i];
    AtMostOnce.SendsCarryFirstPage(cfg, actions, i);
    var list :| AtMostOnce.HasListed(cfg, actions, send.relayId, list, CodeHash(cfg, send.request)) && Paging.BeginWith(list, send.page);
    var k :| 0 <= k <= |actions| && AtMostOnce.Lists(Run(cfg, actions[..k]).sh.db, send.relayId, list, CodeHash(cfg, send.request));
    var chat := Run(cfg, actions[..k]).sh.db.relays[send.relayId].uploaderChatId;
    forall item | item in send.page ensures FromUpload(cfg, actions, chat, item) {
      var j :| 0 <= j < |send.page| && send.page[j] == item;
      assert list[j] == item;
      StoredItemsWereUploaded(cfg, actions[..k], send.relayId, j);
      FromUploadLater(cfg, actions, k, chat, item);
    }
    assert AllFrom(cfg, actions, chat, send.page);
  }
}
