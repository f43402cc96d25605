/**
 * When a ready relay has no items. The insert of a single upload ignores that its item may already be stored in a
 * batch; with one handler for each update that never happens.
 */
module EmptyRelays {
  import opened RelayTypes
  import opened Store
  import opened StoreFacts
  import opened Protocol
  import opened Invariants
  import opened Steps
  import opened Runs
  import opened Lifecycle

  // ----- The exact condition for one step -----

  predicate StoresFile(pc: Pc) {
    pc.Creating? && pc.create.CreateInsert?
  }

  /** A single upload that finds an item of its update in the tables. */
  ghost predicate FindsItem(db: Db, pc: Pc) {
    StoresFile(pc) && HasItemFor(db, pc.create.upload.sourceUpdateId)
  }

  /** Only the insert of a single upload brings in a relay that is ready at once. */
  lemma NewRelaysCollect(cfg: Config, sh: Shared, pc: Pc, choice: Choice, next: Shared, to: Pc, r: int)
    requires SharedInv(cfg, sh) && StepPc(cfg, sh, pc, choice) == (next, to) && !StoresFile(pc)
    requires r !in sh.db.relays && r in next.db.relays
    ensures next.db.relays[r].status == Collecting
  {
    hide SealsInv, CodesInv, SessionsInv, BatchesBounded, DeliveriesSealed, HashesUnique, UpdatesUnique, RequestsUnique,
      ClaimStep, CreateStep, FinishStep, CancelStep, ProgressStep, WorkerStep, AddItemTx, Rows;
    if !Inserts(pc) {
      QuietRows(cfg, sh, pc, choice, next, to);
    } else if pc.Appending? {
      AddItemKeeps(sh.db, pc.append.session.relayId, pc.append.upload, cfg.maxBatchItems, pc.append.now, cfg.hash);
    }
  }

  lemma FileIsStored(cfg: Config, sh: Shared, pc: Pc, choice: Choice, next: Shared, to: Pc, r: int)
    requires SharedInv(cfg, sh) && StepPc(cfg, sh, pc, choice) == (next, to) && StoresFile(pc)
    requires !LifeOf(sh.db, r).Sealed? && LifeOf(next.db, r).Sealed?
    ensures LifeOf(next.db, r).seal.items == [] <==> HasItemFor(sh.db, pc.create.upload.sourceUpdateId)
  {
    hide SealsInv, CodesInv, SessionsInv, BatchesBounded, DeliveriesSealed, CreateRelayTx, Fresh, HasItemFor,
      ClaimStep, StartStep, AppendStep, FinishStep, CancelStep, ProgressStep, WorkerStep;
    var p := pc.create;
    CreateRelayKeeps(sh.db, p.upload, choice.code, cfg.userOf(p.chat), p.chat, p.now + cfg.defaultTtl, p.now, cfg.hash);
    var (db, row) := CreateRelayTx(sh.db, p.upload, choice.code, cfg.hash(choice.code), cfg.userOf(p.chat), p.chat, p.now + cfg.defaultTtl, p.now);
    assert next != sh ==> row.Ok? && next.db == db;
  }

  /** Over every run, a relay becomes ready without items if and only if a single upload finds its item stored already. */
  lemma SealedEmptyExactly(cfg: Config, actions: seq<Action>, action: Action, r: int)
    requires !LifeOf(Run(cfg, actions).sh.db, r).Sealed? && LifeOf(Run(cfg, actions + [action]).sh.db, r).Sealed?
    ensures LifeOf(Run(cfg, actions + [action]).sh.db, r).seal.items == [] <==>
      action.Advance? && action.thread in Run(cfg, actions).threads && FindsItem(Run(cfg, actions).sh.db, Run(cfg, actions).threads[action.thread])
  {
    hide Run, SharedInv, HistoryInv, StepPc, HasItemFor;
    var w, next := Run(cfg, actions), Run(cfg, actions + [action]);
    RunSnoc(cfg, actions, action);
    RunKeeps(cfg, actions);
    if action.Advance? && action.thread in w.threads {
      SealedByStep(cfg, w, action.thread, action.choice, next, r);
    }
  }

  lemma SealedByStep(cfg: Config, w: World, t: int, choice: Choice, next: World, r: int)
    requires WorldInv(cfg, w) && t in w.threads && next == Next(cfg, w, Advance(t, choice))
    requires !LifeOf(w.sh.db, r).Sealed? && LifeOf(next.sh.db, r).Sealed?
    ensures LifeOf(next.sh.db, r).seal.items == [] <==> FindsItem(w.sh.db, w.threads[t])
  {
    hide SharedInv, SharedEvolves, HistoryInv, StepPc, HasItemFor, PcOk;
    var pc, to := w.threads[t], next.threads[t];
    if StoresFile(pc) {
      FileIsStored(cfg, w.sh, pc, choice, next.sh, to, r);
    } else {
      StepKeeps(cfg, w.sh, pc, choice, next.sh, to);
      StepRefines(cfg, w.sh, pc, choice, next.sh, to, r);
      if r !in w.sh.db.relays {
        NewRelaysCollect(cfg, w.sh, pc, choice, next.sh, to, r);
      }
    }
  }

  // ----- One handler for each update -----

  function RequestUpdate(request: Request): Option<int> {
    match request
    case Create(_, upload) => Some(upload.sourceUpdateId)
    case Append(_, upload) => Some(upload.sourceUpdateId)
    case _ => None
  }

  /** The run hands update `u` to a handler. */
  ghost predicate Mentions(actions: seq<Action>, u: int) {
    exists i :: 0 <= i < |actions| && Hands(actions[i], u)
  }

  predicate Hands(action: Action, u: int) {
    action.Spawn? && RequestUpdate(action.request) == Some(u)
  }

  /** No update is handed out twice, neither to two uploads nor to an upload and an append. */
  ghost predicate OnePerUpdate(actions: seq<Action>) {
    forall i, j, u :: 0 <= i < j < |actions| && Hands(actions[i], u) ==> !Hands(actions[j], u)
  }

  /** The handler has update `u` still to store. */
  predicate Handling(pc: Pc, u: int) {
    || (pc.Creating? && !pc.create.CreateWarm? && pc.create.upload.sourceUpdateId == u)
    || (pc.Appending? && !pc.append.AppendList? && !pc.append.AppendMerge? && pc.append.upload.sourceUpdateId == u)
  }

  ghost predicate UpdatesApart(w: World, actions: seq<Action>) {
    && (forall u :: HasItemFor(w.sh.db, u) ==> Mentions(actions, u))
    && (forall t, u :: t in w.threads && Handling(w.threads[t], u) ==> Mentions(actions, u) && !HasItemFor(w.sh.db, u))
    && (forall s, t, u :: s in w.threads && t in w.threads && Handling(w.threads[s], u) && Handling(w.threads[t], u) ==> s == t)
  }

  lemma KeptItems(db: Db, next: Db, u: int)
    requires ItemRows(db) && ItemRows(next) && RowsKept(db, next)
    ensures HasItemFor(next, u) ==> HasItemFor(db, u)
  {
    if HasItemFor(next, u) {
      var r, i :| r in next.items && 0 <= i < |next.items[r]| && ItemAt(next, r, i, u);
      assert Rows(next, r) == Rows(db, r);
      assert ItemAt(db, r, i, u);
    }
  }

  lemma AppendedItems(db: Db, relayId: int, upload: Upload, most: int, now: Time, hash: Hash, u: int)
    requires Integrity(db, hash)
    ensures var (next, r) := AddItemTx(db, relayId, upload, 0, most, now, false);
      HasItemFor(next, u) ==> HasItemFor(db, u) || (u == upload.sourceUpdateId && r.Ok? && r.value.1)
  {
    var (next, r) := AddItemTx(db, relayId, upload, 0, most, now, false);
    if HasItemFor(next, u) {
      var s, i :| s in next.items && 0 <= i < |next.items[s]| && ItemAt(next, s, i, u);
      assert ItemAt(db, s, i, u) || u == upload.sourceUpdateId;
    }
  }

  lemma CreatedItems(db: Db, upload: Upload, code: string, codeHash: string, user: int, chat: int, at: Time, now: Time, u: int)
    requires ItemRows(db) && db.nextRelay !in db.relays
    ensures var (next, r) := CreateRelayTx(db, upload, code, codeHash, user, chat, at, now);
      HasItemFor(next, u) ==> HasItemFor(db, u) || (u == upload.sourceUpdateId && r.Ok?)
  {
    var (next, r) := CreateRelayTx(db, upload, code, codeHash, user, chat, at, now);
    if HasItemFor(next, u) {
      var s, i :| s in next.items && 0 <= i < |next.items[s]| && ItemAt(next, s, i, u);
      assert ItemAt(db, s, i, u) || u == upload.sourceUpdateId;
    }
  }

  /** A step stores at most the update its handler had to store, and a handler never takes up another one. */
  lemma StepItems(cfg: Config, sh: Shared, pc: Pc, choice: Choice, next: Shared, to: Pc, u: int)
    requires SharedInv(cfg, sh) && SharedInv(cfg, next) && StepPc(cfg, sh, pc, choice) == (next, to)
    ensures HasItemFor(next.db, u) ==> HasItemFor(sh.db, u) || (Handling(pc, u) && !Handling(to, u))
  {
    hide SealsInv, CodesInv, SessionsInv, BatchesBounded, DeliveriesSealed, HasItemFor, AddItemTx, CreateRelayTx, CreateBatchTx, RelayRows,
      ClaimStep, FinishStep, CancelStep, ProgressStep, WorkerStep, Fresh, RelayByUpdate, ActiveRelays, Listing, RowsKept;
    var db := sh.db;
    if !Inserts(pc) {
      QuietRows(cfg, sh, pc, choice, next, to);
      KeptItems(sh.db, next.db, u);
    } else {
      match pc
      case Appending(p) => AppendedItems(db, p.session.relayId, p.upload, cfg.maxBatchItems, p.now, cfg.hash, u);
      case Creating(p) =>
        NextIsNew(db, cfg.hash);
        CreatedItems(db, p.upload, choice.code, cfg.hash(choice.code), cfg.userOf(p.chat), p.chat, p.now + cfg.defaultTtl, p.now, u);
      case Starting(p) => StartedItems(db, cfg.userOf(p.chat), p.chat, p.now, u);
    }
  }

  lemma StartedItems(db: Db, user: int, chat: int, now: Time, u: int)
    ensures HasItemFor(CreateBatchTx(db, user, chat, now).0, u) ==> HasItemFor(db, u)
  {
    var next := CreateBatchTx(db, user, chat, now).0;
    if HasItemFor(next, u) {
      var s, i :| s in next.items && 0 <= i < |next.items[s]| && ItemAt(next, s, i, u);
      assert ItemAt(db, s, i, u);
    }
  }

  lemma StepHandling(cfg: Config, sh: Shared, pc: Pc, choice: Choice, next: Shared, to: Pc, u: int)
    requires StepPc(cfg, sh, pc, choice) == (next, to) && Handling(to, u)
    ensures Handling(pc, u)
  {
    hide AddItemTx, CreateRelayTx, CreateBatchTx, FinalizeTx, CreateDeliveryTx, MarkTx, MarkSentTx, DeleteRelaysTx,
      ExpireTx, TimeoutTx, PurgeTx, Losers, Listing, RelayByHash, RelayByUpdate, ActiveRelays, Fresh, Commit;
  }

  lemma MoreMentions(actions: seq<Action>, action: Action, u: int)
    ensures Mentions(actions + [action], u) <==> Mentions(actions, u) || Hands(action, u)
  {
    var longer := actions + [action];
    if Mentions(actions, u) {
      var i :| 0 <= i < |actions| && Hands(actions[i], u);
      assert Hands(longer[i], u);
    }
    assert longer[|actions|] == action;
  }

  lemma AdvanceApart(cfg: Config, w: World, t: int, choice: Choice, next: World, actions: seq<Action>)
    requires WorldInv(cfg, w) && UpdatesApart(w, actions) && t in w.threads && next == Next(cfg, w, Advance(t, choice))
    ensures UpdatesApart(next, actions)
  {
    hide SharedInv, SharedEvolves, HistoryInv, StepPc, PcOk, HasItemFor, Handling, Mentions;
    var pc, to := w.threads[t], next.threads[t];
    StepKeeps(cfg, w.sh, pc, choice, next.sh, to);
    forall u ensures (HasItemFor(next.sh.db, u) ==> HasItemFor(w.sh.db, u) || (Handling(pc, u) && !Handling(to, u))) && (Handling(to, u) ==> Handling(pc, u)) {
      StepItems(cfg, w.sh, pc, choice, next.sh, to, u);
      if Handling(to, u) {
        StepHandling(cfg, w.sh, pc, choice, next.sh, to, u);
      }
    }
  }

  lemma SpawnApart(cfg: Config, w: World, t: int, request: Request, next: World, actions: seq<Action>)
    requires UpdatesApart(w, actions) && t !in w.threads && next == Next(cfg, w, Spawn(t, request))
    requires OnePerUpdate(actions + [Spawn(t, request)])
    ensures UpdatesApart(next, actions + [Spawn(t, request)])
  {
    hide HasItemFor, StepPc;
    var longer := actions + [Spawn(t, request)];
    forall u ensures Mentions(longer, u) <==> Mentions(actions, u) || Hands(Spawn(t, request), u) {
      MoreMentions(actions, Spawn(t, request), u);
    }
    forall u | Hands(Spawn(t, request), u) ensures !Mentions(actions, u) {
      forall i | 0 <= i < |actions| ensures !Hands(actions[i], u) {
        assert longer[i] == actions[i] && longer[|actions|] == Spawn(t, request);
      }
    }
    assert forall u :: Handling(next.threads[t], u) ==> Hands(Spawn(t, request), u);
  }

  lemma FewerApart(actions: seq<Action>, action: Action)
    requires OnePerUpdate(actions + [action])
    ensures OnePerUpdate(actions)
  {
    var longer := actions + [action];
    forall i, j, u | 0 <= i < j < |actions| && Hands(actions[i], u) ensures !Hands(actions[j], u) {
      assert Hands(longer[i], u) && longer[j] == actions[j];
    }
  }

  lemma {:induction false} RunApart(cfg: Config, actions: seq<Action>)
    requires OnePerUpdate(actions)
    ensures UpdatesApart(Run(cfg, actions), actions)
  {
    hide WorldInv, StepPc, UpdatesApart, OnePerUpdate;
    if actions == [] {
      NothingApart(cfg);
    } else {
      var before, last := actions[..|actions| - 1], actions[|actions| - 1];
      var w, next := Run(cfg, before), Run(cfg, actions);
      assert actions == before + [last];
      FewerApart(before, last);
      RunApart(cfg, before);
      RunKeeps(cfg, before);
      if last.Spawn? && last.thread !in w.threads {
        SpawnApart(cfg, w, last.thread, last.request, next, before);
      } else {
        if last.Advance? && last.thread in w.threads {
          AdvanceApart(cfg, w, last.thread, last.choice, next, before);
        }
        StillApart(w, next, before, last);
      }
    }
  }

  lemma StillApart(w: World, next: World, actions: seq<Action>, action: Action)
    requires UpdatesApart(next, actions) || (UpdatesApart(w, actions) && next.threads == w.threads && next.sh.db == w.sh.db)
    ensures UpdatesApart(next, actions + [action])
  {
    hide HasItemFor, Mentions;
    forall u ensures Mentions(actions, u) ==> Mentions(actions + [action], u) {
      MoreMentions(actions, action, u);
    }
  }

  lemma NothingApart(cfg: Config)
    ensures UpdatesApart(Run(cfg, []), [])
  {
  }

  /** With one handler for each update, every relay that is or has been ready and is still there has an item. */
  lemma {:induction false} SealedRelaysHaveItems(cfg: Config, actions: seq<Action>, r: int)
    requires OnePerUpdate(actions) && LifeOf(Run(cfg, actions).sh.db, r).Sealed?
    ensures LifeOf(Run(cfg, actions).sh.db, r).seal.items != []
  {
    hide WorldInv, Next, LifeOf, OnePerUpdate, HasItemFor;
    if actions == [] {
      NothingSealedAtFirst(cfg, r);
    } else {
      var before, last := actions[..|actions| - 1], actions[|actions| - 1];
      var w := Run(cfg, before);
      assert actions == before + [last];
      FewerApart(before, last);
      if LifeOf(w.sh.db, r).Sealed? {
        SealedRelaysHaveItems(cfg, before, r);
        RunRefinesSealedList(cfg, before, last, r);
      } else {
        RunApart(cfg, before);
        SealedEmptyExactly(cfg, before, last, r);
        if last.Advance? && last.thread in w.threads && StoresFile(w.threads[last.thread]) {
          assert Handling(w.threads[last.thread], w.threads[last.thread].create.upload.sourceUpdateId);
        }
      }
    }
  }

  lemma NothingSealedAtFirst(cfg: Config, r: int)
    ensures !LifeOf(Run(cfg, []).sh.db, r).Sealed?
  {
  }
}
