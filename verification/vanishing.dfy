/**
 * When a relay that has been made ready disappears. Only a cancel deletes one: it checks that the batch is collecting,
 * and later deletes it by its id alone.
 */
module Vanishing {
  import opened RelayTypes
  import opened Store
  import opened StoreFacts
  import opened Protocol
  import opened Invariants
  import opened Steps
  import opened Runs
  import opened Lifecycle
  import opened SessionCount
  import opened Witness

  // ----- A batch without a session stays empty and collecting -----

  ghost predicate PublishedOpen(w: World) {
    forall t, id :: t in w.threads && Publishes(w.threads[t], id) ==> LifeOf(w.sh.db, id) == Open([]) || LifeOf(w.sh.db, id) == Gone
  }

  lemma StepOpen(cfg: Config, w: World, t: int, choice: Choice, next: World)
    requires WorldInv(cfg, w) && StartsAlone(w) && PublishedOpen(w) && t in w.threads && next == Next(cfg, w, Advance(t, choice))
    ensures PublishedOpen(next)
  {
    hide SharedInv, SharedEvolves, HistoryInv, StepPc, PcOk, Publishes, LifeStep;
    var pc, to := w.threads[t], next.threads[t];
    StepKeeps(cfg, w.sh, pc, choice, next.sh, to);
    StepAlone(cfg, w, t, choice, next);
    forall u, id | u in next.threads && Publishes(next.threads[u], id)
      ensures LifeOf(next.sh.db, id) == Open([]) || LifeOf(next.sh.db, id) == Gone
    {
      assert Unpublished(next, id);
      StepCarries(cfg, w.sh, pc, choice, next.sh, to, id);
      if u != t || Publishes(pc, id) {
        assert Publishes(w.threads[u], id);
        StepRefines(cfg, w.sh, pc, choice, next.sh, to, id);
        EmptyStaysOpen(cfg.maxBatchItems, w.sh.db, next.sh.db, id);
      } else {
        NewBatchIsOpen(cfg, w.sh, pc, choice, next.sh, to);
      }
    }
  }

  lemma EmptyStaysOpen(most: int, db: Db, next: Db, id: int)
    requires LifeStep(most, LifeOf(db, id), LifeOf(next, id)) && Rows(next, id) == []
    requires LifeOf(db, id) == Open([]) || LifeOf(db, id) == Gone
    ensures LifeOf(next, id) == Open([]) || LifeOf(next, id) == Gone
  {
  }

  lemma NewBatchIsOpen(cfg: Config, sh: Shared, pc: Pc, choice: Choice, next: Shared, to: Pc)
    requires pc.Starting? && pc.start.StartInsert? && StepPc(cfg, sh, pc, choice) == (next, to)
    ensures forall id :: Publishes(to, id) ==> LifeOf(next.db, id) == Open([])
  {
  }

  lemma {:induction false} RunOpen(cfg: Config, actions: seq<Action>)
    ensures PublishedOpen(Run(cfg, actions))
  {
    hide WorldInv, StepPc, LifeOf, CountInv;
    if actions != [] {
      var before, last := actions[..|actions| - 1], actions[|actions| - 1];
      var w, next := Run(cfg, before), Run(cfg, actions);
      RunOpen(cfg, before);
      RunKeeps(cfg, before);
      RunAlone(cfg, before);
      if last.Advance? && last.thread in w.threads {
        StepOpen(cfg, w, last.thread, last.choice, next);
      } else if last.Spawn? {
        assert forall id :: !Publishes(Entry(w.sh, last.request), id);
        assert next.sh.db == w.sh.db;
      } else {
        assert next.threads == w.threads && next.sh.db == w.sh.db;
      }
    }
  }

  lemma RunAlone(cfg: Config, actions: seq<Action>)
    ensures StartsAlone(Run(cfg, actions))
  {
    hide Run, StartsAlone;
    RunCounts(cfg, actions);
  }

  // ----- Who deletes -----

  predicate Deletes(pc: Pc, choice: Choice, r: int) {
    pc.Canceling? && pc.cancel.CancelDelete? && pc.cancel.id == r && !choice.fail
  }

  /** A step removes a relay only as a cancel, as the undo of a start, or as a stale collecting batch. */
  lemma StepRemoves(cfg: Config, sh: Shared, pc: Pc, choice: Choice, next: Shared, to: Pc, r: int)
    requires StepPc(cfg, sh, pc, choice) == (next, to) && r in sh.db.relays && r !in next.db.relays
    ensures Deletes(pc, choice, r) || Publishes(pc, r) || sh.db.relays[r].status == Collecting
  {
    hide Listing, RelayByHash, RelayByUpdate, ActiveRelays, Fresh, ItemFor, OrderTaken, MaxOrder, Losers, MarkTx, MarkSentTx, CreateDeliveryTx,
      TimeoutTx, PurgeTx, ClaimStep, AppendStep, CreateStep, FinishStep, ProgressStep;
    if pc.Claiming? || pc.Creating? || pc.Appending? || pc.Finishing? || pc.Reporting? {
      OthersKeepRelays(cfg, sh, pc, choice, next, to);
    } else if pc.Maintaining? {
      WorkerKeepsRelays(cfg, sh, pc.worker, choice, next, to);
    }
  }

  lemma ClaimKeepsRelays(cfg: Config, sh: Shared, pc: ClaimPc, choice: Choice, next: Shared, to: Pc)
    requires ClaimStep(cfg, sh, pc, choice) == (next, to)
    ensures sh.db.relays.Keys <= next.db.relays.Keys
  {
    hide HasDeliveryFor, Listing, RelayByHash, FirstPage;
  }

  lemma CreateKeepsRelays(cfg: Config, sh: Shared, pc: CreatePc, choice: Choice, next: Shared, to: Pc)
    requires CreateStep(cfg, sh, pc, choice) == (next, to)
    ensures sh.db.relays.Keys <= next.db.relays.Keys
  {
    hide HasRelayFor, HashTaken, ItemFor, OrderTaken, MaxOrder, RelayByUpdate, ActiveRelays, Fresh;
  }

  lemma AppendKeepsRelays(cfg: Config, sh: Shared, pc: AppendPc, choice: Choice, next: Shared, to: Pc)
    requires AppendStep(cfg, sh, pc, choice) == (next, to)
    ensures sh.db.relays.Keys <= next.db.relays.Keys
  {
    hide ItemFor, OrderTaken, MaxOrder, Listing;
  }

  lemma FinishKeepsRelays(cfg: Config, sh: Shared, pc: FinishPc, choice: Choice, next: Shared, to: Pc)
    requires FinishStep(cfg, sh, pc, choice) == (next, to)
    ensures sh.db.relays.Keys <= next.db.relays.Keys
  {
    hide HashTaken, Listing, ActiveRelays, Fresh;
  }

  lemma OthersKeepRelays(cfg: Config, sh: Shared, pc: Pc, choice: Choice, next: Shared, to: Pc)
    requires StepPc(cfg, sh, pc, choice) == (next, to) && !pc.Starting? && !pc.Canceling? && !pc.Maintaining?
    ensures sh.db.relays.Keys <= next.db.relays.Keys
  {
    hide ClaimStep, CreateStep, StartStep, AppendStep, FinishStep, CancelStep, WorkerStep;
    match pc
    case Claiming(p) => ClaimKeepsRelays(cfg, sh, p, choice, next, to);
    case Creating(p) => CreateKeepsRelays(cfg, sh, p, choice, next, to);
    case Appending(p) => AppendKeepsRelays(cfg, sh, p, choice, next, to);
    case Finishing(p) => FinishKeepsRelays(cfg, sh, p, choice, next, to);
    case _ =>
  }

  lemma WorkerKeepsRelays(cfg: Config, sh: Shared, pc: WorkerPc, choice: Choice, next: Shared, to: Pc)
    requires WorkerStep(cfg, sh, pc, choice) == (next, to)
    ensures forall r :: r in sh.db.relays && r !in next.db.relays ==> sh.db.relays[r].status == Collecting
  {
  }

  /** The step of a cancel that deletes does delete. */
  lemma DeleteRemoves(cfg: Config, sh: Shared, pc: Pc, choice: Choice, next: Shared, to: Pc, r: int)
    requires StepPc(cfg, sh, pc, choice) == (next, to) && Deletes(pc, choice, r)
    ensures r !in next.db.relays && next.db.nextRelay == sh.db.nextRelay
  {
  }

  /**
   * Over every run, a step makes a sealed relay disappear if and only if it is the delete of a cancel of that relay,
   * which nothing stops although the relay is no longer collecting.
   */
  lemma SealedVanishesExactly(cfg: Config, actions: seq<Action>, action: Action, r: int)
    requires LifeOf(Run(cfg, actions).sh.db, r).Sealed?
    ensures LifeOf(Run(cfg, actions + [action]).sh.db, r).Gone? <==>
      action.Advance? && action.thread in Run(cfg, actions).threads && Deletes(Run(cfg, actions).threads[action.thread], action.choice, r)
  {
    hide Run, SharedInv, HistoryInv, StepPc, Deletes, Publishes;
    var w, next := Run(cfg, actions), Run(cfg, actions + [action]);
    RunSnoc(cfg, actions, action);
    RunKeeps(cfg, actions);
    RunOpen(cfg, actions);
    RelaysAreOld(cfg, w.sh);
    if action.Advance? && action.thread in w.threads {
      var pc := w.threads[action.thread];
      if r !in next.sh.db.relays {
        StepRemoves(cfg, w.sh, pc, action.choice, next.sh, next.threads[action.thread], r);
      }
      if Deletes(pc, action.choice, r) {
        DeleteRemoves(cfg, w.sh, pc, action.choice, next.sh, next.threads[action.thread], r);
      }
    } else {
      assert next.sh.db == w.sh.db;
    }
  }

  lemma RelaysAreOld(cfg: Config, sh: Shared)
    requires SharedInv(cfg, sh)
    ensures forall r :: r in sh.db.relays ==> r < sh.db.nextRelay
  {
  }
}
