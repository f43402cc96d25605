/** The invariant of whole runs, and what every later state of a run owes to every earlier one. */
module Runs {
  import opened RelayTypes
  import opened Store
  import opened StoreFacts
  import opened Protocol
  import opened Invariants
  import opened Steps
  import Paging

  // ----- History -----

  /** A request is bound to the relay that carries the hash of its code. */
  ghost predicate ClaimAgrees(cfg: Config, sh: Shared, q: int, r: int) {
    r in sh.sealed && sh.sealed[r].codeHash == Some(CodeHash(cfg, q))
  }

  /** A send carries the first page of the items its relay was sealed with, to a request for that relay's code. */
  ghost predicate SendAgrees(cfg: Config, sh: Shared, s: Send) {
    ClaimAgrees(cfg, sh, s.request, s.relayId) && sh.sealed[s.relayId].items != [] && s.page == FirstPage(sh.sealed[s.relayId].items)
  }

  ghost predicate HistoryInv(cfg: Config, sh: Shared) {
    && (forall q :: q in sh.claimed ==> ClaimAgrees(cfg, sh, q, sh.claimed[q]))
    && (forall i :: 0 <= i < |sh.sends| ==> SendAgrees(cfg, sh, sh.sends[i]))
  }

  ghost predicate WorldInv(cfg: Config, w: World) {
    && SharedInv(cfg, w.sh) && HistoryInv(cfg, w.sh)
    && forall t :: t in w.threads ==> PcOk(cfg, w.sh, w.threads[t])
  }

  // ----- One step -----

  // Which parts of the shared state the handlers of each kind can change.

  lemma ClaimFrame(cfg: Config, sh: Shared, pc: ClaimPc, choice: Choice, next: Shared, to: Pc)
    requires ClaimStep(cfg, sh, pc, choice) == (next, to)
    ensures next == sh.(db := next.db, sealed := next.sealed, codes := next.codes, claimed := next.claimed, sends := next.sends)
    ensures !pc.ClaimInsert? ==> next.claimed == sh.claimed
    ensures !pc.ClaimSend? ==> next.sends == sh.sends
  {
    hide CreateDeliveryTx, MarkTx, MarkSentTx, Listing, RelayByHash, FirstPage;
  }

  lemma CreateFrame(cfg: Config, sh: Shared, pc: CreatePc, choice: Choice, next: Shared, to: Pc)
    requires CreateStep(cfg, sh, pc, choice) == (next, to)
    ensures next == sh.(db := next.db, sealed := next.sealed, codes := next.codes)
  {
    hide CreateRelayTx, RelayByUpdate, ActiveRelays, Fresh;
  }

  lemma StartFrame(cfg: Config, sh: Shared, pc: StartPc, choice: Choice, next: Shared, to: Pc)
    requires StartStep(cfg, sh, pc, choice) == (next, to)
    ensures next == sh.(db := next.db, sealed := next.sealed, sessions := next.sessions, intact := next.intact)
    ensures !pc.StartDrop? && !pc.StartSet? ==> next.sessions == sh.sessions && next.intact == sh.intact
  {
    hide CreateBatchTx, DeleteRelaysTx;
  }

  lemma AppendFrame(cfg: Config, sh: Shared, pc: AppendPc, choice: Choice, next: Shared, to: Pc)
    requires AppendStep(cfg, sh, pc, choice) == (next, to)
    ensures next == sh.(db := next.db, sealed := next.sealed, sessions := next.sessions, intact := next.intact)
    ensures !pc.AppendMerge? ==> next.sessions == sh.sessions && next.intact == sh.intact
  {
    hide AddItemTx, Listing;
  }

  lemma FinishFrame(cfg: Config, sh: Shared, pc: FinishPc, choice: Choice, next: Shared, to: Pc)
    requires FinishStep(cfg, sh, pc, choice) == (next, to)
    ensures next == sh.(db := next.db, sealed := next.sealed, codes := next.codes, sessions := next.sessions, intact := next.intact)
    ensures !pc.FinishClear? ==> next.sessions == sh.sessions && next.intact == sh.intact
  {
    hide FinalizeTx, Listing, ActiveRelays, Fresh;
  }

  lemma CancelFrame(cfg: Config, sh: Shared, pc: CancelPc, choice: Choice, next: Shared, to: Pc)
    requires CancelStep(cfg, sh, pc, choice) == (next, to)
    ensures next == sh.(db := next.db, sealed := next.sealed, sessions := next.sessions, intact := next.intact)
    ensures !pc.CancelClear? ==> next.sessions == sh.sessions && next.intact == sh.intact
  {
    hide DeleteRelaysTx;
  }

  lemma WorkerFrame(cfg: Config, sh: Shared, pc: WorkerPc, choice: Choice, next: Shared, to: Pc)
    requires WorkerStep(cfg, sh, pc, choice) == (next, to)
    ensures next == sh.(db := next.db, sealed := next.sealed, purged := next.purged)
    ensures !pc.PurgeDeliveries? ==> next.purged == sh.purged
  {
    hide DeleteRelaysTx, StaleBatches, ExpireTx, TimeoutTx, PurgeTx, Losers;
  }

  /** Only the insert of a delivery binds a request, only the send of a claim sends, and only the purge takes rows. */
  lemma QuietHistory(cfg: Config, sh: Shared, pc: Pc, choice: Choice, next: Shared, to: Pc)
    requires StepPc(cfg, sh, pc, choice) == (next, to)
    ensures !(pc.Claiming? && pc.claim.ClaimInsert?) ==> next.claimed == sh.claimed
    ensures !(pc.Claiming? && pc.claim.ClaimSend?) ==> next.sends == sh.sends
    ensures !(pc.Maintaining? && pc.worker.PurgeDeliveries?) ==> next.purged == sh.purged
    ensures next.clock == sh.clock
  {
    hide ClaimStep, CreateStep, StartStep, AppendStep, FinishStep, CancelStep, WorkerStep;
    match pc
    case Claiming(p) => ClaimFrame(cfg, sh, p, choice, next, to);
    case Creating(p) => CreateFrame(cfg, sh, p, choice, next, to);
    case Starting(p) => StartFrame(cfg, sh, p, choice, next, to);
    case Appending(p) => AppendFrame(cfg, sh, p, choice, next, to);
    case Finishing(p) => FinishFrame(cfg, sh, p, choice, next, to);
    case Canceling(p) => CancelFrame(cfg, sh, p, choice, next, to);
    case Maintaining(p) => WorkerFrame(cfg, sh, p, choice, next, to);
    case _ =>
  }

  lemma HistoryKeeps(cfg: Config, sh: Shared, pc: Pc, choice: Choice, next: Shared, to: Pc)
    requires SharedInv(cfg, sh) && HistoryInv(cfg, sh) && PcOk(cfg, sh, pc)
    requires StepPc(cfg, sh, pc, choice) == (next, to) && SharedEvolves(sh, next)
    ensures HistoryInv(cfg, next)
  {
    hide SharedInv, SealsInv, Evolves, DeliveriesKept, StepPc, CreateDeliveryTx, Commit;
    QuietHistory(cfg, sh, pc, choice, next, to);
    if pc.Claiming? && pc.claim.ClaimInsert? {
      ClaimBinds(cfg, sh, pc.claim, choice, next, to);
    } else if pc.Claiming? && pc.claim.ClaimSend? {
      ClaimSends(cfg, sh, pc.claim, choice, next, to);
    }
  }

  lemma ClaimBinds(cfg: Config, sh: Shared, pc: ClaimPc, choice: Choice, next: Shared, to: Pc)
    requires pc.ClaimInsert? && StepPc(cfg, sh, Claiming(pc), choice) == (next, to) && ClaimOk(cfg, sh, pc)
    ensures forall q :: q in next.claimed ==> q in sh.claimed || (q == pc.request && next.claimed[q] == pc.relay.id)
    ensures pc.relay.id in sh.sealed && sh.sealed[pc.relay.id].codeHash == Some(CodeHash(cfg, pc.request))
  {
    hide CreateDeliveryTx, Commit;
  }

  lemma ClaimSends(cfg: Config, sh: Shared, pc: ClaimPc, choice: Choice, next: Shared, to: Pc)
    requires pc.ClaimSend? && StepPc(cfg, sh, Claiming(pc), choice) == (next, to) && ClaimOk(cfg, sh, pc)
    ensures next.sends == sh.sends + [Send(pc.request, pc.relay.id, FirstPage(pc.items))]
    ensures SendAgrees(cfg, sh, Send(pc.request, pc.relay.id, FirstPage(pc.items)))
  {
  }

  /** The relay of a claim is the one its request is bound to: the seals of two relays never share a hash. */
  lemma SameTarget(cfg: Config, sh: Shared, request: int, now: Time, relay: Relay)
    requires SharedInv(cfg, sh) && HistoryInv(cfg, sh) && Target(cfg, sh, request, now, relay) && request in sh.claimed
    ensures sh.claimed[request] == relay.id
  {
    assert ClaimAgrees(cfg, sh, request, sh.claimed[request]);
  }

  lemma StepKeeps(cfg: Config, sh: Shared, pc: Pc, choice: Choice, next: Shared, to: Pc)
    requires SharedInv(cfg, sh) && HistoryInv(cfg, sh) && PcOk(cfg, sh, pc) && StepPc(cfg, sh, pc, choice) == (next, to)
    ensures SharedInv(cfg, next) && HistoryInv(cfg, next) && PcOk(cfg, next, to) && SharedEvolves(sh, next)
  {
    hide SharedInv, SharedEvolves, HistoryInv, ClaimStep, CreateStep, StartStep, AppendStep, FinishStep, CancelStep, ProgressStep, WorkerStep, Forget;
    match pc {
      case Claiming(p) =>
        if p.ClaimInsert? && p.request in sh.claimed {
          SameTarget(cfg, sh, p.request, p.now, p.relay);
        }
        ClaimKeeps(cfg, sh, p, choice, next, to);
        ClaimEnds(cfg, sh, p, choice, next, to);
      case Creating(p) => CreateKeeps(cfg, sh, p, choice, next, to);
      case Starting(p) => StartKeeps(cfg, sh, p, choice, next, to);
      case Appending(p) => AppendKeeps(cfg, sh, p, choice, next, to);
      case Finishing(p) => FinishKeeps(cfg, sh, p, choice, next, to);
      case Canceling(p) => CancelKeeps(cfg, sh, p, choice, next, to);
      case Reporting(p) => ProgressKeeps(cfg, sh, p, choice, next, to);
      case Maintaining(p) => WorkerKeeps(cfg, sh, p, choice, next, to);
      case DropSession(chat) => if next != sh { ForgetKeeps(cfg, sh, chat, next); } else { SharedEvolvesReflexive(sh); }
      case _ => SharedEvolvesReflexive(sh);
    }
    HistoryKeeps(cfg, sh, pc, choice, next, to);
  }

  lemma EntryOk(cfg: Config, sh: Shared, request: Request)
    ensures PcOk(cfg, sh, Entry(sh, request))
  {
  }

  /** The clock and the cache may change on their own. */
  lemma OutsideKeeps(cfg: Config, sh: Shared, next: Shared)
    requires SharedInv(cfg, sh) && HistoryInv(cfg, sh) && sh.clock <= next.clock
    requires next == sh.(clock := next.clock, codes := next.codes, sessions := next.sessions, intact := next.intact)
    requires forall h :: h in next.codes ==> h in sh.codes && next.codes[h] == sh.codes[h]
    requires forall chat :: chat in next.sessions ==> chat in sh.sessions && next.sessions[chat] == sh.sessions[chat]
    ensures SharedInv(cfg, next) && HistoryInv(cfg, next) && SharedEvolves(sh, next)
  {
    SharedEvolvesReflexive(sh);
  }

  /** Every action keeps the invariant and lets the shared state only evolve. */
  lemma NextKeeps(cfg: Config, w: World, action: Action, next: World)
    requires WorldInv(cfg, w) && next == Next(cfg, w, action)
    ensures WorldInv(cfg, next) && SharedEvolves(w.sh, next.sh)
  {
    hide SharedInv, SharedEvolves, HistoryInv, PcOk, StepPc, Entry;
    match action {
      case Spawn(t, request) =>
        SharedEvolvesReflexive(w.sh);
        EntryOk(cfg, w.sh, request);
      case Advance(t, choice) =>
        if t in w.threads {
          StepKeeps(cfg, w.sh, w.threads[t], choice, next.sh, next.threads[t]);
        } else {
          SharedEvolvesReflexive(w.sh);
        }
      case _ => OutsideKeeps(cfg, w.sh, next.sh);
    }
    forall t | t in next.threads && t in w.threads && next.threads[t] == w.threads[t] ensures PcOk(cfg, next.sh, next.threads[t]) {
      PcOkStable(cfg, w.sh, next.sh, w.threads[t]);
    }
  }

  // ----- Whole runs -----

  lemma {:induction false} RunKeeps(cfg: Config, actions: seq<Action>)
    ensures WorldInv(cfg, Run(cfg, actions))
  {
    if actions != [] {
      var before := actions[..|actions| - 1];
      RunKeeps(cfg, before);
      NextKeeps(cfg, Run(cfg, before), actions[|actions| - 1], Run(cfg, actions));
    }
  }

  lemma RunSnoc(cfg: Config, actions: seq<Action>, action: Action)
    ensures Run(cfg, actions + [action]) == Next(cfg, Run(cfg, actions), action)
  {
    hide Next;
    assert (actions + [action])[..|actions|] == actions;
  }

  lemma {:induction false} RunEvolves(cfg: Config, actions: seq<Action>, more: seq<Action>)
    ensures SharedEvolves(Run(cfg, actions).sh, Run(cfg, actions + more).sh)
  {
    hide Next, SharedEvolves, SharedInv;
    if more == [] {
      assert actions + more == actions;
      SharedEvolvesReflexive(Run(cfg, actions).sh);
    } else {
      var front, last := more[..|more| - 1], more[|more| - 1];
      assert actions + more == (actions + front) + [last];
      RunSnoc(cfg, actions + front, last);
      RunEvolves(cfg, actions, front);
      RunKeeps(cfg, actions);
      RunKeeps(cfg, actions + front);
      NextKeeps(cfg, Run(cfg, actions + front), last, Run(cfg, actions + more));
      assert SharedInv(cfg, Run(cfg, actions).sh);
      DeliveriesBelow(cfg, Run(cfg, actions).sh);
      SharedEvolvesTransitive(Run(cfg, actions).sh, Run(cfg, actions + front).sh, Run(cfg, actions + more).sh);
    }
  }

  lemma DeliveriesBelow(cfg: Config, sh: Shared)
    requires SharedInv(cfg, sh)
    ensures forall d :: d in sh.db.deliveries ==> sh.db.deliveries[d].relayId < sh.db.nextRelay && d < sh.db.nextDelivery
  {
  }

  lemma SharedPart(cfg: Config, w: World)
    requires WorldInv(cfg, w)
    ensures SharedInv(cfg, w.sh)
  {
  }
}
