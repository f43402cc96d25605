/**
 * What handlers decide between their steps, over whole runs. A check and the steps that rely on it are apart, so what
 * it has found holds for the moment of the check.
 */
module Decisions {
  import opened RelayTypes
  import opened Store
  import opened StoreFacts
  import opened Protocol
  import opened Invariants
  import opened Runs

  predicate IsCollecting(db: Db, id: int) {
    id in db.relays && db.relays[id].status == Collecting
  }

  // ----- A second batch -----

  /** Over every run, a start goes past its check if and only if the batch is not collecting at that moment; otherwise it ends and changes nothing. */
  lemma SecondBatchRefusedExactly(cfg: Config, actions: seq<Action>, t: int, choice: Choice, now: Time, chat: int, id: int)
    requires t in Run(cfg, actions).threads && Run(cfg, actions).threads[t] == Starting(StartCheck(now, chat, id))
    ensures var w, next := Run(cfg, actions), Run(cfg, actions + [Advance(t, choice)]);
      && next.sh == w.sh
      && next.threads == w.threads[t := if !choice.fail && !IsCollecting(w.sh.db, id) then Starting(StartDrop(now, chat)) else Done]
  {
    hide Run;
    RunSnoc(cfg, actions, Advance(t, choice));
  }

  /** At some moment the chat had a session for this batch. */
  ghost predicate HadSession(cfg: Config, actions: seq<Action>, chat: int, id: int) {
    exists j :: 0 <= j <= |actions| && SessionFor(Run(cfg, actions[..j]).sh, chat, id)
  }

  predicate SessionFor(sh: Shared, chat: int, id: int) {
    chat in sh.sessions && sh.sessions[chat].relayId == id
  }

  /** At some moment the chat had no session, or the batch of a session it had had was not collecting. */
  ghost predicate WasFree(cfg: Config, actions: seq<Action>, chat: int) {
    exists k :: 0 <= k <= |actions| && FreeAt(cfg, actions[..k], chat)
  }

  ghost predicate FreeAt(cfg: Config, actions: seq<Action>, chat: int) {
    || chat !in Run(cfg, actions).sh.sessions
    || exists id :: HadSession(cfg, actions, chat, id) && !IsCollecting(Run(cfg, actions).sh.db, id)
  }

  /** What a start has seen. */
  ghost predicate StartSeen(cfg: Config, actions: seq<Action>, pc: Pc) {
    match pc
    case Starting(StartCheck(now, chat, id)) => HadSession(cfg, actions, chat, id)
    case Starting(StartDrop(now, chat)) => WasFree(cfg, actions, chat)
    case Starting(StartInsert(now, chat)) => WasFree(cfg, actions, chat)
    case Starting(StartSet(now, chat, id)) => WasFree(cfg, actions, chat)
    case _ => true
  }

  lemma SeenStays(cfg: Config, actions: seq<Action>, action: Action, pc: Pc)
    requires StartSeen(cfg, actions, pc)
    ensures StartSeen(cfg, actions + [action], pc)
  {
    hide Run, FreeAt, SessionFor;
    var longer := actions + [action];
    assert forall k :: 0 <= k <= |actions| ==> longer[..k] == actions[..k];
  }

  lemma Now(cfg: Config, actions: seq<Action>, chat: int, id: int)
    ensures SessionFor(Run(cfg, actions).sh, chat, id) ==> HadSession(cfg, actions, chat, id)
    ensures FreeAt(cfg, actions, chat) ==> WasFree(cfg, actions, chat)
  {
    hide Run, FreeAt, SessionFor;
    assert actions[..|actions|] == actions;
  }

  /** A step lets a start see no more than what is there. */
  lemma StepSees(cfg: Config, actions: seq<Action>, pc: StartPc, choice: Choice, to: Pc)
    requires StartSeen(cfg, actions, Starting(pc)) && StartStep(cfg, Run(cfg, actions).sh, pc, choice).1 == to
    ensures StartSeen(cfg, actions, to)
  {
    hide Run, CreateBatchTx, DeleteRelaysTx, Commit, WasFree, HadSession;
    var sh := Run(cfg, actions).sh;
    match pc
    case StartGet(now, chat) => Now(cfg, actions, chat, if chat in sh.sessions then sh.sessions[chat].relayId else 0);
    case StartCheck(now, chat, id) => Now(cfg, actions, chat, id);
    case _ =>
  }

  lemma OthersStartNothing(cfg: Config, sh: Shared, pc: Pc, choice: Choice)
    requires !pc.Starting?
    ensures !StepPc(cfg, sh, pc, choice).1.Starting?
  {
    hide AddItemTx, CreateRelayTx, FinalizeTx, CreateDeliveryTx, MarkTx, MarkSentTx, DeleteRelaysTx,
      ExpireTx, TimeoutTx, PurgeTx, Losers, Listing, RelayByHash, RelayByUpdate, ActiveRelays, Fresh, Commit;
  }

  lemma {:induction false} RunSeen(cfg: Config, actions: seq<Action>, t: int)
    requires t in Run(cfg, actions).threads
    ensures StartSeen(cfg, actions, Run(cfg, actions).threads[t])
  {
    hide StepPc, StartStep, StartSeen;
    if actions != [] {
      var before, last := actions[..|actions| - 1], actions[|actions| - 1];
      var w := Run(cfg, before);
      assert actions == before + [last];
      if t in w.threads {
        RunSeen(cfg, before, t);
        SeenStays(cfg, before, last, w.threads[t]);
      }
      if last.Advance? && last.thread == t && t in w.threads {
        AdvanceSees(cfg, before, w.threads[t], last.choice);
        SeenStays(cfg, before, last, Run(cfg, actions).threads[t]);
      } else if last.Spawn? && last.thread == t && t !in w.threads {
        NothingSeenYet(cfg, actions, w.sh, last.request);
      }
    }
  }

  lemma AdvanceSees(cfg: Config, actions: seq<Action>, pc: Pc, choice: Choice)
    requires StartSeen(cfg, actions, pc)
    ensures StartSeen(cfg, actions, StepPc(cfg, Run(cfg, actions).sh, pc, choice).1)
  {
    hide Run, StartStep, ClaimStep, CreateStep, AppendStep, FinishStep, CancelStep, ProgressStep, WorkerStep;
    var sh := Run(cfg, actions).sh;
    if pc.Starting? {
      StepSees(cfg, actions, pc.start, choice, StartStep(cfg, sh, pc.start, choice).1);
    } else {
      OthersStartNothing(cfg, sh, pc, choice);
    }
  }

  lemma NothingSeenYet(cfg: Config, actions: seq<Action>, sh: Shared, request: Request)
    ensures StartSeen(cfg, actions, Entry(sh, request))
  {
  }

  /**
   * Over every run, a start that has got so far as to insert a batch or to publish one has found the chat free: at some
   * moment the chat had no session, or the batch of a session that it had had was gone or no longer collecting.
   */
  lemma StartsOnlyWhenFree(cfg: Config, actions: seq<Action>, t: int)
    requires t in Run(cfg, actions).threads && Run(cfg, actions).threads[t].Starting?
    requires var p := Run(cfg, actions).threads[t].start; p.StartInsert? || p.StartSet?
    ensures WasFree(cfg, actions, Run(cfg, actions).threads[t].start.chat)
  {
    hide Run, WasFree;
    RunSeen(cfg, actions, t);
  }

  // ----- Batches that are acted on -----

  /** Over every run, appends and cancels go on if and only if the batch of their session is collecting at that moment. */
  lemma ActsOnCollectingExactly(cfg: Config, actions: seq<Action>, t: int, choice: Choice)
    requires t in Run(cfg, actions).threads && !choice.fail
    ensures var w, next := Run(cfg, actions), Run(cfg, actions + [Advance(t, choice)]);
      match w.threads[t]
      case Appending(AppendCheck(now, upload, session)) =>
        next == w.(threads := w.threads[t :=
          if IsCollecting(w.sh.db, session.relayId) then Appending(AppendInsert(now, upload, session)) else DropSession(session.uploaderChatId)])
      case Canceling(CancelCheck(chat, session)) =>
        next == w.(threads := w.threads[t :=
          if IsCollecting(w.sh.db, session.relayId) then Canceling(CancelList(chat, session.relayId)) else DropSession(chat)])
      case _ => true
  {
    hide Run;
    RunSnoc(cfg, actions, Advance(t, choice));
  }

  /** Over every run, a finish at the limit returns a batch that another finish has made ready since, and nothing else. */
  lemma RecheckFindsReadyExactly(cfg: Config, actions: seq<Action>, t: int, choice: Choice, now: Time, chat: int, id: int)
    requires t in Run(cfg, actions).threads && Run(cfg, actions).threads[t] == Finishing(FinishRecheck(now, chat, id)) && !choice.fail
    ensures var w, next := Run(cfg, actions), Run(cfg, actions + [Advance(t, choice)]);
      && next.sh == w.sh
      && next.threads == w.threads[t :=
        if id in w.sh.db.relays && w.sh.db.relays[id].status == Ready then Finishing(FinishWarm(now, chat, w.sh.db.relays[id])) else Done]
  {
    hide Run;
    RunSnoc(cfg, actions, Advance(t, choice));
  }
}
