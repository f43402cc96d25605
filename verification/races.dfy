/**
 * Two runs that show what concurrent handlers can do to a relay: a batch that was made ready disappears, and a relay
 * is ready without any item.
 */
module Races {
  import opened RelayTypes
  import opened Store
  import opened StoreFacts
  import opened Protocol
  import opened Runs
  import opened Lifecycle
  import opened Witness
  import opened Vanishing

  const OK := Choice(false, "", Sent)
  const FILE := Upload(5, "", Document, "file")
  const ITEM := NewItem(1, 1, FILE, 1, 0)

  // ----- The states of the runs -----

  function Tables(cfg: Config, items: seq<RelayItem>, nextItem: int): Db {
    Db(map[1 := BatchRow(1, cfg.userOf(0), 0, 0)], map[1 := items], map[], 2, nextItem, 1)
  }

  /** Batch 1 of chat 0 has been started and has these items. */
  function Started(cfg: Config, items: seq<RelayItem>, nextItem: int): Shared {
    INITIAL.(db := Tables(cfg, items, nextItem), sessions := map[0 := Known(cfg)], intact := {0})
  }

  function Known(cfg: Config): Session {
    NewSession(cfg, 1, 0, 0)
  }

  const STARTED := map[][1 := Done]

  function Appended(cfg: Config): Pc {
    Appending(AppendMerge(Known(cfg).(itemCount := 1, lastActivityAt := 0)))
  }

  // ----- Starting a batch -----

  lemma BatchStarts(cfg: Config)
    requires cfg.batchSessionTtl > 0
    ensures Reachable(cfg, Any(), World(Started(cfg, [], 1), STARTED))
  {
    hide Reachable, Commit, CreateBatchTx;
    var middle := INITIAL.(db := Tables(cfg, [], 1));
    var none: map<int, Pc> := map[];
    Begins(cfg, Any());
    Arrives(cfg, Any(), INITIAL, none, 1, Start(0), Starting(StartGet(0, 0)));
    Moves(cfg, Any(), INITIAL, none, 1, Starting(StartGet(0, 0)), OK, INITIAL, Starting(StartInsert(0, 0)));
    FirstBatch(cfg);
    Moves(cfg, Any(), INITIAL, none, 1, Starting(StartInsert(0, 0)), OK, middle, Starting(StartSet(0, 0, 1)));
    assert middle.sessions[0 := Known(cfg)] == map[0 := Known(cfg)] && middle.intact + {0} == {0};
    Moves(cfg, Any(), middle, none, 1, Starting(StartSet(0, 0, 1)), OK, Started(cfg, [], 1), Done);
  }

  lemma FirstBatch(cfg: Config)
    ensures CreateBatchTx(EMPTY, cfg.userOf(0), 0, 0) == (Tables(cfg, [], 1), BatchRow(1, cfg.userOf(0), 0, 0))
    ensures Commit(INITIAL, Tables(cfg, [], 1)) == INITIAL.(db := Tables(cfg, [], 1))
  {
    assert Commit(INITIAL, Tables(cfg, [], 1)).sealed == map[];
  }

  // ----- Appending to it -----

  function Adding(cfg: Config): Pc {
    Appending(AppendInsert(0, FILE, Known(cfg)))
  }

  lemma AppendBegins(cfg: Config, threads: map<int, Pc>)
    requires Reachable(cfg, Any(), World(Started(cfg, [], 1), threads)) && 2 !in threads
    ensures Reachable(cfg, Any(), World(Started(cfg, [], 1), threads[2 := Adding(cfg)]))
  {
    hide Reachable;
    var sh := Started(cfg, [], 1);
    Arrives(cfg, Any(), sh, threads, 2, Append(0, FILE), Appending(AppendGet(0, 0, FILE)));
    Moves(cfg, Any(), sh, threads, 2, Appending(AppendGet(0, 0, FILE)), OK, sh, Appending(AppendCheck(0, FILE, Known(cfg))));
    Moves(cfg, Any(), sh, threads, 2, Appending(AppendCheck(0, FILE, Known(cfg))), OK, sh, Adding(cfg));
  }

  lemma ItemGoesIn(cfg: Config, threads: map<int, Pc>)
    requires Reachable(cfg, Any(), World(Started(cfg, [], 1), threads[2 := Adding(cfg)]))
    ensures Reachable(cfg, Any(), World(Started(cfg, [ITEM], 2), threads[2 := Appended(cfg)]))
  {
    hide Reachable, AddItemTx, Commit;
    FirstItem(cfg);
    Moves(cfg, Any(), Started(cfg, [], 1), threads, 2, Adding(cfg), OK, Started(cfg, [ITEM], 2), Appended(cfg));
  }

  lemma FirstItem(cfg: Config)
    ensures AddItemTx(Tables(cfg, [], 1), 1, FILE, 0, cfg.maxBatchItems, 0, false) == (Tables(cfg, [ITEM], 2), Ok((ITEM, true)))
    ensures Commit(Started(cfg, [], 1), Tables(cfg, [ITEM], 2)) == Started(cfg, [ITEM], 2)
  {
    var db := Tables(cfg, [], 1);
    assert !HasItemFor(db, 5);
    assert Rows(db, 1) == [] && [] + [ITEM] == [ITEM];
    var next := InsertItem(db, ITEM);
    assert next.items == map[1 := [ITEM]] && next.relays == db.relays;
    assert Commit(Started(cfg, [], 1), Tables(cfg, [ITEM], 2)).sealed == map[];
  }

  // ----- A ready batch disappears -----

  const CANCEL := Canceling(CancelDelete(0, 1))

  /** A cancel has seen the batch collecting and is about to delete it. */
  lemma CancelChecks(cfg: Config, threads: map<int, Pc>)
    requires Reachable(cfg, Any(), World(Started(cfg, [ITEM], 2), threads)) && 3 !in threads
    ensures Reachable(cfg, Any(), World(Started(cfg, [ITEM], 2), threads[3 := CANCEL]))
  {
    hide Reachable;
    var sh := Started(cfg, [ITEM], 2);
    Arrives(cfg, Any(), sh, threads, 3, Cancel(0), Canceling(CancelGet(0)));
    Moves(cfg, Any(), sh, threads, 3, Canceling(CancelGet(0)), OK, sh, Canceling(CancelCheck(0, Known(cfg))));
    Moves(cfg, Any(), sh, threads, 3, Canceling(CancelCheck(0, Known(cfg))), OK, sh, Canceling(CancelList(0, 1)));
    Moves(cfg, Any(), sh, threads, 3, Canceling(CancelList(0, 1)), OK, sh, CANCEL);
  }

  function Finished1(cfg: Config, code: string): Relay {
    BatchRow(1, cfg.userOf(0), 0, 0).(codeValue := code, codeHash := Some(cfg.hash(code)), status := Ready, expiresAt := cfg.defaultTtl)
  }

  function Ended(cfg: Config, code: string): Shared {
    Started(cfg, [ITEM], 2).(
      db := Tables(cfg, [ITEM], 2).(relays := map[1 := Finished1(cfg, code)]),
      sealed := map[1 := Seal(code, Some(cfg.hash(code)), cfg.defaultTtl, [ITEM], true)])
  }

  /** A finish has made the batch ready in the meantime. */
  lemma FinishSeals(cfg: Config, code: string, threads: map<int, Pc>)
    requires Reachable(cfg, Any(), World(Started(cfg, [ITEM], 2), threads)) && 4 !in threads && cfg.maxActiveRelays >= 1
    ensures Reachable(cfg, Any(), World(Ended(cfg, code), threads[4 := Finishing(FinishWarm(0, 0, Finished1(cfg, code)))]))
  {
    hide Reachable, Listing, ActiveRelays, FinalizeTx, Commit, Fresh;
    var sh := Started(cfg, [ITEM], 2);
    Arrives(cfg, Any(), sh, threads, 4, Finish(0), Finishing(FinishGet(0, 0)));
    Moves(cfg, Any(), sh, threads, 4, Finishing(FinishGet(0, 0)), OK, sh, Finishing(FinishCheck(0, 0, Known(cfg))));
    Moves(cfg, Any(), sh, threads, 4, Finishing(FinishCheck(0, 0, Known(cfg))), OK, sh, Finishing(FinishList(0, 0, 1)));
    Counted(cfg);
    Moves(cfg, Any(), sh, threads, 4, Finishing(FinishList(0, 0, 1)), OK, sh, Finishing(FinishCount(0, 0, 1)));
    Moves(cfg, Any(), sh, threads, 4, Finishing(FinishCount(0, 0, 1)), OK, sh, Finishing(FinishSeal(0, 0, 1)));
    Sealing(cfg, code);
    Moves(cfg, Any(), sh, threads, 4, Finishing(FinishSeal(0, 0, 1)), Choice(false, code, Sent), Ended(cfg, code), Finishing(FinishWarm(0, 0, Finished1(cfg, code))));
  }

  lemma Counted(cfg: Config)
    ensures Listing(Tables(cfg, [ITEM], 2), 1) == [ITEM]
    ensures |ActiveRelays(Tables(cfg, [ITEM], 2), cfg.userOf(0), 0)| == 0
  {
    assert OrderRows([ITEM]) == InsertRow(OrderRows([]), ITEM);
    assert ActiveRelays(Tables(cfg, [ITEM], 2), cfg.userOf(0), 0) == {};
  }

  lemma Sealing(cfg: Config, code: string)
    ensures FinalizeTx(Tables(cfg, [ITEM], 2), 1, code, cfg.hash(code), cfg.defaultTtl, 0) == (Ended(cfg, code).db, Ok(Finished1(cfg, code)))
    ensures Commit(Started(cfg, [ITEM], 2), Ended(cfg, code).db) == Ended(cfg, code)
    ensures Fresh(cfg, Started(cfg, [ITEM], 2), code)
  {
    assert !HashTaken(Tables(cfg, [ITEM], 2), cfg.hash(code));
    assert Tables(cfg, [ITEM], 2).relays[1 := Finished1(cfg, code)] == map[1 := Finished1(cfg, code)];
    assert Commit(Started(cfg, [ITEM], 2), Ended(cfg, code).db).sealed == Ended(cfg, code).sealed;
  }

  /** A batch that a finish has made ready, with an item in it, disappears in the next step. */
  lemma ReadyBatchDisappears(cfg: Config, code: string)
    requires cfg.batchSessionTtl > 0 && cfg.maxActiveRelays >= 1
    ensures exists actions, action, r ::
      && LifeOf(Run(cfg, actions).sh.db, r).Sealed? && LifeOf(Run(cfg, actions).sh.db, r).seal.batch && LifeOf(Run(cfg, actions).sh.db, r).seal.items != []
      && LifeOf(Run(cfg, actions + [action]).sh.db, r).Gone?
  {
    hide Run;
    BatchStarts(cfg);
    AppendBegins(cfg, STARTED);
    ItemGoesIn(cfg, STARTED);
    var threads := STARTED[2 := Appended(cfg)];
    CancelChecks(cfg, threads);
    FinishSeals(cfg, code, threads[3 := CANCEL]);
    var w := World(Ended(cfg, code), threads[3 := CANCEL][4 := Finishing(FinishWarm(0, 0, Finished1(cfg, code)))]);
    var actions :| Reaches(cfg, Any(), actions, w);
    assert LifeOf(w.sh.db, 1) == Sealed(Seal(code, Some(cfg.hash(code)), cfg.defaultTtl, [ITEM], true));
    SealedVanishesExactly(cfg, actions, Advance(3, OK), 1);
    assert LifeOf(Run(cfg, actions + [Advance(3, OK)]).sh.db, 1).Gone?;
  }

  // ----- A ready relay without items -----

  const CREATE := Creating(CreateInsert(0, 0, FILE))

  /** While the append of a file waits to insert it, a single upload of the same update finds nothing stored and goes on. */
  lemma CreateChecks(cfg: Config, threads: map<int, Pc>)
    requires Reachable(cfg, Any(), World(Started(cfg, [], 1), threads)) && 3 !in threads && cfg.maxActiveRelays >= 1
    ensures Reachable(cfg, Any(), World(Started(cfg, [], 1), threads[3 := CREATE]))
  {
    hide Reachable, RelayByUpdate, ActiveRelays;
    var sh := Started(cfg, [], 1);
    Arrives(cfg, Any(), sh, threads, 3, Create(0, FILE), Creating(CreateCheck(0, 0, FILE)));
    NothingStored(cfg);
    Moves(cfg, Any(), sh, threads, 3, Creating(CreateCheck(0, 0, FILE)), OK, sh, Creating(CreateCount(0, 0, FILE)));
    Moves(cfg, Any(), sh, threads, 3, Creating(CreateCount(0, 0, FILE)), OK, sh, CREATE);
  }

  lemma NothingStored(cfg: Config)
    ensures RelayByUpdate(Tables(cfg, [], 1), 5).Err? && |ActiveRelays(Tables(cfg, [], 1), cfg.userOf(0), 0)| == 0
  {
    assert !HasItemFor(Tables(cfg, [], 1), 5);
    assert ActiveRelays(Tables(cfg, [], 1), cfg.userOf(0), 0) == {};
  }

  /** The item insert of the single upload finds the item in the batch and leaves the new relay empty. */
  lemma CreateWithoutItem(cfg: Config, code: string)
    ensures var sh := Started(cfg, [ITEM], 2); var (next, to) := StepPc(cfg, sh, CREATE, Choice(false, code, Sent));
      LifeOf(next.db, 2) == Sealed(Seal(code, Some(cfg.hash(code)), cfg.defaultTtl, [], false))
  {
    hide Commit;
    var sh, db := Started(cfg, [ITEM], 2), Tables(cfg, [ITEM], 2);
    var row := SingleRow(2, FILE, code, cfg.hash(code), cfg.userOf(0), 0, cfg.defaultTtl, 0);
    var middle := InsertRelay(db, row);
    assert ItemAt(middle, 1, 0, 5);
    assert HasItemFor(middle, 5);
    assert FILE.(mediaGroupId := "") == FILE;
    assert AddItemTx(middle, 2, FILE, 1, 0, 0, true).0 == middle && AddItemTx(middle, 2, FILE, 1, 0, 0, true).1.Ok?;
    assert CreateRelayTx(db, FILE, code, cfg.hash(code), cfg.userOf(0), 0, cfg.defaultTtl, 0) == (middle, Ok(row));
    CommitTables(sh, middle);
  }

  lemma CommitTables(sh: Shared, db: Db)
    ensures Commit(sh, db).db == db
  {
  }

  /** Some run makes a relay ready without any item. */
  lemma ReadyWithoutItems(cfg: Config, code: string)
    requires cfg.batchSessionTtl > 0 && cfg.maxActiveRelays >= 1
    ensures exists actions, r :: LifeOf(Run(cfg, actions).sh.db, r).Sealed? && LifeOf(Run(cfg, actions).sh.db, r).seal.items == []
  {
    hide Run, StepPc;
    BatchStarts(cfg);
    AppendBegins(cfg, STARTED);
    CreateChecks(cfg, STARTED[2 := Adding(cfg)]);
    assert STARTED[2 := Adding(cfg)][3 := CREATE] == STARTED[3 := CREATE][2 := Adding(cfg)];
    ItemGoesIn(cfg, STARTED[3 := CREATE]);
    var w := World(Started(cfg, [ITEM], 2), STARTED[3 := CREATE][2 := Appended(cfg)]);
    var actions :| Reaches(cfg, Any(), actions, w);
    var last := Advance(3, Choice(false, code, Sent));
    RunSnoc(cfg, actions, last);
    CreateWithoutItem(cfg, code);
    assert LifeOf(Run(cfg, actions + [last]).sh.db, 2).Sealed?;
  }
}
