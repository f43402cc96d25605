/**
 * The other half of AtMostOnce: with a lag of two ticks beyond the retention, some run sends twice for a request.
 * Two handlers of one request look the relay up just before it expires. One inserts its row and sends; the row
 * outlives the relay by the retention and is purged; then the other inserts its row and sends again.
 */
module LateDuplicate {
  import opened RelayTypes
  import opened Store
  import opened StoreFacts
  import opened Protocol
  import opened Runs
  import opened AtMostOnce
  import opened Witness
  import Paging

  /** Every handler inserts its delivery row within `lag` of its start. */
  function PromptBy(lag: int): Rule {
    (w: World, action: Action) => PromptStep(w, action, lag)
  }

  /** A step that inserts no delivery row, or inserts it in time. */
  lemma Takes(cfg: Config, lag: int, sh: Shared, threads: map<int, Pc>, t: int, pc: Pc, choice: Choice, next: Shared, to: Pc)
    requires Reachable(cfg, PromptBy(lag), World(sh, threads[t := pc])) && StepPc(cfg, sh, pc, choice) == (next, to)
    requires AboutToInsert(pc) ==> sh.clock <= pc.claim.now + lag
    ensures Reachable(cfg, PromptBy(lag), World(next, threads[t := to]))
  {
    hide Reachable, StepPc;
    Moves(cfg, PromptBy(lag), sh, threads, t, pc, choice, next, to);
  }

  // ----- The states of the run -----

  const FILE := Upload(5, "", Document, "file")
  const REQUEST := 7

  function Row(cfg: Config): Relay {
    SingleRow(1, FILE, cfg.codeOf(REQUEST), CodeHash(cfg, REQUEST), cfg.userOf(0), 0, cfg.defaultTtl, 0)
  }

  const ITEM := NewItem(1, 1, FILE, 1, 0)

  function Tables(cfg: Config, status: RelayStatus, at: Time, deliveries: map<int, Delivery>, nextDelivery: int): Db {
    Db(map[1 := Row(cfg).(status := status, updatedAt := at)], map[1 := [ITEM]], deliveries, 2, 2, nextDelivery)
  }

  function State(cfg: Config, db: Db, clock: Time, claimed: map<int, int>, sends: seq<Send>, purged: set<int>): Shared {
    Shared(db, map[], map[], clock, map[1 := Seal(Row(cfg).codeValue, Row(cfg).codeHash, cfg.defaultTtl, [ITEM], false)], claimed, sends, purged, {})
  }

  function Stored(cfg: Config, clock: Time): Shared {
    State(cfg, Tables(cfg, Ready, 0, map[], 1), clock, map[], [], {})
  }

  const OK := Choice(false, "", Sent)
  const FAIL := Choice(true, "", Sent)

  ghost predicate Deployable(cfg: Config) {
    cfg.defaultTtl >= 1 && cfg.maxActiveRelays >= 1 && cfg.expiredDeliveryPurge >= 0
  }

  function UploadThread(cfg: Config): Pc {
    Creating(CreateWarm(0, Row(cfg)))
  }

  lemma Uploaded(cfg: Config, lag: int)
    requires Deployable(cfg)
    ensures Reachable(cfg, PromptBy(lag), World(Stored(cfg, 0), map[][0 := UploadThread(cfg)]))
  {
    hide Reachable, ActiveRelays, Tables, Stored, CreateRelayTx, Commit, RelayByUpdate;
    Begins(cfg, PromptBy(lag));
    Arrives(cfg, PromptBy(lag), INITIAL, map[], 0, Create(0, FILE), Creating(CreateCheck(0, 0, FILE)));
    NothingKnown(5);
    Takes(cfg, lag, INITIAL, map[], 0, Creating(CreateCheck(0, 0, FILE)), OK, INITIAL, Creating(CreateCount(0, 0, FILE)));
    NothingActive(cfg.userOf(0));
    Takes(cfg, lag, INITIAL, map[], 0, Creating(CreateCount(0, 0, FILE)), OK, INITIAL, Creating(CreateInsert(0, 0, FILE)));
    InsertStep(cfg);
    Takes(cfg, lag, INITIAL, map[], 0, Creating(CreateInsert(0, 0, FILE)), Choice(false, cfg.codeOf(REQUEST), Sent), Stored(cfg, 0), UploadThread(cfg));
  }

  lemma NothingKnown(updateId: int)
    ensures RelayByUpdate(EMPTY, updateId).Err?
  {
    assert !HasItemFor(EMPTY, updateId);
  }

  lemma InsertStep(cfg: Config)
    ensures CreateStep(cfg, INITIAL, CreateInsert(0, 0, FILE), Choice(false, cfg.codeOf(REQUEST), Sent)) == (Stored(cfg, 0), UploadThread(cfg))
  {
    hide CreateRelayTx, Tables, Commit;
    Inserts(cfg);
  }

  lemma NothingActive(u: int)
    ensures |ActiveRelays(EMPTY, u, 0)| == 0
  {
    assert ActiveRelays(EMPTY, u, 0) == {};
  }

  lemma Inserts(cfg: Config)
    ensures CreateRelayTx(EMPTY, FILE, cfg.codeOf(REQUEST), CodeHash(cfg, REQUEST), cfg.userOf(0), 0, cfg.defaultTtl, 0)
         == (Tables(cfg, Ready, 0, map[], 1), Ok(Row(cfg)))
    ensures Commit(INITIAL, Tables(cfg, Ready, 0, map[], 1)) == Stored(cfg, 0)
  {
    var middle := InsertRelay(EMPTY, Row(cfg));
    var done := InsertItem(middle, ITEM);
    assert ItemFor(middle, 5).None?;
    assert FILE.(mediaGroupId := "") == FILE;
    assert AddItemTx(middle, 1, FILE, 1, 0, 0, true) == (done, Ok((ITEM, true)));
    assert Rows(middle, 1) == [] && [] + [ITEM] == [ITEM];
    assert done.items == map[1 := [ITEM]] && done.relays == map[1 := Row(cfg)];
    assert done == Tables(cfg, Ready, 0, map[], 1);
    var next := Commit(INITIAL, Tables(cfg, Ready, 0, map[], 1));
    assert next.sealed.Keys == {1};
  }

  /** A claim of the request, from its arrival to the point where it is about to insert its delivery row. */
  lemma LooksUp(cfg: Config, lag: int, clock: Time, threads: map<int, Pc>, t: int)
    requires Reachable(cfg, PromptBy(lag), World(Stored(cfg, clock), threads)) && t !in threads && clock < cfg.defaultTtl
    ensures Reachable(cfg, PromptBy(lag), World(Stored(cfg, clock), threads[t := Claiming(ClaimInsert(REQUEST, clock, Row(cfg), [ITEM]))]))
  {
    hide Reachable, RelayByHash, Listing, Paging.Fragmented;
    var sh, row := Stored(cfg, clock), Row(cfg);
    Arrives(cfg, PromptBy(lag), sh, threads, t, Claim(REQUEST), Claiming(ClaimCache(REQUEST, clock)));
    Takes(cfg, lag, sh, threads, t, Claiming(ClaimCache(REQUEST, clock)), OK, sh, Claiming(ClaimByHash(REQUEST, clock)));
    Found(cfg, clock);
    Takes(cfg, lag, sh, threads, t, Claiming(ClaimByHash(REQUEST, clock)), OK, sh, Claiming(ClaimWarm(REQUEST, clock, row)));
    Takes(cfg, lag, sh, threads, t, Claiming(ClaimWarm(REQUEST, clock, row)), FAIL, sh, Claiming(ClaimList(REQUEST, clock, row)));
    Listed(cfg);
    Takes(cfg, lag, sh, threads, t, Claiming(ClaimList(REQUEST, clock, row)), OK, sh, Claiming(ClaimInsert(REQUEST, clock, row, [ITEM])));
  }

  lemma Found(cfg: Config, clock: Time)
    requires clock < cfg.defaultTtl
    ensures RelayByHash(Stored(cfg, clock).db, CodeHash(cfg, REQUEST), clock) == Ok(Row(cfg))
  {
    assert Stored(cfg, clock).db.relays[1] == Row(cfg);
  }

  lemma Listed(cfg: Config)
    ensures Listing(Tables(cfg, Ready, 0, map[], 1), 1) == [ITEM] && !Paging.Fragmented([ITEM])
  {
    assert OrderRows([ITEM]) == InsertRow(OrderRows([]), ITEM);
  }

  const SEND := Send(REQUEST, 1, FirstPage([ITEM]))

  /** Inserting the row and sending. */
  lemma Sends(cfg: Config, lag: int, sh: Shared, threads: map<int, Pc>, t: int, now: Time, next: Shared)
    requires Reachable(cfg, PromptBy(lag), World(sh, threads[t := Claiming(ClaimInsert(REQUEST, now, Row(cfg), [ITEM]))])) && sh.clock <= now + lag
    requires 1 in sh.db.relays && !HasDeliveryFor(sh.db, REQUEST)
    requires next == Commit(sh, CreateDeliveryTx(sh.db, 1, REQUEST, now).0).(claimed := next.claimed, sends := sh.sends + [SEND])
    requires next.claimed == if REQUEST in sh.claimed then sh.claimed else sh.claimed[REQUEST := 1]
    ensures Reachable(cfg, PromptBy(lag), World(next, threads[t := Claiming(ClaimMark(REQUEST, now, Row(cfg), sh.db.nextDelivery, Sent))]))
  {
    hide Reachable, HasDeliveryFor;
    var middle := next.(sends := sh.sends);
    var sending := Claiming(ClaimSend(REQUEST, now, Row(cfg), [ITEM], sh.db.nextDelivery));
    Takes(cfg, lag, sh, threads, t, Claiming(ClaimInsert(REQUEST, now, Row(cfg), [ITEM])), OK, middle, sending);
    Takes(cfg, lag, middle, threads, t, sending, OK, next, Claiming(ClaimMark(REQUEST, now, Row(cfg), sh.db.nextDelivery, Sent)));
  }

  // ----- The run -----

  function Waiting(cfg: Config): Pc {
    Claiming(ClaimInsert(REQUEST, cfg.defaultTtl - 1, Row(cfg), [ITEM]))
  }

  function Delivered(cfg: Config): Pc {
    Claiming(ClaimMark(REQUEST, cfg.defaultTtl - 1, Row(cfg), 1, Sent))
  }

  function Start(cfg: Config): map<int, Pc> {
    map[][0 := UploadThread(cfg)]
  }

  /** Both handlers have found the relay in its last moment, and the second has delivered. */
  function OneSent(cfg: Config, status: RelayStatus, at: Time, clock: Time): Shared {
    State(cfg, Tables(cfg, status, at, map[1 := Delivery(1, 1, REQUEST, Pending, cfg.defaultTtl - 1, cfg.defaultTtl - 1)], 2),
          clock, map[REQUEST := 1], [SEND], {})
  }

  lemma FirstSend(cfg: Config, lag: int)
    requires Deployable(cfg) && lag >= 0
    ensures Reachable(cfg, PromptBy(lag), World(OneSent(cfg, Ready, 0, cfg.defaultTtl - 1), Start(cfg)[1 := Waiting(cfg)][2 := Delivered(cfg)]))
  {
    hide Reachable, Commit;
    var now := cfg.defaultTtl - 1;
    var sh := Stored(cfg, now);
    Uploaded(cfg, lag);
    Passes(cfg, PromptBy(lag), Stored(cfg, 0), Start(cfg), now);
    LooksUp(cfg, lag, now, Start(cfg), 1);
    LooksUp(cfg, lag, now, Start(cfg)[1 := Waiting(cfg)], 2);
    Commits(cfg);
    Sends(cfg, lag, sh, Start(cfg)[1 := Waiting(cfg)], 2, now, OneSent(cfg, Ready, 0, now));
  }

  lemma Commits(cfg: Config)
    ensures var sh, now := Stored(cfg, cfg.defaultTtl - 1), cfg.defaultTtl - 1;
      OneSent(cfg, Ready, 0, now) == Commit(sh, CreateDeliveryTx(sh.db, 1, REQUEST, now).0).(claimed := sh.claimed[REQUEST := 1], sends := sh.sends + [SEND])
  {
    var sh, now := Stored(cfg, cfg.defaultTtl - 1), cfg.defaultTtl - 1;
    assert Commit(sh, CreateDeliveryTx(sh.db, 1, REQUEST, now).0).sealed == sh.sealed;
    assert [] + [SEND] == [SEND];
  }

  /** The first moment at which the purge takes the row. */
  function Late(cfg: Config): Time {
    cfg.defaultTtl + cfg.expiredDeliveryPurge + 1
  }

  function Purged(cfg: Config): Shared {
    State(cfg, Tables(cfg, Expired, Late(cfg), map[], 2), Late(cfg), map[REQUEST := 1], [SEND], {1})
  }

  lemma PurgesRow(cfg: Config, lag: int)
    requires Deployable(cfg) && lag >= 0
    ensures Reachable(cfg, PromptBy(lag), World(Purged(cfg), Start(cfg)[1 := Waiting(cfg)][2 := Delivered(cfg)][3 := Done]))
  {
    hide Reachable, Commit, ExpireTx, PurgeTx, Losers;
    var late, threads := Late(cfg), Start(cfg)[1 := Waiting(cfg)][2 := Delivered(cfg)];
    var sh, expired := OneSent(cfg, Ready, 0, late), OneSent(cfg, Expired, late, late);
    FirstSend(cfg, lag);
    Passes(cfg, PromptBy(lag), OneSent(cfg, Ready, 0, cfg.defaultTtl - 1), threads, late);
    Arrives(cfg, PromptBy(lag), sh, threads, 3, Maintain, Maintaining(SweepBatches(late)));
    Takes(cfg, lag, sh, threads, 3, Maintaining(SweepBatches(late)), FAIL, sh, Maintaining(ExpireReady(late)));
    Expires(cfg);
    Takes(cfg, lag, sh, threads, 3, Maintaining(ExpireReady(late)), OK, expired, Maintaining(TimeoutDeliveries(late)));
    Takes(cfg, lag, expired, threads, 3, Maintaining(TimeoutDeliveries(late)), FAIL, expired, Maintaining(PurgeDeliveries(late)));
    Purges(cfg);
    Takes(cfg, lag, expired, threads, 3, Maintaining(PurgeDeliveries(late)), OK, Purged(cfg), Done);
  }

  lemma Expires(cfg: Config)
    requires Deployable(cfg)
    ensures var sh := OneSent(cfg, Ready, 0, Late(cfg)); Commit(sh, ExpireTx(sh.db, Late(cfg))) == OneSent(cfg, Expired, Late(cfg), Late(cfg))
  {
    var sh := OneSent(cfg, Ready, 0, Late(cfg));
    assert ExpireTx(sh.db, Late(cfg)).relays == OneSent(cfg, Expired, Late(cfg), Late(cfg)).db.relays;
    assert Commit(sh, ExpireTx(sh.db, Late(cfg))).sealed == sh.sealed;
  }

  lemma Purges(cfg: Config)
    requires Deployable(cfg)
    ensures var sh, before := OneSent(cfg, Expired, Late(cfg), Late(cfg)), Late(cfg) - cfg.expiredDeliveryPurge;
      Commit(sh, PurgeTx(sh.db, before)).(purged := sh.purged + Losers(sh.db, before)) == Purged(cfg)
  {
    var sh, before := OneSent(cfg, Expired, Late(cfg), Late(cfg)), Late(cfg) - cfg.expiredDeliveryPurge;
    assert Purgeable(sh.db, 1, before);
    assert PurgeTx(sh.db, before).deliveries == map[];
    assert Losers(sh.db, before) == {1};
    assert Commit(sh, PurgeTx(sh.db, before)).sealed == sh.sealed;
  }

  function TwoSent(cfg: Config): Shared {
    var now := cfg.defaultTtl - 1;
    State(cfg, Tables(cfg, Expired, Late(cfg), map[2 := Delivery(2, 1, REQUEST, Pending, now, now)], 3), Late(cfg), map[REQUEST := 1], [SEND, SEND], {1})
  }

  lemma SecondSend(cfg: Config, lag: int)
    requires Deployable(cfg) && lag >= cfg.expiredDeliveryPurge + 2
    ensures exists threads :: Reachable(cfg, PromptBy(lag), World(TwoSent(cfg), threads))
  {
    hide Reachable, Commit, CreateDeliveryTx;
    var now, threads := cfg.defaultTtl - 1, Start(cfg)[2 := Delivered(cfg)][3 := Done];
    PurgesRow(cfg, lag);
    assert Start(cfg)[1 := Waiting(cfg)][2 := Delivered(cfg)][3 := Done] == threads[1 := Waiting(cfg)];
    CommitsAgain(cfg);
    Sends(cfg, lag, Purged(cfg), threads, 1, now, TwoSent(cfg));
  }

  lemma CommitsAgain(cfg: Config)
    ensures var sh, now := Purged(cfg), cfg.defaultTtl - 1;
      TwoSent(cfg) == Commit(sh, CreateDeliveryTx(sh.db, 1, REQUEST, now).0).(claimed := sh.claimed, sends := sh.sends + [SEND])
  {
    var sh, now := Purged(cfg), cfg.defaultTtl - 1;
    assert Commit(sh, CreateDeliveryTx(sh.db, 1, REQUEST, now).0).sealed == sh.sealed;
    assert [SEND] + [SEND] == [SEND, SEND];
  }

  // ----- The exact condition -----

  /**
   * Every run whose handlers insert their delivery rows within `lag` of their start sends at most once per request,
   * exactly when `lag` exceeds the retention of purged deliveries by at most one tick.
   */
  lemma SendsOnceExactly(cfg: Config, lag: int)
    requires Deployable(cfg) && lag >= 0
    ensures (forall actions :: Prompt(cfg, actions, lag) ==> SendsOnce(cfg, actions)) <==> lag <= cfg.expiredDeliveryPurge + 1
  {
    hide Run, State, Tables;
    if lag <= cfg.expiredDeliveryPurge + 1 {
      forall actions | Prompt(cfg, actions, lag) ensures SendsOnce(cfg, actions) {
        PromptRunsSendOnce(cfg, actions, lag);
        forall q ensures CountSends(Run(cfg, actions).sh.sends, q) <= 1 {
          assert OnceFor(Run(cfg, actions), q);
        }
      }
    } else {
      SecondSend(cfg, lag);
      var threads :| Reachable(cfg, PromptBy(lag), World(TwoSent(cfg), threads));
      var actions :| Reaches(cfg, PromptBy(lag), actions, World(TwoSent(cfg), threads));
      SentTwice(cfg);
      assert !SendsOnce(cfg, actions);
    }
  }

  lemma SentTwice(cfg: Config)
    ensures CountSends(TwoSent(cfg).sends, REQUEST) == 2
  {
    assert CountSends([SEND], REQUEST) == 1 by { assert [SEND][..0] == []; }
    assert [SEND, SEND][..1] == [SEND];
  }
}
