/**
 * The bound of ActiveLimit is attained for every limit and every number of handlers in flight: fill the limit but for
 * one, let all handlers count while there is still room, and then let them insert one after the other.
 */
module Overshoot {
  import opened RelayTypes
  import opened Store
  import opened StoreFacts
  import opened Protocol
  import opened Runs
  import opened ActiveLimit
  import opened Witness

  const OK := Choice(false, "", Sent)

  /** Upload number `r`, the one file of relay `r`. */
  function File(r: int): Upload {
    Upload(r, "", Document, "file")
  }

  /** Codes enough for `n` relays, no two with the same hash. */
  ghost predicate Distinct(cfg: Config, codes: seq<string>) {
    forall i, j :: 0 <= i < j < |codes| ==> cfg.hash(codes[i]) != cfg.hash(codes[j])
  }

  // ----- The states of the run -----

  function Row(cfg: Config, codes: seq<string>, r: int): Relay
    requires 1 <= r <= |codes|
  {
    SingleRow(r, File(r), codes[r - 1], cfg.hash(codes[r - 1]), cfg.userOf(0), 0, cfg.defaultTtl, 0)
  }

  function Item(r: int): RelayItem {
    NewItem(r, r, File(r), 1, 0)
  }

  function Tables(cfg: Config, codes: seq<string>, n: nat): Db
    requires n <= |codes|
  {
    Db(map r: int | 1 <= r <= n :: Row(cfg, codes, r), map r: int | 1 <= r <= n :: [Item(r)], map[], n + 1, n + 1, 1)
  }

  /** `n` relays stored, nothing else ever done. */
  function Stored(cfg: Config, codes: seq<string>, n: nat): Shared
    requires n <= |codes|
  {
    INITIAL.(db := Tables(cfg, codes, n), sealed := map r: int | 1 <= r <= n :: Seal(codes[r - 1], Some(cfg.hash(codes[r - 1])), cfg.defaultTtl, [Item(r)], false))
  }

  function Waiting(r: int): Pc {
    Creating(CreateInsert(0, 0, File(r)))
  }

  function Warming(cfg: Config, codes: seq<string>, r: int): Pc
    requires 1 <= r <= |codes|
  {
    Creating(CreateWarm(0, Row(cfg, codes, r)))
  }

  /** The first `n` handlers have inserted, the next `j` have counted. */
  function Threads(cfg: Config, codes: seq<string>, n: nat, j: nat): map<int, Pc>
    requires n <= |codes|
  {
    map t: int | 1 <= t <= n + j :: if t <= n then Warming(cfg, codes, t) else Waiting(t)
  }

  /** At most `k` handlers of `u` in flight. */
  ghost function BoundedBy(cfg: Config, u: int, k: int): Rule {
    (w: World, action: Action) => |Inflight(cfg, w, u)| <= k
  }

  // ----- Counting -----

  function Between(n: int, m: int): (r: set<int>)
    ensures forall t :: t in r <==> n < t <= m
    ensures n <= m ==> |r| == m - n
    decreases m - n
  {
    if m <= n then {} else Between(n, m - 1) + {m}
  }

  /** Besides the waiting handlers at most one more, which has not counted yet. */
  lemma InFlight(cfg: Config, codes: seq<string>, n: nat, j: nat, sh: Shared, t: int, pc: Pc)
    requires n <= |codes| && t == n + j + 1 && (pc.Creating? && (pc.create.CreateCheck? || pc.create.CreateCount?))
    ensures |Inflight(cfg, World(sh, Threads(cfg, codes, n, j)), cfg.userOf(0))| == j
    ensures |Inflight(cfg, World(sh, Threads(cfg, codes, n, j)[t := pc]), cfg.userOf(0))| == j
  {
    assert Inflight(cfg, World(sh, Threads(cfg, codes, n, j)), cfg.userOf(0)) == Between(n, n + j);
    assert Inflight(cfg, World(sh, Threads(cfg, codes, n, j)[t := pc]), cfg.userOf(0)) == Between(n, n + j);
  }

  lemma AllActive(cfg: Config, codes: seq<string>, n: nat)
    requires n <= |codes| && cfg.defaultTtl >= 1
    ensures |ActiveRelays(Tables(cfg, codes, n), cfg.userOf(0), 0)| == n
  {
    assert ActiveRelays(Tables(cfg, codes, n), cfg.userOf(0), 0) == Between(0, n);
  }

  // ----- The steps of the run -----

  /** One more handler arrives, finds room and waits. */
  lemma Counts(cfg: Config, codes: seq<string>, n: nat, j: nat, k: int)
    requires n < cfg.maxActiveRelays && n <= |codes| && j < k && cfg.defaultTtl >= 1
    requires Reachable(cfg, BoundedBy(cfg, cfg.userOf(0), k), World(Stored(cfg, codes, n), Threads(cfg, codes, n, j)))
    ensures Reachable(cfg, BoundedBy(cfg, cfg.userOf(0), k), World(Stored(cfg, codes, n), Threads(cfg, codes, n, j + 1)))
  {
    hide Reachable, ActiveRelays, RelayByUpdate, Inflight, Tables;
    var rule, sh, threads, t := BoundedBy(cfg, cfg.userOf(0), k), Stored(cfg, codes, n), Threads(cfg, codes, n, j), n + j + 1;
    var check, count := Creating(CreateCheck(0, 0, File(t))), Creating(CreateCount(0, 0, File(t)));
    InFlight(cfg, codes, n, j, sh, t, check);
    InFlight(cfg, codes, n, j, sh, t, count);
    Arrives(cfg, rule, sh, threads, t, Create(0, File(t)), check);
    NotKnown(cfg, codes, n, t);
    Moves(cfg, rule, sh, threads, t, check, OK, sh, count);
    AllActive(cfg, codes, n);
    Moves(cfg, rule, sh, threads, t, count, OK, sh, Waiting(t));
    assert threads[t := Waiting(t)] == Threads(cfg, codes, n, j + 1);
  }

  lemma NotKnown(cfg: Config, codes: seq<string>, n: nat, updateId: int)
    requires n <= |codes| && updateId > n
    ensures RelayByUpdate(Tables(cfg, codes, n), updateId).Err?
  {
    assert !HasItemFor(Tables(cfg, codes, n), updateId);
  }

  /** The insert of relay `n + 1`: its row, and then its item. */
  lemma NextItem(cfg: Config, codes: seq<string>, n: nat)
    requires n < |codes|
    ensures var middle := InsertRelay(Tables(cfg, codes, n), Row(cfg, codes, n + 1));
      AddItemTx(middle, n + 1, File(n + 1), 1, 0, 0, true) == (InsertItem(middle, Item(n + 1)), Ok((Item(n + 1), true)))
  {
    var middle := InsertRelay(Tables(cfg, codes, n), Row(cfg, codes, n + 1));
    assert !HasItemFor(middle, n + 1);
    assert Rows(middle, n + 1) == [];
  }

  lemma NextTables(cfg: Config, codes: seq<string>, n: nat)
    requires n < |codes|
    ensures InsertItem(InsertRelay(Tables(cfg, codes, n), Row(cfg, codes, n + 1)), Item(n + 1)) == Tables(cfg, codes, n + 1)
  {
    var middle := InsertRelay(Tables(cfg, codes, n), Row(cfg, codes, n + 1));
    var next := InsertItem(middle, Item(n + 1));
    assert Rows(middle, n + 1) == [] && [] + [Item(n + 1)] == [Item(n + 1)];
    assert next.relays == Tables(cfg, codes, n + 1).relays;
    assert next.items == Tables(cfg, codes, n + 1).items;
  }

  lemma NextInsert(cfg: Config, codes: seq<string>, n: nat)
    requires n < |codes| && Distinct(cfg, codes)
    ensures CreateRelayTx(Tables(cfg, codes, n), File(n + 1), codes[n], cfg.hash(codes[n]), cfg.userOf(0), 0, cfg.defaultTtl, 0)
         == (Tables(cfg, codes, n + 1), Ok(Row(cfg, codes, n + 1)))
  {
    hide AddItemTx, InsertItem, InsertRelay;
    NextItem(cfg, codes, n);
    NextTables(cfg, codes, n);
    assert File(n + 1).(mediaGroupId := "") == File(n + 1);
  }

  lemma NextSeal(cfg: Config, codes: seq<string>, n: nat)
    requires n < |codes|
    ensures Commit(Stored(cfg, codes, n), Tables(cfg, codes, n + 1)) == Stored(cfg, codes, n + 1)
  {
    var next := Commit(Stored(cfg, codes, n), Tables(cfg, codes, n + 1));
    assert next.sealed.Keys == Stored(cfg, codes, n + 1).sealed.Keys;
    forall r | r in next.sealed ensures next.sealed[r] == Stored(cfg, codes, n + 1).sealed[r] {
    }
  }

  lemma NextIsFresh(cfg: Config, codes: seq<string>, n: nat)
    requires n < |codes| && Distinct(cfg, codes)
    ensures Fresh(cfg, Stored(cfg, codes, n), codes[n])
  {
  }

  lemma InsertStep(cfg: Config, codes: seq<string>, n: nat)
    requires n < |codes| && Distinct(cfg, codes)
    ensures StepPc(cfg, Stored(cfg, codes, n), Waiting(n + 1), Choice(false, codes[n], Sent))
         == (Stored(cfg, codes, n + 1), Warming(cfg, codes, n + 1))
  {
    hide CreateRelayTx, Tables, Commit, Fresh;
    NextInsert(cfg, codes, n);
    NextSeal(cfg, codes, n);
    NextIsFresh(cfg, codes, n);
  }

  /** The next waiting handler inserts, although others have done so since it counted. */
  lemma Inserts(cfg: Config, codes: seq<string>, n: nat, j: nat, k: int)
    requires n < |codes| && Distinct(cfg, codes) && j < k
    requires Reachable(cfg, BoundedBy(cfg, cfg.userOf(0), k), World(Stored(cfg, codes, n), Threads(cfg, codes, n, j + 1)))
    ensures Reachable(cfg, BoundedBy(cfg, cfg.userOf(0), k), World(Stored(cfg, codes, n + 1), Threads(cfg, codes, n + 1, j)))
  {
    hide Reachable, StepPc, Inflight, Stored;
    var rule, threads := BoundedBy(cfg, cfg.userOf(0), k), Threads(cfg, codes, n, j + 1);
    assert threads == threads[n + 1 := Waiting(n + 1)];
    InFlight(cfg, codes, n, j + 1, Stored(cfg, codes, n), n + j + 2, Creating(CreateCheck(0, 0, File(0))));
    InsertStep(cfg, codes, n);
    Moves(cfg, rule, Stored(cfg, codes, n), threads, n + 1, Waiting(n + 1), Choice(false, codes[n], Sent), Stored(cfg, codes, n + 1), Warming(cfg, codes, n + 1));
    assert threads[n + 1 := Warming(cfg, codes, n + 1)] == Threads(cfg, codes, n + 1, j);
  }

  // ----- The three parts of the run -----

  /** Filling up one at a time. */
  lemma {:induction false} Fills(cfg: Config, codes: seq<string>, n: nat, k: int)
    requires n < cfg.maxActiveRelays && n <= |codes| && Distinct(cfg, codes) && k >= 1 && cfg.defaultTtl >= 1
    ensures Reachable(cfg, BoundedBy(cfg, cfg.userOf(0), k), World(Stored(cfg, codes, n), Threads(cfg, codes, n, 0)))
  {
    hide Reachable, Stored, Threads;
    if n == 0 {
      Begins(cfg, BoundedBy(cfg, cfg.userOf(0), k));
      NothingStored(cfg, codes);
    } else {
      Fills(cfg, codes, n - 1, k);
      Counts(cfg, codes, n - 1, 0, k);
      Inserts(cfg, codes, n - 1, 0, k);
    }
  }

  lemma NothingStored(cfg: Config, codes: seq<string>)
    ensures World(Stored(cfg, codes, 0), Threads(cfg, codes, 0, 0)) == World(INITIAL, map[])
  {
    assert Tables(cfg, codes, 0).relays == map[] && Tables(cfg, codes, 0).items == map[];
    assert Stored(cfg, codes, 0).sealed == map[];
    assert Threads(cfg, codes, 0, 0) == map[];
  }

  /** All handlers count while one relay is missing. */
  lemma {:induction false} AllCount(cfg: Config, codes: seq<string>, n: nat, j: nat, k: int)
    requires n < cfg.maxActiveRelays && n <= |codes| && Distinct(cfg, codes) && j <= k && k >= 1 && cfg.defaultTtl >= 1
    ensures Reachable(cfg, BoundedBy(cfg, cfg.userOf(0), k), World(Stored(cfg, codes, n), Threads(cfg, codes, n, j)))
  {
    hide Reachable, Stored, Threads;
    if j == 0 {
      Fills(cfg, codes, n, k);
    } else {
      AllCount(cfg, codes, n, j - 1, k);
      Counts(cfg, codes, n, j - 1, k);
    }
  }

  /** And then all insert. */
  lemma {:induction false} AllInsert(cfg: Config, codes: seq<string>, n: nat, i: nat, k: int)
    requires n < cfg.maxActiveRelays && n + k <= |codes| && Distinct(cfg, codes) && i <= k && k >= 1 && cfg.defaultTtl >= 1
    ensures Reachable(cfg, BoundedBy(cfg, cfg.userOf(0), k), World(Stored(cfg, codes, n + i), Threads(cfg, codes, n + i, k - i)))
  {
    hide Reachable, Stored, Threads;
    if i == 0 {
      AllCount(cfg, codes, n, k, k);
    } else {
      AllInsert(cfg, codes, n, i - 1, k);
      Inserts(cfg, codes, n + i - 1, k - i, k);
    }
  }

  // ----- The exact condition -----

  /** The bound is attained: some run with at most `k` handlers in flight ends with MaxActiveRelays + k - 1 active relays. */
  lemma BoundIsAttained(cfg: Config, codes: seq<string>, k: nat)
    requires cfg.maxActiveRelays >= 1 && k >= 1 && cfg.defaultTtl >= 1
    requires Distinct(cfg, codes) && |codes| >= cfg.maxActiveRelays + k - 1
    ensures exists actions ::
      && InflightBounded(cfg, actions, cfg.userOf(0), k)
      && |ActiveRelays(Run(cfg, actions).sh.db, cfg.userOf(0), Run(cfg, actions).sh.clock)| == cfg.maxActiveRelays + k - 1
  {
    hide Run, Inflight, ActiveRelays, Tables, Threads;
    var u, n := cfg.userOf(0), cfg.maxActiveRelays - 1;
    AllInsert(cfg, codes, n, k, k);
    var w := World(Stored(cfg, codes, n + k), Threads(cfg, codes, n + k, 0));
    var actions :| Reaches(cfg, BoundedBy(cfg, u, k), actions, w);
    AllActive(cfg, codes, n + k);
    InFlight(cfg, codes, n + k, 0, w.sh, n + k + 1, Creating(CreateCheck(0, 0, File(0))));
    forall i | 0 <= i <= |actions| ensures |Inflight(cfg, Run(cfg, actions[..i]), u)| <= k {
      if i < |actions| {
        assert BoundedBy(cfg, u, k)(Run(cfg, actions[..i]), actions[i]);
      } else {
        assert actions[..i] == actions;
      }
    }
    assert InflightBounded(cfg, actions, u, k);
  }

  ghost predicate KeepsLimit(cfg: Config, actions: seq<Action>, u: int) {
    |ActiveRelays(Run(cfg, actions).sh.db, u, Run(cfg, actions).sh.clock)| <= cfg.maxActiveRelays
  }

  /**
   * All runs in which no user ever has more than `k` handlers in flight keep every user within MaxActiveRelays if and
   * only if `k` is at most one.
   */
  lemma LimitKeptExactly(cfg: Config, codes: seq<string>, k: int)
    requires cfg.maxActiveRelays >= 1 && cfg.defaultTtl >= 1 && Distinct(cfg, codes) && |codes| >= cfg.maxActiveRelays + 1
    ensures (forall actions, u :: InflightBounded(cfg, actions, u, k) ==> KeepsLimit(cfg, actions, u)) <==> k <= 1
  {
    hide Run, Inflight, ActiveRelays;
    if k <= 1 {
      forall actions, u | InflightBounded(cfg, actions, u, k) ensures KeepsLimit(cfg, actions, u) {
        ActiveRelaysBounded(cfg, actions, u, 1);
      }
    } else {
      BoundIsAttained(cfg, codes, 2);
      var actions :| InflightBounded(cfg, actions, cfg.userOf(0), 2)
        && |ActiveRelays(Run(cfg, actions).sh.db, cfg.userOf(0), Run(cfg, actions).sh.clock)| == cfg.maxActiveRelays + 1;
      assert InflightBounded(cfg, actions, cfg.userOf(0), k) && !KeepsLimit(cfg, actions, cfg.userOf(0));
    }
  }
}
