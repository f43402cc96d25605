/** lookupRelay through the code cache against the plain lookup by hash, in every reachable state. */
module Lookup {
  import opened RelayTypes
  import opened Store
  import opened StoreFacts
  import opened Protocol
  import opened Invariants
  import opened Steps
  import opened Runs

  /** The lookup as it would be without a cache: one query by hash, and the checks on its row. */
  ghost function PlainLookup(db: Db, codeHash: string, now: Time): Result<Relay> {
    var row := RelayByHash(db, codeHash, now);
    if row.Err? then row else Verdict(row.value, now)
  }

  /** What the tables have to say to a code at a moment. */
  ghost predicate Answers(db: Db, codeHash: string, now: Time, r: Result<Relay>) {
    match r
    case Ok(relay) => relay.id in db.relays && relay == db.relays[relay.id] && relay.codeHash == Some(codeHash) && relay.status == Ready && relay.expiresAt > now
    case Err(RelayExpired) => exists x :: x in db.relays && db.relays[x].codeHash == Some(codeHash) && (db.relays[x].status == Expired || db.relays[x].expiresAt <= now)
    case Err(error) => error == RelayNotFound && forall x :: x in db.relays ==> db.relays[x].codeHash != Some(codeHash)
  }

  /** The plain lookup gives the one answer there is: the ready relay of the code, that it has expired, or that there is none. */
  lemma PlainAnswers(db: Db, hash: Hash, codeHash: string, now: Time, r: Result<Relay>)
    requires Integrity(db, hash)
    ensures Answers(db, codeHash, now, r) <==> r == PlainLookup(db, codeHash, now)
  {
    hide ItemRows, UpdatesUnique, DeliveryRows, RequestsUnique;
    PlainIsVerdict(db, codeHash, now);
    if x :| x in db.relays && db.relays[x].codeHash == Some(codeHash) {
      assert RelayRow(db.relays[x], hash) && db.relays[x].id == x;
      assert forall a :: a in db.relays && db.relays[a].codeHash == Some(codeHash) ==> a == x;
    }
  }

  /** A relay that was made ready under a hash is what the plain lookup finds, for as long as its row exists. */
  lemma CachedAnswerIsPlain(cfg: Config, sh: Shared, codeHash: string, id: int, now: Time)
    requires SharedInv(cfg, sh)
    requires id in sh.sealed && sh.sealed[id].codeHash == Some(codeHash) && id in sh.db.relays
    ensures Verdict(sh.db.relays[id], now) == PlainLookup(sh.db, codeHash, now)
  {
    assert SealMatches(sh, id);
    assert sh.db.relays[id].codeHash == Some(codeHash);
    assert HashTaken(sh.db, codeHash);
    var r :| r in sh.db.relays && sh.db.relays[r].codeHash == Some(codeHash);
    assert forall a :: a in sh.db.relays && sh.db.relays[a].codeHash == Some(codeHash) ==> a == id;
  }

  /**
   * Whatever the cache held when it was asked (a right id, the id of a deleted relay, nothing, or an error), the
   * lookup of a claim ends with the answer the plain lookup would give at the moment of its last read.
   */
  lemma LookupIsPlain(cfg: Config, actions: seq<Action>, t: int, choice: Choice)
    requires t in Run(cfg, actions).threads && !choice.fail
    ensures var w := Run(cfg, actions); var pc, (next, to) := w.threads[t], StepPc(cfg, w.sh, w.threads[t], choice);
      && (pc.Claiming? && pc.claim.ClaimById? ==>
            var p := pc.claim; var plain := PlainLookup(w.sh.db, CodeHash(cfg, p.request), p.now);
            next == w.sh && to ==
              if p.id !in w.sh.db.relays then Claiming(ClaimByHash(p.request, p.now))
              else if plain.Ok? then Claiming(ClaimList(p.request, p.now, plain.value)) else Refused(plain.error))
      && (pc.Claiming? && pc.claim.ClaimByHash? ==>
            var p := pc.claim; var plain := PlainLookup(w.sh.db, CodeHash(cfg, p.request), p.now);
            next == w.sh && to ==
              if plain.Ok? then Claiming(ClaimWarm(p.request, p.now, plain.value)) else Refused(plain.error))
  {
    hide Run, SharedInv, RelayByHash;
    RunKeeps(cfg, actions);
    var w := Run(cfg, actions);
    var pc := w.threads[t];
    assert PcOk(cfg, w.sh, pc);
    if pc.Claiming? && pc.claim.ClaimById? && pc.claim.id in w.sh.db.relays {
      CachedAnswerIsPlain(cfg, w.sh, CodeHash(cfg, pc.claim.request), pc.claim.id, pc.claim.now);
    }
  }

  /** Over every run, the last read of a lookup ends it with what the tables say to the code at that moment. */
  lemma LookupAnswers(cfg: Config, actions: seq<Action>, t: int, choice: Choice)
    requires t in Run(cfg, actions).threads && !choice.fail
    requires var w := Run(cfg, actions); var pc := w.threads[t];
      pc.Claiming? && (pc.claim.ClaimByHash? || (pc.claim.ClaimById? && pc.claim.id in w.sh.db.relays))
    ensures var w := Run(cfg, actions); var p, (next, to) := w.threads[t].claim, StepPc(cfg, w.sh, w.threads[t], choice);
      && next == w.sh
      && (to.Refused? ==> Answers(w.sh.db, CodeHash(cfg, p.request), p.now, Err(to.error)))
      && (!to.Refused? ==>
            && to == Claiming(if p.ClaimById? then ClaimList(p.request, p.now, to.claim.relay) else ClaimWarm(p.request, p.now, to.claim.relay))
            && Answers(w.sh.db, CodeHash(cfg, p.request), p.now, Ok(to.claim.relay)))
  {
    hide Run, SharedInv, HistoryInv, PcOk, PlainLookup, Answers, StepPc;
    var w := Run(cfg, actions);
    var p := w.threads[t].claim;
    RunKeeps(cfg, actions);
    LookupIsPlain(cfg, actions, t, choice);
    InvariantTables(cfg, w.sh);
    PlainAnswers(w.sh.db, cfg.hash, CodeHash(cfg, p.request), p.now, PlainLookup(w.sh.db, CodeHash(cfg, p.request), p.now));
  }

  /** What a claim goes on with is a relay that the plain lookup found: ready, unexpired at `now`, with the right code. */
  lemma ClaimedRelayIsRight(cfg: Config, actions: seq<Action>, t: int, request: int, now: Time, relay: Relay, items: seq<RelayItem>)
    requires t in Run(cfg, actions).threads && Run(cfg, actions).threads[t] == Claiming(ClaimInsert(request, now, relay, items))
    ensures relay.codeHash == Some(CodeHash(cfg, request)) && relay.expiresAt > now
    ensures var db := Run(cfg, actions).sh.db; relay.id in db.relays ==> items == Listing(db, relay.id) && items != []
  {
    hide Run, SharedInv, Evolves;
    RunKeeps(cfg, actions);
    var sh := Run(cfg, actions).sh;
    assert PcOk(cfg, sh, Claiming(ClaimInsert(request, now, relay, items)));
    ListingIsSealed(cfg, sh, relay.id);
  }

  /** The code that a finish returned leads every later lookup to that batch and its list, until it expires or is gone. */
  lemma ReturnedCodeFindsBatch(cfg: Config, actions: seq<Action>, more: seq<Action>, t: int, batch: Relay, now: Time)
    requires t in Run(cfg, actions).threads && Run(cfg, actions).threads[t] == Finished(batch)
    ensures var sh := Run(cfg, actions + more).sh;
      batch.id in sh.db.relays ==>
        && PlainLookup(sh.db, cfg.hash(batch.codeValue), now) ==
            (if sh.db.relays[batch.id].status == Expired || batch.expiresAt <= now then Err(RelayExpired) else Ok(sh.db.relays[batch.id]))
        && Listing(sh.db, batch.id) == Listing(Run(cfg, actions).sh.db, batch.id)
  {
    hide Run, DeliveriesEvolve, PlainLookup, Integrity, CodesInv, SessionsInv, DeliveriesSealed, BatchesBounded;
    RunKeeps(cfg, actions);
    RunKeeps(cfg, actions + more);
    RunEvolves(cfg, actions, more);
    SharedPart(cfg, Run(cfg, actions));
    SharedPart(cfg, Run(cfg, actions + more));
    var before, sh := Run(cfg, actions).sh, Run(cfg, actions + more).sh;
    assert PcOk(cfg, before, Finished(batch));
    if batch.id in sh.db.relays {
      assert SealMatches(sh, batch.id);
      CachedAnswerIsPlain(cfg, sh, cfg.hash(batch.codeValue), batch.id, now);
      ListingIsSealed(cfg, sh, batch.id);
      ListingIsSealed(cfg, before, batch.id);
    }
  }

  // ----- Maintenance -----

  /** With unique hashes the query by hash has one relay to look at, or none. */
  lemma PlainIsVerdict(db: Db, codeHash: string, now: Time)
    requires HashesUnique(db)
    ensures forall r :: r in db.relays && db.relays[r].codeHash == Some(codeHash) ==> PlainLookup(db, codeHash, now) == Verdict(db.relays[r], now)
    ensures (forall r :: r in db.relays ==> db.relays[r].codeHash != Some(codeHash)) ==> PlainLookup(db, codeHash, now) == Err(RelayNotFound)
  {
    forall r | r in db.relays && db.relays[r].codeHash == Some(codeHash)
      ensures PlainLookup(db, codeHash, now) == Verdict(db.relays[r], now)
    {
      assert HashTaken(db, codeHash);
      assert forall a :: a in db.relays && db.relays[a].codeHash == Some(codeHash) ==> a == r;
    }
  }

  /** A relay goes only if it carries no code, and changes at most to expired when it is overdue. */
  ghost predicate OnlyExpires(db: Db, next: Db, now: Time) {
    && (forall r :: r in next.relays ==> r in db.relays)
    && (forall r :: r in db.relays && r !in next.relays ==> db.relays[r].status == Collecting && db.relays[r].codeHash == None)
    && (forall r :: r in next.relays ==>
          || next.relays[r] == db.relays[r]
          || (db.relays[r].status == Ready && db.relays[r].expiresAt <= now && next.relays[r] == db.relays[r].(status := Expired, updatedAt := next.relays[r].updatedAt)))
  }

  lemma OnlyExpiresIsInvisible(db: Db, next: Db, now: Time, codeHash: string, at: Time, user: int)
    requires HashesUnique(db) && HashesUnique(next) && OnlyExpires(db, next, now) && now <= at
    ensures PlainLookup(next, codeHash, at) == PlainLookup(db, codeHash, at)
    ensures ActiveRelays(next, user, at) == ActiveRelays(db, user, at)
  {
    hide PlainLookup, HashesUnique;
    forall r ensures r in ActiveRelays(next, user, at) <==> r in ActiveRelays(db, user, at) {
      assert r in db.relays && r !in next.relays ==> db.relays[r].status == Collecting;
    }
    assert ActiveRelays(next, user, at) == ActiveRelays(db, user, at);
    PlainIsVerdict(db, codeHash, at);
    PlainIsVerdict(next, codeHash, at);
    if r :| r in db.relays && db.relays[r].codeHash == Some(codeHash) {
      assert r in next.relays && next.relays[r].codeHash == Some(codeHash);
      assert Verdict(next.relays[r], at) == Verdict(db.relays[r], at);
    } else {
      assert forall r :: r in next.relays ==> next.relays[r].codeHash != Some(codeHash);
    }
  }

  lemma WorkerOnlyExpires(cfg: Config, sh: Shared, pc: WorkerPc, choice: Choice, next: Shared, to: Pc)
    requires SharedInv(cfg, sh) && WorkerStep(cfg, sh, pc, choice) == (next, to)
    ensures OnlyExpires(sh.db, next.db, pc.now)
  {
    hide SealsInv, CodesInv, SessionsInv, DeliveriesSealed, BatchesBounded, HashesUnique, ItemRows, UpdatesUnique, DeliveryRows, RequestsUnique;
    assert forall r :: r in sh.db.relays ==> RelayRow(sh.db.relays[r], cfg.hash);
  }

  /**
   * Maintenance is invisible: no step of the worker, in no reachable state, changes what any lookup answers or which
   * relays count as active, at that moment or later.
   */
  lemma MaintenanceIsInvisible(cfg: Config, actions: seq<Action>, t: int, choice: Choice, codeHash: string, user: int, at: Time)
    requires t in Run(cfg, actions).threads && Run(cfg, actions).threads[t].Maintaining? && Run(cfg, actions).sh.clock <= at
    ensures var sh := Run(cfg, actions).sh; var next := StepPc(cfg, sh, Run(cfg, actions).threads[t], choice).0;
      && PlainLookup(next.db, codeHash, at) == PlainLookup(sh.db, codeHash, at)
      && ActiveRelays(next.db, user, at) == ActiveRelays(sh.db, user, at)
  {
    hide Run, SharedInv, HistoryInv, SharedEvolves, WorkerStep, PlainLookup, ActiveRelays, OnlyExpires;
    RunKeeps(cfg, actions);
    var w := Run(cfg, actions);
    var pc := w.threads[t];
    var (next, to) := StepPc(cfg, w.sh, pc, choice);
    assert PcOk(cfg, w.sh, pc);
    StepKeeps(cfg, w.sh, pc, choice, next, to);
    HashesDiffer(cfg, w.sh);
    HashesDiffer(cfg, next);
    WorkerOnlyExpires(cfg, w.sh, pc.worker, choice, next, to);
    OnlyExpiresIsInvisible(w.sh.db, next.db, pc.worker.now, codeHash, at, user);
  }

  lemma HashesDiffer(cfg: Config, sh: Shared)
    requires SharedInv(cfg, sh)
    ensures HashesUnique(sh.db)
  {
  }
}
