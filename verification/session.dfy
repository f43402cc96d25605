/**
 * internal/cache/rediscache/rediscache.go: merging batch upload sessions under optimistic locking.
 * One cache key is modelled; keys of different chats never touch each other.
 */
module SessionMerge {
  import opened RelayTypes

  // ----- mergeBatchUploadSession -----

  function MergeSessions(current: Session, next: Session): Session {
    if current.relayId == 0 then next
    else current.(
      uploaderUserId := if current.uploaderUserId == 0 then next.uploaderUserId else current.uploaderUserId,
      uploaderChatId := if current.uploaderChatId == 0 then next.uploaderChatId else current.uploaderChatId,
      itemCount := if next.itemCount > current.itemCount then next.itemCount else current.itemCount,
      progressMessageId := if next.progressMessageId > 0 then next.progressMessageId else current.progressMessageId,
      lastProgressNotifiedCount :=
        if next.lastProgressNotifiedCount > current.lastProgressNotifiedCount then next.lastProgressNotifiedCount
        else current.lastProgressNotifiedCount,
      lastProgressNotifiedAt :=
        if next.lastProgressNotifiedAt > current.lastProgressNotifiedAt then next.lastProgressNotifiedAt
        else current.lastProgressNotifiedAt,
      startedAt :=
        if current.startedAt == 0 || (next.startedAt != 0 && next.startedAt < current.startedAt) then next.startedAt
        else current.startedAt,
      lastActivityAt := if next.lastActivityAt > current.lastActivityAt then next.lastActivityAt else current.lastActivityAt)
  }

  /** Sessions of one and the same batch. */
  predicate SameBatch(a: Session, b: Session) {
    a.relayId == b.relayId != 0 && a.uploaderUserId == b.uploaderUserId && a.uploaderChatId == b.uploaderChatId
  }

  /** Equal in everything but the progress message id. */
  predicate SameButMessage(a: Session, b: Session) {
    a == b.(progressMessageId := a.progressMessageId)
  }

  lemma MergeAssociative(a: Session, b: Session, c: Session)
    requires a.relayId == b.relayId == c.relayId != 0
    ensures MergeSessions(MergeSessions(a, b), c) == MergeSessions(a, MergeSessions(b, c))
  {
  }

  lemma MergeIdempotent(a: Session, b: Session)
    requires a.relayId == b.relayId != 0
    ensures MergeSessions(a, a) == a && MergeSessions(MergeSessions(a, b), b) == MergeSessions(a, b)
  {
  }

  lemma MergeCommutes(a: Session, b: Session, c: Session)
    requires SameBatch(a, b) && SameBatch(a, c)
    ensures SameButMessage(MergeSessions(a, b), MergeSessions(b, a))
    ensures SameButMessage(MergeSessions(MergeSessions(a, b), c), MergeSessions(MergeSessions(a, c), b))
  {
  }

  lemma MergeKeepsSameness(a: Session, b: Session, c: Session)
    requires SameButMessage(a, b) && a.relayId != 0
    ensures SameButMessage(MergeSessions(a, c), MergeSessions(b, c))
  {
  }

  /** The order in which merging only moves up. */
  predicate Below(a: Session, b: Session) {
    && a.itemCount <= b.itemCount
    && a.lastProgressNotifiedCount <= b.lastProgressNotifiedCount
    && a.lastProgressNotifiedAt <= b.lastProgressNotifiedAt
    && a.lastActivityAt <= b.lastActivityAt
    && (a.startedAt != 0 ==> b.startedAt != 0 && b.startedAt <= a.startedAt)
  }

  /** On one batch the merge is the least upper bound. */
  lemma MergeIsLeastUpperBound(a: Session, b: Session, c: Session)
    requires a.relayId == b.relayId != 0
    ensures Below(a, MergeSessions(a, b)) && Below(b, MergeSessions(a, b))
    ensures Below(a, c) && Below(b, c) ==> Below(MergeSessions(a, b), c)
  {
  }

  /**
   * A merge never changes whose session it is or what it is about, takes over the latest message id there is, and gives
   * way altogether where nothing was stored.
   */
  lemma MergeKeepsIdentity(a: Session, b: Session)
    ensures a.relayId == 0 ==> MergeSessions(a, b) == b
    ensures a.relayId != 0 ==> var m := MergeSessions(a, b);
      && m.relayId == a.relayId && m.uploaderUserId == (if a.uploaderUserId != 0 then a.uploaderUserId else b.uploaderUserId)
      && m.uploaderChatId == (if a.uploaderChatId != 0 then a.uploaderChatId else b.uploaderChatId)
      && m.progressMessageId == (if b.progressMessageId > 0 then b.progressMessageId else a.progressMessageId)
  {
  }

  /** Merging a list of sessions of the batch one after the other. */
  function MergeAll(start: Session, sessions: seq<Session>): Session
    decreases sessions
  {
    if sessions == [] then start else MergeAll(MergeSessions(start, sessions[0]), sessions[1..])
  }

  predicate AllOfBatch(start: Session, sessions: seq<Session>) {
    forall i :: 0 <= i < |sessions| ==> SameBatch(start, sessions[i])
  }

  lemma {:induction false} MergeAllSameness(a: Session, b: Session, sessions: seq<Session>)
    requires SameButMessage(a, b) && a.relayId != 0 && AllOfBatch(a, sessions)
    ensures SameButMessage(MergeAll(a, sessions), MergeAll(b, sessions))
    decreases sessions
  {
    if sessions != [] {
      MergeKeepsSameness(a, b, sessions[0]);
      MergeAllSameness(MergeSessions(a, sessions[0]), MergeSessions(b, sessions[0]), sessions[1..]);
    }
  }

  /** Any one session may be merged first instead. */
  lemma {:induction false} MergeEarlier(start: Session, sessions: seq<Session>, i: nat)
    requires i < |sessions| && SameBatch(start, start) && AllOfBatch(start, sessions)
    ensures SameButMessage(MergeAll(start, sessions), MergeAll(MergeSessions(start, sessions[i]), sessions[..i] + sessions[i + 1..]))
    decreases i
  {
    var rest := sessions[..i] + sessions[i + 1..];
    if i == 0 {
      assert rest == sessions[1..];
    } else {
      var next := MergeSessions(start, sessions[0]);
      MergeEarlier(next, sessions[1..], i - 1);
      assert sessions[1..][..i - 1] + sessions[1..][i..] == rest[1..];
      MergeCommutes(start, sessions[0], sessions[i]);
      assert rest[0] == sessions[0];
      MergeAllSameness(MergeSessions(next, sessions[i]), MergeSessions(MergeSessions(start, sessions[i]), rest[0]), rest[1..]);
    }
  }

  lemma RemoveOne<T>(s: seq<T>, i: nat)
    requires i < |s|
    ensures multiset(s[..i] + s[i + 1..]) == multiset(s) - multiset{s[i]}
  {
    assert s == s[..i] + [s[i]] + s[i + 1..];
  }

  lemma FindFirst<T>(left: seq<T>, right: seq<T>) returns (i: nat)
    requires right != [] && multiset(left) == multiset(right)
    ensures i < |left| && left[i] == right[0]
    ensures multiset(left[..i] + left[i + 1..]) == multiset(right[1..])
  {
    assert right[0] in multiset(right);
    i :| 0 <= i < |left| && left[i] == right[0];
    RemoveOne(left, i);
    RemoveOne(right, 0);
    assert right[..0] + right[1..] == right[1..];
  }

  /** The order of concurrent merges of one batch shows in nothing but the progress message id. */
  lemma {:induction false} OrderShowsOnlyInMessage(start: Session, left: seq<Session>, right: seq<Session>)
    requires SameBatch(start, start) && AllOfBatch(start, left)
    requires multiset(left) == multiset(right)
    ensures SameButMessage(MergeAll(start, left), MergeAll(start, right))
    decreases right
  {
    if right == [] {
      assert left == [] by { assert |multiset(left)| == 0; }
    } else {
      var i := FindFirst(left, right);
      var rest := left[..i] + left[i + 1..];
      MergeEarlier(start, left, i);
      OrderShowsOnlyInMessage(MergeSessions(start, right[0]), rest, right[1..]);
    }
  }

  // ----- The key as atomic operations see it -----

  /** A committed operation on the key; a merge carries the client and what it returned. */
  datatype Op =
    | Merged(client: int, session: Session, returned: Session)
    | Stored(session: Session)
    | Dropped              // deleted or expired

  /** A stored session of another batch is returned as it is; otherwise the sessions are merged. */
  function MergeResult(value: Option<Session>, session: Session): Session {
    if value.None? then session
    else if Foreign(value, session) then value.value
    else MergeSessions(value.value, session)
  }

  predicate Foreign(value: Option<Session>, session: Session) {
    value.Some? && value.value.relayId != 0 && value.value.relayId != session.relayId
  }

  function Apply(value: Option<Session>, op: Op): Option<Session> {
    match op
    case Merged(_, session, _) => Some(MergeResult(value, session))
    case Stored(session) => Some(session)
    case Dropped => None
  }

  function Replay(log: seq<Op>): Option<Session> {
    if log == [] then None else Apply(Replay(log[..|log| - 1]), log[|log| - 1])
  }

  /** Every merge in the log returned what the atomic merge returns at its place in the log. */
  ghost predicate Atomic(log: seq<Op>) {
    forall i :: 0 <= i < |log| && log[i].Merged? ==> log[i].returned == MergeResult(Replay(log[..i]), log[i].session)
  }

  lemma AtomicSnoc(log: seq<Op>, op: Op)
    requires Atomic(log) && (op.Merged? ==> op.returned == MergeResult(Replay(log), op.session))
    ensures Atomic(log + [op]) && Replay(log + [op]) == Apply(Replay(log), op)
  {
    var longer := log + [op];
    assert longer[..|log|] == log;
    forall i | 0 <= i < |longer| && longer[i].Merged?
      ensures longer[i].returned == MergeResult(Replay(longer[..i]), longer[i].session)
    {
      if i < |log| { assert longer[..i] == log[..i]; }
    }
  }

  /** A late merge of another batch changes nothing, however many follow; only Stored and Dropped change the batch. */
  lemma {:induction false} BatchIsSticky(log: seq<Op>, tail: seq<Op>)
    requires Replay(log).Some? && Replay(log).value.relayId != 0
    requires forall i :: 0 <= i < |tail| ==> tail[i].Merged?
    ensures Replay(log + tail).Some? && Replay(log + tail).value.relayId == Replay(log).value.relayId
    ensures (forall i :: 0 <= i < |tail| ==> tail[i].session.relayId != Replay(log).value.relayId) ==>
      Replay(log + tail) == Replay(log)
  {
    if tail == [] {
      assert log + tail == log;
    } else {
      var front := tail[..|tail| - 1];
      BatchIsSticky(log, front);
      assert (log + tail)[..|log + tail| - 1] == log + front;
    }
  }

  // ----- Many clients running the WATCH loop -----

  datatype Client =
    | Wants(session: Session)
    | Watching(session: Session, seen: Option<Session>, version: nat)
    | Finished(returned: Session)

  datatype Key = Key(value: Option<Session>, version: nat, clients: map<int, Client>, log: seq<Op>)

  datatype Action =
    | Begin(client: int, session: Session)
    | Get(client: int)               // WATCH and GET; a session of another batch ends the loop here
    | Exec(client: int)              // MULTI, SET, EXEC; fails when the key was touched since WATCH
    | Store(session: Session)
    | Drop

  function Next(key: Key, action: Action): Key {
    match action
    case Begin(c, session) =>
      if c in key.clients then key else key.(clients := key.clients[c := Wants(session)])
    case Get(c) =>
      if c !in key.clients || !key.clients[c].Wants? then key
      else
        var session := key.clients[c].session;
        if Foreign(key.value, session) then
          key.(clients := key.clients[c := Finished(key.value.value)], log := key.log + [Merged(c, session, key.value.value)])
        else key.(clients := key.clients[c := Watching(session, key.value, key.version)])
    case Exec(c) =>
      if c !in key.clients || !key.clients[c].Watching? then key
      else
        var session := key.clients[c].session;
        if key.clients[c].version != key.version then key.(clients := key.clients[c := Wants(session)])
        else
          var merged := if key.clients[c].seen.Some? then MergeSessions(key.clients[c].seen.value, session) else session;
          Key(Some(merged), key.version + 1, key.clients[c := Finished(merged)], key.log + [Merged(c, session, merged)])
    case Store(session) => key.(value := Some(session), version := key.version + 1, log := key.log + [Stored(session)])
    case Drop => key.(value := None, version := key.version + 1, log := key.log + [Dropped])
  }

  const EMPTY := Key(None, 0, map[], [])

  function Run(actions: seq<Action>): Key {
    if actions == [] then EMPTY else Next(Run(actions[..|actions| - 1]), actions[|actions| - 1])
  }

  function CommitsOf(log: seq<Op>, client: int): nat {
    if log == [] then 0
    else CommitsOf(log[..|log| - 1], client) + (if log[|log| - 1].Merged? && log[|log| - 1].client == client then 1 else 0)
  }

  ghost predicate ClientFacts(key: Key, c: int) {
    if c !in key.clients then CommitsOf(key.log, c) == 0
    else match key.clients[c]
      case Wants(_) => CommitsOf(key.log, c) == 0
      case Watching(session, seen, version) =>
        && CommitsOf(key.log, c) == 0 && version <= key.version && !Foreign(seen, session)
        && (version == key.version ==> seen == key.value)
      case Finished(returned) =>
        && CommitsOf(key.log, c) == 1
        && exists i :: 0 <= i < |key.log| && key.log[i].Merged? && key.log[i].client == c && key.log[i].returned == returned
  }

  ghost predicate KeyFacts(key: Key) {
    && key.value == Replay(key.log)
    && Atomic(key.log)
    && forall c :: ClientFacts(key, c)
  }

  lemma OthersKeepFacts(key: Key, next: Key, op: Op, c: int)
    requires ClientFacts(key, c)
    requires next.log == key.log + [op] && !(op.Merged? && op.client == c)
    requires c in next.clients <==> c in key.clients
    requires c in key.clients ==> next.clients[c] == key.clients[c]
    requires next.version > key.version || (next.version == key.version && next.value == key.value)
    ensures ClientFacts(next, c)
  {
    assert next.log[..|key.log|] == key.log;
    if c in key.clients && key.clients[c].Finished? {
      var i :| 0 <= i < |key.log| && key.log[i].Merged? && key.log[i].client == c && key.log[i].returned == key.clients[c].returned;
      assert next.log[i] == key.log[i];
    }
  }

  lemma CommitterFacts(key: Key, next: Key, op: Op)
    requires op.Merged? && ClientFacts(key, op.client)
    requires op.client in key.clients && !key.clients[op.client].Finished?
    requires next.log == key.log + [op]
    requires op.client in next.clients && next.clients[op.client] == Finished(op.returned)
    ensures ClientFacts(next, op.client)
  {
    assert next.log[..|key.log|] == key.log;
    assert next.log[|key.log|] == op;
  }

  lemma QuietStep(key: Key, action: Action)
    requires KeyFacts(key) && Next(key, action).log == key.log
    ensures KeyFacts(Next(key, action)) && Next(key, action).value == key.value
  {
    var next := Next(key, action);
    forall c ensures ClientFacts(next, c) {
      assert ClientFacts(key, c);
    }
  }

  lemma CommittingStep(key: Key, action: Action, op: Op)
    requires KeyFacts(key) && Next(key, action).log == key.log + [op]
    ensures KeyFacts(Next(key, action)) && Next(key, action).value == Apply(key.value, op)
  {
    var next := Next(key, action);
    CommittedOp(key, action, op);
    AtomicSnoc(key.log, op);
    forall c ensures ClientFacts(next, c) {
      assert ClientFacts(key, c);
      if op.Merged? && op.client == c {
        CommitterFacts(key, next, op);
      } else {
        OthersKeepFacts(key, next, op, c);
      }
    }
  }

  /** A step either leaves the key alone or appends one operation and acts as that operation does atomically. */
  lemma StepRefinesAtomic(key: Key, action: Action)
    requires KeyFacts(key)
    ensures KeyFacts(Next(key, action))
    ensures || (Next(key, action).log == key.log && Next(key, action).value == key.value)
            || (exists op :: Next(key, action).log == key.log + [op] && Next(key, action).value == Apply(key.value, op))
  {
    var next := Next(key, action);
    if next.log == key.log {
      QuietStep(key, action);
    } else {
      var op := next.log[|key.log|];
      assert next.log == key.log + [op];
      CommittingStep(key, action, op);
    }
  }

  lemma CommittedOp(key: Key, action: Action, op: Op)
    requires KeyFacts(key) && Next(key, action).log == key.log + [op]
    ensures Next(key, action).value == Apply(key.value, op)
    ensures op.Merged? ==> op.returned == MergeResult(key.value, op.session)
    ensures op.Merged? ==> op.client in key.clients && !key.clients[op.client].Finished?
    ensures op.Merged? ==> Next(key, action).clients == key.clients[op.client := Finished(op.returned)]
    ensures !op.Merged? ==> Next(key, action).clients == key.clients
    ensures Next(key, action).version > key.version
         || (Next(key, action).version == key.version && Next(key, action).value == key.value)
  {
    assert op == Next(key, action).log[|key.log|];
    match action
    case Begin(c, session) =>
    case Get(c) =>
    case Exec(c) => assert ClientFacts(key, c);
    case Store(session) =>
    case Drop =>
  }

  /**
   * Over every interleaving of retries the stored session is the replay of the committed operations, every merge
   * returned what an atomic merge returns at its place, and every finished client committed exactly once.
   */
  lemma {:induction false} WatchLoopIsAtomic(actions: seq<Action>)
    ensures KeyFacts(Run(actions))
    decreases actions
  {
    if actions != [] {
      WatchLoopIsAtomic(actions[..|actions| - 1]);
      StepRefinesAtomic(Run(actions[..|actions| - 1]), actions[|actions| - 1]);
    }
  }

  // ----- One client's loop -----

  class SessionKey {
    var value: Option<Session>
    var version: nat
    ghost var log: seq<Op>

    ghost predicate Valid()
      reads this
    {
      value == Replay(log) && Atomic(log)
    }

    constructor ()
      ensures Valid() && log == []
    {
      value, version, log := None, 0, [];
    }

    /** SetBatchUploadSession with a positive time to live. */
    method Set(session: Session)
      requires Valid()
      modifies this
      ensures Valid() && log == old(log) + [Stored(session)] && value == Some(session) && version > old(version)
    {
      AtomicSnoc(log, Stored(session));
      value, version, log := Some(session), version + 1, log + [Stored(session)];
    }

    /** DeleteBatchUploadSession, or the key expires. */
    method Delete()
      requires Valid()
      modifies this
      ensures Valid() && log == old(log) + [Dropped] && value == None && version > old(version)
    {
      AtomicSnoc(log, Dropped);
      value, version, log := None, version + 1, log + [Dropped];
    }

    /** What other clients do to the key between this client's GET and EXEC: any committed operations. */
    method Others(writes: seq<Option<Session>>)
      requires Valid()
      modifies this
      ensures Valid() && old(log) <= log && version >= old(version)
      ensures version == old(version) ==> value == old(value) && log == old(log)
      ensures writes == [] ==> version == old(version)
    {
      for i := 0 to |writes|
        invariant Valid() && old(log) <= log && version >= old(version)
        invariant version == old(version) ==> value == old(value) && log == old(log)
        invariant i == 0 ==> version == old(version)
      {
        if writes[i].Some? {
          Set(writes[i].value);
        } else {
          Delete();
        }
      }
    }

    /**
     * The retry loop. `interference[n]` is what happens to the key during try number n; when the list is
     * used up nobody interferes. The call ends in exactly one committed merge, which acts atomically at its place.
     */
    method MergeBatchUploadSession(client: int, session: Session, ttl: int, interference: seq<seq<Option<Session>>>) returns (merged: Session)
      requires Valid()
      modifies this
      ensures Valid() && old(log) <= log
      ensures ttl <= 0 ==> log == old(log) && value == old(value) && merged == session
      ensures ttl > 0 ==> |log| > |old(log)| && log[|log| - 1] == Merged(client, session, merged)
      ensures ttl > 0 ==> merged == MergeResult(Replay(log[..|log| - 1]), session) && value == Some(merged)
    {
      if ttl <= 0 {
        return session;
      }
      var attempt := 0;
      while true
        invariant 0 <= attempt <= |interference|
        invariant Valid() && old(log) <= log
        decreases |interference| - attempt
      {
        var watched := version;
        var current := value;
        if current.Some? && current.value.relayId != 0 && current.value.relayId != session.relayId {
          merged := current.value;
          Commit(client, session, merged);
          return;
        }
        merged := if current.Some? then MergeSessions(current.value, session) else session;
        var busy := attempt < |interference|;
        if busy {
          Others(interference[attempt]);
        }
        if version != watched {
          attempt := attempt + 1;
          continue;
        }
        Commit(client, session, merged);
        value, version := Some(merged), version + 1;
        return;
      }
    }

    ghost method Commit(client: int, session: Session, merged: Session)
      requires value == Replay(log) && Atomic(log) && merged == MergeResult(value, session)
      modifies `log
      ensures log == old(log) + [Merged(client, session, merged)] && Atomic(log) && Replay(log) == Some(merged)
    {
      AtomicSnoc(log, Merged(client, session, merged));
      log := log + [Merged(client, session, merged)];
    }
  }
}
