/**
 * internal/telegram/sender.go: turning one page of items into Bot API calls.
 * The bot is an object that records every call and answers each one from an arbitrary script.
 */
module Sender {
  import opened RelayTypes
  import opened Paging

  const MAX_CHUNK_ITEMS := 10

  datatype Mode = Invalid | Visual | AudioOnly | DocumentOnly

  datatype Method = SendDocument | SendPhoto | SendVideo | SendAudio | SendVoice | SendBatch | NoMethod

  /** One request to the Bot API: a message by one of its methods, or a media group. */
  datatype Call =
    | Single(via: Method, item: RelayItem)
    | Group(items: seq<RelayItem>)

  /** What the Bot API does with a request. A timeout hides whether the message was sent. */
  datatype Reply =
    | Accepted(messageId: int)
    | AcceptedEmpty            // sendMediaGroup may answer with no messages
    | Refused
    | TimedOut(reached: bool)

  predicate Failing(reply: Reply) {
    !reply.Accepted?
  }

  function ItemsOf(call: Call): seq<RelayItem> {
    if call.Single? then [call.item] else call.items
  }

  function CallItems(calls: seq<Call>): seq<RelayItem> {
    if calls == [] then [] else ItemsOf(calls[0]) + CallItems(calls[1..])
  }

  function ErrorOf(reply: Reply): Error {
    if reply.TimedOut? then SendUnknown else SendFailed
  }

  class Bot {
    const script: nat -> Reply
    var calls: seq<Call>

    constructor (script: nat -> Reply)
      ensures this.script == script && calls == []
    {
      this.script := script;
      calls := [];
    }

    method Request(call: Call) returns (reply: Reply)
      modifies this
      ensures calls == old(calls) + [call]
      ensures reply == script(|old(calls)|)
    {
      reply := script(|calls|);
      calls := calls + [call];
    }
  }

  function KindMode(kind: MediaKind): Mode {
    match kind
    case Photo => Visual
    case Video => Visual
    case Audio => AudioOnly
    case Document => DocumentOnly
    case _ => Invalid
  }

  /** All items are of one and the same valid mode. */
  predicate OneMode(items: seq<RelayItem>) {
    forall i :: 0 <= i < |items| ==> KindMode(items[i].mediaKind) == KindMode(items[0].mediaKind) != Invalid
  }

  method CanSendAsMediaGroup(items: seq<RelayItem>) returns (r: bool)
    ensures r <==> |items| >= 2 && OneMode(items)
    ensures r <==> |items| >= 2 && Album(items)
  {
    AlbumsAreOfOneMode(items);
    if |items| < 2 {
      return false;
    }
    var mode := KindMode(items[0].mediaKind);
    if mode == Invalid {
      return false;
    }
    for i := 1 to |items|
      invariant forall j :: 0 <= j < i ==> KindMode(items[j].mediaKind) == mode
    {
      var nextMode := KindMode(items[i].mediaKind);
      if nextMode == Invalid || nextMode != mode {
        return false;
      }
    }
    return true;
  }

  // ----- The calls a page stands for -----

  function MethodFor(kind: MediaKind): Method {
    match kind
    case Document => SendDocument
    case Photo => SendPhoto
    case Video => SendVideo
    case Audio => SendAudio
    case Voice => SendVoice
    case Other(_) => NoMethod
  }

  function SingleCall(item: RelayItem): Call {
    Single(MethodFor(item.mediaKind), item)
  }

  function Singles(items: seq<RelayItem>): seq<Call> {
    seq(|items|, i requires 0 <= i < |items| => SingleCall(items[i]))
  }

  function ChunkCalls(items: seq<RelayItem>): seq<Call> {
    if |items| >= 2 && OneMode(items) then [Group(items)] else Singles(items)
  }

  /** splitPageItems: consecutive chunks of ten, the last one shorter. */
  function Chunks(items: seq<RelayItem>): seq<seq<RelayItem>> {
    if items == [] then []
    else if |items| <= MAX_CHUNK_ITEMS then [items]
    else [items[..MAX_CHUNK_ITEMS]] + Chunks(items[MAX_CHUNK_ITEMS..])
  }

  function ChunkedCalls(chunks: seq<seq<RelayItem>>): seq<Call> {
    if chunks == [] then [] else ChunkCalls(chunks[0]) + ChunkedCalls(chunks[1..])
  }

  function PageCalls(items: seq<RelayItem>): seq<Call> {
    ChunkedCalls(Chunks(items))
  }

  predicate Supported(items: seq<RelayItem>) {
    forall i :: 0 <= i < |items| ==> !items[i].mediaKind.Other?
  }

  /** The method that the Bot API has for one file of a kind. */
  ghost predicate Fits(via: Method, kind: MediaKind) {
    && (via == SendDocument <==> kind == Document) && (via == SendPhoto <==> kind == Photo) && (via == SendVideo <==> kind == Video)
    && (via == SendAudio <==> kind == Audio) && (via == SendVoice <==> kind == Voice) && via != SendBatch
  }

  /** Photos and videos, or audio files, or documents: what sendMediaGroup takes together. */
  ghost predicate Album(items: seq<RelayItem>) {
    || (forall i :: 0 <= i < |items| ==> items[i].mediaKind == Photo || items[i].mediaKind == Video)
    || (forall i :: 0 <= i < |items| ==> items[i].mediaKind == Audio)
    || (forall i :: 0 <= i < |items| ==> items[i].mediaKind == Document)
  }

  lemma AlbumsAreOfOneMode(items: seq<RelayItem>)
    ensures Album(items) <==> OneMode(items)
  {
    if OneMode(items) && items != [] {
      assert KindMode(items[0].mediaKind) != Invalid;
    }
  }

  /** A call as the Bot API accepts it. */
  ghost predicate LegalCall(call: Call) {
    match call
    case Single(via, item) => Fits(via, item.mediaKind)
    case Group(items) => 2 <= |items| <= 10 && Album(items)
  }

  /** One message for each item. */
  ghost predicate OneByOne(calls: seq<Call>, items: seq<RelayItem>) {
    |calls| == |items| && forall i :: 0 <= i < |calls| ==> calls[i].Single? && calls[i].item == items[i] && Fits(calls[i].via, items[i].mediaKind)
  }

  /** An album of two or more goes out as one group, and anything else as one message for each item. */
  lemma AlbumsGoTogether(items: seq<RelayItem>)
    requires |items| <= 10
    ensures |items| >= 2 && Album(items) ==> PageCalls(items) == ChunkCalls(items) == [Group(items)]
    ensures |items| < 2 || !Album(items) ==> PageCalls(items) == ChunkCalls(items) && OneByOne(ChunkCalls(items), items)
  {
    AlbumsAreOfOneMode(items);
    if items != [] {
      assert Chunks(items) == [items] && [items][1..] == [];
      assert PageCalls(items) == ChunkCalls(items) + ChunkedCalls([]) == ChunkCalls(items);
    }
  }

  lemma {:induction false} CallItemsConcat(a: seq<Call>, b: seq<Call>)
    ensures CallItems(a + b) == CallItems(a) + CallItems(b)
  {
    if a == [] {
      assert a + b == b;
    } else {
      CallItemsConcat(a[1..], b);
      assert (a + b)[1..] == a[1..] + b && (a + b)[0] == a[0];
      var head, middle, last := ItemsOf(a[0]), CallItems(a[1..]), CallItems(b);
      assert head + (middle + last) == (head + middle) + last;
    }
  }

  lemma {:induction false} SinglesCarry(items: seq<RelayItem>)
    ensures CallItems(Singles(items)) == items
  {
    if items != [] {
      SinglesCarry(items[1..]);
      assert Singles(items)[1..] == Singles(items[1..]);
      assert items == [items[0]] + items[1..];
    }
  }

  lemma ChunkCallsCarry(items: seq<RelayItem>)
    requires |items| <= MAX_CHUNK_ITEMS
    ensures CallItems(ChunkCalls(items)) == items
    ensures forall c :: 0 <= c < |ChunkCalls(items)| ==> LegalCall(ChunkCalls(items)[c])
  {
    SinglesCarry(items);
    AlbumsAreOfOneMode(items);
    if |items| >= 2 && OneMode(items) {
      assert CallItems([Group(items)]) == items + CallItems([]);
    }
  }

  lemma {:induction false} ChunkedCallsCarry(chunks: seq<seq<RelayItem>>)
    requires forall c :: 0 <= c < |chunks| ==> |chunks[c]| <= MAX_CHUNK_ITEMS
    ensures CallItems(ChunkedCalls(chunks)) == Concat(chunks)
    ensures forall c :: 0 <= c < |ChunkedCalls(chunks)| ==> LegalCall(ChunkedCalls(chunks)[c])
  {
    if chunks != [] {
      ChunkCallsCarry(chunks[0]);
      ChunkedCallsCarry(chunks[1..]);
      CallItemsConcat(ChunkCalls(chunks[0]), ChunkedCalls(chunks[1..]));
    }
  }

  lemma {:induction false} ChunksDivide(items: seq<RelayItem>)
    ensures Concat(Chunks(items)) == items
    ensures forall c :: 0 <= c < |Chunks(items)| ==> 1 <= |Chunks(items)[c]| <= 10 && (c < |Chunks(items)| - 1 ==> |Chunks(items)[c]| == 10)
  {
    if items == [] {
    } else if |items| <= MAX_CHUNK_ITEMS {
      assert Concat([items]) == items + Concat([]);
    } else {
      ChunksDivide(items[MAX_CHUNK_ITEMS..]);
      assert Chunks(items)[1..] == Chunks(items[MAX_CHUNK_ITEMS..]);
    }
  }

  /** Whatever the length of a page, its calls carry exactly its items in order, and every group is legal. */
  lemma PageCallsCarryItems(items: seq<RelayItem>)
    ensures CallItems(PageCalls(items)) == items
    ensures forall c :: 0 <= c < |PageCalls(items)| ==> LegalCall(PageCalls(items)[c])
  {
    ChunksDivide(items);
    ChunkedCallsCarry(Chunks(items));
  }

  /** The items carried by the first calls of a list are a prefix of those carried by all of it. */
  lemma CallPrefixCarriesPrefix(calls: seq<Call>, k: nat)
    requires k <= |calls|
    ensures CallItems(calls[..k]) <= CallItems(calls)
  {
    CallItemsConcat(calls[..k], calls[k..]);
    assert calls == calls[..k] + calls[k..];
  }

  // ----- The outcome of a list of calls against a script -----

  /** The first message id that is not 0, in call order; the code keeps 0 as "none yet". */
  function FirstId(script: nat -> Reply, from: nat, count: nat): int
    decreases count
  {
    if count == 0 then 0
    else if script(from).Accepted? && script(from).messageId != 0 then script(from).messageId
    else FirstId(script, from + 1, count - 1)
  }

  lemma {:induction false} FirstIdSplit(script: nat -> Reply, from: nat, a: nat, b: nat)
    ensures FirstId(script, from, a + b)
         == if FirstId(script, from, a) != 0 then FirstId(script, from, a) else FirstId(script, from + a, b)
    decreases a
  {
    if a != 0 {
      FirstIdSplit(script, from + 1, a - 1, b);
    }
  }

  /** `id` is the first message id other than 0 that the calls number `from` to `to` - 1 were answered with, or 0. */
  ghost predicate FirstOf(script: nat -> Reply, from: nat, to: nat, id: int) {
    if id == 0 then forall n :: from <= n < to && script(n).Accepted? ==> script(n).messageId == 0
    else exists n :: from <= n < to && AnsweredFirst(script, from, n, id)
  }

  ghost predicate AnsweredFirst(script: nat -> Reply, from: nat, n: nat, id: int) {
    script(n) == Accepted(id) && forall m :: from <= m < n && script(m).Accepted? ==> script(m).messageId == 0
  }

  lemma {:induction false} FirstIdIsFirst(script: nat -> Reply, from: nat, count: nat)
    ensures FirstOf(script, from, from + count, FirstId(script, from, count))
    decreases count
  {
    if count > 0 {
      var id := FirstId(script, from, count);
      if script(from).Accepted? && script(from).messageId != 0 {
        assert AnsweredFirst(script, from, from, id);
      } else {
        FirstIdIsFirst(script, from + 1, count - 1);
        if id != 0 {
          var n :| from + 1 <= n < from + count && AnsweredFirst(script, from + 1, n, id);
          assert AnsweredFirst(script, from, n, id);
        }
      }
    }
  }

  predicate AllAccepted(script: nat -> Reply, from: nat, to: nat) {
    forall n :: from <= n < to ==> script(n).Accepted?
  }

  /** Every call of `plan` was made, in order, and accepted. */
  ghost predicate Completed(script: nat -> Reply, before: seq<Call>, after: seq<Call>, plan: seq<Call>) {
    && after == before + plan
    && AllAccepted(script, |before|, |before| + |plan|)
  }

  /**
   * A proper part of `plan` was made and accepted, and then either the next call was made and failed, or the
   * next item has no Bot API method at all.
   */
  ghost predicate StoppedAt(script: nat -> Reply, before: seq<Call>, after: seq<Call>, plan: seq<Call>, k: nat, error: Error) {
    && k < |plan|
    && AllAccepted(script, |before|, |before| + k)
    && (|| (after == before + plan[..k + 1] && Failing(script(|before| + k)) && error == ErrorOf(script(|before| + k)))
        || (after == before + plan[..k] && plan[k].Single? && plan[k].item.mediaKind.Other? && error == SendFailed))
  }

  ghost predicate Stopped(script: nat -> Reply, before: seq<Call>, after: seq<Call>, plan: seq<Call>, error: Error) {
    exists k: nat :: StoppedAt(script, before, after, plan, k, error)
  }

  lemma CompletedThen(script: nat -> Reply, s0: seq<Call>, s1: seq<Call>, s2: seq<Call>, p: seq<Call>, q: seq<Call>)
    requires Completed(script, s0, s1, p) && Completed(script, s1, s2, q)
    ensures Completed(script, s0, s2, p + q)
  {
    assert s0 + p + q == s0 + (p + q);
  }

  lemma StoppedThen(script: nat -> Reply, s0: seq<Call>, s1: seq<Call>, s2: seq<Call>, p: seq<Call>, q: seq<Call>, error: Error)
    requires Completed(script, s0, s1, p) && Stopped(script, s1, s2, q, error)
    ensures Stopped(script, s0, s2, p + q, error)
  {
    var k: nat :| StoppedAt(script, s1, s2, q, k, error);
    assert (p + q)[..|p| + k + 1] == p + q[..k + 1];
    assert (p + q)[..|p| + k] == p + q[..k];
    assert s0 + p + q[..k + 1] == s0 + (p + q[..k + 1]) && s0 + p + q[..k] == s0 + (p + q[..k]);
    assert StoppedAt(script, s0, s2, p + q, |p| + k, error);
  }

  lemma StoppedInside(script: nat -> Reply, s0: seq<Call>, s1: seq<Call>, p: seq<Call>, q: seq<Call>, error: Error)
    requires Stopped(script, s0, s1, p, error)
    ensures Stopped(script, s0, s1, p + q, error)
  {
    var k: nat :| StoppedAt(script, s0, s1, p, k, error);
    assert (p + q)[..k + 1] == p[..k + 1] && (p + q)[..k] == p[..k];
    assert StoppedAt(script, s0, s1, p + q, k, error);
  }

  /** How a delivery failed: unknown exactly if its last call timed out. */
  ghost predicate FailedBy(script: nat -> Reply, before: seq<Call>, after: seq<Call>, error: Error) {
    && (error == SendUnknown || error == SendFailed)
    && (error == SendUnknown <==> |before| < |after| && script(|after| - 1).TimedOut?)
  }

  lemma StoppedError(script: nat -> Reply, before: seq<Call>, after: seq<Call>, plan: seq<Call>, error: Error)
    requires Stopped(script, before, after, plan, error)
    ensures FailedBy(script, before, after, error)
  {
  }

  /** What was sent for up to ten items: an album as one group, anything else one by one. */
  ghost predicate SentAs(before: seq<Call>, after: seq<Call>, items: seq<RelayItem>, r: Result<int>) {
    && before <= after
    && (|items| >= 2 && Album(items) ==> after == before + [Group(items)])
    && ((|items| < 2 || !Album(items)) && r.Ok? ==> OneByOne(after[|before|..], items))
  }

  lemma MadeAs(script: nat -> Reply, before: seq<Call>, after: seq<Call>, items: seq<RelayItem>, r: Result<int>)
    requires |items| <= 10
    requires if r.Ok? then Completed(script, before, after, ChunkCalls(items)) else Stopped(script, before, after, ChunkCalls(items), r.error)
    ensures SentAs(before, after, items, r)
  {
    AlbumsGoTogether(items);
    if r.Err? && |items| >= 2 && Album(items) {
      assert [Group(items)][..1] == [Group(items)];
    }
  }

  // ----- The code -----

  method DeliverSingle(bot: Bot, item: RelayItem) returns (kind: Method, r: Result<int>)
    modifies bot
    ensures kind == MethodFor(item.mediaKind) && Fits(kind, item.mediaKind)
    ensures bot.calls == old(bot.calls) + (if item.mediaKind.Other? then [] else [Single(kind, item)])
    ensures r.Ok? ==> Completed(bot.script, old(bot.calls), bot.calls, [SingleCall(item)])
    ensures r.Ok? ==> r.value == FirstId(bot.script, |old(bot.calls)|, 1) && !item.mediaKind.Other?
    ensures r.Err? ==> Stopped(bot.script, old(bot.calls), bot.calls, [SingleCall(item)], r.error)
  {
    kind := MethodFor(item.mediaKind);
    ghost var before := bot.calls;
    if item.mediaKind.Other? {
      assert StoppedAt(bot.script, before, bot.calls, [SingleCall(item)], 0, SendFailed);
      return kind, Err(SendFailed);
    }
    var reply := bot.Request(SingleCall(item));
    if reply.Accepted? {
      assert FirstId(bot.script, |before| + 1, 0) == 0;
      return kind, Ok(reply.messageId);
    }
    assert [SingleCall(item)][..1] == [SingleCall(item)];
    assert StoppedAt(bot.script, before, bot.calls, [SingleCall(item)], 0, ErrorOf(reply));
    return kind, Err(ErrorOf(reply));
  }

  method SendMediaGroup(bot: Bot, items: seq<RelayItem>) returns (r: Result<int>)
    requires |items| >= 2 && OneMode(items)
    modifies bot
    ensures r.Ok? ==> Completed(bot.script, old(bot.calls), bot.calls, [Group(items)])
    ensures r.Ok? ==> r.value == FirstId(bot.script, |old(bot.calls)|, 1)
    ensures r.Err? ==> Stopped(bot.script, old(bot.calls), bot.calls, [Group(items)], r.error)
  {
    ghost var before := bot.calls;
    var reply := bot.Request(Group(items));
    if reply.Accepted? {
      assert FirstId(bot.script, |before| + 1, 0) == 0;
      return Ok(reply.messageId);
    }
    assert [Group(items)][..1] == [Group(items)];
    assert StoppedAt(bot.script, before, bot.calls, [Group(items)], 0, ErrorOf(reply));
    return Err(ErrorOf(reply));
  }

  lemma SinglesSplit(items: seq<RelayItem>, i: nat)
    requires i < |items|
    ensures Singles(items[..i + 1]) == Singles(items[..i]) + [SingleCall(items[i])]
    ensures Singles(items) == Singles(items[..i + 1]) + Singles(items[i + 1..])
  {
  }

  /** The fallback loop of deliverChunk: one call an item. */
  method DeliverOneByOne(bot: Bot, items: seq<RelayItem>) returns (r: Result<int>)
    modifies bot
    ensures r.Ok? ==> Completed(bot.script, old(bot.calls), bot.calls, Singles(items)) && Supported(items)
    ensures r.Ok? ==> r.value == FirstId(bot.script, |old(bot.calls)|, |items|)
    ensures r.Err? ==> Stopped(bot.script, old(bot.calls), bot.calls, Singles(items), r.error)
  {
    var firstMessageId := 0;
    ghost var before := bot.calls;
    for i := 0 to |items|
      invariant Completed(bot.script, before, bot.calls, Singles(items[..i])) && Supported(items[..i])
      invariant firstMessageId == FirstId(bot.script, |before|, i)
    {
      ghost var middle := bot.calls;
      var _, sent := DeliverSingle(bot, items[i]);
      SinglesSplit(items, i);
      if sent.Err? {
        StoppedThen(bot.script, before, middle, bot.calls, Singles(items[..i]), [SingleCall(items[i])], sent.error);
        StoppedInside(bot.script, before, bot.calls, Singles(items[..i + 1]), Singles(items[i + 1..]), sent.error);
        return Err(sent.error);
      }
      CompletedThen(bot.script, before, middle, bot.calls, Singles(items[..i]), [SingleCall(items[i])]);
      FirstIdSplit(bot.script, |before|, i, 1);
      if firstMessageId == 0 {
        firstMessageId := sent.value;
      }
    }
    assert items[..|items|] == items;
    r := Ok(firstMessageId);
  }

  method DeliverChunk(bot: Bot, items: seq<RelayItem>) returns (r: Result<int>)
    requires items != []
    modifies bot
    ensures r.Ok? ==> Completed(bot.script, old(bot.calls), bot.calls, ChunkCalls(items)) && Supported(items)
    ensures r.Ok? ==> r.value == FirstId(bot.script, |old(bot.calls)|, |ChunkCalls(items)|)
    ensures r.Err? ==> Stopped(bot.script, old(bot.calls), bot.calls, ChunkCalls(items), r.error)
    ensures |items| <= 10 ==> SentAs(old(bot.calls), bot.calls, items, r)
  {
    ghost var before := bot.calls;
    if |items| == 1 {
      var _, sent := DeliverSingle(bot, items[0]);
      assert Singles(items) == [SingleCall(items[0])];
      MadeAs(bot.script, before, bot.calls, items, sent);
      return sent;
    }
    var grouped := CanSendAsMediaGroup(items);
    if grouped {
      r := SendMediaGroup(bot, items);
    } else {
      r := DeliverOneByOne(bot, items);
    }
    if |items| <= 10 {
      MadeAs(bot.script, before, bot.calls, items, r);
    }
  }

  method SplitPageItems(items: seq<RelayItem>) returns (chunks: seq<seq<RelayItem>>)
    ensures chunks == Chunks(items) && Concat(chunks) == items
    ensures forall c :: 0 <= c < |chunks| ==> 1 <= |chunks[c]| <= 10 && (c < |chunks| - 1 ==> |chunks[c]| == 10)
  {
    ChunksDivide(items);
    chunks := [];
    var start := 0;
    while start < |items|
      invariant 0 <= start <= |items|
      invariant chunks + Chunks(items[start..]) == Chunks(items)
    {
      var end := start + MAX_CHUNK_ITEMS;
      if end > |items| { end := |items|; }
      ghost var rest := Chunks(items[end..]);
      assert items[start..][end - start..] == items[end..];
      assert items[start..][..end - start] == items[start..end];
      if end == |items| {
        assert items[end..] == [] && items[start..end] == items[start..];
      }
      assert Chunks(items[start..]) == [items[start..end]] + rest;
      AppendPage(chunks, items[start..end], rest);
      chunks := chunks + [items[start..end]];
      start := end;
    }
    assert chunks + [] == chunks;
  }

  lemma ChunkedCallsSplit(chunks: seq<seq<RelayItem>>, i: nat, made: seq<Call>)
    requires i < |chunks|
    ensures made + ChunkedCalls(chunks[i..]) == (made + ChunkCalls(chunks[i])) + ChunkedCalls(chunks[i + 1..])
  {
    assert chunks[i..][1..] == chunks[i + 1..];
    assert made + (ChunkCalls(chunks[i]) + ChunkedCalls(chunks[i + 1..]))
        == (made + ChunkCalls(chunks[i])) + ChunkedCalls(chunks[i + 1..]);
  }

  /** One turn of the chunk loop; returns the updated first message id. */
  method DeliverNextChunk(bot: Bot, chunk: seq<RelayItem>, firstMessageId: int, ghost before: seq<Call>, ghost made: seq<Call>)
    returns (r: Result<int>)
    requires chunk != []
    requires Completed(bot.script, before, bot.calls, made)
    requires firstMessageId == FirstId(bot.script, |before|, |made|)
    modifies bot
    ensures r.Ok? ==> Completed(bot.script, before, bot.calls, made + ChunkCalls(chunk)) && Supported(chunk)
    ensures r.Ok? ==> r.value == FirstId(bot.script, |before|, |made + ChunkCalls(chunk)|)
    ensures r.Err? ==> Stopped(bot.script, before, bot.calls, made + ChunkCalls(chunk), r.error)
  {
    ghost var middle := bot.calls;
    var sent := DeliverChunk(bot, chunk);
    if sent.Err? {
      StoppedThen(bot.script, before, middle, bot.calls, made, ChunkCalls(chunk), sent.error);
      return sent;
    }
    CompletedThen(bot.script, before, middle, bot.calls, made, ChunkCalls(chunk));
    FirstIdSplit(bot.script, |before|, |made|, |ChunkCalls(chunk)|);
    r := Ok(if firstMessageId == 0 then sent.value else firstMessageId);
  }

  /** The chunk loop of DeliverPage. */
  method DeliverChunks(bot: Bot, chunks: seq<seq<RelayItem>>) returns (r: Result<int>)
    requires forall c :: 0 <= c < |chunks| ==> chunks[c] != []
    modifies bot
    ensures r.Ok? ==> Completed(bot.script, old(bot.calls), bot.calls, ChunkedCalls(chunks))
    ensures r.Ok? ==> forall c :: 0 <= c < |chunks| ==> Supported(chunks[c])
    ensures r.Ok? ==> r.value == FirstId(bot.script, |old(bot.calls)|, |ChunkedCalls(chunks)|)
    ensures r.Err? ==> Stopped(bot.script, old(bot.calls), bot.calls, ChunkedCalls(chunks), r.error)
  {
    var firstMessageId := 0;
    ghost var before := bot.calls;
    ghost var made: seq<Call> := [];
    assert chunks[0..] == chunks;
    for i := 0 to |chunks|
      invariant Completed(bot.script, before, bot.calls, made)
      invariant made + ChunkedCalls(chunks[i..]) == ChunkedCalls(chunks)
      invariant forall c :: 0 <= c < i ==> Supported(chunks[c])
      invariant firstMessageId == FirstId(bot.script, |before|, |made|)
    {
      ChunkedCallsSplit(chunks, i, made);
      var sent := DeliverNextChunk(bot, chunks[i], firstMessageId, before, made);
      made := made + ChunkCalls(chunks[i]);
      if sent.Err? {
        StoppedInside(bot.script, before, bot.calls, made, ChunkedCalls(chunks[i + 1..]), sent.error);
        return Err(sent.error);
      }
      firstMessageId := sent.value;
    }
    assert made + [] == made;
    r := Ok(firstMessageId);
  }

  lemma {:induction false} ConcatSupported(chunks: seq<seq<RelayItem>>)
    requires forall c :: 0 <= c < |chunks| ==> Supported(chunks[c])
    ensures Supported(Concat(chunks))
  {
    if chunks != [] {
      ConcatSupported(chunks[1..]);
    }
  }

  lemma DeliveredAs(script: nat -> Reply, before: seq<Call>, after: seq<Call>, items: seq<RelayItem>, r: Result<int>)
    requires if r.Ok? then Completed(script, before, after, PageCalls(items)) && r.value == FirstId(script, |before|, |PageCalls(items)|)
             else Stopped(script, before, after, PageCalls(items), r.error)
    ensures before <= after && (|items| <= 10 ==> SentAs(before, after, items, r))
    ensures if r.Ok? then FirstOf(script, |before|, |after|, r.value) else FailedBy(script, before, after, r.error)
  {
    if |items| <= 10 {
      AlbumsGoTogether(items);
      MadeAs(script, before, after, items, r);
    }
    if r.Ok? {
      FirstIdIsFirst(script, |before|, |PageCalls(items)|);
    } else {
      StoppedError(script, before, after, PageCalls(items), r.error);
    }
  }

  /**
   * DeliverPage, for every page and every script: on success exactly the calls of the page were made and
   * accepted; otherwise a proper part of them was accepted and the error tells how the next one ended.
   */
  method DeliverPage(bot: Bot, items: seq<RelayItem>) returns (kind: Method, r: Result<int>)
    modifies bot
    ensures items == [] ==> r == Err(SendFailed) && bot.calls == old(bot.calls)
    ensures r.Ok? ==> Completed(bot.script, old(bot.calls), bot.calls, PageCalls(items)) && Supported(items)
    ensures r.Ok? ==> r.value == FirstId(bot.script, |old(bot.calls)|, |PageCalls(items)|)
    ensures r.Err? && items != [] ==> Stopped(bot.script, old(bot.calls), bot.calls, PageCalls(items), r.error)
    ensures 1 <= |items| <= 10 ==> SentAs(old(bot.calls), bot.calls, items, r)
    ensures old(bot.calls) <= bot.calls
    ensures r.Ok? ==> FirstOf(bot.script, |old(bot.calls)|, |bot.calls|, r.value)
    ensures r.Err? ==> FailedBy(bot.script, old(bot.calls), bot.calls, r.error)
    ensures kind == if |items| == 1 then MethodFor(items[0].mediaKind) else SendBatch
    ensures |items| == 1 ==> Fits(kind, items[0].mediaKind)
  {
    ghost var before := bot.calls;
    if |items| == 0 {
      return SendBatch, Err(SendFailed);
    }
    kind := SendBatch;
    if |items| == 1 {
      kind, r := DeliverSingle(bot, items[0]);
      assert Singles(items) == [SingleCall(items[0])];
      assert Chunks(items) == [items] && [items][1..] == [];
      assert PageCalls(items) == Singles(items) + ChunkedCalls([]) == [SingleCall(items[0])];
    } else {
      var chunks := SplitPageItems(items);
      ChunksDivide(items);
      r := DeliverChunks(bot, chunks);
      if r.Ok? {
        ConcatSupported(chunks);
      }
    }
    DeliveredAs(bot.script, before, bot.calls, items, r);
  }

  // ----- What reaches the chat -----

  predicate Reaches(reply: Reply) {
    match reply
    case Accepted(_) => true
    case AcceptedEmpty => true
    case Refused => false
    case TimedOut(reached) => reached
  }

  /** The items that the calls number `from`, `from + 1`, ... put into the chat. */
  function Arrived(script: nat -> Reply, from: nat, calls: seq<Call>): seq<RelayItem>
    decreases calls
  {
    if calls == [] then []
    else (if Reaches(script(from)) then ItemsOf(calls[0]) else []) + Arrived(script, from + 1, calls[1..])
  }

  lemma {:induction false} AcceptedArrive(script: nat -> Reply, from: nat, calls: seq<Call>)
    requires AllAccepted(script, from, from + |calls|)
    ensures Arrived(script, from, calls) == CallItems(calls)
    decreases calls
  {
    if calls != [] {
      assert script(from).Accepted?;
      AcceptedArrive(script, from + 1, calls[1..]);
    }
  }

  /** All calls but the last were accepted: the chat holds the items of all of them, or of all but the last. */
  lemma {:induction false} LastCallMayMiss(script: nat -> Reply, from: nat, calls: seq<Call>)
    requires calls != [] && AllAccepted(script, from, from + |calls| - 1)
    ensures Arrived(script, from, calls) == CallItems(calls) || Arrived(script, from, calls) == CallItems(calls[..|calls| - 1])
    decreases calls
  {
    if |calls| == 1 {
      assert calls[1..] == [] && calls[..0] == [];
    } else {
      assert script(from).Accepted?;
      LastCallMayMiss(script, from + 1, calls[1..]);
      assert calls[..|calls| - 1][1..] == calls[1..][..|calls| - 2];
    }
  }

  /** After a failed delivery the chat holds a prefix of the planned items: none skipped, swapped or doubled. */
  lemma StoppedArrivesPrefix(script: nat -> Reply, before: seq<Call>, after: seq<Call>, plan: seq<Call>, error: Error)
    requires Stopped(script, before, after, plan, error)
    ensures before <= after && Arrived(script, |before|, after[|before|..]) <= CallItems(plan)
  {
    var k: nat :| StoppedAt(script, before, after, plan, k, error);
    var made := after[|before|..];
    CallPrefixCarriesPrefix(plan, k);
    CallPrefixCarriesPrefix(plan, k + 1);
    if made == plan[..k] {
      AcceptedArrive(script, |before|, made);
    } else {
      assert made == plan[..k + 1] && made[..k] == plan[..k];
      LastCallMayMiss(script, |before|, made);
    }
  }

  // ----- Claiming page by page -----

  /** All calls of a list of pages. */
  function NavigationCalls(pages: seq<seq<RelayItem>>): seq<Call> {
    if pages == [] then [] else PageCalls(pages[0]) + NavigationCalls(pages[1..])
  }

  lemma {:induction false} NavigationCarriesPages(pages: seq<seq<RelayItem>>)
    ensures CallItems(NavigationCalls(pages)) == Concat(pages)
    ensures forall c :: 0 <= c < |NavigationCalls(pages)| ==> LegalCall(NavigationCalls(pages)[c])
  {
    if pages != [] {
      var first, rest := PageCalls(pages[0]), NavigationCalls(pages[1..]);
      NavigationCarriesPages(pages[1..]);
      PageCallsCarryItems(pages[0]);
      CallItemsConcat(first, rest);
    }
  }
}
