/** internal/relay/service.go: claiming the pages of a ready relay one after the other. */
module Navigation {
  import opened RelayTypes
  import opened Paging
  import opened Sender

  datatype DeliveryPage = DeliveryPage(index: int, total: int, items: seq<RelayItem>)

  /** buildClaimDeliveryPages: the pages, numbered from 1. */
  method BuildClaimDeliveryPages(items: seq<RelayItem>) returns (r: Result<seq<DeliveryPage>>)
    ensures r.Err? <==> Fragmented(items)
    ensures r.Ok? ==> |r.value| == |Pages(items)|
    ensures r.Ok? ==> forall i :: 0 <= i < |r.value| ==> r.value[i] == DeliveryPage(i + 1, |Pages(items)|, Pages(items)[i])
  {
    hide IsDivision, Fragmented;
    if |items| == 0 {
      NothingFragmented();
      return Ok([]);
    }
    var paged := PaginateRelayItems(items);
    if paged.Err? {
      return Err(paged.error);
    }
    var pages: seq<DeliveryPage> := [];
    var total := |paged.value|;
    for i := 0 to total
      invariant |pages| == i
      invariant forall j :: 0 <= j < i ==> pages[j] == DeliveryPage(j + 1, total, paged.value[j])
    {
      pages := pages + [DeliveryPage(i + 1, total, paged.value[i])];
    }
    r := Ok(pages);
  }

  lemma NothingFragmented()
    ensures !Fragmented([]) && Pages([]) == []
  {
  }

  /** A page may be served: the relay is there, ready and not expired. */
  ghost predicate Servable(row: Option<Relay>, now: Time) {
    row.Some? && row.value.status == Ready && row.value.expiresAt > now
  }

  /** It may, and it has a page of this number. */
  ghost predicate Offered(row: Option<Relay>, items: seq<RelayItem>, now: Time, pageIndex: int) {
    Servable(row, now) && !Fragmented(items) && 1 <= pageIndex <= |Pages(items)|
  }

  /**
   * ClaimRelayPage, given what the store answered for the relay id. A page is sent exactly when the relay is
   * ready and unexpired, its groups are whole and the index names a page; then the page is that page.
   */
  method ClaimRelayPage(bot: Bot, row: Option<Relay>, items: seq<RelayItem>, now: Time, pageIndex: int)
    returns (kind: Method, r: Result<(int, int)>)
    modifies bot
    ensures pageIndex >= 1 ==> (r == Err(RelayExpired) <==> row.Some? && (row.value.status == Expired || row.value.expiresAt <= now))
    ensures pageIndex >= 1 ==> (r == Err(RelayNotFound) <==> row.None? || (row.value.status == Collecting && row.value.expiresAt > now))
    ensures r == Err(PageOutOfRange) <==> pageIndex < 1 || (Servable(row, now) && !Fragmented(items) && pageIndex > |Pages(items)|)
    ensures r == Err(GroupFragmented) <==> pageIndex >= 1 && Servable(row, now) && Fragmented(items)
    ensures !Offered(row, items, now, pageIndex) ==> r.Err? && bot.calls == old(bot.calls)
    ensures Offered(row, items, now, pageIndex) ==>
      var page := Pages(items)[pageIndex - 1];
      && (r.Ok? ==> Completed(bot.script, old(bot.calls), bot.calls, PageCalls(page)) && Supported(page) && r.value.1 == |Pages(items)|)
      && (r.Err? ==> Stopped(bot.script, old(bot.calls), bot.calls, PageCalls(page), r.error))
      && SentAs(old(bot.calls), bot.calls, page, if r.Ok? then Ok(r.value.0) else Err(r.error))
      && kind == if |page| == 1 then MethodFor(page[0].mediaKind) else SendBatch
  {
    kind := NoMethod;
    if pageIndex <= 0 {
      return kind, Err(PageOutOfRange);
    }
    if row.None? {
      return kind, Err(RelayNotFound);
    }
    var item := row.value;
    if item.status == Expired || item.expiresAt <= now {
      return kind, Err(RelayExpired);
    }
    if item.status != Ready {
      return kind, Err(RelayNotFound);
    }
    var pages := BuildClaimDeliveryPages(items);
    if pages.Err? {
      return kind, Err(GroupFragmented);
    }
    if pageIndex > |pages.value| {
      return kind, Err(PageOutOfRange);
    }
    var page := pages.value[pageIndex - 1];
    PagesAreOptimal(items, []);
    assert IsPage(Pages(items)[pageIndex - 1]);
    var sent;
    kind, sent := DeliverPage(bot, page.items);
    if sent.Err? {
      return kind, Err(sent.error);
    }
    if |page.items| > 1 {
      kind := SendBatch;
    }
    r := Ok((sent.value, page.total));
  }

  /** The first `i` visits sent their pages, and visit number `i` is turned away. */
  ghost predicate TurnedAway(rows: nat -> Option<Relay>, items: seq<RelayItem>, clock: nat -> Time,
                             script: nat -> Reply, before: seq<Call>, after: seq<Call>, i: nat) {
    && i < |Pages(items)| && !Servable(rows(i), clock(i))
    && Completed(script, before, after, NavigationCalls(Pages(items)[..i]))
  }

  /**
   * Page 1 and then pages 2 to N, one claim after the other, until one does not send its page. Claim number `i` finds
   * the row `rows(i)` at time `clock(i)`; that it finds the same items as the others is Lifecycle.ClaimedPagesAreTheList.
   * All pages are sent if and only if every claim is admitted and every call accepted, and then the chat has exactly
   * the items in upload order. Otherwise the calls stop at the page that was turned away or inside the one that failed,
   * and the chat has a prefix of the items.
   */
  method VisitAllPages(bot: Bot, rows: nat -> Option<Relay>, items: seq<RelayItem>, clock: nat -> Time) returns (ok: bool)
    modifies bot
    ensures old(bot.calls) <= bot.calls
    ensures ok <==>
      && !Fragmented(items) && Supported(items)
      && (forall i: nat :: i < |Pages(items)| ==> Servable(rows(i), clock(i)))
      && AllAccepted(bot.script, |old(bot.calls)|, |old(bot.calls)| + |NavigationCalls(Pages(items))|)
    ensures ok ==> Completed(bot.script, old(bot.calls), bot.calls, NavigationCalls(Pages(items)))
    ensures ok ==> CallItems(bot.calls[|old(bot.calls)|..]) == items
    ensures ok ==> Arrived(bot.script, |old(bot.calls)|, bot.calls[|old(bot.calls)|..]) == items
    ensures ok ==> forall c :: |old(bot.calls)| <= c < |bot.calls| ==> LegalCall(bot.calls[c])
    ensures Fragmented(items) ==> bot.calls == old(bot.calls)
    ensures !ok && !Fragmented(items) ==>
      || (exists error :: Stopped(bot.script, old(bot.calls), bot.calls, NavigationCalls(Pages(items)), error))
      || (exists i: nat :: TurnedAway(rows, items, clock, bot.script, old(bot.calls), bot.calls, i))
    ensures !ok && !Fragmented(items) ==> Arrived(bot.script, |old(bot.calls)|, bot.calls[|old(bot.calls)|..]) <= items
  {
    hide NavigationCalls, Arrived, CallItems, Stopped, StoppedAt, Fragmented, Supported, Pages, PageCalls, Completed, AllAccepted, Servable;
    ghost var before := bot.calls;
    NothingMade(bot.script, before, items);
    var pages := BuildClaimDeliveryPages(items);
    if pages.Err? {
      return false;
    }
    for index := 0 to |pages.value|
      invariant Completed(bot.script, before, bot.calls, NavigationCalls(Pages(items)[..index]))
      invariant forall i: nat :: i < index ==> Servable(rows(i), clock(i)) && Supported(Pages(items)[i])
    {
      ghost var middle := bot.calls;
      var _, sent := ClaimRelayPage(bot, rows(index), items, clock(index), index + 1);
      if sent.Err? {
        ArrivedSoFar(bot.script, items, before, middle, index);
        if Servable(rows(index), clock(index)) {
          StopsInside(bot.script, items, before, middle, bot.calls, index, sent.error);
        } else {
          assert TurnedAway(rows, items, clock, bot.script, before, bot.calls, index);
        }
        return false;
      }
      NavigationSnoc(Pages(items), index);
      CompletedThen(bot.script, before, middle, bot.calls, NavigationCalls(Pages(items)[..index]), PageCalls(Pages(items)[index]));
    }
    AllVisited(bot.script, items, before, bot.calls);
    ok := true;
  }

  lemma NothingMade(script: nat -> Reply, before: seq<Call>, items: seq<RelayItem>)
    ensures Completed(script, before, before, NavigationCalls(Pages(items)[..0]))
  {
  }

  lemma AllVisited(script: nat -> Reply, items: seq<RelayItem>, before: seq<Call>, after: seq<Call>)
    requires Completed(script, before, after, NavigationCalls(Pages(items)[..|Pages(items)|]))
    requires forall i: nat :: i < |Pages(items)| ==> Supported(Pages(items)[i])
    ensures Completed(script, before, after, NavigationCalls(Pages(items))) && Supported(items)
    ensures AllAccepted(script, |before|, |before| + |NavigationCalls(Pages(items))|)
    ensures before <= after && CallItems(after[|before|..]) == Arrived(script, |before|, after[|before|..]) == items
    ensures forall c :: |before| <= c < |after| ==> LegalCall(after[c])
  {
    hide NavigationCalls, Arrived, Pages, CallItems, Supported, LegalCall;
    var parts := Pages(items);
    assert parts[..|parts|] == parts;
    ArrivedSoFar(script, items, before, after, |parts|);
    PagesAreOptimal(items, []);
    ConcatSupported(parts);
    NavigationCarriesPages(parts);
  }

  /** A claim whose calls stopped stops the whole visit inside its page. */
  lemma StopsInside(script: nat -> Reply, items: seq<RelayItem>, before: seq<Call>, middle: seq<Call>, after: seq<Call>, index: nat, error: Error)
    requires !Fragmented(items) && index < |Pages(items)|
    requires Completed(script, before, middle, NavigationCalls(Pages(items)[..index]))
    requires Stopped(script, middle, after, PageCalls(Pages(items)[index]), error)
    ensures Stopped(script, before, after, NavigationCalls(Pages(items)), error)
    ensures before <= after && Arrived(script, |before|, after[|before|..]) <= items
    ensures !Supported(items) || !AllAccepted(script, |before|, |before| + |NavigationCalls(Pages(items))|)
  {
    hide Completed, Stopped, NavigationCalls, Arrived, Supported, Pages, Fragmented, AllAccepted, CallItems;
    var parts := Pages(items);
    PagesAreOptimal(items, []);
    NavigationCarriesPages(parts);
    NavigationSnoc(parts, index);
    NavigationSplits(parts, index + 1);
    StoppedThen(script, before, middle, after, NavigationCalls(parts[..index]), PageCalls(parts[index]), error);
    StoppedInside(script, before, after, NavigationCalls(parts[..index + 1]), NavigationCalls(parts[index + 1..]), error);
    StoppedArrivesPrefix(script, before, after, NavigationCalls(parts), error);
    StoppedHasCause(script, before, after, NavigationCalls(parts), error);
  }

  /** The pages sent before one is turned away have arrived, and nothing else. */
  lemma ArrivedSoFar(script: nat -> Reply, items: seq<RelayItem>, before: seq<Call>, after: seq<Call>, index: nat)
    requires index <= |Pages(items)| && Completed(script, before, after, NavigationCalls(Pages(items)[..index]))
    ensures before <= after && Arrived(script, |before|, after[|before|..]) <= items
    ensures index == |Pages(items)| ==>
      after == before + NavigationCalls(Pages(items)) && CallItems(after[|before|..]) == Arrived(script, |before|, after[|before|..]) == items
  {
    hide NavigationCalls, Arrived, Pages, CallItems;
    var parts := Pages(items);
    var made := NavigationCalls(parts[..index]);
    PagesAreOptimal(items, []);
    NavigationCarriesPages(parts);
    NavigationSplits(parts, index);
    assert after[|before|..] == made;
    AcceptedArrive(script, |before|, made);
    assert NavigationCalls(parts)[..|made|] == made;
    CallPrefixCarriesPrefix(NavigationCalls(parts), |made|);
    if index == |parts| {
      assert parts[..index] == parts;
    }
  }

  /** The calls of all pages are those of the first ones and then those of the others. */
  lemma {:induction false} NavigationSplits(pages: seq<seq<RelayItem>>, i: nat)
    requires i <= |pages|
    ensures NavigationCalls(pages) == NavigationCalls(pages[..i]) + NavigationCalls(pages[i..])
  {
    if i > 0 {
      NavigationSplits(pages[1..], i - 1);
      assert pages[..i][1..] == pages[1..][..i - 1] && pages[1..][i - 1..] == pages[i..];
      var a, b, c := PageCalls(pages[0]), NavigationCalls(pages[..i][1..]), NavigationCalls(pages[i..]);
      assert a + (b + c) == (a + b) + c;
    }
  }

  lemma NavigationSnoc(pages: seq<seq<RelayItem>>, i: nat)
    requires i < |pages|
    ensures NavigationCalls(pages[..i + 1]) == NavigationCalls(pages[..i]) + PageCalls(pages[i])
  {
    NavigationSplits(pages[..i + 1], i);
    assert pages[..i + 1][..i] == pages[..i] && pages[..i + 1][i..] == [pages[i]];
    assert NavigationCalls([pages[i]]) == PageCalls(pages[i]) + NavigationCalls([]);
  }

  /** Calls stop only at one that was not accepted or at an item that no call can send. */
  lemma StoppedHasCause(script: nat -> Reply, before: seq<Call>, after: seq<Call>, plan: seq<Call>, error: Error)
    requires Stopped(script, before, after, plan, error)
    ensures !Supported(CallItems(plan)) || !AllAccepted(script, |before|, |before| + |plan|)
  {
    var k: nat :| StoppedAt(script, before, after, plan, k, error);
    if plan[k].Single? && plan[k].item.mediaKind.Other? {
      ItemIsCarried(plan, k);
    }
  }

  lemma {:induction false} ItemIsCarried(plan: seq<Call>, k: nat)
    requires k < |plan| && plan[k].Single?
    ensures plan[k].item in CallItems(plan)
  {
    if k > 0 {
      ItemIsCarried(plan[1..], k - 1);
    }
  }
}
