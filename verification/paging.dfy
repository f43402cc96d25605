/** internal/relay/paging.go: cutting a relay's items into pages that never mix media groups. */
module Paging {
  import opened RelayTypes

  const PAGE_SIZE := 10

  // ----- What a page division is -----

  /** A page can be shown at once: non-empty, at most ten items, one group id throughout. */
  predicate IsPage(page: seq<RelayItem>) {
    && 1 <= |page| <= 10
    && forall i :: 0 <= i < |page| ==> page[i].mediaGroupId == page[0].mediaGroupId
  }

  function Concat(pages: seq<seq<RelayItem>>): seq<RelayItem> {
    if pages == [] then [] else pages[0] + Concat(pages[1..])
  }

  /** `pages` cuts `items` into consecutive pages. */
  predicate IsDivision(items: seq<RelayItem>, pages: seq<seq<RelayItem>>) {
    && Concat(pages) == items
    && forall p :: 0 <= p < |pages| ==> IsPage(pages[p])
  }

  /** A media group comes back after something else was uploaded in between. */
  ghost predicate Fragmented(items: seq<RelayItem>) {
    exists i, j, k :: 0 <= i < j < k < |items| && Splits(items, i, j, k)
  }

  predicate Splits(items: seq<RelayItem>, i: int, j: int, k: int)
    requires 0 <= i < j < k < |items|
  {
    items[i].mediaGroupId == items[k].mediaGroupId != "" && items[j].mediaGroupId != items[i].mediaGroupId
  }

  /** Between two items of one media group lies an item that is not of that group. */
  lemma GroupsReturn(items: seq<RelayItem>)
    ensures Fragmented(items) <==>
      (exists i, j, k | 0 <= i < j < k < |items| :: items[i].mediaGroupId == items[k].mediaGroupId != "" && items[j].mediaGroupId != items[k].mediaGroupId)
  {
    if i, j, k :| 0 <= i < j < k < |items| && items[i].mediaGroupId == items[k].mediaGroupId != "" && items[j].mediaGroupId != items[k].mediaGroupId {
      assert Splits(items, i, j, k);
    }
  }

  // ----- The greedy division -----

  /** Where the maximal run of one group id that contains position `s` ends. */
  function RunEnd(items: seq<RelayItem>, s: nat): (e: nat)
    requires s < |items|
    ensures s < e <= |items|
    ensures forall i :: s <= i < e ==> items[i].mediaGroupId == items[s].mediaGroupId
    ensures e < |items| ==> items[e].mediaGroupId != items[s].mediaGroupId
    decreases |items| - s
  {
    if s + 1 < |items| && items[s + 1].mediaGroupId == items[s].mediaGroupId then RunEnd(items, s + 1) else s + 1
  }

  function PageEnd(items: seq<RelayItem>, s: nat): nat
    requires s < |items|
  {
    if s + PAGE_SIZE < RunEnd(items, s) then s + PAGE_SIZE else RunEnd(items, s)
  }

  /** The greedy pages from position `s` on: each page reaches as far as it may. */
  function PagesFrom(items: seq<RelayItem>, s: nat): seq<seq<RelayItem>>
    requires s <= |items|
    decreases |items| - s
  {
    if s == |items| then [] else [items[s..PageEnd(items, s)]] + PagesFrom(items, PageEnd(items, s))
  }

  function Pages(items: seq<RelayItem>): seq<seq<RelayItem>> {
    PagesFrom(items, 0)
  }

  /** Every position of a run has the same run end. */
  lemma RunEndStable(items: seq<RelayItem>, s: nat, t: nat)
    requires s <= t < |items|
    requires t < RunEnd(items, s)
    ensures RunEnd(items, t) == RunEnd(items, s)
  {
  }

  lemma {:induction false} PagesFromDivide(items: seq<RelayItem>, s: nat)
    requires s <= |items|
    ensures IsDivision(items[s..], PagesFrom(items, s))
    decreases |items| - s
  {
    if s < |items| {
      var e := PageEnd(items, s);
      PagesFromDivide(items, e);
      assert items[s..] == items[s..e] + items[e..];
      var pages, rest := PagesFrom(items, s), PagesFrom(items, e);
      assert pages[1..] == rest;
      forall p | 0 <= p < |pages| ensures IsPage(pages[p]) {
        if p > 0 { assert pages[p] == rest[p - 1]; }
      }
    }
  }

  /** Greedy stays ahead: it never needs more pages than another division that lags behind. */
  lemma {:induction false} GreedyStaysAhead(items: seq<RelayItem>, s: nat, t: nat, other: seq<seq<RelayItem>>)
    requires t <= s <= |items|
    requires IsDivision(items[t..], other)
    ensures |PagesFrom(items, s)| <= |other|
    decreases |other|
  {
    if s < |items| {
      assert other != [];
      var page := other[0];
      var next := t + |page|;
      assert items[t..] == page + Concat(other[1..]);
      assert forall i :: 0 <= i < |page| ==> items[t + i] == items[t..][i] == page[i];
      assert items[next..] == items[t..][|page|..] == Concat(other[1..]);
      assert next <= PageEnd(items, s) by {
        assert forall i :: t <= i < next ==> items[i] == page[i - t];
      }
      GreedyStaysAhead(items, PageEnd(items, s), next, other[1..]);
    }
  }

  /** The pages divide the items, and no division of the same items has fewer pages. */
  lemma PagesAreOptimal(items: seq<RelayItem>, other: seq<seq<RelayItem>>)
    ensures IsDivision(items, Pages(items))
    ensures IsDivision(items, other) ==> |Pages(items)| <= |other|
  {
    assert items[0..] == items;
    PagesFromDivide(items, 0);
    if IsDivision(items, other) {
      GreedyStaysAhead(items, 0, 0, other);
    }
  }

  /** The items begin with this page, and one item more would not be a page. */
  ghost predicate BeginWith(items: seq<RelayItem>, page: seq<RelayItem>) {
    page <= items && IsPage(page) && (|page| < |items| ==> !IsPage(items[..|page| + 1]))
  }

  /** The first page is the longest one that the items begin with. */
  lemma FirstPageIsLongest(items: seq<RelayItem>)
    requires items != []
    ensures Pages(items) != [] && BeginWith(items, Pages(items)[0])
    ensures forall k :: |Pages(items)[0]| < k <= |items| ==> !IsPage(items[..k])
  {
    var page := Pages(items)[0];
    PagesAreOptimal(items, []);
    forall k | |page| < k <= |items| ensures !IsPage(items[..k]) {
      if k <= 10 {
        assert |page| == RunEnd(items, 0);
        assert items[..k][|page|].mediaGroupId != items[..k][0].mediaGroupId;
      }
    }
  }

  lemma NextPageIsLongest(items: seq<RelayItem>, s: nat)
    requires s < |items|
    ensures s < PageEnd(items, s) <= |items| && IsPage(items[s..PageEnd(items, s)])
    ensures forall k :: PageEnd(items, s) < k <= |items| ==> !IsPage(items[s..k])
  {
    var e := PageEnd(items, s);
    forall k | e < k <= |items| ensures !IsPage(items[s..k]) {
      if k <= s + 10 {
        assert e == RunEnd(items, s);
        assert items[s..k][e - s] == items[e] && items[s..k][0] == items[s];
      }
    }
  }

  /** Page by page: each page is the longest one that the rest of the items begins with. */
  lemma {:induction false} EachPageIsLongest(items: seq<RelayItem>, s: nat, p: nat)
    requires s <= |items| && p < |PagesFrom(items, s)|
    ensures var from := s + |Concat(PagesFrom(items, s)[..p])|; var page := PagesFrom(items, s)[p];
      && from + |page| <= |items| && page == items[from..from + |page|] && IsPage(page)
      && forall k :: from + |page| < k <= |items| ==> !IsPage(items[from..k])
    decreases p
  {
    hide IsPage, PageEnd;
    var pages, e := PagesFrom(items, s), PageEnd(items, s);
    NextPageIsLongest(items, s);
    if p == 0 {
      assert pages[..0] == [];
    } else {
      EachPageIsLongest(items, e, p - 1);
      assert pages[1..] == PagesFrom(items, e) && pages[..p][1..] == PagesFrom(items, e)[..p - 1];
    }
  }

  // ----- The code -----

  lemma AppendPage(front: seq<seq<RelayItem>>, page: seq<RelayItem>, rest: seq<seq<RelayItem>>)
    ensures front + ([page] + rest) == (front + [page]) + rest
  {
  }

  /** appendRelayPages: one uniform run, cut every ten items. */
  method AppendRelayPages(pages: seq<seq<RelayItem>>, items: seq<RelayItem>, index: nat, stop: nat)
    returns (r: seq<seq<RelayItem>>)
    requires index < stop <= |items| && stop == RunEnd(items, index)
    ensures r + PagesFrom(items, stop) == pages + PagesFrom(items, index)
  {
    r := pages;
    var start := index;
    while start < stop
      invariant index <= start <= stop
      invariant r + PagesFrom(items, start) == pages + PagesFrom(items, index)
    {
      RunEndStable(items, index, start);
      var end := start + PAGE_SIZE;
      if end > stop { end := stop; }
      assert end == PageEnd(items, start);
      AppendPage(r, items[start..end], PagesFrom(items, end));
      r := r + [items[start..end]];
      start := end;
    }
  }

  /** The groups met so far, and that nothing before `index` continues at `index`. */
  ghost predicate SeenUpTo(items: seq<RelayItem>, index: nat, seen: set<string>)
    requires index <= |items|
  {
    && (forall g :: g in seen <==> g != "" && exists i :: 0 <= i < index && items[i].mediaGroupId == g)
    && (0 < index < |items| ==> items[index].mediaGroupId != items[index - 1].mediaGroupId)
    && !Fragmented(items[..index])
  }

  /** A run that starts with an unseen group leaves the prefix unfragmented. */
  lemma RunKeepsWhole(items: seq<RelayItem>, index: nat, seen: set<string>)
    requires index < |items| && SeenUpTo(items, index, seen)
    requires items[index].mediaGroupId !in seen
    ensures !Fragmented(items[..RunEnd(items, index)])
  {
    var e := RunEnd(items, index);
    var prefix := items[..e];
    forall i, j, k | 0 <= i < j < k < |prefix| ensures !Splits(prefix, i, j, k) {
      if k < index {
        assert !Splits(items[..index], i, j, k);
      }
    }
  }

  lemma RunIsSeen(items: seq<RelayItem>, index: nat, seen: set<string>)
    requires index < |items| && SeenUpTo(items, index, seen) && items[index].mediaGroupId !in seen
    ensures var g := items[index].mediaGroupId; SeenUpTo(items, RunEnd(items, index), if g == "" then seen else seen + {g})
  {
    RunKeepsWhole(items, index, seen);
  }

  lemma GroupComesBack(items: seq<RelayItem>, index: nat, seen: set<string>)
    requires index < |items| && SeenUpTo(items, index, seen) && items[index].mediaGroupId in seen
    ensures Fragmented(items)
  {
    var i :| 0 <= i < index && items[i].mediaGroupId == items[index].mediaGroupId;
    assert Splits(items, i, index - 1, index);
  }

  /** PaginateRelayItems fails exactly on fragmented groups, and otherwise its pages are a shortest division. */
  method PaginateRelayItems(items: seq<RelayItem>) returns (r: Result<seq<seq<RelayItem>>>)
    ensures r.Err? <==> Fragmented(items)
    ensures r.Err? ==> r.error == GroupFragmented
    ensures r.Ok? ==> r.value == Pages(items) && IsDivision(items, r.value)
    ensures r.Ok? ==> forall other :: IsDivision(items, other) ==> |r.value| <= |other|
  {
    var pages: seq<seq<RelayItem>> := [];
    var seenGroups: set<string> := {};
    var index := 0;
    while index < |items|
      invariant 0 <= index <= |items|
      invariant SeenUpTo(items, index, seenGroups)
      invariant pages + PagesFrom(items, index) == Pages(items)
    {
      var groupId := items[index].mediaGroupId;
      ghost var first := index;
      ghost var before := seenGroups;
      if groupId != "" {
        if groupId in seenGroups {
          GroupComesBack(items, index, seenGroups);
          return Err(GroupFragmented);
        }
        seenGroups := seenGroups + {groupId};
      }
      RunIsSeen(items, first, before);

      var end := index + 1;
      while end < |items| && items[end].mediaGroupId == groupId
        invariant first < end <= RunEnd(items, first)
      {
        end := end + 1;
      }
      assert end == RunEnd(items, first);
      pages := AppendRelayPages(pages, items, index, end);
      index := end;
    }
    assert items[..index] == items;
    assert pages + [] == pages;
    forall other | IsDivision(items, other) ensures |Pages(items)| <= |other| {
      PagesAreOptimal(items, other);
    }
    PagesAreOptimal(items, Pages(items));
    r := Ok(pages);
  }
}
