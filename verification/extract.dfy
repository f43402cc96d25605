/** internal/telegram/extract.go: finding codes in a message and numbering the claims they make. */
module Extract {
  import opened RelayTypes
  import opened Code

  const CLAIM_REQUEST_SEQUENCE_BITS := 16
  const CODE_LENGTH := 29

  datatype Message = Message(fromId: Option<int>, chatId: int, text: string, forwarded: bool, automaticForward: bool)

  datatype Update = Update(id: int, message: Option<Message>)

  datatype ClaimRelayInput = ClaimRelayInput(requestUpdateId: int, claimerUserId: int, claimerChatId: int, rawCode: string)

  // ----- Finding the codes -----

  /** A regular expression all of whose matches have the length of a code. */
  type Pattern = string -> bool

  predicate MatchAt(s: string, pattern: Pattern, p: nat) {
    p + CODE_LENGTH <= |s| && pattern(s[p..p + CODE_LENGTH])
  }

  ghost function Hits(s: string, pattern: Pattern): set<nat> {
    set p: nat | p < |s| && MatchAt(s, pattern, p)
  }

  /** What FindAllString promises: disjoint matches from left to right, and nothing left out but overlaps. */
  ghost predicate LeftmostMatches(hits: set<nat>, positions: seq<nat>, from: nat, to: nat) {
    && (forall k :: 0 <= k < |positions| ==> from <= positions[k] < to && positions[k] in hits)
    && (forall k :: 0 < k < |positions| ==> positions[k - 1] + CODE_LENGTH <= positions[k])
    && (forall p: nat :: p in hits && from <= p < to ==> p in positions || OverlappedBefore(positions, p))
  }

  ghost predicate OverlappedBefore(positions: seq<nat>, p: nat) {
    exists q :: q in positions && q < p < q + CODE_LENGTH
  }

  function Texts(s: string, positions: seq<nat>): seq<string>
    requires forall k :: 0 <= k < |positions| ==> positions[k] + CODE_LENGTH <= |s|
  {
    seq(|positions|, k requires 0 <= k < |positions| => s[positions[k]..positions[k] + CODE_LENGTH])
  }

  /** A match at `i`, after everything found so far, and the scan resumes behind it. */
  lemma MatchFound(hits: set<nat>, positions: seq<nat>, i: nat)
    requires LeftmostMatches(hits, positions, 0, i) && i in hits
    requires forall k :: 0 <= k < |positions| ==> positions[k] + CODE_LENGTH <= i
    ensures LeftmostMatches(hits, positions + [i], 0, i + CODE_LENGTH)
  {
    var longer := positions + [i];
    assert longer[|positions|] == i;
    forall p: nat | p in hits && 0 <= p < i + CODE_LENGTH ensures p in longer || OverlappedBefore(longer, p) {
      if p < i && p !in positions {
        var q :| q in positions && q < p < q + CODE_LENGTH;
        assert q in longer;
      } else if p > i {
        assert i in longer;
      }
    }
  }

  /** Nothing matches between `i` and `to`. */
  lemma NothingFound(hits: set<nat>, positions: seq<nat>, i: nat, to: nat)
    requires LeftmostMatches(hits, positions, 0, i) && i <= to
    requires forall p: nat :: i <= p < to ==> p !in hits
    ensures LeftmostMatches(hits, positions, 0, to)
  {
  }

  lemma TextsSnoc(s: string, positions: seq<nat>, i: nat)
    requires forall k :: 0 <= k < |positions| ==> positions[k] + CODE_LENGTH <= i
    requires i + CODE_LENGTH <= |s|
    ensures Texts(s, positions + [i]) == Texts(s, positions) + [s[i..i + CODE_LENGTH]]
  {
  }

  method FindAllString(s: string, pattern: Pattern) returns (matches: seq<string>, ghost positions: seq<nat>)
    ensures LeftmostMatches(Hits(s, pattern), positions, 0, |s|)
    ensures forall k :: 0 <= k < |positions| ==> positions[k] + CODE_LENGTH <= |s|
    ensures matches == Texts(s, positions)
  {
    matches, positions := [], [];
    ghost var hits := Hits(s, pattern);
    var i := 0;
    while i + CODE_LENGTH <= |s|
      invariant 0 <= i <= |s|
      invariant forall k :: 0 <= k < |positions| ==> positions[k] + CODE_LENGTH <= i
      invariant LeftmostMatches(hits, positions, 0, i)
      invariant matches == Texts(s, positions)
    {
      if MatchAt(s, pattern, i) {
        MatchFound(hits, positions, i);
        TextsSnoc(s, positions, i);
        matches := matches + [s[i..i + CODE_LENGTH]];
        positions := positions + [i];
        i := i + CODE_LENGTH;
      } else {
        NothingFound(hits, positions, i, i + 1);
        i := i + 1;
      }
    }
    NothingFound(hits, positions, i, |s|);
  }

  lemma {:induction false} Increasing(hits: set<nat>, positions: seq<nat>, from: nat, to: nat, k: nat)
    requires k < |positions| && LeftmostMatches(hits, positions, from, to)
    ensures forall j :: 0 <= j < k ==> positions[j] + CODE_LENGTH <= positions[k]
    ensures positions[0] <= positions[k]
  {
    if k > 0 {
      Increasing(hits, positions, from, to, k - 1);
    }
  }

  /** No match lies before the first one listed. */
  lemma FirstIsLeast(hits: set<nat>, positions: seq<nat>, from: nat, to: nat, p: nat)
    requires positions != [] && LeftmostMatches(hits, positions, from, to)
    requires from <= p < to && p in hits
    ensures positions[0] <= p
  {
    forall k | 0 <= k < |positions| ensures positions[0] <= positions[k] {
      Increasing(hits, positions, from, to, k);
    }
  }

  lemma DropFirst(hits: set<nat>, positions: seq<nat>, from: nat, to: nat)
    requires positions != [] && LeftmostMatches(hits, positions, from, to)
    ensures LeftmostMatches(hits, positions[1..], positions[0] + CODE_LENGTH, to)
  {
    var rest, next := positions[1..], positions[0] + CODE_LENGTH;
    forall k | 0 <= k < |rest| ensures next <= rest[k] < to && rest[k] in hits {
      Increasing(hits, positions, from, to, k + 1);
    }
    forall k | 0 < k < |rest| ensures rest[k - 1] + CODE_LENGTH <= rest[k] {
      assert positions[k] + CODE_LENGTH <= positions[k + 1];
    }
    forall p: nat | p in hits && next <= p < to ensures p in rest || OverlappedBefore(rest, p) {
      StillCovered(positions, p);
    }
  }

  lemma StillCovered(positions: seq<nat>, p: nat)
    requires positions != [] && (p in positions || OverlappedBefore(positions, p))
    requires positions[0] + CODE_LENGTH <= p
    ensures p in positions[1..] || OverlappedBefore(positions[1..], p)
  {
    assert positions == [positions[0]] + positions[1..];
    if p !in positions {
      var q :| q in positions && q < p < q + CODE_LENGTH;
      assert q in positions[1..];
    }
  }

  /** The promise of FindAllString determines the matches: no other list of positions keeps it. */
  lemma {:induction false} LeftmostMatchesUnique(hits: set<nat>, a: seq<nat>, b: seq<nat>, from: nat, to: nat)
    requires LeftmostMatches(hits, a, from, to) && LeftmostMatches(hits, b, from, to)
    ensures a == b
    decreases |a|
  {
    if a == [] || b == [] {
      NoneWithout(hits, a, b, from, to);
      NoneWithout(hits, b, a, from, to);
    } else {
      SameFirst(hits, a, b, from, to);
      DropFirst(hits, a, from, to);
      DropFirst(hits, b, from, to);
      LeftmostMatchesUnique(hits, a[1..], b[1..], a[0] + CODE_LENGTH, to);
      SameTail(a, b);
    }
  }

  lemma SameTail<T>(a: seq<T>, b: seq<T>)
    requires a != [] && b != [] && a[0] == b[0] && a[1..] == b[1..]
    ensures a == b
  {
    assert a == [a[0]] + a[1..] && b == [b[0]] + b[1..];
  }

  lemma SameFirst(hits: set<nat>, a: seq<nat>, b: seq<nat>, from: nat, to: nat)
    requires LeftmostMatches(hits, a, from, to) && LeftmostMatches(hits, b, from, to)
    requires a != [] && b != []
    ensures a[0] == b[0]
  {
    FirstIsLeast(hits, b, from, to, a[0]);
    FirstIsLeast(hits, a, from, to, b[0]);
  }

  lemma NoneWithout(hits: set<nat>, a: seq<nat>, b: seq<nat>, from: nat, to: nat)
    requires LeftmostMatches(hits, a, from, to) && LeftmostMatches(hits, b, from, to)
    ensures a == [] ==> b == []
  {
    var first := if b == [] then [] else [b[0]];
    if a == [] {
      assert forall p: nat :: !OverlappedBefore(a, p);
    }
  }

  lemma TextsMatch(s: string, pattern: Pattern, positions: seq<nat>)
    requires forall k :: 0 <= k < |positions| ==> positions[k] in Hits(s, pattern)
    requires forall k :: 0 <= k < |positions| ==> positions[k] + CODE_LENGTH <= |s|
    ensures forall k :: 0 <= k < |Texts(s, positions)| ==> pattern(Texts(s, positions)[k])
  {
    forall k | 0 <= k < |positions| ensures pattern(Texts(s, positions)[k]) {
      assert MatchAt(s, pattern, positions[k]);
    }
  }

  // ----- Canonical codes -----

  function CanonicalClaimCode(raw: string): string {
    var candidate := TrimSpace(raw);
    if candidate == "" then ""
    else if ByteLength(candidate) != |DISPLAY_CODE_PREFIX| + 20 then ""
    else if |candidate| < |DISPLAY_CODE_PREFIX| || !FoldsToPrefix(candidate[..|DISPLAY_CODE_PREFIX|]) then ""
    else if !IsModernCodeBody(candidate[|DISPLAY_CODE_PREFIX|..]) then ""
    else DISPLAY_CODE_PREFIX + candidate[|DISPLAY_CODE_PREFIX|..]
  }

  /** A match of the pattern is a code, so both packages give it the same normal form. */
  lemma MatchesAreCanonical(code: string)
    requires IsCode(code)
    ensures CanonicalClaimCode(code) != "" && Normalize(code) == Ok(CanonicalClaimCode(code))
    ensures CanonicalClaimCode(code) == DISPLAY_CODE_PREFIX + code[|DISPLAY_CODE_PREFIX|..]
  {
    NormalizeExact(code);
    assert code[0..|code|] == code;
    assert Surrounds(code, 0, |code|);
  }

  /** The entries whose key no earlier entry has, in order. */
  function FirstSeen(entries: seq<string>, key: string -> string): seq<string> {
    if entries == [] then []
    else
      var front, last := entries[..|entries| - 1], entries[|entries| - 1];
      if key(last) in Keys(front, key) then FirstSeen(front, key) else FirstSeen(front, key) + [last]
  }

  function Keys(entries: seq<string>, key: string -> string): set<string> {
    set e | e in entries :: key(e)
  }

  predicate DistinctKeys(entries: seq<string>, key: string -> string) {
    forall i, j :: 0 <= i < j < |entries| ==> key(entries[i]) != key(entries[j])
  }

  lemma KeysSnoc(front: seq<string>, last: string, key: string -> string)
    ensures Keys(front + [last], key) == Keys(front, key) + {key(last)}
  {
    assert forall e :: e in front + [last] <==> e in front || e == last;
  }

  /** The kept entries have pairwise different keys, cover every key, and each is the first with its key. */
  lemma {:induction false} FirstSeenMeaning(entries: seq<string>, key: string -> string)
    ensures DistinctKeys(FirstSeen(entries, key), key) && Keys(FirstSeen(entries, key), key) == Keys(entries, key)
    ensures forall e :: e in FirstSeen(entries, key) ==> e in entries
  {
    if entries != [] {
      var front, last := entries[..|entries| - 1], entries[|entries| - 1];
      FirstSeenMeaning(front, key);
      assert entries == front + [last];
      var kept := FirstSeen(front, key);
      assert forall i :: 0 <= i < |kept| ==> key(kept[i]) in Keys(kept, key);
      KeysSnoc(front, last, key);
      KeysSnoc(kept, last, key);
    }
  }

  /** Extending the input only appends to what is kept. */
  lemma {:induction false} FirstSeenKeepsOrder(entries: seq<string>, k: nat, key: string -> string)
    requires k <= |entries|
    ensures FirstSeen(entries[..k], key) <= FirstSeen(entries, key)
    ensures k < |entries| && key(entries[k]) !in Keys(entries[..k], key) ==>
      FirstSeen(entries[..k], key) + [entries[k]] <= FirstSeen(entries, key)
    decreases |entries|
  {
    var n := |entries|;
    if k == n {
      assert entries[..k] == entries;
    } else {
      var front := entries[..n - 1];
      assert front[..k] == entries[..k];
      FirstSeenKeepsOrder(front, k, key);
      if k < n - 1 { assert front[k] == entries[k]; }
    }
  }

  lemma CodesNormalize(codes: seq<string>)
    requires forall i :: 0 <= i < |codes| ==> IsCode(codes[i])
    ensures forall i :: 0 <= i < |codes| ==> CanonicalClaimCode(codes[i]) != "" && Normalize(codes[i]).Ok?
  {
    forall i | 0 <= i < |codes| ensures CanonicalClaimCode(codes[i]) != "" && Normalize(codes[i]).Ok? {
      MatchesAreCanonical(codes[i]);
    }
  }

  // ----- Request ids -----

  const WORD: int := 0x1_0000_0000_0000_0000

  /** Two's complement reading of the low 64 bits. */
  function ToInt64(x: int): int {
    if x % WORD < WORD / 2 then x % WORD else x % WORD - WORD
  }

  /** Bitwise or of two naturals. */
  function Or(a: nat, b: nat): nat
    decreases a + b
  {
    if a == 0 then b else if b == 0 then a
    else 2 * Or(a / 2, b / 2) + (if a % 2 == 1 || b % 2 == 1 then 1 else 0)
  }

  /** `(updateID << 16) | int64(sequence + 1)` on 64-bit integers. */
  function ClaimRequestUpdateId(updateId: int, sequence: int): int {
    ToInt64(Or((updateId * 65536) % WORD, (sequence + 1) % WORD))
  }

  /** `a << k` */
  function Shift(a: nat, k: nat): nat {
    if k == 0 then a else 2 * Shift(a, k - 1)
  }

  lemma {:induction false} OrLowBits(a: nat, b: nat, k: nat)
    requires b < Shift(1, k)
    ensures Or(Shift(a, k), b) == Shift(a, k) + b
    decreases k
  {
    if k != 0 && b != 0 && Shift(a, k) != 0 {
      OrLowBits(a, b / 2, k - 1);
    }
  }

  lemma ShiftTwo(a: nat, k: nat)
    requires k >= 2
    ensures Shift(a, k) == 4 * Shift(a, k - 2)
  {
  }

  lemma Shift16(a: nat)
    ensures Shift(a, 16) == a * 65536
  {
    ShiftTwo(a, 16);
    ShiftTwo(a, 14);
    ShiftTwo(a, 12);
    ShiftTwo(a, 10);
    ShiftTwo(a, 8);
    ShiftTwo(a, 6);
    ShiftTwo(a, 4);
    ShiftTwo(a, 2);
    assert Shift(a, 0) == a;
  }

  lemma {:induction false} OrSelf(a: nat)
    ensures Or(a, a) == a
  {
    if a != 0 {
      OrSelf(a / 2);
    }
  }

  lemma OrPacked(a: nat, b: nat)
    requires b < 65536
    ensures Or(a * 65536, b) == a * 65536 + b
  {
    Shift16(a);
    Shift16(1);
    OrLowBits(a, b, 16);
  }

  /** Below 65535 codes and update ids of 48 bits the packing is plain arithmetic. */
  lemma RequestIdValue(updateId: int, sequence: int)
    requires 0 <= updateId < 0x1_0000_0000_0000 && 0 <= sequence < 65535
    ensures ClaimRequestUpdateId(updateId, sequence) == ToInt64(updateId * 65536 + sequence + 1)
    ensures updateId < 0x8000_0000_0000 ==> ClaimRequestUpdateId(updateId, sequence) == updateId * 65536 + sequence + 1
  {
    var high: nat, low: nat := updateId * 65536, sequence + 1;
    assert high % WORD == high && low % WORD == low;
    OrPacked(updateId, low);
  }

  ghost predicate InjectiveBelow(bound: int) {
    forall u1, s1, u2, s2 |
      InRange(u1, s1, bound) && InRange(u2, s2, bound) && ClaimRequestUpdateId(u1, s1) == ClaimRequestUpdateId(u2, s2) ::
      u1 == u2 && s1 == s2
  }

  predicate InRange(updateId: int, sequence: int, bound: int) {
    0 <= updateId < 0x1_0000_0000_0000 && 0 <= sequence < bound
  }

  lemma ToInt64Injective(x: int, y: int)
    requires 0 <= x < WORD && 0 <= y < WORD && ToInt64(x) == ToInt64(y)
    ensures x == y
  {
  }

  lemma SameRequestId(u1: int, s1: int, u2: int, s2: int)
    requires InRange(u1, s1, 65535) && InRange(u2, s2, 65535)
    requires ClaimRequestUpdateId(u1, s1) == ClaimRequestUpdateId(u2, s2)
    ensures u1 == u2 && s1 == s2
  {
    RequestIdValue(u1, s1);
    RequestIdValue(u2, s2);
    ToInt64Injective(u1 * 65536 + s1 + 1, u2 * 65536 + s2 + 1);
  }

  lemma SixteenBitsCollide()
    ensures ClaimRequestUpdateId(0, 65535) == ClaimRequestUpdateId(1, 65535)
  {
    OrSelf(65536);
  }

  /** Request ids of multi-code messages identify (update, index) exactly while there are at most 65535 codes. */
  lemma RequestIdsInjectiveExactly(bound: int)
    ensures InjectiveBelow(bound) <==> bound <= 65535
  {
    if bound <= 65535 {
      forall u1, s1, u2, s2 | InRange(u1, s1, bound) && InRange(u2, s2, bound)
        && ClaimRequestUpdateId(u1, s1) == ClaimRequestUpdateId(u2, s2)
        ensures u1 == u2 && s1 == s2
      {
        SameRequestId(u1, s1, u2, s2);
      }
    } else {
      SixteenBitsCollide();
      assert InRange(0, 65535, bound) && InRange(1, 65535, bound);
    }
  }

  /**
   * A single-code message keeps its update id as request id. It meets the id of code `sequence` of another
   * message exactly when it is that number; in particular never while it is at most 65536 times the other.
   */
  lemma SingleMeetsMulti(single: int, multi: int, sequence: int)
    requires 0 <= single && 0 <= multi < 0x8000_0000_0000 && 0 <= sequence < 65535
    ensures ClaimRequestUpdateId(multi, sequence) == single <==> single / 65536 == multi && single % 65536 == sequence + 1
    ensures single <= 65536 * multi ==> ClaimRequestUpdateId(multi, sequence) != single
  {
    RequestIdValue(multi, sequence);
  }

  /** The ids do meet: the 65537th update with one code, and the first code of update 1 with several. */
  lemma SingleMeetsMultiExample()
    ensures ClaimRequestUpdateId(1, 0) == 65537
  {
    RequestIdValue(1, 0);
  }

  // ----- ExtractClaimRelayInputs -----

  function ClaimContent(message: Message): string {
    if message.forwarded || message.automaticForward then "" else TrimSpace(message.text)
  }

  function RawCodes(claims: seq<ClaimRelayInput>): seq<string> {
    seq(|claims|, i requires 0 <= i < |claims| => claims[i].rawCode)
  }

  /** The request id of claim `index` out of `count`. */
  function RequestIdOf(updateId: int, index: int, count: int): int {
    if count == 1 then updateId else ClaimRequestUpdateId(updateId, index)
  }

  /** A message whose codes count: it has a sender and was not forwarded. */
  ghost predicate Counts(update: Update) {
    && update.message.Some? && update.message.value.fromId.Some?
    && !update.message.value.forwarded && !update.message.value.automaticForward
  }

  /**
   * The claims of an update: the distinct codes of its message in the order of their first occurrence. A single one has
   * the id of the update as its request id, several have ids that are packed from the id of the update and their place.
   */
  method ExtractClaimRelayInputs(update: Update) returns (claims: seq<ClaimRelayInput>, ghost positions: seq<nat>)
    ensures !Counts(update) ==> claims == []
    ensures var content := if Counts(update) then TrimSpace(update.message.value.text) else "";
      && LeftmostMatches(Hits(content, IsCode), positions, 0, |content|)
      && (forall k :: 0 <= k < |positions| ==> positions[k] + CODE_LENGTH <= |content|)
      && RawCodes(claims) == FirstSeen(Texts(content, positions), CanonicalClaimCode)
    ensures |claims| == 1 ==> claims[0].requestUpdateId == update.id
    ensures |claims| > 1 ==> forall i :: 0 <= i < |claims| ==> claims[i].requestUpdateId == ClaimRequestUpdateId(update.id, i)
    ensures Counts(update) ==> forall i :: 0 <= i < |claims| ==>
      claims[i].claimerUserId == update.message.value.fromId.value && claims[i].claimerChatId == update.message.value.chatId
  {
    positions := [];
    if update.message.None? || update.message.value.fromId.None? {
      return [], positions;
    }
    var content := ClaimContent(update.message.value);
    if content == "" {
      return [], positions;
    }
    var matches;
    matches, positions := FindAllString(content, IsCode);
    if |matches| == 0 {
      return [], positions;
    }
    TextsMatch(content, IsCode, positions);
    CodesNormalize(matches);
    claims := CollectClaims(matches, update.message.value, CanonicalClaimCode);
    claims := NumberClaims(update.id, claims);
  }

  predicate ClaimedBy(claim: ClaimRelayInput, message: Message)
    requires message.fromId.Some?
  {
    claim.claimerUserId == message.fromId.value && claim.claimerChatId == message.chatId
  }

  /** All extracted codes are accepted by Normalize and their normal forms are pairwise different. */
  lemma ExtractedCodesNormalize(matches: seq<string>)
    requires forall i :: 0 <= i < |matches| ==> IsCode(matches[i])
    ensures DistinctKeys(FirstSeen(matches, CanonicalClaimCode), CanonicalClaimCode)
    ensures forall c :: c in FirstSeen(matches, CanonicalClaimCode) ==> Normalize(c) == Ok(CanonicalClaimCode(c))
    ensures forall m :: m in matches ==> CanonicalClaimCode(m) in Keys(FirstSeen(matches, CanonicalClaimCode), CanonicalClaimCode)
  {
    FirstSeenMeaning(matches, CanonicalClaimCode);
    forall c | c in FirstSeen(matches, CanonicalClaimCode) ensures Normalize(c) == Ok(CanonicalClaimCode(c)) {
      MatchesAreCanonical(c);
    }
  }

  /** The loop with the `seen` map; `canonical` is canonicalClaimCode. */
  method CollectClaims(matches: seq<string>, message: Message, canonical: string -> string) returns (claims: seq<ClaimRelayInput>)
    requires message.fromId.Some?
    requires forall i :: 0 <= i < |matches| ==> canonical(matches[i]) != ""
    ensures RawCodes(claims) == FirstSeen(matches, canonical)
    ensures forall i :: 0 <= i < |claims| ==> ClaimedBy(claims[i], message)
  {
    claims := [];
    var seen: set<string> := {};
    for i := 0 to |matches|
      invariant seen == Keys(matches[..i], canonical)
      invariant RawCodes(claims) == FirstSeen(matches[..i], canonical)
      invariant forall j :: 0 <= j < |claims| ==> ClaimedBy(claims[j], message)
    {
      var found := matches[i];
      var normalized := canonical(found);
      KeysSnoc(matches[..i], found, canonical);
      assert matches[..i + 1][..i] == matches[..i] && matches[..i + 1] == matches[..i] + [found];
      if normalized == "" || normalized in seen {
        continue;
      }
      seen := seen + {normalized};
      claims := claims + [ClaimRelayInput(0, message.fromId.value, message.chatId, found)];
    }
    assert matches[..|matches|] == matches;
  }

  /** The request ids, written into the claims in place. */
  method NumberClaims(updateId: int, unnumbered: seq<ClaimRelayInput>) returns (claims: seq<ClaimRelayInput>)
    ensures RawCodes(claims) == RawCodes(unnumbered)
    ensures forall i :: 0 <= i < |claims| ==>
      claims[i] == unnumbered[i].(requestUpdateId := RequestIdOf(updateId, i, |claims|))
  {
    claims := unnumbered;
    if |claims| == 1 {
      claims := claims[0 := claims[0].(requestUpdateId := updateId)];
      return;
    }
    for index := 0 to |claims|
      invariant |claims| == |unnumbered|
      invariant forall i :: 0 <= i < index ==>
        claims[i] == unnumbered[i].(requestUpdateId := RequestIdOf(updateId, i, |claims|))
      invariant forall i :: index <= i < |claims| ==> claims[i] == unnumbered[i]
    {
      claims := claims[index := claims[index].(requestUpdateId := ClaimRequestUpdateId(updateId, index))];
    }
  }
}
