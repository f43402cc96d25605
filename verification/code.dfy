/**
 * internal/relay/code.go: drawing a code from a byte source and recognising it again.
 * Text is a sequence of Unicode characters; lengths in bytes count their UTF-8 encoding.
 */
module Code {
  import opened RelayTypes

  const DISPLAY_CODE_PREFIX := "relaybot_"
  const MODERN_CODE_LENGTH := 20
  const DIGITS := "0123456789"
  const UPPER := "ABCDEFGHIJKLMNOPQRSTUVWXYZ"
  const LOWER := "abcdefghijklmnopqrstuvwxyz"
  const MODERN_CODE_ALPHABET := DIGITS + UPPER + LOWER

  type Byte = b: int | 0 <= b < 256

  // ----- Rejection sampling -----

  /** The rejection limit after Go's conversion to `byte`: 256 itself becomes 0. */
  function Limit(alphabet: string): Byte
    requires alphabet != ""
  {
    (256 - 256 % |alphabet|) % 256
  }

  /** The symbols that the accepted bytes of a stream stand for, in order. */
  function Symbols(stream: seq<Byte>, alphabet: string): string
    requires alphabet != ""
  {
    if stream == [] then ""
    else if stream[0] >= Limit(alphabet) then Symbols(stream[1..], alphabet)
    else [alphabet[stream[0] % |alphabet|]] + Symbols(stream[1..], alphabet)
  }

  lemma {:induction false} SymbolsConcat(a: seq<Byte>, b: seq<Byte>, alphabet: string)
    requires alphabet != ""
    ensures Symbols(a + b, alphabet) == Symbols(a, alphabet) + Symbols(b, alphabet)
  {
    if a == [] {
      assert a + b == b;
    } else {
      SymbolsConcat(a[1..], b, alphabet);
      assert (a + b)[1..] == a[1..] + b && (a + b)[0] == a[0];
      var head, middle, last := [alphabet[a[0] % |alphabet|]], Symbols(a[1..], alphabet), Symbols(b, alphabet);
      assert head + (middle + last) == (head + middle) + last;
    }
  }

  lemma SymbolsPrefix(stream: seq<Byte>, k: nat, alphabet: string)
    requires alphabet != "" && k <= |stream|
    ensures Symbols(stream[..k], alphabet) <= Symbols(stream, alphabet)
  {
    SymbolsConcat(stream[..k], stream[k..], alphabet);
    assert stream == stream[..k] + stream[k..];
  }

  /** crypto/rand: fills the whole buffer from the next bytes of the source, or reports an error. */
  class Source {
    const bytes: seq<Byte>
    var used: nat

    ghost predicate Valid()
      reads this
    {
      used <= |bytes|
    }

    constructor (bytes: seq<Byte>)
      ensures Valid() && this.bytes == bytes && used == 0
    {
      this.bytes := bytes;
      used := 0;
    }

    method Read(buf: array<Byte>) returns (ok: bool)
      requires Valid()
      modifies this, buf
      ensures Valid()
      ensures ok <==> old(used) + buf.Length <= |bytes|
      ensures ok ==> used == old(used) + buf.Length && buf[..] == bytes[old(used)..used]
      ensures !ok ==> used == old(used)
    {
      if used + buf.Length > |bytes| {
        return false;
      }
      for i := 0 to buf.Length
        invariant used == old(used)
        invariant buf[..i] == bytes[used..used + i]
      {
        buf[i] := bytes[used + i];
      }
      assert buf[..] == buf[..buf.Length];
      used := used + buf.Length;
      ok := true;
    }
  }

  /** One pass of the inner loop: the accepted bytes of `buf` go to `out` until it is full. */
  method Absorb(buf: array<Byte>, out: array<char>, start: nat, alphabet: string) returns (index: nat)
    requires alphabet != "" && start < out.Length && buf.Length > 0
    modifies out
    ensures start <= index <= out.Length
    ensures index < out.Length ==> out[..index] == old(out[..start]) + Symbols(buf[..], alphabet)
    ensures index == out.Length ==> out[..] <= old(out[..start]) + Symbols(buf[..], alphabet)
  {
    index := start;
    var limit := Limit(alphabet);
    for i := 0 to buf.Length
      invariant start <= index < out.Length
      invariant out[..index] == old(out[..start]) + Symbols(buf[..i], alphabet)
    {
      var current := buf[i];
      SymbolsConcat(buf[..i], [current], alphabet);
      assert buf[..i + 1] == buf[..i] + [current];
      if current >= limit {
        continue;
      }
      out[index] := alphabet[current % |alphabet|];
      index := index + 1;
      if index == out.Length {
        assert out[..] == out[..index];
        SymbolsPrefix(buf[..], i + 1, alphabet);
        assert buf[..][..i + 1] == buf[..i + 1];
        return;
      }
    }
    assert buf[..] == buf[..buf.Length];
  }

  /**
   * randomString. Whatever the source, a returned string is the first `length` symbols of the whole stream,
   * so the buffering leaves no trace; an error means that all complete buffers held too few accepted bytes.
   */
  method RandomString(source: Source, length: int, alphabet: string) returns (r: Result<string>)
    requires alphabet != "" && source.Valid() && source.used == 0
    modifies source
    ensures length <= 0 ==> r == Ok("")
    ensures length > 0 && r.Ok? ==> |r.value| == length && r.value <= Symbols(source.bytes, alphabet)
    ensures length > 0 && r.Err? ==> r.error == SourceExhausted
    ensures length > 0 && r.Err? ==> |Symbols(source.bytes[..|source.bytes| - |source.bytes| % length], alphabet)| < length
  {
    if length <= 0 {
      return Ok("");
    }
    var out := new char[length];
    var buf := new Byte[length];
    var index := 0;
    ghost var bytes := source.bytes;
    ghost var rounds := 0;
    while index < length
      invariant source.Valid() && fresh(out) && fresh(buf) && out.Length == buf.Length == length
      invariant 0 <= index <= length && source.used == rounds * length
      invariant index < length ==> out[..index] == Symbols(bytes[..source.used], alphabet)
      invariant index == length ==> out[..] <= Symbols(bytes, alphabet)
      decreases |bytes| - source.used + (if index < length then 1 else 0)
    {
      var ok;
      ok, index := Refill(source, buf, out, index, alphabet);
      if !ok {
        WholeBuffers(|bytes|, rounds, length);
        return Err(SourceExhausted);
      }
      assert (rounds + 1) * length == rounds * length + length;
      rounds := rounds + 1;
    }
    r := Ok(out[..]);
  }

  /** One turn of the outer loop: read a buffer and absorb it. */
  method Refill(source: Source, buf: array<Byte>, out: array<char>, start: nat, alphabet: string) returns (ok: bool, index: nat)
    requires alphabet != "" && source.Valid() && start < out.Length == buf.Length
    requires out[..start] == Symbols(source.bytes[..source.used], alphabet)
    modifies source, buf, out
    ensures source.Valid() && start <= index <= out.Length
    ensures ok <==> old(source.used) + buf.Length <= |source.bytes|
    ensures !ok ==> source.used == old(source.used) && index == start && out[..start] == old(out[..start])
    ensures ok ==> source.used == old(source.used) + buf.Length
    ensures ok && index < out.Length ==> out[..index] == Symbols(source.bytes[..source.used], alphabet)
    ensures ok && index == out.Length ==> out[..] <= Symbols(source.bytes, alphabet)
  {
    index := start;
    ghost var bytes, used := source.bytes, source.used;
    ok := source.Read(buf);
    if ok {
      SymbolsConcat(bytes[..used], bytes[used..source.used], alphabet);
      assert bytes[..source.used] == bytes[..used] + bytes[used..source.used];
      SymbolsPrefix(bytes, source.used, alphabet);
      index := Absorb(buf, out, index, alphabet);
    }
  }

  /** When the next buffer does not fit, the buffers read are all the complete ones. */
  lemma WholeBuffers(total: nat, rounds: nat, length: nat)
    requires length > 0 && rounds * length <= total < rounds * length + length
    ensures rounds * length == total - total % length
  {
    QuotientUnique(total, length, rounds, total - rounds * length);
  }

  lemma MultipleBound(a: int, d: int)
    requires d > 0
    ensures a >= 1 ==> a * d >= d
    ensures a <= -1 ==> a * d <= -d
  {
  }

  lemma QuotientUnique(x: int, d: int, q: int, r: int)
    requires d > 0 && x == q * d + r && 0 <= r < d
    ensures x % d == r
  {
    assert x == (x / d) * d + x % d;
    assert (q - x / d) * d == x % d - r;
    MultipleBound(q - x / d, d);
  }

  // ----- Uniformity -----

  /** The bytes that are accepted and stand for symbol number `symbol`. */
  function BytesFor(symbol: nat, alphabet: string): set<Byte>
    requires alphabet != ""
  {
    set b: Byte | 0 <= b < 256 && b < Limit(alphabet) && b % |alphabet| == symbol
  }

  /** Each of the 62 symbols has exactly four accepted bytes. */
  lemma FourBytesEach(symbol: nat)
    requires symbol < |MODERN_CODE_ALPHABET|
    ensures |BytesFor(symbol, MODERN_CODE_ALPHABET)| == 4
  {
    assert |MODERN_CODE_ALPHABET| == 62 && Limit(MODERN_CODE_ALPHABET) == 248;
    var four: set<Byte> := {symbol, symbol + 62, symbol + 124, symbol + 186};
    assert BytesFor(symbol, MODERN_CODE_ALPHABET) == four;
  }

  /** With an alphabet whose size divides 256 the limit wraps to 0 and no byte is ever accepted. */
  lemma {:induction false} PowerOfTwoAlphabetNeverAccepts(stream: seq<Byte>, alphabet: string)
    requires alphabet != "" && 256 % |alphabet| == 0
    ensures Symbols(stream, alphabet) == ""
  {
    if stream != [] {
      PowerOfTwoAlphabetNeverAccepts(stream[1..], alphabet);
    }
  }

  predicate IsAlphanumeric(c: char) {
    '0' <= c <= '9' || 'A' <= c <= 'Z' || 'a' <= c <= 'z'
  }

  /** isModernCodeBody */
  predicate IsModernCodeBody(body: string) {
    forall i :: 0 <= i < |body| ==> IsAlphanumeric(body[i])
  }

  /** The position of a symbol in the alphabet. */
  function SymbolIndex(c: char): nat
    requires IsAlphanumeric(c)
  {
    if c <= '9' then (c as int) - ('0' as int)
    else if c <= 'Z' then 10 + (c as int) - ('A' as int)
    else 36 + (c as int) - ('a' as int)
  }

  /** From position `i` on, `letters` runs through consecutive characters, its first one being `first`. */
  predicate Consecutive(letters: string, first: char, i: nat)
    requires i <= |letters|
    decreases |letters| - i
  {
    i < |letters| ==> (letters[i] as int) == (first as int) + i && Consecutive(letters, first, i + 1)
  }

  lemma {:induction false} ConsecutiveAt(letters: string, first: char, from: nat, i: nat)
    requires from <= i < |letters| && Consecutive(letters, first, from)
    ensures (letters[i] as int) == (first as int) + i
    decreases i - from
  {
    if from < i {
      ConsecutiveAt(letters, first, from + 1, i);
    }
  }

  lemma UpperRuns()
    ensures Consecutive(UPPER, 'A', 0)
  {
    assert Consecutive(UPPER, 'A', 22);
    assert Consecutive(UPPER, 'A', 18);
    assert Consecutive(UPPER, 'A', 14);
    assert Consecutive(UPPER, 'A', 10);
    assert Consecutive(UPPER, 'A', 7);
    assert Consecutive(UPPER, 'A', 4);
    assert Consecutive(UPPER, 'A', 2);
  }

  lemma LowerRuns()
    ensures Consecutive(LOWER, 'a', 0)
  {
    assert Consecutive(LOWER, 'a', 22);
    assert Consecutive(LOWER, 'a', 18);
    assert Consecutive(LOWER, 'a', 14);
    assert Consecutive(LOWER, 'a', 10);
    assert Consecutive(LOWER, 'a', 7);
    assert Consecutive(LOWER, 'a', 4);
    assert Consecutive(LOWER, 'a', 2);
  }

  lemma AlphabetAt(i: nat)
    requires i < 62
    ensures |MODERN_CODE_ALPHABET| == 62
    ensures IsAlphanumeric(MODERN_CODE_ALPHABET[i]) && SymbolIndex(MODERN_CODE_ALPHABET[i]) == i
  {
    if i < 10 {
      assert Consecutive(DIGITS, '0', 0);
      ConsecutiveAt(DIGITS, '0', 0, i);
    } else if i < 36 {
      UpperRuns();
      ConsecutiveAt(UPPER, 'A', 0, i - 10);
    } else {
      LowerRuns();
      ConsecutiveAt(LOWER, 'a', 0, i - 36);
    }
  }

  /** The alphabet lists every alphanumeric character exactly once. */
  lemma AlphabetComplete(c: char, i: nat)
    requires i < 62
    ensures |MODERN_CODE_ALPHABET| == 62
    ensures IsAlphanumeric(MODERN_CODE_ALPHABET[i]) && SymbolIndex(MODERN_CODE_ALPHABET[i]) == i
    ensures IsAlphanumeric(c) ==> SymbolIndex(c) < 62 && MODERN_CODE_ALPHABET[SymbolIndex(c)] == c
  {
    AlphabetAt(i);
    if IsAlphanumeric(c) {
      AlphabetAt(SymbolIndex(c));
    }
  }

  /** Every byte string of accepted bytes only that maps to `body`. */
  ghost function Preimages(body: string): set<seq<Byte>>
    requires IsModernCodeBody(body)
  {
    if body == "" then {[]}
    else Extensions(BytesFor(SymbolIndex(body[0]), MODERN_CODE_ALPHABET), Preimages(body[1..]))
  }

  ghost function Extensions(heads: set<Byte>, tails: set<seq<Byte>>): set<seq<Byte>> {
    set head, tail | head in heads && tail in tails :: [head] + tail
  }

  function Pow(base: nat, exponent: nat): nat {
    if exponent == 0 then 1 else base * Pow(base, exponent - 1)
  }

  lemma ExtensionsSplit(heads: set<Byte>, tails: set<seq<Byte>>, head: Byte)
    requires head in heads
    ensures Extensions(heads, tails) == Extensions({head}, tails) + Extensions(heads - {head}, tails)
    ensures Extensions({head}, tails) !! Extensions(heads - {head}, tails)
  {
    var one, rest := Extensions({head}, tails), Extensions(heads - {head}, tails);
    assert forall s :: s in one ==> s != [] && s[0] == head;
    assert forall s :: s in rest ==> s != [] && s[0] != head;
    forall s | s in Extensions(heads, tails) ensures s in one + rest {
      var h, t :| h in heads && t in tails && s == [h] + t;
      if h != head { assert h in heads - {head}; } else { assert h in {head}; }
    }
  }

  lemma {:induction false} ExtensionsCount(heads: set<Byte>, tails: set<seq<Byte>>)
    ensures |Extensions(heads, tails)| == |heads| * |tails|
    decreases heads
  {
    hide Extensions;
    if heads == {} {
      NoHeads(tails);
    } else {
      var head :| head in heads;
      var others := heads - {head};
      ExtensionsCount(others, tails);
      OneHeadCount(head, tails);
      ExtensionsSplit(heads, tails, head);
      assert |heads| == |others| + 1;
      assert (|others| + 1) * |tails| == |others| * |tails| + |tails|;
    }
  }

  lemma NoHeads(tails: set<seq<Byte>>)
    ensures Extensions({}, tails) == {}
  {
  }

  lemma OneHeadSplit(head: Byte, tails: set<seq<Byte>>, tail: seq<Byte>)
    requires tail in tails
    ensures Extensions({head}, tails) == Extensions({head}, tails - {tail}) + {[head] + tail}
    ensures [head] + tail !in Extensions({head}, tails - {tail})
  {
    var whole, rest := Extensions({head}, tails), Extensions({head}, tails - {tail});
    forall s | s in whole ensures s in rest + {[head] + tail} {
      var t :| t in tails && s == [head] + t;
      if t != tail { assert t in tails - {tail}; }
    }
    forall s | s in rest ensures s != [head] + tail {
      var t :| t in tails - {tail} && s == [head] + t;
      assert s[1..] == t && ([head] + tail)[1..] == tail;
    }
  }

  lemma {:induction false} OneHeadCount(head: Byte, tails: set<seq<Byte>>)
    ensures |Extensions({head}, tails)| == |tails|
    decreases tails
  {
    if tails == {} {
      assert Extensions({head}, tails) == {};
    } else {
      var tail :| tail in tails;
      OneHeadCount(head, tails - {tail});
      OneHeadSplit(head, tails, tail);
    }
  }

  /** The preimages are exactly the accepted byte strings that give the body. */
  lemma {:induction false} PreimagesExact(body: string, stream: seq<Byte>)
    requires IsModernCodeBody(body)
    ensures stream in Preimages(body)
      <==> |stream| == |body| && Symbols(stream, MODERN_CODE_ALPHABET) == body
    decreases body
  {
    assert Limit(MODERN_CODE_ALPHABET) == 248;
    if body == "" {
      if stream != [] { assert |stream| > 0; }
    } else {
      var heads := BytesFor(SymbolIndex(body[0]), MODERN_CODE_ALPHABET);
      AlphabetComplete(body[0], 0);
      if stream != [] {
        PreimagesExact(body[1..], stream[1..]);
        SymbolsShorter(stream[1..], MODERN_CODE_ALPHABET);
        assert stream == [stream[0]] + stream[1..];
        if stream in Preimages(body) {
          var head, tail :| head in heads && tail in Preimages(body[1..]) && stream == [head] + tail;
          assert stream[0] == head && stream[1..] == tail;
          assert body == [body[0]] + body[1..];
        }
        if |stream| == |body| && Symbols(stream, MODERN_CODE_ALPHABET) == body {
          assert stream[0] < 248;
          assert body[0] == MODERN_CODE_ALPHABET[stream[0] % 62];
          AlphabetComplete('0', stream[0] % 62);
          assert stream[0] in heads;
        }
      }
    }
  }

  lemma {:induction false} SymbolsShorter(stream: seq<Byte>, alphabet: string)
    requires alphabet != ""
    ensures |Symbols(stream, alphabet)| <= |stream|
  {
    if stream != [] {
      SymbolsShorter(stream[1..], alphabet);
    }
  }

  /** Every body of length n comes from exactly 4^n accepted byte strings: the draw is uniform. */
  lemma {:induction false} UniformDraw(body: string)
    requires IsModernCodeBody(body)
    ensures |Preimages(body)| == Pow(4, |body|)
  {
    if body != "" {
      UniformDraw(body[1..]);
      AlphabetComplete(body[0], 0);
      FourBytesEach(SymbolIndex(body[0]));
      ExtensionsCount(BytesFor(SymbolIndex(body[0]), MODERN_CODE_ALPHABET), Preimages(body[1..]));
    }
  }

  lemma {:induction false} SymbolsAlphanumeric(stream: seq<Byte>)
    ensures IsModernCodeBody(Symbols(stream, MODERN_CODE_ALPHABET))
  {
    if stream != [] {
      SymbolsAlphanumeric(stream[1..]);
      AlphabetComplete('0', stream[0] % 62);
    }
  }

  // ----- Recognising a code -----

  /** unicode.IsSpace */
  predicate IsSpace(c: char) {
    var n := c as int;
    || 9 <= n <= 13 || n == 32 || n == 0x85 || n == 0xA0 || n == 0x1680
    || 0x2000 <= n <= 0x200A || n == 0x2028 || n == 0x2029 || n == 0x202F || n == 0x205F || n == 0x3000
  }

  predicate AllSpace(s: string, from: nat, to: nat)
    requires from <= to <= |s|
  {
    forall i :: from <= i < to ==> IsSpace(s[i])
  }

  function SkipLeft(s: string, i: nat): (k: nat)
    requires i <= |s|
    ensures i <= k <= |s| && AllSpace(s, i, k)
    ensures k < |s| ==> !IsSpace(s[k])
    decreases |s| - i
  {
    if i < |s| && IsSpace(s[i]) then SkipLeft(s, i + 1) else i
  }

  function SkipRight(s: string, from: nat, i: nat): (m: nat)
    requires from <= i <= |s|
    ensures from <= m <= i && AllSpace(s, m, i)
    ensures from < m ==> !IsSpace(s[m - 1])
    decreases i
  {
    if from < i && IsSpace(s[i - 1]) then SkipRight(s, from, i - 1) else i
  }

  /** strings.TrimSpace */
  function TrimSpace(s: string): string {
    var k := SkipLeft(s, 0);
    s[k..SkipRight(s, k, |s|)]
  }

  /** The number of bytes of the UTF-8 encoding. */
  function ByteLength(s: string): nat {
    if s == "" then 0
    else (var n := s[0] as int; if n < 0x80 then 1 else if n < 0x800 then 2 else if n < 0x10000 then 3 else 4) + ByteLength(s[1..])
  }

  function ToLower(c: char): char {
    if 'A' <= c <= 'Z' then ((c as int) + 32) as char else c
  }

  /**
   * strings.EqualFold against the code prefix. No letter of the prefix has a fold partner outside ASCII, so
   * folding ASCII letters is all there is to it.
   */
  predicate FoldsToPrefix(s: string) {
    && |s| == |DISPLAY_CODE_PREFIX|
    && forall i :: 0 <= i < |s| ==> ToLower(s[i]) == DISPLAY_CODE_PREFIX[i]
  }

  /** An occurrence of a code: the prefix in any case, then twenty alphanumeric characters. */
  predicate IsCode(s: string) {
    && |s| == |DISPLAY_CODE_PREFIX| + MODERN_CODE_LENGTH
    && FoldsToPrefix(s[..|DISPLAY_CODE_PREFIX|])
    && IsModernCodeBody(s[|DISPLAY_CODE_PREFIX|..])
  }

  predicate Either(c: char, lower: char, upper: char) {
    c == lower || c == upper
  }

  /** A code, letter by letter. */
  lemma CodeShape(s: string)
    ensures IsCode(s) <==>
      && |s| == 29
      && Either(s[0], 'r', 'R') && Either(s[1], 'e', 'E') && Either(s[2], 'l', 'L') && Either(s[3], 'a', 'A') && Either(s[4], 'y', 'Y')
      && Either(s[5], 'b', 'B') && Either(s[6], 'o', 'O') && Either(s[7], 't', 'T') && s[8] == '_'
      && forall i :: 9 <= i < 29 ==> '0' <= s[i] <= '9' || 'A' <= s[i] <= 'Z' || 'a' <= s[i] <= 'z'
  {
    if |s| == 29 {
      PrefixShape(s[..9]);
      assert forall i :: 9 <= i < 29 ==> s[i] == s[9..][i - 9];
    }
  }

  lemma PrefixShape(p: string)
    requires |p| == 9
    ensures FoldsToPrefix(p) <==>
      && Either(p[0], 'r', 'R') && Either(p[1], 'e', 'E') && Either(p[2], 'l', 'L') && Either(p[3], 'a', 'A') && Either(p[4], 'y', 'Y')
      && Either(p[5], 'b', 'B') && Either(p[6], 'o', 'O') && Either(p[7], 't', 'T') && p[8] == '_'
  {
    if FoldsToPrefix(p) {
      assert forall i :: 0 <= i < 9 ==> ToLower(p[i]) == DISPLAY_CODE_PREFIX[i];
    }
  }

  /** Among the ASCII characters, the spaces are the blank and the five controls from tab to carriage return. */
  lemma AsciiSpaces(c: char)
    requires c as int < 0x80
    ensures IsSpace(c) <==> c == ' ' || '\t' <= c <= '\r'
  {
  }

  function Normalize(raw: string): (r: Result<string>)
  {
    var candidate := TrimSpace(raw);
    if candidate == "" then Err(InvalidCode)
    else if ByteLength(candidate) != |DISPLAY_CODE_PREFIX| + MODERN_CODE_LENGTH then Err(InvalidCode)
    else if |candidate| < |DISPLAY_CODE_PREFIX| || !FoldsToPrefix(candidate[..|DISPLAY_CODE_PREFIX|]) then Err(InvalidCode)
    else if IsModernCodeBody(candidate[|DISPLAY_CODE_PREFIX|..]) then Ok(DISPLAY_CODE_PREFIX + candidate[|DISPLAY_CODE_PREFIX|..])
    else Err(InvalidCode)
  }

  lemma {:induction false} AsciiLength(s: string)
    ensures |s| <= ByteLength(s)
    ensures (forall i :: 0 <= i < |s| ==> (s[i] as int) < 0x80) ==> ByteLength(s) == |s|
  {
    if s != "" {
      AsciiLength(s[1..]);
    }
  }

  lemma CodeIsAscii(s: string)
    requires |s| >= |DISPLAY_CODE_PREFIX| && FoldsToPrefix(s[..|DISPLAY_CODE_PREFIX|]) && IsModernCodeBody(s[|DISPLAY_CODE_PREFIX|..])
    ensures forall i :: 0 <= i < |s| ==> (s[i] as int) < 0x80 && !IsSpace(s[i])
  {
    var p := |DISPLAY_CODE_PREFIX|;
    forall i | 0 <= i < |s| ensures (s[i] as int) < 0x80 && !IsSpace(s[i]) {
      if i < p {
        assert s[..p][i] == s[i];
        assert ToLower(s[i]) == DISPLAY_CODE_PREFIX[i];
        assert forall j :: 0 <= j < p ==> 95 <= DISPLAY_CODE_PREFIX[j] as int <= 121;
      } else {
        assert s[p..][i - p] == s[i];
      }
    }
  }

  /** Around a non-space core, trimming removes exactly the spaces. */
  lemma TrimCore(s: string, k: nat, m: nat)
    requires k < m <= |s| && AllSpace(s, 0, k) && AllSpace(s, m, |s|)
    requires !IsSpace(s[k]) && !IsSpace(s[m - 1])
    ensures TrimSpace(s) == s[k..m]
  {
    var left := SkipLeft(s, 0);
    assert left == k;
    var right := SkipRight(s, left, |s|);
    assert right == m;
  }

  /** Spaces, a code, spaces. */
  ghost predicate Surrounds(raw: string, k: nat, m: nat) {
    k <= m <= |raw| && AllSpace(raw, 0, k) && AllSpace(raw, m, |raw|) && IsCode(raw[k..m])
  }

  lemma AcceptedIsSurrounded(raw: string)
    requires Normalize(raw).Ok?
    ensures exists k: nat, m: nat :: Surrounds(raw, k, m)
  {
    var k := SkipLeft(raw, 0);
    var m := SkipRight(raw, k, |raw|);
    var candidate := raw[k..m];
    CodeIsAscii(candidate);
    AsciiLength(candidate);
    assert Surrounds(raw, k, m);
  }

  lemma SurroundedIsAccepted(raw: string, k: nat, m: nat)
    requires Surrounds(raw, k, m)
    ensures Normalize(raw) == Ok(DISPLAY_CODE_PREFIX + raw[k..m][|DISPLAY_CODE_PREFIX|..])
  {
    var core := raw[k..m];
    CodeIsAscii(core);
    AsciiLength(core);
    assert raw[k] == core[0] && raw[m - 1] == core[|core| - 1];
    TrimCore(raw, k, m);
  }

  /** Normalize accepts exactly a code between spaces, and returns it with the prefix in lower case. */
  lemma NormalizeExact(raw: string)
    ensures Normalize(raw).Ok? <==> exists k: nat, m: nat :: Surrounds(raw, k, m)
    ensures forall k: nat, m: nat :: Surrounds(raw, k, m) ==>
      Normalize(raw) == Ok("relaybot_" + raw[k..m][9..])
  {
    if Normalize(raw).Ok? {
      AcceptedIsSurrounded(raw);
    }
    forall k: nat, m: nat | Surrounds(raw, k, m)
      ensures Normalize(raw) == Ok(DISPLAY_CODE_PREFIX + raw[k..m][|DISPLAY_CODE_PREFIX|..])
    {
      SurroundedIsAccepted(raw, k, m);
    }
  }

  lemma LowerPrefixFolds()
    ensures FoldsToPrefix(DISPLAY_CODE_PREFIX)
  {
  }

  /** A code that already has the lower-case prefix is its own normal form. */
  lemma NormalizeKeepsCode(body: string)
    requires |body| == MODERN_CODE_LENGTH && IsModernCodeBody(body)
    ensures Normalize(DISPLAY_CODE_PREFIX + body) == Ok(DISPLAY_CODE_PREFIX + body)
  {
    var code := DISPLAY_CODE_PREFIX + body;
    LowerPrefixFolds();
    assert code[..|DISPLAY_CODE_PREFIX|] == DISPLAY_CODE_PREFIX && code[|DISPLAY_CODE_PREFIX|..] == body;
    NormalizeExact(code);
    assert code[0..|code|] == code;
    assert Surrounds(code, 0, |code|);
  }

  /** Normalize is idempotent on everything it accepts. */
  lemma NormalizeIdempotent(raw: string)
    requires Normalize(raw).Ok?
    ensures Normalize(Normalize(raw).value) == Normalize(raw)
  {
    NormalizeExact(raw);
    var k: nat, m: nat :| Surrounds(raw, k, m);
    NormalizeKeepsCode(raw[k..m][|DISPLAY_CODE_PREFIX|..]);
  }

  /**
   * Generate, with the keyed hash as a parameter. The display code normalises to itself, so the hash taken
   * here is the hash that a later claim of the same code looks up.
   */
  method Generate(source: Source, hash: string -> string) returns (r: Result<(string, string, string)>)
    requires source.Valid() && source.used == 0
    modifies source
    ensures r.Ok? ==> Normalize(r.value.0) == Ok(r.value.0) && r.value.1 == hash(r.value.0)
    ensures r.Ok? ==> r.value.0[|DISPLAY_CODE_PREFIX|..] <= Symbols(source.bytes, MODERN_CODE_ALPHABET)
    ensures r.Ok? ==> |r.value.0| == 29 && r.value.0[..9] == "relaybot_" && r.value.2 == r.value.0[25..]
    ensures r.Err? ==> |Symbols(source.bytes[..|source.bytes| - |source.bytes| % 20], MODERN_CODE_ALPHABET)| < 20
  {
    var body := RandomString(source, MODERN_CODE_LENGTH, MODERN_CODE_ALPHABET);
    if body.Err? {
      return Err(body.error);
    }
    var display := DISPLAY_CODE_PREFIX + body.value;
    SymbolsAlphanumeric(source.bytes);
    assert forall i :: 0 <= i < 20 ==> body.value[i] == Symbols(source.bytes, MODERN_CODE_ALPHABET)[i];
    NormalizeKeepsCode(body.value);
    assert display[|DISPLAY_CODE_PREFIX|..] == body.value;
    r := Ok((display, hash(display), body.value[|body.value| - 4..]));
  }
}
