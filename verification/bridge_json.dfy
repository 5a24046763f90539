/**
 * The key scanners of the native bridge (src/headless/wled_bridge.cpp): no JSON
 * parser, but substring searches for a quoted key, the first ':' after it, and
 * the characters that follow. Each scanner is a method with the cursor loops of
 * the C++ code, proved equal to a function that states what it reads; the
 * lemmas at the end show that the scanners read back the values of a command
 * written the way WLED's JSON API writes it.
 *
 * A JSON text is a `string`; the bridge looks only at ASCII characters.
 */
module BridgeJson {
  import opened Wrappers
  import opened JsValues

  /** clamp_u8: values below 0 become 0, above 255 become 255, the rest are kept. */
  function ClampU8(value: int): (r: Byte)
    ensures 0 <= value <= 255 ==> r == value
    ensures value < 0 ==> r == 0
    ensures value > 255 ==> r == 255
  {
    ToByte(value)
  }

  /** std::isspace in the C locale. */
  predicate IsCSpace(c: char)
  {
    c == ' ' || c == '\t' || c == '\n' || c == '\U{0B}' || c == '\U{0C}' || c == '\r'
  }

  predicate IsSign(c: char) { c == '-' || c == '+' }

  // ---------------------------------------------------------------------------
  // Searching

  /** `p` occurs in `s` at index i, compared character by character. */
  predicate MatchAt(s: string, p: string, i: nat)
    decreases |p|
  {
    i + |p| <= |s| && (p == [] || (s[i] == p[0] && MatchAt(s, p[1..], i + 1)))
  }

  /** The j-th character of a match. */
  lemma {:induction false} MatchIndex(s: string, p: string, i: nat, j: nat)
    requires MatchAt(s, p, i) && j < |p|
    ensures s[i + j] == p[j]
    decreases j
  {
    if j > 0 {
      MatchIndex(s, p[1..], i + 1, j - 1);
    }
  }

  /** A match is a slice equal to the pattern. */
  lemma {:induction false} MatchSlice(s: string, p: string, i: nat)
    requires i + |p| <= |s|
    ensures MatchAt(s, p, i) <==> s[i..i + |p|] == p
    decreases |p|
  {
    if p != [] {
      MatchSlice(s, p[1..], i + 1);
      assert s[i..i + |p|] == [s[i]] + s[i + 1..i + 1 + |p[1..]|];
      assert p == [p[0]] + p[1..];
    }
  }

  /** std::string_view::find(p, from): where `p` next occurs at or after `from`. */
  function Find(s: string, p: string, from: nat): (r: Option<nat>)
    requires p != []
    ensures r.Some? ==> from <= r.value && r.value + |p| <= |s|
    decreases |s| - from
  {
    if from + |p| > |s| then None
    else if MatchAt(s, p, from) then Some(from)
    else Find(s, p, from + 1)
  }

  /** Find returns the first occurrence, and nothing only when there is none. */
  lemma {:induction false} FindIsFirst(s: string, p: string, from: nat)
    requires p != []
    ensures Find(s, p, from).Some? ==> MatchAt(s, p, Find(s, p, from).value)
    ensures forall j :: from <= j && (Find(s, p, from).None? || j < Find(s, p, from).value) ==> !MatchAt(s, p, j)
    decreases |s| - from
  {
    if from + |p| <= |s| && !MatchAt(s, p, from) {
      FindIsFirst(s, p, from + 1);
    }
  }

  /** Where find reports a match, the pattern's first character stands. */
  lemma {:induction false} FindStartsWith(s: string, p: string, from: nat)
    requires p != []
    ensures Find(s, p, from).Some? ==> s[Find(s, p, from).value] == p[0]
    decreases |s| - from
  {
    if from + |p| <= |s| && !MatchAt(s, p, from) {
      FindStartsWith(s, p, from + 1);
    }
  }

  /** std::string_view::find(c, from) for a single character. */
  function FindChar(s: string, c: char, from: nat): (r: Option<nat>)
    ensures r.Some? ==> from <= r.value < |s| && s[r.value] == c
    decreases |s| - from
  {
    if from >= |s| then None
    else if s[from] == c then Some(from)
    else FindChar(s, c, from + 1)
  }

  /** The key as the bridge searches for it: between double quotes. */
  function Quoted(key: string): (r: string)
    ensures |r| == |key| + 2 && r[0] == '"'
  {
    "\"" + key + "\""
  }

  /** The index of the first character at or after i that is not white space. */
  function SkipSpace(s: string, i: nat): (r: nat)
    requires i <= |s|
    ensures i <= r <= |s| && (r == |s| || !IsCSpace(s[r]))
    decreases |s| - i
  {
    if i < |s| && IsCSpace(s[i]) then SkipSpace(s, i + 1) else i
  }

  /** The end of the run of decimal digits that starts at i. */
  function DigitsEnd(s: string, i: nat): (r: nat)
    requires i <= |s|
    ensures i <= r <= |s| && (r == |s| || !IsDigit(s[r]))
    ensures AllDigits(s[i..r])
    decreases |s| - i
  {
    if i < |s| && IsDigit(s[i]) then
      var r := DigitsEnd(s, i + 1);
      assert s[i..r] == [s[i]] + s[i + 1..r];
      r
    else i
  }

  /** Where the value of `key` starts: after the first quoted occurrence of the
      key, the first ':' after it, and any white space after that. */
  function ValueStart(json: string, key: string): (r: Option<nat>)
    ensures r.Some? ==> r.value <= |json|
  {
    match Find(json, Quoted(key), 0)
    case None => None
    case Some(k) =>
      match FindChar(json, ':', k + |Quoted(key)|)
      case None => None
      case Some(colon) => Some(SkipSpace(json, colon + 1))
  }

  // ---------------------------------------------------------------------------
  // extract_int

  /** An optional sign followed by at least one decimal digit. */
  predicate SignedDigits(t: string)
  {
    (t != [] && IsSign(t[0]) && t[1..] != [] && AllDigits(t[1..])) || (t != [] && AllDigits(t))
  }

  /** std::atoi on an optionally signed run of digits. */
  function Atoi(t: string): int
    requires SignedDigits(t)
  {
    if t[0] == '-' then 0 - DigitsValue(t[1..])
    else if t[0] == '+' then DigitsValue(t[1..])
    else DigitsValue(t)
  }

  /** The optionally signed decimal that starts at `start`, or nothing when no
      digit follows the sign. */
  function IntAt(json: string, start: nat): (r: Option<int>)
    requires start <= |json|
  {
    var digits := if start < |json| && IsSign(json[start]) then start + 1 else start;
    var end := DigitsEnd(json, digits);
    if end == digits then None
    else if json[start] == '-' then Some(0 - DigitsValue(json[digits..end]))
    else Some(DigitsValue(json[digits..end]))
  }

  /** What extract_int reads for `key`: the optionally signed decimal at the
      value's start, or nothing when the key, the ':' or every digit is missing. */
  function IntField(json: string, key: string): (r: Option<int>)
    ensures ValueStart(json, key).None? ==> r.None?
  {
    match ValueStart(json, key)
    case None => None
    case Some(start) => IntAt(json, start)
  }

  /** std::atoi on the scanned characters is the signed value of their digits. */
  lemma AtoiOfScan(json: string, start: nat, digits: nat, end: nat)
    requires start <= digits <= start + 1 && digits < end <= |json|
    requires digits == start + 1 ==> IsSign(json[start])
    requires AllDigits(json[digits..end])
    ensures SignedDigits(json[start..end])
    ensures Atoi(json[start..end]) == if json[start] == '-' then 0 - DigitsValue(json[digits..end]) else DigitsValue(json[digits..end])
  {
    var t := json[start..end];
    assert t[digits - start..] == json[digits..end];
    if digits == start {
      assert IsDigit(t[0]);
    }
  }

  /** The part extract_int and extract_bool share: find the quoted key and the
      ':' after it, then step over white space. */
  method FindValueStart(json: string, key: string) returns (r: Option<nat>)
    ensures r == ValueStart(json, key)
  {
    var pattern := Quoted(key);
    var keyPos := Find(json, pattern, 0);
    if keyPos.None? {
      return None;
    }
    var colon := FindChar(json, ':', keyPos.value + |pattern|);
    if colon.None? {
      return None;
    }
    var valueStart := colon.value + 1;
    while valueStart < |json| && IsCSpace(json[valueStart])
      invariant colon.value + 1 <= valueStart <= |json|
      invariant SkipSpace(json, colon.value + 1) == SkipSpace(json, valueStart)
      decreases |json| - valueStart
    {
      valueStart := valueStart + 1;
    }
    r := Some(valueStart);
  }

  /** The digit loop of extract_int and extract_color_slot. */
  method ScanDigits(json: string, from: nat) returns (end: nat)
    requires from <= |json|
    ensures end == DigitsEnd(json, from)
  {
    end := from;
    while end < |json| && IsDigit(json[end])
      invariant from <= end <= |json|
      invariant DigitsEnd(json, from) == DigitsEnd(json, end)
      decreases |json| - end
    {
      end := end + 1;
    }
  }

  /** extract_int */
  method ExtractInt(json: string, key: string) returns (r: Option<int>)
    ensures r == IntField(json, key)
  {
    var start := FindValueStart(json, key);
    if start.None? {
      return None;
    }
    var valueStart := start.value;
    var digits := valueStart;
    if digits < |json| && (json[digits] == '-' || json[digits] == '+') {
      digits := digits + 1;
    }
    var valueEnd := ScanDigits(json, digits);
    if valueEnd == valueStart || (valueEnd == valueStart + 1 && (json[valueStart] == '-' || json[valueStart] == '+')) {
      return None;
    }
    AtoiOfScan(json, valueStart, digits, valueEnd);
    r := Some(Atoi(json[valueStart..valueEnd]));
  }

  // ---------------------------------------------------------------------------
  // extract_bool

  /** std::string_view::substr(pos, count): at most `count` characters from pos. */
  function Substr(s: string, pos: nat, count: nat): (r: string)
    requires pos <= |s|
    ensures |r| <= count
  {
    s[pos..Min(|s|, pos + count)]
  }

  /** `true`, `false`, or a single 0 or 1 at `start`. */
  function BoolAt(json: string, start: nat): (r: Option<bool>)
    requires start <= |json|
  {
    if Substr(json, start, 4) == "true" then Some(true)
    else if Substr(json, start, 5) == "false" then Some(false)
    else if start < |json| && (json[start] == '0' || json[start] == '1') then Some(json[start] == '1')
    else None
  }

  /** What extract_bool reads for `key`. */
  function BoolField(json: string, key: string): (r: Option<bool>)
    ensures ValueStart(json, key).None? ==> r.None?
  {
    match ValueStart(json, key)
    case None => None
    case Some(start) => BoolAt(json, start)
  }

  /** extract_bool */
  method ExtractBool(json: string, key: string) returns (r: Option<bool>)
    ensures r == BoolField(json, key)
  {
    var start := FindValueStart(json, key);
    if start.None? {
      return None;
    }
    var valueStart := start.value;
    if Substr(json, valueStart, 4) == "true" {
      return Some(true);
    }
    if Substr(json, valueStart, 5) == "false" {
      return Some(false);
    }
    if valueStart < |json| && (json[valueStart] == '0' || json[valueStart] == '1') {
      return Some(json[valueStart] == '1');
    }
    return None;
  }

  predicate StartsWith(s: string, p: string) { |p| <= |s| && s[..|p|] == p }

  /** extract_bool succeeds exactly on a value that begins with `true`, `false`,
      `0` or `1`, and reads true exactly for `true` and `1`. */
  lemma BoolFieldAccepts(json: string, key: string)
    requires ValueStart(json, key).Some?
    ensures var rest := json[ValueStart(json, key).value..];
      && (BoolField(json, key) == Some(true) <==> StartsWith(rest, "true") || (rest != [] && rest[0] == '1'))
      && (BoolField(json, key) == Some(false) <==> StartsWith(rest, "false") || (rest != [] && rest[0] == '0'))
  {
    var start := ValueStart(json, key).value;
    SubstrIsPrefix(json, start, "true");
    SubstrIsPrefix(json, start, "false");
    BoolAtAccepts(json, start);
  }

  /** The text at `pos` of p's length is p exactly when what follows `pos` starts with p. */
  lemma SubstrIsPrefix(s: string, pos: nat, p: string)
    requires pos <= |s|
    ensures Substr(s, pos, |p|) == p <==> StartsWith(s[pos..], p)
  {
    var rest := s[pos..];
    if StartsWith(rest, p) {
      assert Substr(s, pos, |p|) == rest[..|p|];
    }
    if Substr(s, pos, |p|) == p {
      assert |p| <= |rest|;
      assert rest[..|p|] == Substr(s, pos, |p|);
    }
  }

  lemma BoolAtAccepts(json: string, start: nat)
    requires start <= |json|
    requires Substr(json, start, 4) == "true" <==> StartsWith(json[start..], "true")
    requires Substr(json, start, 5) == "false" <==> StartsWith(json[start..], "false")
    ensures var rest := json[start..];
      && (BoolAt(json, start) == Some(true) <==> StartsWith(rest, "true") || (rest != [] && rest[0] == '1'))
      && (BoolAt(json, start) == Some(false) <==> StartsWith(rest, "false") || (rest != [] && rest[0] == '0'))
  {
    var rest := json[start..];
    assert rest != [] ==> rest[0] == json[start];
    assert StartsWith(rest, "true") ==> rest[0] == 't';
    assert StartsWith(rest, "false") ==> rest[0] == 'f';
  }

  // ---------------------------------------------------------------------------
  // extract_color_slot

  predicate IsSeparator(c: char) { IsCSpace(c) || c == ',' }

  /** One channel: separators skipped, then a run of digits; its value and the
      index after it, or nothing when no digit follows. */
  function ReadChannel(json: string, cursor: nat): (r: Option<(nat, nat)>)
    requires cursor <= |json|
    ensures r.Some? ==> cursor < r.value.1 <= |json|
    decreases |json| - cursor
  {
    if cursor < |json| && IsSeparator(json[cursor]) then ReadChannel(json, cursor + 1)
    else
      var end := DigitsEnd(json, cursor);
      if end == cursor then None else Some((DigitsValue(json[cursor..end]), end))
  }

  /** `count` channels read one after the other from cursor: their values and
      the index after the last. */
  function ReadChannels(json: string, cursor: nat, count: nat): (r: Option<(seq<nat>, nat)>)
    requires cursor <= |json|
    ensures r.Some? ==> |r.value.0| == count && cursor <= r.value.1 <= |json|
    decreases count
  {
    if count == 0 then Some(([], cursor))
    else
      match ReadChannel(json, cursor)
      case None => None
      case Some((v, end)) => Prepend([v], ReadChannels(json, end, count - 1))
  }

  /** Channels read before a further reading. */
  function Prepend(values: seq<nat>, rest: Option<(seq<nat>, nat)>): Option<(seq<nat>, nat)>
  {
    match rest
    case None => None
    case Some((more, end)) => Some((values + more, end))
  }

  /** Three channels read one after the other from cursor. */
  function ThreeChannels(json: string, cursor: nat): (r: Option<(seq<nat>, nat)>)
    requires cursor <= |json|
    ensures r.Some? ==> |r.value.0| == 3 && cursor < r.value.1 <= |json|
  {
    match ReadChannel(json, cursor)
    case None => None
    case Some((red, e1)) =>
      match ReadChannel(json, e1)
      case None => None
      case Some((green, e2)) =>
        match ReadChannel(json, e2)
        case None => None
        case Some((blue, e3)) => Some(([red, green, blue], e3))
  }

  /** One bracketed colour from cursor: the next '[', three channels, then the
      next ']'; the channels and the index after the ']'. */
  function ReadTriple(json: string, cursor: nat): (r: Option<(seq<nat>, nat)>)
    requires cursor <= |json|
    ensures r.Some? ==> |r.value.0| == 3 && cursor < r.value.1 <= |json|
  {
    match FindChar(json, '[', cursor)
    case None => None
    case Some(open) =>
      match ThreeChannels(json, open + 1)
      case None => None
      case Some((values, next)) =>
        match FindChar(json, ']', next)
        case None => None
        case Some(close) => Some((values, close + 1))
  }

  function ClampedColor(values: seq<nat>): Rgb
    requires |values| == 3
  {
    Rgb(ClampU8(values[0]), ClampU8(values[1]), ClampU8(values[2]))
  }

  /** The colour of the k-th triple from cursor on. */
  function NthTriple(json: string, cursor: nat, k: nat): (r: Option<Rgb>)
    requires cursor <= |json|
    decreases k
  {
    match ReadTriple(json, cursor)
    case None => None
    case Some((values, next)) => if k == 0 then Some(ClampedColor(values)) else NthTriple(json, next, k - 1)
  }

  /** What extract_color_slot reads: the slot-th bracketed triple after the
      first '[' that follows `"col"`, its channels clamped. */
  function ColorSlot(json: string, slot: int): (r: Option<Rgb>)
    ensures slot < 0 ==> r.None?
    ensures Find(json, "\"col\"", 0).None? ==> r.None?
  {
    if slot < 0 then None
    else
      match Find(json, "\"col\"", 0)
      case None => None
      case Some(col) =>
        match FindChar(json, '[', col)
        case None => None
        case Some(outer) => NthTriple(json, outer + 1, slot)
  }

  /** The inner loops of extract_color_slot for one channel. */
  method ReadChannelAt(json: string, cursor: nat) returns (r: Option<(nat, nat)>)
    requires cursor <= |json|
    ensures r == ReadChannel(json, cursor)
  {
    var start := cursor;
    while start < |json| && (IsCSpace(json[start]) || json[start] == ',')
      invariant cursor <= start <= |json|
      invariant ReadChannel(json, cursor) == ReadChannel(json, start)
      decreases |json| - start
    {
      start := start + 1;
    }
    var end := ScanDigits(json, start);
    if end == start {
      return None;
    }
    r := Some((DigitsValue(json[start..end]), end));
  }

  /** Reading one channel, then the rest. */
  lemma ReadChannelsStep(json: string, cursor: nat, count: nat, values: seq<nat>, v: nat, end: nat)
    requires cursor <= |json| && 0 < count && ReadChannel(json, cursor) == Some((v, end))
    ensures Prepend(values, ReadChannels(json, cursor, count)) == Prepend(values + [v], ReadChannels(json, end, count - 1))
  {
    match ReadChannels(json, end, count - 1)
    case None =>
    case Some((more, e)) => assert values + ([v] + more) == values + [v] + more;
  }

  /** Nothing read before leaves a reading as it is. */
  lemma PrependNothing(rest: Option<(seq<nat>, nat)>)
    ensures Prepend([], rest) == rest
  {
    match rest
    case None =>
    case Some((more, end)) => assert [] + more == more;
  }

  /** Reading channels three times over is ThreeChannels. */
  lemma ReadChannelsThree(json: string, cursor: nat)
    requires cursor <= |json|
    ensures ReadChannels(json, cursor, 3) == ThreeChannels(json, cursor)
  {
    match ReadChannel(json, cursor)
    case None =>
    case Some((red, e1)) =>
      match ReadChannel(json, e1)
      case None =>
      case Some((green, e2)) =>
        match ReadChannel(json, e2)
        case None =>
        case Some((blue, e3)) =>
          assert [blue] + [] == [blue];
          assert [green] + [blue] == [green, blue];
          assert [red] + [green, blue] == [red, green, blue];
  }

  /** The channel loop of extract_color_slot: three channels read one after
      the other. */
  method ThreeChannelsFrom(json: string, start: nat) returns (r: Option<(seq<nat>, nat)>)
    requires start <= |json|
    ensures r == ThreeChannels(json, start)
  {
    ReadChannelsThree(json, start);
    PrependNothing(ReadChannels(json, start, 3));
    var at: nat := start;
    var values: seq<nat> := [];
    for channel := 0 to 3
      invariant at <= |json| && |values| == channel
      invariant ReadChannels(json, start, 3) == Prepend(values, ReadChannels(json, at, 3 - channel))
    {
      var read := ReadChannelAt(json, at);
      if read.None? {
        assert ReadChannels(json, at, 3 - channel).None?;
        return None;
      }
      ReadChannelsStep(json, at, 3 - channel, values, read.value.0, read.value.1);
      values, at := values + [read.value.0], read.value.1;
    }
    assert values + [] == values;
    r := Some((values, at));
  }

  /** One pass of the slot loop of extract_color_slot: a '[', three channels, a ']'. */
  method ReadTripleAt(json: string, cursor: nat) returns (r: Option<(seq<nat>, nat)>)
    requires cursor <= |json|
    ensures r == ReadTriple(json, cursor)
  {
    var open := FindChar(json, '[', cursor);
    if open.None? {
      return None;
    }
    var channels := ThreeChannelsFrom(json, open.value + 1);
    if channels.None? {
      return None;
    }
    var close := FindChar(json, ']', channels.value.1);
    if close.None? {
      return None;
    }
    r := Some((channels.value.0, close.value + 1));
  }

  /** The slot loop of extract_color_slot: triples read one after the other
      until the slot-th. */
  method NthTripleAt(json: string, cursor: nat, slot: nat) returns (r: Option<Rgb>)
    requires cursor <= |json|
    ensures r == NthTriple(json, cursor, slot)
  {
    var at: nat := cursor;
    var currentSlot := 0;
    while currentSlot <= slot
      invariant currentSlot <= slot && at <= |json| && NthTriple(json, at, slot - currentSlot) == NthTriple(json, cursor, slot)
      decreases slot - currentSlot
    {
      var triple := ReadTripleAt(json, at);
      if triple.None? {
        return None;
      }
      at := triple.value.1;
      if currentSlot == slot {
        return Some(ClampedColor(triple.value.0));
      }
      currentSlot := currentSlot + 1;
    }
    assert false;
  }

  /** extract_color_slot */
  method ExtractColorSlot(json: string, slot: int) returns (r: Option<Rgb>)
    ensures r == ColorSlot(json, slot)
  {
    if slot < 0 {
      return None;
    }
    var colPos := Find(json, "\"col\"", 0);
    if colPos.None? {
      return None;
    }
    var outerOpen := FindChar(json, '[', colPos.value);
    if outerOpen.None? {
      return None;
    }
    r := NthTripleAt(json, outerOpen.value + 1, slot);
  }

  // ---------------------------------------------------------------------------
  // Reading back what WLED's JSON API writes

  /** An integer as it is written in JSON. */
  function IntToDecimal(n: int): (r: string)
  {
    if n < 0 then "-" + NatToDecimal(-n) else NatToDecimal(n)
  }

  /** A colour as it is written in a `col` array: `[r,g,b]`. */
  function EncodeColor(c: Rgb): string
  {
    "[" + NatToDecimal(c.r) + "," + NatToDecimal(c.g) + "," + NatToDecimal(c.b) + "]"
  }

  /** `text` spells n: a '-' and the digits of -n, or the digits of n. */
  predicate SpellsInt(text: string, n: int)
  {
    if n < 0 then |text| >= 2 && text[0] == '-' && AllDigits(text[1..]) && DigitsValue(text[1..]) == -n
    else text != [] && AllDigits(text) && DigitsValue(text) == n
  }

  /** The digits of n, as String(n) writes them, have the value n. */
  lemma DecimalDigits(n: nat, d: string)
    requires d == NatToDecimal(n)
    ensures SpellsInt(d, n)
  {
    DigitsRoundTrip(n);
  }

  /** IntToDecimal spells its argument. */
  lemma IntToDecimalSpells(n: int, text: string)
    requires text == IntToDecimal(n)
    ensures SpellsInt(text, n)
  {
    if n < 0 {
      assert text[1..] == NatToDecimal(-n);
      DecimalDigits(-n, text[1..]);
    } else {
      DecimalDigits(n, text);
    }
  }

  /** `a + b` at i is `a` at i followed by `b`. */
  lemma {:induction false} MatchSplit(s: string, a: string, b: string, i: nat)
    requires MatchAt(s, a + b, i)
    ensures MatchAt(s, a, i) && MatchAt(s, b, i + |a|)
    decreases |a|
  {
    if a == [] {
      assert a + b == b;
    } else {
      assert (a + b)[1..] == a[1..] + b;
      MatchSplit(s, a[1..], b, i + 1);
    }
  }

  /** A run of digits placed at i and followed by a non-digit ends there. */
  lemma {:induction false} DigitsEndOver(s: string, i: nat, d: string)
    requires MatchAt(s, d, i) && AllDigits(d)
    requires i + |d| == |s| || !IsDigit(s[i + |d|])
    ensures DigitsEnd(s, i) == i + |d|
    decreases |d|
  {
    if d != [] {
      assert IsDigit(d[0]);
      DigitsEndOver(s, i + 1, d[1..]);
    }
  }

  /** find(c, k) is k itself when c is at k. */
  lemma FindCharHere(s: string, c: char, k: nat)
    requires k < |s| && s[k] == c
    ensures FindChar(s, c, k) == Some(k)
  {
  }

  /** find(c, from) steps over a character other than c. */
  lemma FindCharPast(s: string, c: char, from: nat)
    requires from < |s| && s[from] != c
    ensures FindChar(s, c, from) == FindChar(s, c, from + 1)
  {
  }

  /** SkipSpace stops at once on a character that is not white space. */
  lemma SkipSpaceHere(s: string, i: nat)
    requires i <= |s| && (i == |s| || !IsCSpace(s[i]))
    ensures SkipSpace(s, i) == i
  {
  }

  /** ValueStart from the positions of the key and of the ':'. */
  lemma ValueStartAt(json: string, key: string, k: nat, colon: nat)
    requires Find(json, Quoted(key), 0) == Some(k)
    requires FindChar(json, ':', k + |Quoted(key)|) == Some(colon)
    ensures ValueStart(json, key) == Some(SkipSpace(json, colon + 1))
  {
  }

  /** The value of `key` starts right after the ':' that follows its first
      quoted occurrence, when no white space comes between. */
  lemma ValueAfterKey(json: string, key: string, k: nat)
    requires Find(json, Quoted(key), 0) == Some(k)
    requires k + |Quoted(key)| < |json| && json[k + |Quoted(key)|] == ':'
    requires k + |Quoted(key)| + 1 == |json| || !IsCSpace(json[k + |Quoted(key)| + 1])
    ensures ValueStart(json, key) == Some(k + |Quoted(key)| + 1)
  {
    var colon := k + |Quoted(key)|;
    FindCharHere(json, ':', colon);
    SkipSpaceHere(json, colon + 1);
    ValueStartAt(json, key, k, colon);
  }

  /** The first character of text that occurs at i. */
  lemma MatchFirst(s: string, text: string, i: nat)
    requires MatchAt(s, text, i) && text != []
    ensures i < |s| && s[i] == text[0]
  {
  }

  /** A spelled integer starts with a sign or a digit. */
  lemma SpelledStart(text: string, n: int)
    requires SpellsInt(text, n)
    ensures text != [] && (text[0] == '-' || IsDigit(text[0]))
  {
  }

  /** The spelling of n at `start`, followed by a non-digit, reads as n. */
  lemma IntAtSpelled(json: string, start: nat, n: int, text: string)
    requires SpellsInt(text, n) && MatchAt(json, text, start)
    requires start + |text| == |json| || !IsDigit(json[start + |text|])
    ensures IntAt(json, start) == Some(n)
  {
    if n < 0 {
      assert json[start] == '-' && MatchAt(json, text[1..], start + 1);
      DigitsEndOver(json, start + 1, text[1..]);
      MatchSlice(json, text[1..], start + 1);
    } else {
      assert json[start] == text[0];
      DigitsEndOver(json, start, text);
      MatchSlice(json, text, start);
    }
  }

  /** The text of n at `start`, followed by a non-digit, reads as n. */
  lemma IntAtDecimal(json: string, start: nat, n: int)
    requires MatchAt(json, IntToDecimal(n), start)
    requires start + |IntToDecimal(n)| == |json| || !IsDigit(json[start + |IntToDecimal(n)|])
    ensures json[start] == '-' || IsDigit(json[start])
    ensures IntAt(json, start) == Some(n)
  {
    var text := IntToDecimal(n);
    IntToDecimalSpells(n, text);
    SpelledStart(text, n);
    MatchFirst(json, text, start);
    IntAtSpelled(json, start, n, text);
  }

  /** extract_int reads back an integer written right after the ':' that
      follows the first occurrence of its quoted key. */
  lemma IntFieldRoundTrip(json: string, key: string, k: nat, n: int)
    requires Find(json, Quoted(key), 0) == Some(k)
    requires k + |Quoted(key)| < |json| && json[k + |Quoted(key)|] == ':'
    requires -0x8000_0000 <= n < 0x8000_0000  // std::atoi into an int
    requires MatchAt(json, IntToDecimal(n), k + |Quoted(key)| + 1)
    requires var end := k + |Quoted(key)| + 1 + |IntToDecimal(n)|; end == |json| || !IsDigit(json[end])
    ensures IntField(json, key) == Some(n)
  {
    var start := k + |Quoted(key)| + 1;
    IntAtDecimal(json, start, n);
    assert start == |json| || !IsCSpace(json[start]);
    ValueAfterKey(json, key, k);
    assert ValueStart(json, key) == Some(start);
  }

  /** `true` or `false` at `start` reads as that value. */
  lemma BoolAtWord(json: string, start: nat, b: bool)
    requires MatchAt(json, if b then "true" else "false", start)
    ensures BoolAt(json, start) == Some(b)
  {
    var word := if b then "true" else "false";
    MatchSlice(json, word, start);
    if !b {
      MatchIndex(json, word, start, 0);
      assert Substr(json, start, 4)[0] == 'f';
    }
  }

  /** extract_bool reads back `true` or `false` written right after the ':'
      that follows the first occurrence of its quoted key. */
  lemma BoolFieldRoundTrip(json: string, key: string, k: nat, b: bool)
    requires Find(json, Quoted(key), 0) == Some(k)
    requires k + |Quoted(key)| < |json| && json[k + |Quoted(key)|] == ':'
    requires MatchAt(json, if b then "true" else "false", k + |Quoted(key)| + 1)
    ensures BoolField(json, key) == Some(b)
  {
    var start := k + |Quoted(key)| + 1;
    assert json[start] == (if b then "true" else "false")[0];
    ValueAfterKey(json, key, k);
    BoolAtWord(json, start, b);
  }

  /** The digits of a channel at i, followed by a non-digit, are read as one channel. */
  lemma ChannelAt(s: string, i: nat, d: string, v: nat)
    requires SpellsInt(d, v) && MatchAt(s, d, i) && i + |d| < |s| && !IsDigit(s[i + |d|])
    ensures ReadChannel(s, i) == Some((v, i + |d|))
  {
    assert s[i] == d[0];
    DigitsEndOver(s, i, d);
    MatchSlice(s, d, i);
  }

  /** A separator before a channel is stepped over. */
  lemma ChannelPastSeparator(s: string, i: nat)
    requires i < |s| && IsSeparator(s[i])
    ensures ReadChannel(s, i) == ReadChannel(s, i + 1)
  {
  }

  /** A '[' at i, three channels and a ']' right after the last: the channels
      are read, and reading goes on after the ']'. */
  lemma TripleFromChannels(s: string, i: nat, red: nat, green: nat, blue: nat, e1: nat, e2: nat, e3: nat, end: nat)
    requires i < |s| && s[i] == '['
    requires ReadChannel(s, i + 1) == Some((red, e1)) && ReadChannel(s, e1) == Some((green, e2))
    requires ReadChannel(s, e2) == Some((blue, e3)) && e3 < |s| && s[e3] == ']' && end == e3 + 1
    ensures ReadTriple(s, i) == Some(([red, green, blue], end))
  {
    FindCharHere(s, '[', i);
    ThreeChannelsAt(s, i + 1, red, green, blue, e1, e2, e3);
    FindCharHere(s, ']', e3);
    ReadTripleParts(s, i, i, [red, green, blue], e3, e3);
  }

  /** ReadTriple from the positions of its '[' and ']'. */
  lemma ReadTripleParts(s: string, i: nat, open: nat, values: seq<nat>, next: nat, close: nat)
    requires i <= |s| && FindChar(s, '[', i) == Some(open) && ThreeChannels(s, open + 1) == Some((values, next))
    requires FindChar(s, ']', next) == Some(close)
    ensures ReadTriple(s, i) == Some((values, close + 1))
  {
  }

  /** Three channels read one after the other. */
  lemma ThreeChannelsAt(s: string, x: nat, red: nat, green: nat, blue: nat, e1: nat, e2: nat, e3: nat)
    requires x <= |s| && ReadChannel(s, x) == Some((red, e1)) && e1 <= |s| && ReadChannel(s, e1) == Some((green, e2))
    requires e2 <= |s| && ReadChannel(s, e2) == Some((blue, e3))
    ensures ThreeChannels(s, x) == Some(([red, green, blue], e3))
  {
  }

  /** The digits of v written at i and ending at e, where `sep` follows: the
      channel v is read, and when `sep` is a comma the next channel is read
      after it. */
  lemma ChannelThen(s: string, i: nat, v: nat, e: nat, sep: char)
    requires MatchAt(s, NatToDecimal(v), i) && e == i + |NatToDecimal(v)| && e < |s| && s[e] == sep
    requires sep == ',' || sep == ']'
    ensures ReadChannel(s, i) == Some((v, e))
    ensures sep == ',' ==> ReadChannel(s, e) == ReadChannel(s, e + 1)
  {
    var d := NatToDecimal(v);
    DecimalDigits(v, d);
    ChannelAt(s, i, d, v);
    if sep == ',' {
      ChannelPastSeparator(s, e);
    }
  }

  /** Where the parts of `[r,g,b]` lie when it is written at i. */
  lemma ColorLayout(s: string, i: nat, dr: string, dg: string, db: string)
    requires MatchAt(s, "[" + dr + "," + dg + "," + db + "]", i)
    ensures i + |dr| + |dg| + |db| + 4 <= |s| && s[i] == '['
    ensures MatchAt(s, dr, i + 1) && s[i + 1 + |dr|] == ','
    ensures MatchAt(s, dg, i + 2 + |dr|) && s[i + 2 + |dr| + |dg|] == ','
    ensures MatchAt(s, db, i + 3 + |dr| + |dg|) && s[i + 3 + |dr| + |dg| + |db|] == ']'
  {
    MatchSplit(s, "[" + dr + "," + dg + "," + db, "]", i);
    MatchSplit(s, "[" + dr + "," + dg + ",", db, i);
    MatchSplit(s, "[" + dr + "," + dg, ",", i);
    MatchSplit(s, "[" + dr + ",", dg, i);
    MatchSplit(s, "[" + dr, ",", i);
    MatchSplit(s, "[", dr, i);
  }

  /** The digits of three channels at their places in `[r,g,b]` at i: the
      triple is read, and reading goes on at `end`, after the ']'. */
  lemma TripleAt(s: string, i: nat, c: Rgb, end: nat)
    requires end == i + 4 + |NatToDecimal(c.r)| + |NatToDecimal(c.g)| + |NatToDecimal(c.b)| && end <= |s|
    requires s[i] == '[' && s[end - 1] == ']'
    requires MatchAt(s, NatToDecimal(c.r), i + 1) && s[i + 1 + |NatToDecimal(c.r)|] == ','
    requires MatchAt(s, NatToDecimal(c.g), i + 2 + |NatToDecimal(c.r)|)
    requires s[i + 2 + |NatToDecimal(c.r)| + |NatToDecimal(c.g)|] == ','
    requires MatchAt(s, NatToDecimal(c.b), i + 3 + |NatToDecimal(c.r)| + |NatToDecimal(c.g)|)
    ensures ReadTriple(s, i) == Some(([c.r, c.g, c.b], end))
  {
    var e1 := i + 1 + |NatToDecimal(c.r)|;
    var e2 := e1 + 1 + |NatToDecimal(c.g)|;
    var e3 := end - 1;
    ChannelThen(s, i + 1, c.r, e1, ',');
    ChannelThen(s, e1 + 1, c.g, e2, ',');
    ChannelThen(s, e2 + 1, c.b, e3, ']');
    TripleFromChannels(s, i, c.r, c.g, c.b, e1, e2, e3, end);
  }

  /** A colour written by EncodeColor at i is read back from i. */
  lemma EncodedTriple(s: string, i: nat, c: Rgb)
    requires MatchAt(s, EncodeColor(c), i)
    ensures ReadTriple(s, i) == Some(([c.r, c.g, c.b], i + |EncodeColor(c)|))
  {
    ColorLayout(s, i, NatToDecimal(c.r), NatToDecimal(c.g), NatToDecimal(c.b));
    TripleAt(s, i, c, i + |EncodeColor(c)|);
  }

  /** ReadTriple steps over a character that is not '['. */
  lemma TriplePast(s: string, i: nat)
    requires i < |s| && s[i] != '['
    ensures ReadTriple(s, i) == ReadTriple(s, i + 1)
  {
    FindCharPast(s, '[', i);
  }

  /** The positions of the parts of `:[a,b` written at x. */
  lemma ColorsLayout(json: string, x: nat, ea: string, eb: string)
    requires MatchAt(json, ":[" + ea + "," + eb, x)
    ensures x + 3 + |ea| + |eb| <= |json| && json[x] == ':' && json[x + 1] == '['
    ensures MatchAt(json, ea, x + 2) && json[x + 2 + |ea|] == ','
    ensures MatchAt(json, eb, x + 3 + |ea|)
  {
    MatchSplit(json, ":[" + ea + ",", eb, x);
    MatchSplit(json, ":[" + ea, ",", x);
    MatchSplit(json, ":[", ea, x);
    MatchIndex(json, ":[", x, 0);
    MatchIndex(json, ":[", x, 1);
    MatchIndex(json, ",", x + 2 + |ea|, 0);
  }

  /** The '[' of the `col` array is the first after `"col"`. */
  lemma OuterBracket(json: string, k: nat)
    requires MatchAt(json, "\"col\"", k) && k + 6 < |json| && json[k + 5] == ':' && json[k + 6] == '['
    ensures FindChar(json, '[', k) == Some(k + 6)
  {
    var col := "\"col\"";
    MatchIndex(json, col, k, 0);
    MatchIndex(json, col, k, 1);
    MatchIndex(json, col, k, 2);
    MatchIndex(json, col, k, 3);
    MatchIndex(json, col, k, 4);
    FindCharPast(json, '[', k);
    FindCharPast(json, '[', k + 1);
    FindCharPast(json, '[', k + 2);
    FindCharPast(json, '[', k + 3);
    FindCharPast(json, '[', k + 4);
    FindCharPast(json, '[', k + 5);
    FindCharHere(json, '[', k + 6);
  }

  /** The slot after a triple read at x is the triple after it. */
  lemma NthTripleStep(json: string, x: nat, values: seq<nat>, next: nat, k: nat)
    requires x <= |json| && ReadTriple(json, x) == Some((values, next))
    ensures NthTriple(json, x, 0) == Some(ClampedColor(values))
    ensures NthTriple(json, x, k + 1) == NthTriple(json, next, k)
  {
  }

  /** A byte read back as a channel is clamped to itself. */
  lemma ClampedBytes(c: Rgb)
    ensures ClampedColor([c.r, c.g, c.b]) == c
  {
  }

  /** Two colours written by EncodeColor from x on, with a comma between
      them, are the triples 0 and 1 from x. */
  lemma EncodedTriples(json: string, x: nat, a: Rgb, b: Rgb)
    requires MatchAt(json, EncodeColor(a), x) && x + |EncodeColor(a)| < |json| && json[x + |EncodeColor(a)|] == ','
    requires MatchAt(json, EncodeColor(b), x + |EncodeColor(a)| + 1)
    ensures NthTriple(json, x, 0) == Some(a) && NthTriple(json, x, 1) == Some(b)
  {
    var comma := x + |EncodeColor(a)|;
    EncodedTriple(json, x, a);
    EncodedTriple(json, comma + 1, b);
    TriplesAround(json, x, a, b, comma, comma + 1 + |EncodeColor(b)|);
  }

  /** Triple a ending at a comma and triple b right after it are the triples
      0 and 1 from x. */
  lemma TriplesAround(json: string, x: nat, a: Rgb, b: Rgb, comma: nat, next: nat)
    requires x <= comma < |json| && json[comma] != '['
    requires ReadTriple(json, x) == Some(([a.r, a.g, a.b], comma))
    requires ReadTriple(json, comma + 1) == Some(([b.r, b.g, b.b], next))
    ensures NthTriple(json, x, 0) == Some(a) && NthTriple(json, x, 1) == Some(b)
  {
    TriplePast(json, comma);
    ClampedBytes(a);
    ClampedBytes(b);
    NthTripleStep(json, x, [a.r, a.g, a.b], comma, 0);
    NthTripleStep(json, comma, [b.r, b.g, b.b], next, 0);
  }

  /** ColorSlot from the position of `"col"` and of the '[' after it. */
  lemma ColorSlotAt(json: string, slot: nat, k: nat, outer: nat)
    requires Find(json, "\"col\"", 0) == Some(k) && FindChar(json, '[', k) == Some(outer)
    ensures ColorSlot(json, slot) == NthTriple(json, outer + 1, slot)
  {
  }

  /** extract_color_slot reads back the first two colours of a `col` array
      written right after the first occurrence of `"col"` and a ':' (slots 0
      and 1, the primary and secondary colours). */
  lemma ColorSlotsRoundTrip(json: string, k: nat, a: Rgb, b: Rgb)
    requires Find(json, "\"col\"", 0) == Some(k)
    requires MatchAt(json, ":[" + EncodeColor(a) + "," + EncodeColor(b), k + 5)
    ensures ColorSlot(json, 0) == Some(a) && ColorSlot(json, 1) == Some(b)
  {
    FindIsFirst(json, "\"col\"", 0);
    ColorsLayout(json, k + 5, EncodeColor(a), EncodeColor(b));
    OuterBracket(json, k);
    EncodedTriples(json, k + 7, a, b);
    ColorSlotAt(json, 0, k, k + 6);
    ColorSlotAt(json, 1, k, k + 6);
  }
}
