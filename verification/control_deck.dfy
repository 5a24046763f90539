/**
 * The colour conversions of the control deck: a colour channel to two
 * lower-case hexadecimal digits, an RGB triple to `#rrggbb` (the "valid simple
 * colour" form of section 2.3.6 of the HTML Living Standard), and back through
 * JavaScript's parseInt with radix 16.
 */
module ControlDeck {
  import opened Wrappers
  import opened JsValues

  /** The hexadecimal digit of d, in lower case. */
  function HexDigit(d: nat): (r: char)
    requires d < 16
    ensures IsHexDigit(r) && HexValue(r) == d
  {
    if d < 10 then ('0' as int + d) as char else ('a' as int + d - 10) as char
  }

  predicate IsHexDigit(c: char)
  {
    '0' <= c <= '9' || 'a' <= c <= 'f' || 'A' <= c <= 'F'
  }

  function HexValue(c: char): (r: nat)
    requires IsHexDigit(c)
    ensures r < 16
  {
    if '0' <= c <= '9' then c as int - '0' as int
    else if 'a' <= c <= 'f' then c as int - 'a' as int + 10
    else c as int - 'A' as int + 10
  }

  /** n.toString(16) for a non-negative integer: no leading zeros. */
  function ToHexString(n: nat): (r: string)
    ensures |r| >= 1 && forall i :: 0 <= i < |r| ==> IsHexDigit(r[i])
  {
    if n < 16 then [HexDigit(n)] else ToHexString(n / 16) + [HexDigit(n % 16)]
  }

  /** s.padStart(2, "0") */
  function PadStart2(s: string): (r: string)
    ensures |s| < 2 ==> |r| == 2
  {
    if |s| == 0 then "00" else if |s| == 1 then "0" + s else s
  }

  /** The byte a finite channel value becomes: rounded, then clamped into [0, 255]. */
  function ChannelByte(x: real): (r: Byte)
    ensures x <= 0.0 ==> r == 0
    ensures x >= 255.0 ==> r == 255
    ensures 0.0 <= x <= 255.0 ==> r == Round(x)
  {
    Max(0, Min(255, Round(x)))
  }

  /** toHexChannel: the rounded, clamped channel in hexadecimal, padded to two digits. */
  function ToHexChannel(x: real): (r: string)
    ensures |r| == 2 && IsHexDigit(r[0]) && IsHexDigit(r[1])
    ensures HexValue(r[0]) * 16 + HexValue(r[1]) == ChannelByte(x)
  {
    var b := ChannelByte(x);
    ByteHex(b);
    PadStart2(ToHexString(b))
  }

  /** A byte in hexadecimal takes one or two digits; padded to two, they are
      its high and low nibble. */
  lemma ByteHex(b: Byte)
    ensures PadStart2(ToHexString(b)) == [HexDigit(b / 16), HexDigit(b % 16)]
  {
    if b >= 16 {
      assert ToHexString(b / 16) == [HexDigit(b / 16)];
    }
  }

  /** rgbToHex: `#` and six hexadecimal digits for an array of at least three
      channels; "#000000" for a missing or shorter array. */
  function RgbToHex(color: Option<seq<real>>): (r: string)
    ensures |r| == 7 && r[0] == '#'
    ensures forall i :: 1 <= i < 7 ==> IsHexDigit(r[i])
    ensures color.None? || |color.value| < 3 ==> r == "#000000"
  {
    if color.None? || |color.value| < 3 then "#000000"
    else "#" + ToHexChannel(color.value[0]) + ToHexChannel(color.value[1]) + ToHexChannel(color.value[2])
  }

  /** s.replace("#", ""): only the first '#' goes. */
  function RemoveFirstHash(s: string): (r: string)
    ensures |r| == |s| || |r| == |s| - 1
    ensures s != [] && s[0] == '#' ==> r == s[1..]
  {
    if s == [] then s
    else if s[0] == '#' then s[1..]
    else [s[0]] + RemoveFirstHash(s[1..])
  }

  /** The length of the longest prefix of s made of hexadecimal digits. */
  function HexPrefix(s: string): (r: nat)
    ensures r <= |s|
    ensures forall i :: 0 <= i < r ==> IsHexDigit(s[i])
    ensures r == |s| || !IsHexDigit(s[r])
  {
    if s != [] && IsHexDigit(s[0]) then 1 + HexPrefix(s[1..]) else 0
  }

  /** The value of a string of hexadecimal digits. */
  function HexDigitsValue(s: string): (r: nat)
    requires forall i :: 0 <= i < |s| ==> IsHexDigit(s[i])
  {
    if s == [] then 0 else HexDigitsValue(s[..|s| - 1]) * 16 + HexValue(s[|s| - 1])
  }

  /** What parseInt reads its digits from: s without leading white space,
      one sign and then a "0x" or "0X" prefix. */
  function HexBody(s: string): string
  {
    var t := TrimStart(s);
    var u := if t != [] && (t[0] == '-' || t[0] == '+') then t[1..] else t;
    if |u| >= 2 && u[0] == '0' && (u[1] == 'x' || u[1] == 'X') then u[2..] else u
  }

  /** parseInt's sign: a '-' after the leading white space. */
  predicate Negative(s: string)
  {
    var t := TrimStart(s);
    t != [] && t[0] == '-'
  }

  /** Number.parseInt(s, 16); None stands for NaN: the longest run of
      hexadecimal digits of HexBody(s), negated after a '-'; no digit at all
      gives NaN. */
  function ParseIntHex(s: string): (r: Option<int>)
  {
    var v := HexBody(s);
    var k := HexPrefix(v);
    var value: int := HexDigitsValue(v[..k]);
    if k == 0 then None
    else if Negative(s) then Some(-value)
    else Some(value)
  }

  /** `Number.isFinite(x) ? x : 0` on a parseInt result. */
  function OrZero(x: Option<int>): int
  {
    match x
    case Some(v) => v
    case None => 0
  }

  /** hexToRgb: after removing the first '#', six characters read as three
      pairs of hexadecimal digits; any other length gives black. */
  function HexToRgb(hex: string): (r: (int, int, int))
    ensures |RemoveFirstHash(hex)| != 6 ==> r == (0, 0, 0)
  {
    var s := RemoveFirstHash(hex);
    if |s| != 6 then (0, 0, 0)
    else (OrZero(ParseIntHex(s[0..2])), OrZero(ParseIntHex(s[2..4])), OrZero(ParseIntHex(s[4..6])))
  }

  /** parseInt reads two hexadecimal digits as their value. */
  lemma ParseTwoDigits(s: string)
    requires |s| == 2 && IsHexDigit(s[0]) && IsHexDigit(s[1])
    ensures ParseIntHex(s) == Some(HexValue(s[0]) * 16 + HexValue(s[1]))
  {
    assert TrimStart(s) == s;
    assert HexBody(s) == s && !Negative(s);
    assert HexPrefix(s) == 2 by {
      assert HexPrefix(s[1..]) == 1 + HexPrefix(s[1..][1..]);
      assert s[1..][1..] == [];
    }
    TwoDigitsValue(s);
  }

  /** The text "#" + a + b + c of three two-digit channels reads back as their values. */
  lemma HexTextRoundTrip(a: string, b: string, c: string)
    requires |a| == 2 && IsHexDigit(a[0]) && IsHexDigit(a[1])
    requires |b| == 2 && IsHexDigit(b[0]) && IsHexDigit(b[1])
    requires |c| == 2 && IsHexDigit(c[0]) && IsHexDigit(c[1])
    ensures HexToRgb("#" + a + b + c) == (HexValue(a[0]) * 16 + HexValue(a[1]),
      HexValue(b[0]) * 16 + HexValue(b[1]), HexValue(c[0]) * 16 + HexValue(c[1]))
  {
    var s := a + b + c;
    assert ("#" + a + b + c)[1..] == s;
    assert s[0..2] == a && s[2..4] == b && s[4..6] == c;
    ParseTwoDigits(a);
    ParseTwoDigits(b);
    ParseTwoDigits(c);
  }

  /** Converting a colour to hex and back gives its rounded, clamped channels. */
  lemma HexRoundTrip(x: real, y: real, z: real)
    ensures HexToRgb(RgbToHex(Some([x, y, z]))) == (ChannelByte(x), ChannelByte(y), ChannelByte(z))
  {
    var c := [x, y, z];
    var a, b, d := ToHexChannel(x), ToHexChannel(y), ToHexChannel(z);
    var hex := RgbToHex(Some(c));
    assert hex == "#" + a + b + d;
    HexTextRoundTrip(a, b, d);
    var ra, rb, rd := ChannelByte(x), ChannelByte(y), ChannelByte(z);
    assert HexToRgb(hex) == (ra, rb, rd);
  }

  /** ... so every byte triple survives the round trip unchanged. */
  lemma ByteRoundTrip(c: Rgb)
    ensures HexToRgb(RgbToHex(Some([c.r as real, c.g as real, c.b as real]))) == (c.r, c.g, c.b)
  {
    HexRoundTrip(c.r as real, c.g as real, c.b as real);
    RoundInteger(c.r);
    RoundInteger(c.g);
    RoundInteger(c.b);
  }

  /** An integral channel value needs no rounding. */
  lemma RoundInteger(b: Byte)
    ensures ChannelByte(b as real) == b
  {
    assert Round(b as real) == b;
  }

  /** Every channel hexToRgb returns lies in [-15, 255]: parseInt accepts a sign
      in front of a single digit. */
  lemma HexToRgbRange(hex: string)
    ensures var (r, g, b) := HexToRgb(hex); -15 <= r <= 255 && -15 <= g <= 255 && -15 <= b <= 255
  {
    var s := RemoveFirstHash(hex);
    if |s| == 6 {
      ParsePairRange(s[0..2]);
      ParsePairRange(s[2..4]);
      ParsePairRange(s[4..6]);
    }
  }

  /** parseInt on two characters yields at most two digits, or one after a sign. */
  lemma ParsePairRange(s: string)
    requires |s| == 2
    ensures -15 <= OrZero(ParseIntHex(s)) <= 255
  {
    TrimStartShape(s);
    var v := HexBody(s);
    var k := HexPrefix(v);
    if k == 2 {
      assert v == s;
      TwoDigitsValue(v);
    } else if k == 1 {
      assert v[..1][..0] == [];
      assert HexDigitsValue(v[..1]) == HexValue(v[0]);
    }
  }

  /** Two hexadecimal digits are worth 16 times the first plus the second. */
  lemma TwoDigitsValue(v: string)
    requires |v| == 2 && IsHexDigit(v[0]) && IsHexDigit(v[1])
    ensures HexDigitsValue(v[..2]) == HexValue(v[0]) * 16 + HexValue(v[1])
  {
    var one := v[..2][..1];
    assert one == [v[0]] && one[..0] == [];
    assert HexDigitsValue(one) == HexValue(v[0]);
  }

  /** parseInt skips every JavaScript space first, the ideographic space U+3000
      included: "#\U{3000}f0000" reads 15 in its red channel. */
  lemma SpaceBeforeDigit()
    ensures ParseIntHex("\U{3000}f") == Some(15)
    ensures HexToRgb("#\U{3000}f0000").0 == 15
  {
    var s := "\U{3000}f0000";
    assert RemoveFirstHash("#\U{3000}f0000") == s;
    assert s[0..2] == "\U{3000}f";
    var v := "f";
    assert IsJsSpace('\U{3000}') && !IsJsSpace('f');
    assert TrimStart("\U{3000}f") == v by {
      assert "\U{3000}f"[1..] == v;
    }
    assert HexPrefix(v) == 1 && v[..1] == v;
    assert HexDigitsValue(v) == 15 by {
      assert v[..0] == [];
    }
  }

  /** A sign in front of a digit gets through: "#-1-1-1" reads as -1 in every channel. */
  lemma NegativeChannel()
    ensures HexToRgb("#-1-1-1") == (-1, -1, -1)
  {
    var s := "-1-1-1";
    assert RemoveFirstHash("#-1-1-1") == s;
    assert s[0..2] == "-1" && s[2..4] == "-1" && s[4..6] == "-1";
    var v := "1";
    assert !IsJsSpace('-') && TrimStart("-1") == "-1";
    assert "-1"[1..] == v && HexPrefix(v) == 1 && v[..1] == v;
    assert HexDigitsValue(v) == 1 by {
      assert v[..0] == [];
    }
  }

  // ---------------------------------------------------------------------------
  // hexToRgb reading only digit pairs

  /** A pair of characters as a channel: its value when both are hexadecimal
      digits, 0 otherwise. */
  function PairByte(s: string): (r: Byte)
    requires |s| == 2
    ensures IsHexDigit(s[0]) && IsHexDigit(s[1]) ==> r == HexValue(s[0]) * 16 + HexValue(s[1])
    ensures !(IsHexDigit(s[0]) && IsHexDigit(s[1])) ==> r == 0
  {
    if IsHexDigit(s[0]) && IsHexDigit(s[1]) then HexValue(s[0]) * 16 + HexValue(s[1]) else 0
  }

  /** hexToRgb as its callers use it: every channel a byte, read only from two
      hexadecimal digits. */
  function HexToRgbChecked(hex: string): (r: (Byte, Byte, Byte))
    ensures |RemoveFirstHash(hex)| != 6 ==> r == (0, 0, 0)
  {
    var s := RemoveFirstHash(hex);
    if |s| != 6 then (0, 0, 0)
    else (PairByte(s[0..2]), PairByte(s[2..4]), PairByte(s[4..6]))
  }

  /** On six hexadecimal digits the checked reading is parseInt's. */
  lemma CheckedAgreesOnDigits(hex: string)
    requires |RemoveFirstHash(hex)| == 6
    requires forall i :: 0 <= i < 6 ==> IsHexDigit(RemoveFirstHash(hex)[i])
    ensures HexToRgb(hex) == (HexToRgbChecked(hex).0, HexToRgbChecked(hex).1, HexToRgbChecked(hex).2)
  {
    var s := RemoveFirstHash(hex);
    var a, b, c := s[0..2], s[2..4], s[4..6];
    assert a[0] == s[0] && a[1] == s[1] && b[0] == s[2] && b[1] == s[3] && c[0] == s[4] && c[1] == s[5];
    PairAgrees(a);
    PairAgrees(b);
    PairAgrees(c);
    assert HexToRgb(hex) == (OrZero(ParseIntHex(a)), OrZero(ParseIntHex(b)), OrZero(ParseIntHex(c)));
    assert HexToRgbChecked(hex) == (PairByte(a), PairByte(b), PairByte(c));
  }

  /** One pair of digits: parseInt and the checked reading agree. */
  lemma PairAgrees(p: string)
    requires |p| == 2 && IsHexDigit(p[0]) && IsHexDigit(p[1])
    ensures OrZero(ParseIntHex(p)) == PairByte(p)
  {
    ParseTwoDigits(p);
  }

  /** Every byte triple survives rgbToHex followed by the checked reading. */
  lemma CheckedByteRoundTrip(c: Rgb)
    ensures HexToRgbChecked(RgbToHex(Some([c.r as real, c.g as real, c.b as real]))) == (c.r, c.g, c.b)
  {
    var hex := RgbToHex(Some([c.r as real, c.g as real, c.b as real]));
    assert RemoveFirstHash(hex) == hex[1..];
    CheckedAgreesOnDigits(hex);
    ByteRoundTrip(c);
  }
}
