/** Parsing a session id: hexadecimal after "0x", decimal otherwise, 64 bits either way. */
module SessionId {
  import opened Wrappers
  import opened Words
  import Text = Metering

  datatype ParseError = InvalidHex | InvalidDecimal | ExceedsU64

  type Digit = x: int | 0 <= x < 16

  function DigitOf(c: char): Option<Digit> {
    if '0' <= c <= '9' then Some((c as int) - ('0' as int))
    else if 'a' <= c <= 'f' then Some((c as int) - ('a' as int) + 10)
    else if 'A' <= c <= 'F' then Some((c as int) - ('A' as int) + 10)
    else None
  }

  predicate IsDigit(c: char, radix: nat) {
    DigitOf(c).Some? && DigitOf(c).value < radix
  }

  predicate AllDigits(s: string, radix: nat) {
    forall i :: 0 <= i < |s| ==> IsDigit(s[i], radix)
  }

  function Value(s: string, radix: nat): nat
    requires AllDigits(s, radix)
  {
    if s == "" then 0 else Value(s[..|s| - 1], radix) * radix + DigitOf(s[|s| - 1]).value
  }

  /** `u64::from_str_radix`: digits, with one leading plus sign allowed. */
  function FromStrRadix(s: string, radix: nat): Option<u64> {
    var digits := if s != "" && s[0] == '+' then s[1..] else s;
    if digits == "" || !AllDigits(digits, radix) || Value(digits, radix) > U64_MAX then None
    else Some(Value(digits, radix))
  }

  /** `hex::decode`. */
  function HexDecode(s: string): Option<seq<nat>> {
    if |s| % 2 != 0 || !AllDigits(s, 16) then None
    else Some(seq(|s| / 2, i requires 0 <= i < |s| / 2 && AllDigits(s, 16) =>
                DigitOf(s[2 * i]).value * 16 + DigitOf(s[2 * i + 1]).value))
  }

  function TrimZeros(s: string): string {
    if s != "" && s[0] == '0' then TrimZeros(s[1..]) else s
  }

  function Zeros(n: nat): string {
    seq(n, _ => '0')
  }

  function FromBytes(b: seq<nat>): nat {
    if b == [] then 0 else FromBytes(b[..|b| - 1]) * 256 + b[|b| - 1]
  }

  /** More than sixteen significant digits: pad to 64, keep the first 64, and look at the bytes. */
  function ParseLong(hex: string): Result<nat, ParseError> {
    var padded := if |hex| < 64 then Zeros(64 - |hex|) + hex else hex;
    match HexDecode(padded[..64])
    case None => Err(InvalidHex)
    case Some(bytes) =>
      if bytes[..24] != seq(24, _ => 0) then Err(ExceedsU64) else Ok(FromBytes(bytes[24..32]))
  }

  /** What comes after "0x", leading zeros dropped first. */
  function ParseHex(s: string): Result<nat, ParseError> {
    var hex := TrimZeros(s);
    if hex == "" then Ok(0)
    else if |hex| <= 16 then
      match FromStrRadix(hex, 16) case Some(v) => Ok(v) case None => Err(InvalidHex)
    else ParseLong(hex)
  }

  function Parse(s: string): Result<nat, ParseError> {
    var t := Text.Trim(s);
    if "0x" <= t then ParseHex(t[2..])
    else
      match FromStrRadix(t, 10) case Some(v) => Ok(v) case None => Err(InvalidDecimal)
  }

  /** The digits, each with its value, upper and lower case alike. */
  lemma DigitValues(k: nat)
    requires k < 16
    ensures DigitOf("0123456789abcdef"[k]) == DigitOf("0123456789ABCDEF"[k]) == Some(k)
    ensures DigitOf('g') == DigitOf('G') == DigitOf('+') == DigitOf('-') == DigitOf(' ') == DigitOf('x') == None
  {}

  // ------------------------------------------------------------------ values

  function Pow(radix: nat, n: nat): nat {
    if n == 0 then 1 else radix * Pow(radix, n - 1)
  }

  lemma {:induction false} ValueBound(s: string)
    requires AllDigits(s, 16)
    ensures Value(s, 16) < Pow(16, |s|)
  {
    if s != "" {
      assert IsDigit(s[|s| - 1], 16);
      ValueBound(s[..|s| - 1]);
    }
  }

  lemma {:induction false} LeadingZero(s: string, radix: nat)
    requires s != "" && s[0] == '0' && AllDigits(s, radix)
    ensures AllDigits(s[1..], radix) && Value(s[1..], radix) == Value(s, radix)
  {
    if |s| > 1 {
      LeadingZero(s[..|s| - 1], radix);
      assert s[1..][..|s| - 2] == s[..|s| - 1][1..];
    } else {
      assert s[..0] == "" && s[1..] == "";
    }
  }

  lemma {:induction false} TrimZerosIs(s: string)
    requires AllDigits(s, 16)
    ensures var h := TrimZeros(s);
      AllDigits(h, 16) && Value(h, 16) == Value(s, 16) && (h != "" ==> h[0] != '0')
  {
    if s != "" && s[0] == '0' {
      LeadingZero(s, 16);
      TrimZerosIs(s[1..]);
    }
  }

  /** A number without leading zeros is at least the power of its length. */
  lemma {:induction false} ValueLarge(s: string)
    requires s != "" && s[0] != '0' && AllDigits(s, 16)
    ensures Value(s, 16) >= Pow(16, |s| - 1)
  {
    if |s| > 1 {
      ValueLarge(s[..|s| - 1]);
    } else {
      assert IsDigit(s[0], 16);
      assert s[..0] == "";
    }
  }

  lemma {:induction false} PowGrows(a: nat, b: nat)
    requires a <= b
    ensures 1 <= Pow(16, a) <= Pow(16, b)
    decreases b
  {
    if a < b { PowGrows(a, b - 1); } else if a > 0 { PowGrows(a - 1, b - 1); }
  }

  lemma Pow16()
    ensures Pow(16, 16) == U64_MAX + 1
  {
    assert Pow(16, 4) == 0x1_0000;
    assert Pow(16, 8) == 0x1_0000_0000;
    assert Pow(16, 12) == 0x1_0000_0000_0000;
  }

  // ------------------------------------------------------------------ the long branch

  /** With more than sixteen significant digits the branch never succeeds. */
  lemma LongNeverSucceeds(hex: string)
    requires |hex| > 16 && hex[0] != '0'
    ensures ParseLong(hex).Err?
  {
    var padded := if |hex| < 64 then Zeros(64 - |hex|) + hex else hex;
    var first := padded[..64];
    var k := if |hex| < 64 then 64 - |hex| else 0;
    assert first[k] == hex[0] && k < 48;
    var bytes := HexDecode(first);
    if bytes.Some? {
      assert IsDigit(first[k], 16);
      assert DigitOf(first[k]).value > 0 by { assert first[k] != '0'; }
      NonZeroByte(first, k);
      assert bytes.value[..24][k / 2] != 0;
    }
  }

  lemma NonZeroByte(s: string, k: nat)
    requires |s| == 64 && k < 48 && AllDigits(s, 16) && DigitOf(s[k]).value > 0
    ensures HexDecode(s).Some? && HexDecode(s).value[k / 2] > 0
  {
    assert k == 2 * (k / 2) || k == 2 * (k / 2) + 1;
  }

  // ------------------------------------------------------------------ the promises

  lemma TrimStays(s: string)
    requires s != "" && !Text.White(s[0]) && !Text.White(s[|s| - 1])
    ensures Text.Trim(s) == s
  {}

  lemma DigitsAreNotWhite(c: char)
    requires DigitOf(c).Some?
    ensures !Text.White(c)
  {}

  lemma AfterPrefix(x: string)
    requires x != "" ==> !Text.White(x[|x| - 1])
    ensures Parse("0x" + x) == ParseHex(x)
  {
    var s := "0x" + x;
    TrimStays(s);
    assert s[2..] == x && s[..2] == "0x";
  }

  /** For any hexadecimal digits the result is their value, if that fits 64 bits, and an error if not. */
  lemma HexExact(d: string)
    requires AllDigits(d, 16)
    ensures var r := Parse("0x" + d);
      if Value(d, 16) <= U64_MAX then r == Ok(Value(d, 16)) else r.Err?
  {
    if d != "" { DigitsAreNotWhite(d[|d| - 1]); }
    AfterPrefix(d);
    TrimZerosIs(d);
    var hex := TrimZeros(d);
    Pow16();
    if hex == "" {
    } else if |hex| <= 16 {
      assert IsDigit(hex[0], 16) && hex[0] != '+';
      ValueBound(hex);
      PowGrows(|hex|, 16);
    } else {
      LongNeverSucceeds(hex);
      ValueLarge(hex);
      PowGrows(16, |hex| - 1);
    }
  }

  /** For decimal digits likewise. */
  lemma DecimalExact(d: string)
    requires d != "" && AllDigits(d, 10)
    ensures var r := Parse(d);
      if Value(d, 10) <= U64_MAX then r == Ok(Value(d, 10)) else r == Err(InvalidDecimal)
  {
    assert IsDigit(d[0], 10) && IsDigit(d[|d| - 1], 10);
    DigitsAreNotWhite(d[0]);
    DigitsAreNotWhite(d[|d| - 1]);
    TrimStays(d);
    assert d[0] != '+';
    if |d| > 1 { assert IsDigit(d[1], 10); }
  }

  lemma DigitsWritten(k: Digit)
    ensures HexChar(k) == "0123456789abcdef"[k]
  {}

  /** Numbers are read from left to right. */
  lemma TwoDigits(a: char, b: char, radix: nat)
    requires IsDigit(a, radix) && IsDigit(b, radix)
    ensures AllDigits([a, b], radix) && Value([a, b], radix) == radix * DigitOf(a).value + DigitOf(b).value
  {
    assert [a, b][..1] == [a] && [a][..0] == [];
    assert Value([a], radix) == Value([], radix) * radix + DigitOf(a).value;
  }

  function HexChar(v: Digit): char {
    if v < 10 then ('0' as int + v) as char else ('a' as int + v - 10) as char
  }

  /** The last `n` hexadecimal digits of v, as `format!("{:064x}")` writes them for n = 64. */
  function Format(v: nat, n: nat): (s: string)
    ensures |s| == n
  {
    if n == 0 then "" else Format(v / 16, n - 1) + [HexChar(v % 16)]
  }

  lemma {:induction false} FormatValue(v: nat, n: nat)
    requires v < Pow(16, n)
    ensures AllDigits(Format(v, n), 16) && Value(Format(v, n), 16) == v
  {
    if n > 0 {
      FormatValue(v / 16, n - 1);
      var s := Format(v, n);
      assert s[..n - 1] == Format(v / 16, n - 1);
      assert DigitOf(HexChar(v % 16)) == Some(v % 16);
    }
  }

  /** Parsing inverts the zero-padded format the router sends to nodes. */
  lemma FormatRoundTrip(v: u64)
    ensures Parse("0x" + Format(v, 64)) == Ok(v)
  {
    Pow16();
    PowGrows(16, 64);
    FormatValue(v, 64);
    HexExact(Format(v, 64));
  }

  lemma {:induction false} TrimZerosHead(s: string)
    ensures var h := TrimZeros(s); h != "" ==> h[0] != '0'
  {
    if s != "" && s[0] == '0' { TrimZerosHead(s[1..]); }
  }

  /** What the hexadecimal branch takes: nothing but zeros; digits whose value fits 64 bits; or, after the
      zeros, a plus sign and one to fifteen digits. */
  predicate HexAccepted(x: string) {
    var h := TrimZeros(x);
    || h == ""
    || (AllDigits(h, 16) && Value(h, 16) <= U64_MAX)
    || (h[0] == '+' && 2 <= |h| <= 16 && AllDigits(h[1..], 16))
  }

  function HexMeaning(x: string): nat
    requires HexAccepted(x)
  {
    var h := TrimZeros(x);
    if h == "" then 0 else if h[0] == '+' then Value(h[1..], 16) else Value(h, 16)
  }

  lemma HexBranchExactly(x: string)
    ensures ParseHex(x).Ok? <==> HexAccepted(x)
    ensures HexAccepted(x) ==> ParseHex(x) == Ok(HexMeaning(x))
  {
    var h := TrimZeros(x);
    TrimZerosHead(x);
    Pow16();
    if h == "" {
    } else if |h| > 16 {
      LongNeverSucceeds(h);
      if AllDigits(h, 16) {
        ValueLarge(h);
        PowGrows(16, |h| - 1);
      }
    } else if h[0] == '+' {
      assert !IsDigit(h[0], 16);
      if AllDigits(h[1..], 16) {
        ValueBound(h[1..]);
        PowGrows(|h| - 1, 16);
      }
    }
  }

  /** What the decimal branch takes: digits, perhaps after one plus sign, whose value fits 64 bits. */
  predicate DecimalAccepted(t: string) {
    var d := if t != "" && t[0] == '+' then t[1..] else t;
    d != "" && AllDigits(d, 10) && Value(d, 10) <= U64_MAX
  }

  /** Exactly the accepted strings, and what they mean, for any string at all. */
  lemma ParseExactly(s: string)
    ensures var t := Text.Trim(s);
      && (Parse(s).Ok? <==> if "0x" <= t then HexAccepted(t[2..]) else DecimalAccepted(t))
      && (Parse(s).Ok? && "0x" <= t ==> Parse(s) == Ok(HexMeaning(t[2..])))
      && (Parse(s).Ok? && !("0x" <= t) ==> Parse(s) == Ok(Value(if t[0] == '+' then t[1..] else t, 10)))
  {
    var t := Text.Trim(s);
    if "0x" <= t { HexBranchExactly(t[2..]); }
  }

  /** Which error it is: up to sixteen significant characters that are no number, or a stray character among
      the first 64 of more, are invalid hexadecimal; more than sixteen hexadecimal digits do not fit. */
  lemma ErrorsAre(x: string)
    requires ParseHex(x).Err?
    ensures var h := TrimZeros(x);
      && h != ""
      && (|h| <= 16 ==> ParseHex(x) == Err(InvalidHex))
      && (|h| > 16 ==> ParseHex(x) == if AllDigits(h[..Min(|h|, 64)], 16) then Err(ExceedsU64) else Err(InvalidHex))
  {
    var h := TrimZeros(x);
    if |h| > 16 {
      TrimZerosHead(x);
      LongError(h);
    }
  }

  lemma LongError(h: string)
    requires |h| > 16 && h[0] != '0'
    ensures ParseLong(h) == if AllDigits(h[..Min(|h|, 64)], 16) then Err(ExceedsU64) else Err(InvalidHex)
  {
    LongNeverSucceeds(h);
    var zeros := Zeros(if |h| < 64 then 64 - |h| else 0);
    var first := (if |h| < 64 then Zeros(64 - |h|) + h else h)[..64];
    assert first == zeros + h[..Min(|h|, 64)];
    PaddingIsDigits(zeros, h[..Min(|h|, 64)]);
  }

  lemma PaddingIsDigits(zeros: string, h: string)
    requires forall i :: 0 <= i < |zeros| ==> zeros[i] == '0'
    ensures AllDigits(zeros + h, 16) <==> AllDigits(h, 16)
  {
    var all := zeros + h;
    assert forall i :: 0 <= i < |h| ==> h[i] == all[|zeros| + i];
    assert forall i :: 0 <= i < |all| ==> all[i] == if i < |zeros| then '0' else h[i - |zeros|];
  }

  /** A plus sign after the prefix is let through, though it is no digit. */
  lemma PlusIsAccepted(d: string)
    requires AllDigits(d, 16) && 1 <= |d| <= 15
    ensures Parse("0x+" + d) == Ok(Value(d, 16))
  {
    var x := "+" + d;
    assert IsDigit(d[|d| - 1], 16) && x[|x| - 1] == d[|d| - 1];
    DigitsAreNotWhite(d[|d| - 1]);
    AfterPrefix(x);
    assert "0x+" + d == "0x" + x;
    assert TrimZeros(x) == x && x[1..] == d;
    Pow16();
    ValueBound(d);
    PowGrows(|d|, 16);
  }
}
