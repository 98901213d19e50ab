/** Lines, fields, numbers and hexadecimal as the plan printer and parser see them. */
module Text {
  import opened Bytes

  function IndexOf(s: string, c: char): (i: nat)
    requires c in s
    ensures i < |s| && s[i] == c && c !in s[..i]
  {
    if s[0] == c then 0 else 1 + IndexOf(s[1..], c)
  }

  lemma {:induction false} IndexOfFirst(a: string, c: char, rest: string)
    requires c !in a
    ensures IndexOf(a + [c] + rest, c) == |a|
  {
    var s := a + [c] + rest;
    assert s[|a|] == c && s[..|a|] == a;
  }

  // Rust's str::split: one more piece than there are separators.
  function SplitOn(s: string, c: char): seq<string>
    decreases |s|
  {
    if c !in s then [s]
    else [s[..IndexOf(s, c)]] + SplitOn(s[IndexOf(s, c) + 1..], c)
  }

  lemma {:induction false} SplitFirst(a: string, c: char, rest: string)
    requires c !in a
    ensures SplitOn(a + [c] + rest, c) == [a] + SplitOn(rest, c)
  {
    var s := a + [c] + rest;
    IndexOfFirst(a, c, rest);
    assert s[|a|] == c;
    assert s[..|a|] == a && s[|a| + 1..] == rest;
  }

  function StripCarriageReturn(s: string): string {
    if s != [] && s[|s| - 1] == '\r' then s[..|s| - 1] else s
  }

  // Rust's str::lines: a final line feed opens no further line, and a carriage
  // return is dropped only in front of a line feed.
  function Lines(text: string): seq<string>
    decreases |text|
  {
    if text == [] then []
    else if '\n' !in text then [text]
    else
      var i := IndexOf(text, '\n');
      [StripCarriageReturn(text[..i])] + Lines(text[i + 1..])
  }

  lemma {:induction false} FirstLine(line: string, rest: string)
    requires '\n' !in line
    ensures Lines(line + ['\n'] + rest) == [StripCarriageReturn(line)] + Lines(rest)
  {
    var text := line + ['\n'] + rest;
    IndexOfFirst(line, '\n', rest);
    assert text[|line|] == '\n';
    assert text[..|line|] == line && text[|line| + 1..] == rest;
  }

  ghost predicate EndsWithNewline(text: string) {
    text == [] || text[|text| - 1] == '\n'
  }

  lemma {:induction false} LinesAppend(a: string, b: string)
    requires EndsWithNewline(a)
    ensures Lines(a + b) == Lines(a) + Lines(b)
    decreases |a|
  {
    if a == [] {
      assert a + b == b;
    } else {
      assert a[|a| - 1] == '\n';
      var i := IndexOf(a, '\n');
      var line, rest := a[..i], a[i + 1..];
      assert a == line + ['\n'] + rest;
      assert EndsWithNewline(rest);
      LinesAppend(rest, b);
      FirstLine(line, rest + b);
      FirstLine(line, rest);
      hide Lines;
      Associate(line + ['\n'], rest, b);
      Associate([StripCarriageReturn(line)], Lines(rest), Lines(b));
    }
  }

  // ---------------------------------------------------------------------
  // Numbers in radix 10 and 16.

  predicate IsRadix(radix: nat) {
    radix == 10 || radix == 16
  }

  function DigitValue(c: char, radix: nat): (d: Option<nat>)
    requires IsRadix(radix)
    ensures d.Some? ==> d.value < radix
  {
    if '0' <= c <= '9' then Some((c - '0') as nat)
    else if radix == 16 && 'a' <= c <= 'f' then Some((c - 'a') as nat + 10)
    else if radix == 16 && 'A' <= c <= 'F' then Some((c - 'A') as nat + 10)
    else None
  }

  // The value of a digit string, the empty one included.
  function DigitsValue(s: string, radix: nat): Option<nat>
    requires IsRadix(radix)
  {
    if s == [] then Some(0)
    else
      match (DigitsValue(s[..|s| - 1], radix), DigitValue(s[|s| - 1], radix))
      case (Some(high), Some(low)) => Some(high * radix + low)
      case (_, _) => None
  }

  // u64::from_str_radix: one leading plus is allowed, and some digit must follow.
  function ParseRadix(s: string, radix: nat): Option<U64>
    requires IsRadix(radix)
  {
    var digits := if s != [] && s[0] == '+' then s[1..] else s;
    if digits == [] then None
    else
      match DigitsValue(digits, radix)
      case Some(n) => if n <= U64_MAX then Some(n) else None
      case None => None
  }

  function ParseNumber(s: string): Option<U64> {
    if |s| >= 2 && s[..2] == "0x" then ParseRadix(s[2..], 16) else ParseRadix(s, 10)
  }

  function DigitChar(d: nat): (c: char)
    requires d < 16
  {
    if d < 10 then '0' + d as char else 'a' + (d - 10) as char
  }

  function Digits(n: nat, radix: nat): (s: string)
    requires IsRadix(radix)
    ensures |s| >= 1
  {
    if n < radix then [DigitChar(n)] else Digits(n / radix, radix) + [DigitChar(n % radix)]
  }

  function Zeros(n: nat): (s: string)
    ensures |s| == n && forall i :: 0 <= i < n ==> s[i] == '0'
  {
    if n == 0 then "" else "0" + Zeros(n - 1)
  }

  function PadTo(digits: string, width: nat): string {
    Zeros(if |digits| < width then width - |digits| else 0) + digits
  }

  // Python's `0x{n:0{width}x}`: at least `width` digits.
  function Hex(n: nat, width: nat): string {
    "0x" + PadTo(Digits(n, 16), width)
  }

  function Decimal(n: nat): string {
    Digits(n, 10)
  }

  lemma {:induction false} DigitRoundTrip(d: nat, radix: nat)
    requires IsRadix(radix) && d < radix
    ensures DigitValue(DigitChar(d), radix) == Some(d)
  {
  }

  lemma {:induction false} DigitsRoundTrip(n: nat, radix: nat)
    requires IsRadix(radix)
    ensures DigitsValue(Digits(n, radix), radix) == Some(n)
  {
    DigitRoundTrip(n % radix, radix);
    if n < radix {
      assert Digits(n, radix)[..0] == [];
    } else {
      DigitsRoundTrip(n / radix, radix);
      var s := Digits(n, radix);
      assert s[..|s| - 1] == Digits(n / radix, radix);
    }
  }

  lemma {:induction false} LeadingZeros(k: nat, s: string, radix: nat)
    requires IsRadix(radix)
    ensures DigitsValue(Zeros(k) + s, radix) == DigitsValue(s, radix)
    decreases |s|, k
  {
    var padded := Zeros(k) + s;
    if s == [] {
      if k > 0 {
        LeadingZeros(k - 1, s, radix);
        assert padded[|padded| - 1] == '0';
        assert padded[..|padded| - 1] == Zeros(k - 1) + s by {
          assert forall i :: 0 <= i < k - 1 ==> padded[i] == '0' && Zeros(k - 1)[i] == '0';
        }
      } else {
        assert padded == [];
      }
    } else {
      LeadingZeros(k, s[..|s| - 1], radix);
      assert padded[..|padded| - 1] == Zeros(k) + s[..|s| - 1];
    }
  }

  ghost predicate AllDigits(s: string) {
    forall i :: 0 <= i < |s| ==> '0' <= s[i] <= '9' || 'a' <= s[i] <= 'f'
  }

  lemma {:induction false} DigitsAreDigits(n: nat, radix: nat)
    requires IsRadix(radix)
    ensures AllDigits(Digits(n, radix))
  {
    if n >= radix {
      DigitsAreDigits(n / radix, radix);
    }
  }

  lemma {:induction false} DecimalRoundTrip(n: nat)
    ensures ParseNumber(Decimal(n)) == if n <= U64_MAX then Some(n) else None
    ensures AllDigits(Decimal(n)) && '0' <= Decimal(n)[0] <= '9'
  {
    DigitsRoundTrip(n, 10);
    DigitsAreDigits(n, 10);
    DecimalStart(n);
    var s := Decimal(n);
    assert |s| >= 2 ==> s[..2][1] == s[1];
    assert "0x"[1] == 'x';
  }

  lemma {:induction false} DecimalStart(n: nat)
    ensures '0' <= Digits(n, 10)[0] <= '9'
  {
    if n >= 10 {
      DecimalStart(n / 10);
    }
  }

  lemma {:induction false} HexRoundTrip(n: nat, width: nat)
    ensures ParseNumber(Hex(n, width)) == if n <= U64_MAX then Some(n) else None
    ensures |Hex(n, width)| >= 2 && Hex(n, width)[..2] == "0x" && AllDigits(Hex(n, width)[2..])
  {
    DigitsRoundTrip(n, 16);
    DigitsAreDigits(n, 16);
    PaddedDigits(Digits(n, 16), width);
    PrefixedHex(PadTo(Digits(n, 16), width));
    hide Digits, DigitsValue, PadTo, AllDigits, ParseNumber;
  }

  lemma {:induction false} PaddedDigits(digits: string, width: nat)
    requires digits != [] && AllDigits(digits)
    ensures PadTo(digits, width) != [] && AllDigits(PadTo(digits, width))
    ensures DigitsValue(PadTo(digits, width), 16) == DigitsValue(digits, 16)
  {
    LeadingZeros(if |digits| < width then width - |digits| else 0, digits, 16);
  }

  lemma {:induction false} PrefixedHex(digits: string)
    requires digits != [] && AllDigits(digits)
    ensures ("0x" + digits)[..2] == "0x" && ("0x" + digits)[2..] == digits
    ensures ParseNumber("0x" + digits) ==
            match DigitsValue(digits, 16)
            case Some(n) => if n <= U64_MAX then Some(n) else None
            case None => None
  {
    hide DigitsValue;
    assert ("0x" + digits)[..2] == "0x" && ("0x" + digits)[2..] == digits;
    assert digits[0] != '+';
  }

  // ---------------------------------------------------------------------
  // Byte strings in hexadecimal.

  function HexOf(data: Data): (s: string)
    ensures |s| == 2 * |data|
  {
    if data == [] then ""
    else [DigitChar(data[0] / 16), DigitChar(data[0] % 16)] + HexOf(data[1..])
  }

  function HexDecode(s: string): Option<Data> {
    if s == [] then Some([])
    else if |s| == 1 then None
    else
      match (DigitValue(s[0], 16), DigitValue(s[1], 16), HexDecode(s[2..]))
      case (Some(high), Some(low), Some(rest)) => Some([high * 16 + low] + rest)
      case (_, _, _) => None
  }

  lemma {:induction false} HexDecodeStep(byte: Byte, rest: string)
    ensures HexDecode([DigitChar(byte / 16), DigitChar(byte % 16)] + rest) ==
            match HexDecode(rest)
            case Some(data) => Some([byte] + data)
            case None => None
  {
    var s := [DigitChar(byte / 16), DigitChar(byte % 16)] + rest;
    DigitRoundTrip(byte / 16, 16);
    DigitRoundTrip(byte % 16, 16);
    assert s[2..] == rest;
  }

  lemma {:induction false} HexOfRoundTrip(data: Data)
    ensures HexDecode(HexOf(data)) == Some(data)
  {
    if data != [] {
      HexOfRoundTrip(data[1..]);
      HexDecodeStep(data[0], HexOf(data[1..]));
      assert [data[0]] + data[1..] == data;
    }
  }

  lemma {:induction false} HexOfIsDigits(data: Data)
    ensures AllDigits(HexOf(data))
  {
    if data != [] {
      HexOfIsDigits(data[1..]);
    }
  }
}
