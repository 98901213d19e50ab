/** Bytes, big-endian numbers and the result types shared by every module. */
module Bytes {

  datatype Option<+T> = None | Some(value: T)

  datatype Result<+T, +E> = Ok(value: T) | Err(error: E)

  type Byte = x: int | 0 <= x < 256

  type Data = seq<Byte>

  const U64_MAX: nat := 0xffff_ffff_ffff_ffff

  type U64 = x: nat | x <= U64_MAX

  function Min(a: int, b: int): int {
    if a <= b then a else b
  }

  function Max(a: int, b: int): int {
    if a <= b then b else a
  }

  // Concatenation of a list of byte strings, and the two ways to grow it.

  function Flatten(parts: seq<Data>): (all: Data) {
    if parts == [] then [] else Flatten(parts[..|parts| - 1]) + parts[|parts| - 1]
  }

  lemma {:induction false} FlattenSnoc(parts: seq<Data>, last: Data)
    ensures Flatten(parts + [last]) == Flatten(parts) + last
  {
    assert (parts + [last])[..|parts|] == parts;
  }

  lemma {:induction false} Associate<T>(a: seq<T>, b: seq<T>, c: seq<T>)
    ensures (a + b) + c == a + (b + c)
  {
  }

  // Powers of 256 and big-endian fixed-width numbers.

  function Pow256(k: nat): (p: nat)
    ensures p >= 1
  {
    if k == 0 then 1 else 256 * Pow256(k - 1)
  }

  function BigEndian(n: nat, width: nat): (s: Data)
    requires n < Pow256(width)
    ensures |s| == width
  {
    if width == 0 then []
    else
      var unit := Pow256(width - 1);
      LeadingDigit(n, unit);
      [n / unit] + BigEndian(n % unit, width - 1)
  }

  function BigEndianValue(s: Data): (n: nat)
    ensures n < Pow256(|s|)
  {
    if s == [] then 0
    else
      LeadingBound(s[0], Pow256(|s| - 1));
      s[0] * Pow256(|s| - 1) + BigEndianValue(s[1..])
  }

  lemma {:induction false} LeadingDigit(n: nat, unit: nat)
    requires unit >= 1 && n < 256 * unit
    ensures 0 <= n / unit < 256 && n / unit * unit + n % unit == n && 0 <= n % unit < unit
  {
  }

  lemma {:induction false} LeadingBound(d: Byte, unit: nat)
    requires unit >= 1
    ensures 0 <= d * unit <= 255 * unit
  {
  }

  lemma {:induction false} BigEndianRoundTrip(n: nat, width: nat)
    requires n < Pow256(width)
    ensures BigEndianValue(BigEndian(n, width)) == n
  {
    if width > 0 {
      var unit := Pow256(width - 1);
      LeadingDigit(n, unit);
      BigEndianRoundTrip(n % unit, width - 1);
      assert BigEndian(n, width)[1..] == BigEndian(n % unit, width - 1);
    }
  }

  // A number that fits `width` bytes gains only a leading zero in `width + 1`.
  lemma {:induction false} BigEndianWiden(n: nat, width: nat)
    requires n < Pow256(width)
    ensures n < Pow256(width + 1) && BigEndian(n, width + 1) == [0] + BigEndian(n, width)
  {
    SmallDividend(n, Pow256(width));
  }

  lemma {:induction false} SmallDividend(n: nat, unit: nat)
    requires n < unit
    ensures n / unit == 0 && n % unit == n
  {
  }

  lemma {:induction false} MulMonotone(a: nat, b: nat, unit: nat)
    ensures a <= b ==> a * unit <= b * unit
  {
  }

  lemma {:induction false} QuotientIs(n: nat, d: nat, q: nat, r: nat)
    requires r < d && n == q * d + r
    ensures n / d == q && n % d == r
  {
    var q' := n / d;
    assert n == q' * d + n % d;
    MulMonotone(q' + 1, q, d);
    MulMonotone(q + 1, q', d);
  }

  lemma {:induction false} Distribute(a: int, b: int, d: int)
    ensures (a + b) * d == a * d + b * d && (a - b) * d == a * d - b * d
  {
  }

  // Bytes without leading zeros, but never fewer than one byte.
  function TrimLeadingZeros(s: Data): (t: Data)
    requires |s| >= 1
    ensures 1 <= |t| <= |s|
  {
    if |s| > 1 && s[0] == 0 then TrimLeadingZeros(s[1..]) else s
  }

  lemma {:induction false} TrimKeepsValue(s: Data)
    requires |s| >= 1
    ensures BigEndianValue(TrimLeadingZeros(s)) == BigEndianValue(s)
    ensures |TrimLeadingZeros(s)| > 1 ==> TrimLeadingZeros(s)[0] != 0
  {
    if |s| > 1 && s[0] == 0 {
      TrimKeepsValue(s[1..]);
    }
  }
}
