/** Reconstruction of a baseline JPEG from the camera's unescaped entropy scan. */
module Jpeg {
  import opened Bytes

  datatype ConversionError = EmptyEntropy

  const EOI: Data := [0xff, 0xd9]

  // The record without its trailing alignment padding.
  function StripPadding(record: Data): (entropy: Data)
    ensures |entropy| <= |record| && entropy == record[..|entropy|]
    ensures entropy != [] ==> entropy[|entropy| - 1] != 0
    ensures forall i :: |entropy| <= i < |record| ==> record[i] == 0
  {
    if record == [] || record[|record| - 1] != 0 then record
    else StripPadding(record[..|record| - 1])
  }

  // JPEG byte stuffing: every 0xff of the scan is followed by 0x00.
  function Stuff(entropy: Data): (scan: Data) {
    if entropy == [] then []
    else
      var last := entropy[|entropy| - 1];
      Stuff(entropy[..|entropy| - 1]) + (if last == 0xff then [0xff, 0x00] else [last])
  }

  // What a decoder does with the scan: drop the 0x00 after each 0xff.
  function Unstuff(scan: Data): (entropy: Option<Data>) {
    if scan == [] then Some([])
    else if scan[0] != 0xff then
      match Unstuff(scan[1..])
      case None => None
      case Some(rest) => Some([scan[0]] + rest)
    else if |scan| >= 2 && scan[1] == 0 then
      match Unstuff(scan[2..])
      case None => None
      case Some(rest) => Some([0xff] + rest)
    else None
  }

  function CountFf(entropy: Data): nat {
    if entropy == [] then 0
    else CountFf(entropy[..|entropy| - 1]) + if entropy[|entropy| - 1] == 0xff then 1 else 0
  }

  function Reconstruct(header: Data, record: Data): Result<Data, ConversionError> {
    var entropy := StripPadding(record);
    if entropy == [] then Err(EmptyEntropy) else Ok(header + Stuff(entropy) + EOI)
  }

  method ReconstructJpeg(header: Data, record: Data) returns (r: Result<Data, ConversionError>)
    ensures r == Reconstruct(header, record)
  {
    var end := |record|;
    while end > 0 && record[end - 1] == 0
      invariant 0 <= end <= |record|
      invariant StripPadding(record[..end]) == StripPadding(record)
    {
      assert record[..end][..end - 1] == record[..end - 1];
      end := end - 1;
    }
    assert record[..|record|] == record;
    var entropy := record[..end];
    if entropy == [] {
      return Err(EmptyEntropy);
    }
    var jpeg := header;
    var i := 0;
    while i < |entropy|
      invariant 0 <= i <= |entropy|
      invariant jpeg == header + Stuff(entropy[..i])
    {
      assert entropy[..i + 1][..i] == entropy[..i];
      Associate(header, Stuff(entropy[..i]), if entropy[i] == 0xff then [0xff, 0x00] else [entropy[i]]);
      jpeg := jpeg + [entropy[i]];
      if entropy[i] == 0xff {
        jpeg := jpeg + [0x00];
      }
      i := i + 1;
    }
    assert entropy[..i] == entropy;
    jpeg := jpeg + EOI;
    r := Ok(jpeg);
  }

  lemma {:induction false} UnstuffOne(byte: Byte, scan: Data)
    ensures Unstuff((if byte == 0xff then [0xff, 0x00] else [byte]) + scan) ==
            match Unstuff(scan)
            case None => None
            case Some(rest) => Some([byte] + rest)
  {
    var tail: Data := if byte == 0xff then [0xff, 0x00] else [byte];
    assert (tail + scan)[|tail|..] == scan;
  }

  lemma {:induction false} UnstuffSplit(a: Data, scan: Data)
    ensures Unstuff(Stuff(a) + scan) ==
            match Unstuff(scan)
            case None => None
            case Some(rest) => Some(a + rest)
    decreases |a|
  {
    if a == [] {
      assert Stuff(a) + scan == scan;
      if Unstuff(scan).Some? {
        assert a + Unstuff(scan).value == Unstuff(scan).value;
      }
    } else {
      var init, last := a[..|a| - 1], a[|a| - 1];
      var tail: Data := if last == 0xff then [0xff, 0x00] else [last];
      Associate(Stuff(init), tail, scan);
      UnstuffSplit(init, tail + scan);
      UnstuffOne(last, scan);
      if Unstuff(scan).Some? {
        Associate(init, [last], Unstuff(scan).value);
        assert init + [last] == a;
      }
    }
  }

  lemma {:induction false} StuffRoundTrip(entropy: Data)
    ensures Unstuff(Stuff(entropy)) == Some(entropy)
  {
    UnstuffSplit(entropy, []);
    assert Stuff(entropy) + [] == Stuff(entropy);
    assert entropy + [] == entropy;
  }

  lemma {:induction false} StuffShape(entropy: Data)
    ensures |Stuff(entropy)| == |entropy| + CountFf(entropy)
    ensures forall i :: 0 <= i < |Stuff(entropy)| && Stuff(entropy)[i] == 0xff ==>
              i + 1 < |Stuff(entropy)| && Stuff(entropy)[i + 1] == 0x00
  {
    if entropy != [] {
      StuffShape(entropy[..|entropy| - 1]);
    }
  }

  // The scan between header and end-of-image: decoding it gives back the
  // record's entropy bytes, no marker occurs in it, and its length is exact.
  lemma {:induction false} ScanIsFaithful(header: Data, record: Data)
    requires Reconstruct(header, record).Ok?
    ensures var jpeg := Reconstruct(header, record).value;
            var scan := jpeg[|header|..|jpeg| - 2];
            && |header| + 2 < |jpeg|
            && jpeg[..|header|] == header && jpeg[|jpeg| - 2..] == EOI
            && Unstuff(scan) == Some(StripPadding(record))
            && |jpeg| == |header| + |StripPadding(record)| + CountFf(StripPadding(record)) + 2
    ensures var jpeg := Reconstruct(header, record).value;
            forall i :: |header| <= i < |jpeg| - 2 && jpeg[i] == 0xff ==> jpeg[i + 1] == 0x00
  {
    var entropy := StripPadding(record);
    var jpeg := Reconstruct(header, record).value;
    StuffRoundTrip(entropy);
    StuffShape(entropy);
    assert jpeg[|header|..|jpeg| - 2] == Stuff(entropy);
  }

  ghost predicate ZerosFrom(s: Data, start: nat) {
    forall i :: start <= i < |s| ==> s[i] == 0
  }

  // The two records are equal up to the number of zero bytes at the end.
  ghost predicate DifferOnlyInPadding(a: Data, b: Data) {
    var n := Min(|a|, |b|);
    a[..n] == b[..n] && ZerosFrom(a, n) && ZerosFrom(b, n)
  }

  lemma {:induction false} StripEqualIff(a: Data, b: Data)
    ensures StripPadding(a) == StripPadding(b) <==> DifferOnlyInPadding(a, b)
  {
    var sa, sb := StripPadding(a), StripPadding(b);
    var n := Min(|a|, |b|);
    if sa == sb {
      forall i | 0 <= i < n ensures a[i] == b[i] {
        if i < |sa| {
          assert a[i] == sa[i] && b[i] == sb[i];
        }
      }
      assert a[..n] == b[..n];
    }
    if DifferOnlyInPadding(a, b) && |sa| == |sb| > 0 {
      assert sa[|sa| - 1] == a[|sa| - 1];
      assert sa == a[..n][..|sa|] && sb == b[..n][..|sa|];
    }
  }

  lemma {:induction false} SameJpegIff(header: Data, a: Data, b: Data)
    ensures Reconstruct(header, a) == Reconstruct(header, b) <==> DifferOnlyInPadding(a, b)
    ensures Reconstruct(header, a).Err? <==> ZerosFrom(a, 0)
  {
    StripEqualIff(a, b);
    if Reconstruct(header, a).Ok? && Reconstruct(header, a) == Reconstruct(header, b) {
      ScanIsFaithful(header, a);
      ScanIsFaithful(header, b);
    }
    var entropy := StripPadding(a);
    if entropy != [] {
      assert a[|entropy| - 1] == entropy[|entropy| - 1];
    }
  }

  // The offline tool's reconstruction of a whole record, header included.
  datatype WrapError = NoSonyHeader | NoEntropy

  const SYNC: Data := [0xff, 0xff, 0xff, 0xff, 0xff, 0xff]

  predicate StartsWithSync(data: Data) {
    |data| >= 6 && data[..6] == SYNC
  }

  // Python's replace of each 0xff by the two bytes 0xff 0x00, left to right.
  function ReplaceFf(entropy: Data): Data {
    if entropy == [] then []
    else (if entropy[0] == 0xff then [0xff, 0x00] else [entropy[0]]) + ReplaceFf(entropy[1..])
  }

  function WrapRecord(header: Data, record: Data): Result<Data, WrapError> {
    if |record| < 9 || !StartsWithSync(record) then Err(NoSonyHeader)
    else
      var entropy := StripPadding(record[8..]);
      if entropy == [] then Err(NoEntropy) else Ok(header + ReplaceFf(entropy) + EOI)
  }

  lemma {:induction false} ReplaceIsStuff(entropy: Data)
    ensures ReplaceFf(entropy) == Stuff(entropy)
  {
    if entropy != [] {
      ReplaceIsStuff(entropy[1..]);
      StuffCons(entropy[0], entropy[1..]);
      assert [entropy[0]] + entropy[1..] == entropy;
    }
  }

  lemma {:induction false} StuffCons(first: Byte, rest: Data)
    ensures Stuff([first] + rest) == (if first == 0xff then [0xff, 0x00] else [first]) + Stuff(rest)
    decreases |rest|
  {
    var all := [first] + rest;
    if rest == [] {
      assert all[..|all| - 1] == [] && Stuff([]) == [];
    } else {
      assert all[..|all| - 1] == [first] + rest[..|rest| - 1];
      StuffCons(first, rest[..|rest| - 1]);
    }
  }

  // On a record that starts with a Sony header the online and the offline
  // reconstruction agree, on success and on failure.
  lemma {:induction false} WrapAgreesWithReconstruct(header: Data, record: Data)
    requires |record| >= 8 && StartsWithSync(record)
    ensures WrapRecord(header, record).Ok? <==> Reconstruct(header, record[8..]).Ok?
    ensures WrapRecord(header, record).Ok? ==>
              WrapRecord(header, record).value == Reconstruct(header, record[8..]).value
  {
    ReplaceIsStuff(StripPadding(record[8..]));
  }
}
