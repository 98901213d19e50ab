/** Nearest-wrap unwrapping of 11-bit USB frame numbers. */
module UsbFrames {
  import opened InitPlan

  const MODULUS: int := 2048

  // The row written into, with its completion time in seconds.
  class Row {
    const completionTime: real
    const usbFrame: int
    var unwrapped: int

    constructor (completionTime: real, usbFrame: int)
      ensures this.completionTime == completionTime && this.usbFrame == usbFrame
    {
      this.completionTime, this.usbFrame, unwrapped := completionTime, usbFrame, 0;
    }
  }

  function Expected(anchorTime: real, anchorFrame: int, time: real): int {
    anchorFrame + RoundHalfEven((time - anchorTime) * 1_000.0)
  }

  function Unwrap(expected: int, frame: int): int {
    frame + RoundHalfEven((expected - frame) as real / MODULUS as real) * MODULUS
  }

  lemma {:induction false} RoundingIsNear(x: real)
    ensures -0.5 <= x - RoundHalfEven(x) as real <= 0.5
  {
  }

  // The result is congruent to the frame number and at most half a turn from
  // the expected frame.
  lemma {:induction false} UnwrapIsNearest(expected: int, frame: int)
    ensures Unwrap(expected, frame) % MODULUS == frame % MODULUS
    ensures -1024 <= Unwrap(expected, frame) - expected <= 1024
  {
    var x := (expected - frame) as real / MODULUS as real;
    RoundingIsNear(x);
    assert x * 2048.0 == (expected - frame) as real;
    assert (RoundHalfEven(x) as real - x) * 2048.0 <= 1024.0;
    assert (RoundHalfEven(x) as real - x) * 2048.0 >= -1024.0;
  }

  // So the true frame is recovered whenever the estimate is less than half a
  // turn off.
  lemma {:induction false} UnwrapRecovers(expected: int, truth: int)
    requires -1024 < truth - expected < 1024
    ensures Unwrap(expected, truth % MODULUS) == truth
  {
    UnwrapIsNearest(expected, truth % MODULUS);
  }

  // The first row of the earliest completion time.
  ghost predicate IsAnchor(rows: seq<Row>, k: nat) {
    && k < |rows|
    && (forall i :: 0 <= i < |rows| ==> rows[k].completionTime <= rows[i].completionTime)
    && forall i :: 0 <= i < k ==> rows[k].completionTime < rows[i].completionTime
  }

  method FindAnchor(rows: seq<Row>) returns (k: nat)
    requires rows != []
    ensures IsAnchor(rows, k)
  {
    k := 0;
    for n := 1 to |rows|
      invariant k < n
      invariant forall i :: 0 <= i < n ==> rows[k].completionTime <= rows[i].completionTime
      invariant forall i :: 0 <= i < k ==> rows[k].completionTime < rows[i].completionTime
    {
      if rows[n].completionTime < rows[k].completionTime {
        k := n;
      }
    }
  }

  // Every row is unwrapped against the anchor, in place.
  method AssignUnwrapped(rows: seq<Row>)
    modifies rows
    ensures forall k: nat, i :: IsAnchor(rows, k) && 0 <= i < |rows| ==>
              rows[i].unwrapped
              == Unwrap(Expected(rows[k].completionTime, rows[k].usbFrame, rows[i].completionTime), rows[i].usbFrame)
  {
    if rows == [] {
      return;
    }
    var anchor := FindAnchor(rows);
    hide Unwrap, Expected;
    for n := 0 to |rows|
      invariant forall i :: 0 <= i < n ==>
                  rows[i].unwrapped
                  == Unwrap(Expected(rows[anchor].completionTime, rows[anchor].usbFrame, rows[i].completionTime),
                            rows[i].usbFrame)
    {
      var row := rows[n];
      row.unwrapped :=
        Unwrap(Expected(rows[anchor].completionTime, rows[anchor].usbFrame, row.completionTime), row.usbFrame);
    }
    forall k: nat | IsAnchor(rows, k)
      ensures k == anchor
    {
      AnchorIsUnique(rows, anchor, k);
    }
  }

  lemma {:induction false} AnchorIsUnique(rows: seq<Row>, j: nat, k: nat)
    requires IsAnchor(rows, j) && IsAnchor(rows, k)
    ensures j == k
  {
    var first, second := rows[j].completionTime, rows[k].completionTime;
    assert first <= second <= first;
  }

  function SignedModuloDifference(left: int, right: int): int {
    (left - right + MODULUS / 2) % MODULUS - MODULUS / 2
  }

  // The one representative of the difference in [-1024, 1023].
  lemma {:induction false} SignedDifferenceIff(left: int, right: int, d: int)
    ensures d == SignedModuloDifference(left, right)
            <==> -1024 <= d <= 1023 && (d - (left - right)) % MODULUS == 0
  {
  }
}
