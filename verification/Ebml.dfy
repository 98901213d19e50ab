/** EBML elements: the printer of the writer and an independent reader (RFC 8794, sections 4 to 6). */
module Ebml {
  import opened Bytes

  // ---------------------------------------------------------------------
  // Printing.

  function Pow128(k: nat): (p: nat)
    ensures p >= 1
  {
    if k == 0 then 1 else 128 * Pow128(k - 1)
  }

  // Sizes above this have no 8-byte encoding that is distinct from "unknown".
  const SIZE_LIMIT: nat := 0xff_ffff_ffff_ffff

  predicate FitsSize(size: nat) {
    size < SIZE_LIMIT
  }

  function WidthFrom(size: nat, width: nat): (w: Option<nat>)
    requires 1 <= width <= 9
    ensures w.Some? ==> width <= w.value <= 8 && size < Pow128(w.value) - 1
    decreases 9 - width
  {
    if width == 9 then None
    else if size < Pow128(width) - 1 then Some(width)
    else WidthFrom(size, width + 1)
  }

  function SizeWidth(size: nat): Option<nat> {
    WidthFrom(size, 1)
  }

  lemma {:induction false} SizeWidthDefined(size: nat)
    ensures SizeWidth(size).Some? <==> FitsSize(size)
    ensures SizeWidth(size).Some? ==> size < Pow128(SizeWidth(size).value) - 1
  {
    assert Pow128(7) == 0x2_0000_0000_0000;
    assert Pow128(8) == SIZE_LIMIT + 1;
  }

  lemma {:induction false} MarkerFits(size: nat, width: nat)
    requires 1 <= width <= 8 && size < Pow128(width)
    ensures size + Pow128(width) < Pow256(width)
  {
    MarkerLeavesRoom(width);
  }

  lemma {:induction false} MarkerLeavesRoom(width: nat)
    ensures Pow128(width) <= Pow256(width)
    ensures width >= 1 ==> 2 * Pow128(width) <= Pow256(width)
  {
    if width > 0 {
      MarkerLeavesRoom(width - 1);
    }
  }

  // The size with its length marker: `size | 1 << 7 * width`, where the marker
  // lies above every bit of the size.
  function EncodeSize(size: nat): (s: Data)
    requires FitsSize(size)
  {
    SizeWidthDefined(size);
    var width := SizeWidth(size).value;
    MarkerFits(size, width);
    BigEndian(size + Pow128(width), width)
  }

  function EncodeId(id: nat): (s: Data)
    requires id < Pow256(4)
  {
    TrimLeadingZeros(BigEndian(id, 4))
  }

  function EncodeUint(value: U64): (s: Data) {
    assert Pow256(8) == U64_MAX + 1;
    TrimLeadingZeros(BigEndian(value, 8))
  }

  // The four classes of element IDs; the marker bit is part of the ID.
  predicate ValidId(id: nat) {
    || 0x80 <= id < 0x100
    || 0x4000 <= id < 0x8000
    || 0x20_0000 <= id < 0x40_0000
    || 0x1000_0000 <= id < 0x2000_0000
  }

  datatype Node = Node(id: nat, payload: Data) {
    predicate Printable() { ValidId(id) && FitsSize(|payload|) }
  }

  lemma {:induction false} ValidIdFits(id: nat)
    requires ValidId(id)
    ensures id < Pow256(4)
  {
    assert Pow256(4) == 0x1_0000_0000;
  }

  function Element(id: nat, payload: Data): Data
    requires ValidId(id) && FitsSize(|payload|)
  {
    ValidIdFits(id);
    EncodeId(id) + EncodeSize(|payload|) + payload
  }

  predicate AllPrintable(nodes: seq<Node>) {
    forall k :: 0 <= k < |nodes| ==> nodes[k].Printable()
  }

  function PrintNodes(nodes: seq<Node>): Data
    requires AllPrintable(nodes)
  {
    if nodes == [] then []
    else
      var last := nodes[|nodes| - 1];
      PrintNodes(nodes[..|nodes| - 1]) + Element(last.id, last.payload)
  }

  lemma {:induction false} PrintNodesSnoc(nodes: seq<Node>, last: Node)
    requires AllPrintable(nodes) && last.Printable()
    ensures PrintNodes(nodes + [last]) == PrintNodes(nodes) + Element(last.id, last.payload)
  {
    assert (nodes + [last])[..|nodes|] == nodes;
  }

  // ---------------------------------------------------------------------
  // Reading.

  // Length in bytes announced by the leading bits of the first byte.
  function AnnouncedWidth(first: Byte): (w: Option<nat>)
    ensures w.Some? ==> 1 <= w.value <= 8
  {
    if first >= 0x80 then Some(1)
    else if first >= 0x40 then Some(2)
    else if first >= 0x20 then Some(3)
    else if first >= 0x10 then Some(4)
    else if first >= 0x08 then Some(5)
    else if first >= 0x04 then Some(6)
    else if first >= 0x02 then Some(7)
    else if first >= 0x01 then Some(8)
    else None
  }

  datatype Size = Known(size: nat) | Unknown

  // An ID keeps its marker; at most four bytes. Returns the rest of the input.
  function ReadId(s: Data): (r: Option<(nat, Data)>)
    ensures r.Some? ==> |r.value.1| < |s|
  {
    if s == [] then None
    else
      match AnnouncedWidth(s[0])
      case None => None
      case Some(w) => if w > 4 || w > |s| then None else Some((BigEndianValue(s[..w]), s[w..]))
  }

  // A size drops its marker; all value bits set means "unknown".
  function ReadSize(s: Data): (r: Option<(Size, Data)>)
    ensures r.Some? ==> |r.value.1| < |s|
  {
    if s == [] then None
    else
      match AnnouncedWidth(s[0])
      case None => None
      case Some(w) =>
        if w > |s| then None
        else
          var value := BigEndianValue(s[..w]) % Pow128(w);
          Some((if value == Pow128(w) - 1 then Unknown else Known(value), s[w..]))
  }

  function ReadNode(s: Data): (r: Option<(Node, Data)>)
    ensures r.Some? ==> |r.value.1| < |s|
  {
    match ReadId(s)
    case None => None
    case Some((id, afterId)) =>
      match ReadSize(afterId)
      case None => None
      case Some((size, body)) =>
        if size.Unknown? || size.size > |body| then None
        else Some((Node(id, body[..size.size]), body[size.size..]))
  }

  function ReadNodes(s: Data): Option<seq<Node>>
    decreases |s|
  {
    if s == [] then Some([])
    else
      match ReadNode(s)
      case None => None
      case Some((node, rest)) =>
        match ReadNodes(rest)
        case None => None
        case Some(nodes) => Some([node] + nodes)
  }

  // ---------------------------------------------------------------------
  // Round trips.

  lemma {:induction false} FirstByteOf(n: nat, width: nat)
    requires 1 <= width && n < Pow256(width)
    ensures 0 <= n / Pow256(width - 1) < 256 && BigEndian(n, width)[0] == n / Pow256(width - 1)
  {
    LeadingDigit(n, Pow256(width - 1));
  }

  lemma {:induction false} PowTable()
    ensures Pow256(0) == 1 && Pow256(1) == 0x100 && Pow256(2) == 0x1_0000 && Pow256(3) == 0x100_0000
    ensures Pow256(4) == 0x1_0000_0000 && Pow256(5) == 0x100_0000_0000
    ensures Pow256(6) == 0x1_0000_0000_0000 && Pow256(7) == 0x100_0000_0000_0000
    ensures Pow128(1) == 0x80 && Pow128(2) == 0x4000 && Pow128(3) == 0x20_0000 && Pow128(4) == 0x1000_0000
    ensures Pow128(5) == 0x8_0000_0000 && Pow128(6) == 0x400_0000_0000
    ensures Pow128(7) == 0x2_0000_0000_0000 && Pow128(8) == 0x100_0000_0000_0000
  {
  }

  // The marker bit in the first byte of a `width`-byte number.
  function MarkerBit(width: nat): (bit: nat)
    requires 1 <= width <= 8
    ensures 1 <= bit <= 0x80
    ensures forall first: Byte :: bit <= first < 2 * bit ==> AnnouncedWidth(first) == Some(width)
  {
    match width
    case 1 => 0x80
    case 2 => 0x40
    case 3 => 0x20
    case 4 => 0x10
    case 5 => 0x08
    case 6 => 0x04
    case 7 => 0x02
    case 8 => 0x01
  }

  lemma {:induction false} MarkerIsLeadingBit(width: nat)
    requires 1 <= width <= 8
    ensures Pow128(width) == MarkerBit(width) * Pow256(width - 1)
  {
    PowTable();
  }

  lemma {:induction false} QuotientRange(n: nat, c: nat, unit: nat)
    requires unit >= 1 && c * unit <= n < 2 * (c * unit)
    ensures c <= n / unit < 2 * c
  {
    var q := n / unit;
    assert q * unit <= n < q * unit + unit;
    MulMonotone(q + 1, c, unit);
    MulMonotone(2 * c, q, unit);
  }

  // A number between the marker of `width` and twice that marker announces
  // `width` in its first byte.
  lemma {:induction false} MarkerAnnounces(n: nat, width: nat)
    requires 1 <= width <= 8 && Pow128(width) <= n < 2 * Pow128(width) && n < Pow256(width)
    ensures AnnouncedWidth(BigEndian(n, width)[0]) == Some(width)
  {
    FirstByteOf(n, width);
    MarkerIsLeadingBit(width);
    QuotientRange(n, MarkerBit(width), Pow256(width - 1));
  }

  lemma {:induction false} SizeRoundTrip(size: nat, rest: Data)
    requires FitsSize(size)
    ensures ReadSize(EncodeSize(size) + rest) == Some((Known(size), rest))
  {
    SizeWidthDefined(size);
    var width := SizeWidth(size).value;
    MarkerFits(size, width);
    var marked := size + Pow128(width);
    MarkerAnnounces(marked, width);
    BigEndianRoundTrip(marked, width);
    assert (EncodeSize(size) + rest)[..width] == EncodeSize(size);
    assert (EncodeSize(size) + rest)[width..] == rest;
    MarkerDrops(size, Pow128(width));
  }

  lemma {:induction false} MarkerDrops(size: nat, marker: nat)
    requires size < marker
    ensures (size + marker) % marker == size
  {
    var n := size + marker;
    assert n == n / marker * marker + n % marker;
    QuotientRange(n, 1, marker);
  }

  function IdWidth(id: nat): (w: nat)
    requires ValidId(id)
    ensures 1 <= w <= 4
  {
    if id < 0x100 then 1 else if id < 0x8000 then 2 else if id < 0x40_0000 then 3 else 4
  }

  lemma {:induction false} EncodeIdIsMinimal(id: nat)
    requires ValidId(id)
    ensures id < Pow256(IdWidth(id)) && id < Pow256(4)
    ensures EncodeId(id) == BigEndian(id, IdWidth(id))
    ensures AnnouncedWidth(EncodeId(id)[0]) == Some(IdWidth(id))
  {
    PowTable();
    var w := IdWidth(id);
    MarkerAnnounces(id, w);
    FirstByteOf(id, w);
    if w <= 3 { BigEndianWiden(id, 3); }
    if w <= 2 { BigEndianWiden(id, 2); }
    if w <= 1 { BigEndianWiden(id, 1); }
    TrimToWidth(id, w);
  }

  // Trimming the four-byte form removes exactly the bytes above `w`.
  lemma {:induction false} TrimToWidth(id: nat, w: nat)
    requires 1 <= w <= 4 && id < Pow256(w) && id < Pow256(4)
    requires BigEndian(id, w)[0] != 0
    ensures EncodeId(id) == BigEndian(id, w)
  {
    if w == 4 {
    } else {
      BigEndianWiden(id, w);
      TrimOneZero(BigEndian(id, w));
      if w == 2 {
        BigEndianWiden(id, 3);
        TrimOneZero(BigEndian(id, 3));
      } else if w == 1 {
        BigEndianWiden(id, 2);
        TrimOneZero(BigEndian(id, 2));
        BigEndianWiden(id, 3);
        TrimOneZero(BigEndian(id, 3));
      }
    }
  }

  lemma {:induction false} TrimOneZero(s: Data)
    requires |s| >= 1
    ensures TrimLeadingZeros([0] + s) == TrimLeadingZeros(s)
  {
    assert ([0] + s)[1..] == s;
  }

  lemma {:induction false} IdRoundTrip(id: nat, rest: Data)
    requires ValidId(id)
    ensures id < Pow256(4)
    ensures ReadId(EncodeId(id) + rest) == Some((id, rest))
  {
    EncodeIdIsMinimal(id);
    BigEndianRoundTrip(id, IdWidth(id));
    assert (EncodeId(id) + rest)[..IdWidth(id)] == EncodeId(id);
    assert (EncodeId(id) + rest)[IdWidth(id)..] == rest;
  }

  lemma {:induction false} NodeRoundTrip(id: nat, payload: Data, rest: Data)
    requires ValidId(id) && FitsSize(|payload|)
    ensures ReadNode(Element(id, payload) + rest) == Some((Node(id, payload), rest))
  {
    ValidIdFits(id);
    var afterId := EncodeSize(|payload|) + (payload + rest);
    assert Element(id, payload) + rest == EncodeId(id) + afterId;
    IdRoundTrip(id, afterId);
    SizeRoundTrip(|payload|, payload + rest);
    assert (payload + rest)[..|payload|] == payload && (payload + rest)[|payload|..] == rest;
  }

  function Prepend(first: seq<Node>, rest: Option<seq<Node>>): Option<seq<Node>> {
    match rest
    case None => None
    case Some(more) => Some(first + more)
  }

  lemma {:induction false} PrependTwice(a: seq<Node>, b: seq<Node>, rest: Option<seq<Node>>)
    ensures Prepend(a, Prepend(b, rest)) == Prepend(a + b, rest)
  {
    if rest.Some? {
      assert a + (b + rest.value) == (a + b) + rest.value;
    }
  }

  lemma {:induction false} ReadNodesCons(node: Node, s: Data, rest: Data)
    requires ReadNode(s) == Some((node, rest))
    ensures ReadNodes(s) == Prepend([node], ReadNodes(rest))
  {
  }

  lemma {:induction false} ReadAfter(node: Node, rest: Data)
    requires node.Printable()
    ensures ReadNodes(Element(node.id, node.payload) + rest) == Prepend([node], ReadNodes(rest))
  {
    NodeRoundTrip(node.id, node.payload, rest);
    ReadNodesCons(node, Element(node.id, node.payload) + rest, rest);
  }

  // Reading what was printed gives the same elements, whatever follows them.
  lemma {:induction false} NodesRoundTrip(nodes: seq<Node>, rest: Data)
    requires AllPrintable(nodes)
    ensures ReadNodes(PrintNodes(nodes) + rest) == Prepend(nodes, ReadNodes(rest))
    decreases |nodes|
  {
    if nodes == [] {
      assert PrintNodes(nodes) + rest == rest;
      PrependNothing(ReadNodes(rest));
    } else {
      var init, last := nodes[..|nodes| - 1], nodes[|nodes| - 1];
      assert nodes == init + [last];
      assert last.Printable();
      var printed := Element(last.id, last.payload);
      NodesRoundTrip(init, printed + rest);
      ReadAfter(last, rest);
      PrependTwice(init, [last], ReadNodes(rest));
      Associate(PrintNodes(init), printed, rest);
    }
  }

  lemma {:induction false} PrependNothing(rest: Option<seq<Node>>)
    ensures Prepend([], rest) == rest
  {
    if rest.Some? {
      assert [] + rest.value == rest.value;
    }
  }

  lemma {:induction false} ReadPrintedNodes(nodes: seq<Node>)
    requires AllPrintable(nodes)
    ensures ReadNodes(PrintNodes(nodes)) == Some(nodes)
  {
    NodesRoundTrip(nodes, []);
    assert PrintNodes(nodes) + [] == PrintNodes(nodes);
    assert nodes + [] == nodes;
  }

  // Unsigned integers are printed in the fewest bytes that hold them.
  lemma {:induction false} UintRoundTrip(value: U64)
    ensures BigEndianValue(EncodeUint(value)) == value && 1 <= |EncodeUint(value)| <= 8
    ensures |EncodeUint(value)| > 1 ==> EncodeUint(value)[0] != 0
  {
    assert Pow256(8) == U64_MAX + 1;
    BigEndianRoundTrip(value, 8);
    TrimKeepsValue(BigEndian(value, 8));
  }
}
