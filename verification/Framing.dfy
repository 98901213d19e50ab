/** Boundary-token accounting of a capture, and its agreement with the decoder. */
module Framing {
  import opened Bytes
  import opened Jpeg
  import opened Stream

  datatype Descriptor = Descriptor(completionTime: real, usbFrame: nat)

  // A completed transfer with the boundary tokens or headers found in it.
  datatype Transfer = Transfer(endpoint: Endpoint, marks: seq<Descriptor>)

  datatype Mark = Mark(endpoint: Endpoint, at: Descriptor)

  // Candidates pair each consumed boundary with the header that consumed it.
  datatype Tally = Tally(
    pending: Option<Descriptor>, candidates: seq<(Descriptor, Descriptor)>, overwritten: nat, unmatched: nat)

  function Account(t: Tally, m: Mark): Tally {
    if m.endpoint.Boundary? then
      t.(pending := Some(m.at), overwritten := t.overwritten + if t.pending.Some? then 1 else 0)
    else
      match t.pending
      case Some(boundary) => t.(pending := None, candidates := t.candidates + [(boundary, m.at)])
      case None => t.(unmatched := t.unmatched + 1)
  }

  function TallyOf(marks: seq<Mark>): Tally {
    if marks == [] then Tally(None, [], 0, 0)
    else Account(TallyOf(marks[..|marks| - 1]), marks[|marks| - 1])
  }

  function MarksOf(t: Transfer): (marks: seq<Mark>)
    ensures |marks| == |t.marks|
  {
    seq(|t.marks|, k requires 0 <= k < |t.marks| => Mark(t.endpoint, t.marks[k]))
  }

  function AllMarks(timeline: seq<Transfer>): seq<Mark> {
    if timeline == [] then []
    else AllMarks(timeline[..|timeline| - 1]) + MarksOf(timeline[|timeline| - 1])
  }

  lemma {:induction false} TallySnoc(marks: seq<Mark>, m: Mark)
    ensures TallyOf(marks + [m]) == Account(TallyOf(marks), m)
  {
    assert (marks + [m])[..|marks|] == marks;
  }

  lemma {:induction false} TallyStep(before: seq<Mark>, marks: seq<Mark>, k: nat)
    requires k < |marks|
    ensures TallyOf(before + marks[..k + 1]) == Account(TallyOf(before + marks[..k]), marks[k])
  {
    TallySnoc(before + marks[..k], marks[k]);
    assert before + marks[..k] + [marks[k]] == before + marks[..k + 1];
  }

  // One transfer's boundary tokens or headers, in order.
  method AccountTransfer(transfer: Transfer, t: Tally, ghost before: seq<Mark>) returns (t': Tally)
    requires t == TallyOf(before)
    ensures t' == TallyOf(before + MarksOf(transfer))
  {
    ghost var marks := MarksOf(transfer);
    var flag, lastBoundary := t.pending.Some?, t.pending;
    var candidates, overwritten, unmatched := t.candidates, t.overwritten, t.unmatched;
    assert before + marks[..0] == before;
    hide TallyOf;
    var k := 0;
    while k < |transfer.marks|
      invariant 0 <= k <= |transfer.marks| && flag == lastBoundary.Some?
      invariant TallyOf(before + marks[..k]) == Tally(lastBoundary, candidates, overwritten, unmatched)
    {
      TallyStep(before, marks, k);
      if transfer.endpoint.Boundary? {
        if flag {
          overwritten := overwritten + 1;
        }
        flag, lastBoundary := true, Some(transfer.marks[k]);
      } else if flag && lastBoundary.Some? {
        candidates := candidates + [(lastBoundary.value, transfer.marks[k])];
        flag, lastBoundary := false, None;
      } else {
        unmatched := unmatched + 1;
      }
      k := k + 1;
    }
    assert marks[..k] == marks;
    t' := Tally(lastBoundary, candidates, overwritten, unmatched);
  }

  // The report's loop: a flag, the last boundary, and the counters.
  method SimulateOrdering(timeline: seq<Transfer>)
    returns (candidates: seq<(Descriptor, Descriptor)>, overwritten: nat, unmatched: nat, leftPending: bool)
    ensures var t := TallyOf(AllMarks(timeline));
            candidates == t.candidates && overwritten == t.overwritten && unmatched == t.unmatched
            && leftPending == t.pending.Some?
  {
    var t := Tally(None, [], 0, 0);
    assert timeline[..0] == [];
    for i := 0 to |timeline|
      invariant t == TallyOf(AllMarks(timeline[..i]))
    {
      assert timeline[..i + 1][..i] == timeline[..i];
      t := AccountTransfer(timeline[i], t, AllMarks(timeline[..i]));
    }
    assert timeline[..|timeline|] == timeline;
    candidates, overwritten, unmatched, leftPending := t.candidates, t.overwritten, t.unmatched, t.pending.Some?;
  }

  function CountOn(marks: seq<Mark>, endpoint: Endpoint): nat {
    if marks == [] then 0
    else CountOn(marks[..|marks| - 1], endpoint) + if marks[|marks| - 1].endpoint == endpoint then 1 else 0
  }

  // Conservation: every boundary is consumed, overwritten or pending, and every
  // header is a candidate or found no boundary.
  lemma {:induction false} TokensAreConserved(marks: seq<Mark>)
    ensures var t := TallyOf(marks);
            && CountOn(marks, Boundary) == |t.candidates| + t.overwritten + (if t.pending.Some? then 1 else 0)
            && CountOn(marks, Video) == |t.candidates| + t.unmatched
  {
    if marks != [] {
      TokensAreConserved(marks[..|marks| - 1]);
    }
  }

  // ---------------------------------------------------------------------
  // The marks of a packet sequence.

  // The tool tests the endpoint file at the packet's offset, so a short packet
  // may borrow bytes from the next one.
  predicate LooksLikeHeader(ep82: Data, offset: nat) {
    offset + 6 <= |ep82| && ep82[offset..offset + 6] == SYNC
  }

  function MarkOf(packet: Packet, offset: nat, ep82: Data, at: Descriptor): seq<Mark> {
    if packet.endpoint.Boundary? then if IsBoundaryToken(packet.data) then [Mark(Boundary, at)] else []
    else if packet.data != [] && LooksLikeHeader(ep82, offset) then [Mark(Video, at)]
    else []
  }

  function PacketMarks(packets: seq<Packet>, at: seq<Descriptor>, ep82: Data): seq<Mark>
    requires |at| == |packets|
  {
    if packets == [] then []
    else
      var n := |packets| - 1;
      PacketMarks(packets[..n], at[..n], ep82) + MarkOf(packets[n], |VideoBytes(packets[..n])|, ep82, at[n])
  }

  // Each video packet that the tool takes for a header is long enough to be one.
  predicate HeadersAreLong(packets: seq<Packet>, ep82: Data) {
    packets == []
    || (HeadersAreLong(packets[..|packets| - 1], ep82)
        && (var last := packets[|packets| - 1];
            (last.endpoint.Video? && last.data != []
             && LooksLikeHeader(ep82, |VideoBytes(packets[..|packets| - 1])|)) ==> |last.data| >= 8))
  }

  // The packets that open a record, in order.
  function Openers(packets: seq<Packet>): (openers: seq<nat>)
    ensures forall k :: 0 <= k < |openers| ==> openers[k] < |packets|
  {
    if packets == [] then []
    else
      var n := |packets| - 1;
      var earlier := Openers(packets[..n]);
      if packets[n].endpoint.Video? && IsHeader(packets[n].data) && LayoutOf(packets[..n]).armed then earlier + [n]
      else earlier
  }

  // Candidate k pairs a boundary with the mark of the packet that opens record k.
  ghost predicate CandidatesOpen(
    candidates: seq<(Descriptor, Descriptor)>, packets: seq<Packet>, at: seq<Descriptor>, records: seq<RawRecord>)
    requires |at| == |packets|
  {
    var openers := Openers(packets);
    && |candidates| == |records| == |openers|
    && forall k :: 0 <= k < |openers| ==>
         packets[openers[k]] == Packet(Video, records[k].head) && candidates[k].1 == at[openers[k]]
  }

  // Without resets, the tool's candidates are the headers the decoder accepts,
  // and its flag is the decoder's.
  lemma {:induction false} CandidatesAreAcceptedHeaders(packets: seq<Packet>, at: seq<Descriptor>, ep82: Data)
    requires |at| == |packets| && VideoBytes(packets) <= ep82 && HeadersAreLong(packets, ep82)
    ensures var t, l := TallyOf(PacketMarks(packets, at, ep82)), LayoutOf(packets);
            CandidatesOpen(t.candidates, packets, at, l.records) && t.pending.Some? == l.armed
  {
    hide TallyOf, StartsWithSync;
    if packets == [] {
      NothingTallied();
    } else {
      var n := |packets| - 1;
      var init, last := packets[..n], packets[n];
      assert VideoBytes(init) <= VideoBytes(packets);
      CandidatesAreAcceptedHeaders(init, at[..n], ep82);
      var marks := PacketMarks(init, at[..n], ep82);
      var more := MarkOf(last, |VideoBytes(init)|, ep82, at[n]);
      HeaderTestsAgree(last, VideoBytes(init), ep82);
      if more == [] {
        assert marks + more == marks;
      } else {
        TallySnoc(marks, more[0]);
        assert more == [more[0]];
      }
      hide PacketMarks, VideoBytes, LayoutOf, CandidatesOpen;
      OpenStep(TallyOf(marks), init, last, at[..n], at[n], LayoutOf(init));
      assert init + [last] == packets && at[..n] + [at[n]] == at;
      OpenersSnoc(init, last);
    }
  }

  lemma {:induction false} NothingTallied()
    ensures TallyOf([]) == Tally(None, [], 0, 0)
  {
  }

  lemma {:induction false} OpenersSnoc(packets: seq<Packet>, last: Packet)
    ensures Openers(packets + [last])
            == if last.endpoint.Video? && IsHeader(last.data) && LayoutOf(packets).armed
               then Openers(packets) + [|packets|] else Openers(packets)
    ensures LayoutOf(packets + [last]) == Extend(LayoutOf(packets), last)
  {
    hide LayoutOf, StartsWithSync;
    assert (packets + [last])[..|packets|] == packets;
    LayoutSnoc(packets, last);
  }

  // What one packet adds on both sides.
  lemma {:induction false} OpenStep(
    t: Tally, packets: seq<Packet>, last: Packet, at: seq<Descriptor>, stamp: Descriptor, l: Layout)
    requires |at| == |packets| && l == LayoutOf(packets)
    requires CandidatesOpen(t.candidates, packets, at, l.records) && t.pending.Some? == l.armed
    ensures var t' := if last.endpoint.Boundary? && IsBoundaryToken(last.data) then Account(t, Mark(Boundary, stamp))
                      else if last.endpoint.Video? && IsHeader(last.data) then Account(t, Mark(Video, stamp))
                      else t;
            var l' := Extend(l, last);
            && CandidatesOpen(t'.candidates, packets + [last], at + [stamp], l'.records)
            && t'.pending.Some? == l'.armed
  {
    OpenersSnoc(packets, last);
    hide LayoutOf, Openers, StartsWithSync;
  }

  lemma {:induction false} HeaderTestsAgree(packet: Packet, before: Data, ep82: Data)
    requires packet.endpoint.Video? ==> before + packet.data <= ep82
    requires packet.endpoint.Video? && packet.data != [] && LooksLikeHeader(ep82, |before|) ==> |packet.data| >= 8
    ensures packet.endpoint.Video? ==>
              (packet.data != [] && LooksLikeHeader(ep82, |before|) <==> IsHeader(packet.data))
  {
    if packet.endpoint.Video? && |packet.data| >= 8 {
      var both := before + packet.data;
      assert ep82[..|both|] == both;
      assert ep82[|before|..|before| + 6] == ep82[..|both|][|before|..|before| + 6];
      assert both[|before|..|before| + 6] == packet.data[..6];
    }
  }

  // The packets of the example: a boundary token, then six bytes of 0xff.
  const TOKEN: Packet := Packet(Boundary, [8])
  const SHORT: Packet := Packet(Video, SYNC)

  lemma {:induction false} ShortMarks(at: Descriptor)
    ensures VideoBytes([TOKEN, SHORT]) == SYNC
    ensures PacketMarks([TOKEN, SHORT], [at, at], SYNC) == [Mark(Boundary, at), Mark(Video, at)]
  {
    var packets := [TOKEN, SHORT];
    assert packets[..1] == [TOKEN] && [TOKEN][..0] == [] && [at, at][..1] == [at] && [at][..0] == [];
    assert SYNC[0..6] == SYNC && [] + SYNC == SYNC && VideoBytes([TOKEN]) == [];
    assert PacketMarks([TOKEN], [at], SYNC) == [Mark(Boundary, at)];
  }

  lemma {:induction false} ShortTally(at: Descriptor)
    ensures TallyOf([Mark(Boundary, at), Mark(Video, at)]).candidates == [(at, at)]
  {
    NothingTallied();
    hide TallyOf;
    TallySnoc([], Mark(Boundary, at));
    TallySnoc([Mark(Boundary, at)], Mark(Video, at));
    assert [] + [Mark(Boundary, at)] == [Mark(Boundary, at)];
    assert [Mark(Boundary, at)] + [Mark(Video, at)] == [Mark(Boundary, at), Mark(Video, at)];
  }

  lemma {:induction false} ShortLayout()
    ensures LayoutOf([TOKEN, SHORT]) == Layout(true, SYNC, [])
  {
    NothingLaidOut();
    assert !IsHeader(SYNC);
    hide LayoutOf, StartsWithSync;
    LayoutSnoc([], TOKEN);
    LayoutSnoc([TOKEN], SHORT);
    assert [] + [TOKEN] == [TOKEN] && [TOKEN] + [SHORT] == [TOKEN, SHORT] && [] + SYNC == SYNC;
  }

  lemma {:induction false} NothingLaidOut()
    ensures LayoutOf([]) == Layout(false, [], [])
  {
  }

  // A six-byte packet of 0xff is a header to the tool and not to the decoder.
  lemma {:induction false} ShortHeaderDisagrees(at: Descriptor)
    ensures var packets := [TOKEN, SHORT];
            && |TallyOf(PacketMarks(packets, [at, at], VideoBytes(packets))).candidates| == 1
            && LayoutOf(packets).records == []
  {
    ShortMarks(at);
    ShortTally(at);
    ShortLayout();
    hide PacketMarks, VideoBytes, TallyOf, LayoutOf;
  }

  // ---------------------------------------------------------------------
  // The timeline of transfers and the packets in them.

  // One completed transfer: its non-empty packets and their descriptors.
  datatype Burst = Burst(endpoint: Endpoint, packets: seq<Data>, at: seq<Descriptor>)

  predicate Aligned(bursts: seq<Burst>) {
    forall k :: 0 <= k < |bursts| ==> |bursts[k].packets| == |bursts[k].at|
  }

  function BurstPackets(burst: Burst): seq<Packet> {
    seq(|burst.packets|, k requires 0 <= k < |burst.packets| => Packet(burst.endpoint, burst.packets[k]))
  }

  function AllPackets(bursts: seq<Burst>): seq<Packet> {
    if bursts == [] then [] else AllPackets(bursts[..|bursts| - 1]) + BurstPackets(bursts[|bursts| - 1])
  }

  function AllStamps(bursts: seq<Burst>): (at: seq<Descriptor>)
    requires Aligned(bursts)
    ensures |at| == |AllPackets(bursts)|
  {
    if bursts == [] then [] else AllStamps(bursts[..|bursts| - 1]) + bursts[|bursts| - 1].at
  }

  function StampsOf(marks: seq<Mark>): (at: seq<Descriptor>)
    ensures |at| == |marks|
  {
    seq(|marks|, k requires 0 <= k < |marks| => marks[k].at)
  }

  // What the tool finds in the first `n` packets of a burst that starts at `offset`.
  function BurstMarks(burst: Burst, n: nat, offset: nat, ep82: Data): (marks: seq<Mark>)
    requires n <= |burst.packets| == |burst.at|
    ensures forall k :: 0 <= k < |marks| ==> marks[k].endpoint == burst.endpoint
  {
    if n == 0 then []
    else
      var packet := Packet(burst.endpoint, burst.packets[n - 1]);
      BurstMarks(burst, n - 1, offset, ep82)
      + MarkOf(packet, offset + |VideoBytes(BurstPackets(burst)[..n - 1])|, ep82, burst.at[n - 1])
  }

  // The transfers the tool walks through, in capture order.
  function TimelineOf(bursts: seq<Burst>, ep82: Data): seq<Transfer>
    requires Aligned(bursts)
  {
    if bursts == [] then []
    else
      var init, last := bursts[..|bursts| - 1], bursts[|bursts| - 1];
      TimelineOf(init, ep82)
      + [Transfer(last.endpoint,
                  StampsOf(BurstMarks(last, |last.packets|, |VideoBytes(AllPackets(init))|, ep82)))]
  }

  lemma {:induction false} VideoBytesAppend(a: seq<Packet>, b: seq<Packet>)
    ensures VideoBytes(a + b) == VideoBytes(a) + VideoBytes(b)
    decreases |b|
  {
    if b == [] {
      assert a + b == a;
    } else {
      var init, last := b[..|b| - 1], b[|b| - 1];
      VideoBytesAppend(a, init);
      assert (a + b)[..|a + b| - 1] == a + init;
      Associate(VideoBytes(a), VideoBytes(init), if last.endpoint.Video? then last.data else []);
    }
  }

  lemma {:induction false} BurstAddsMarks(
    before: seq<Packet>, at: seq<Descriptor>, burst: Burst, n: nat, ep82: Data)
    requires |at| == |before| && n <= |burst.packets| == |burst.at|
    ensures PacketMarks(before + BurstPackets(burst)[..n], at + burst.at[..n], ep82)
            == PacketMarks(before, at, ep82) + BurstMarks(burst, n, |VideoBytes(before)|, ep82)
  {
    hide VideoBytes, MarkOf;
    var packets := BurstPackets(burst);
    if n == 0 {
      assert before + packets[..0] == before && at + burst.at[..0] == at;
    } else {
      BurstAddsMarks(before, at, burst, n - 1, ep82);
      var all, stamps := before + packets[..n], at + burst.at[..n];
      assert all[..|all| - 1] == before + packets[..n - 1] && stamps[..|all| - 1] == at + burst.at[..n - 1];
      VideoBytesAppend(before, packets[..n - 1]);
      Associate(PacketMarks(before, at, ep82), BurstMarks(burst, n - 1, |VideoBytes(before)|, ep82),
                MarkOf(packets[n - 1], |VideoBytes(before + packets[..n - 1])|, ep82, burst.at[n - 1]));
    }
  }

  // The marks met along the timeline are the marks of the packets in it, so what
  // is proved of the packets' marks is about the candidates the tool counts.
  lemma {:induction false} TimelineShowsPackets(bursts: seq<Burst>, ep82: Data)
    requires Aligned(bursts)
    ensures AllMarks(TimelineOf(bursts, ep82)) == PacketMarks(AllPackets(bursts), AllStamps(bursts), ep82)
  {
    hide VideoBytes, MarkOf, BurstMarks;
    if bursts != [] {
      var init, last := bursts[..|bursts| - 1], bursts[|bursts| - 1];
      TimelineShowsPackets(init, ep82);
      var marks := BurstMarks(last, |last.packets|, |VideoBytes(AllPackets(init))|, ep82);
      BurstAddsMarks(AllPackets(init), AllStamps(init), last, |last.packets|, ep82);
      hide PacketMarks;
      assert BurstPackets(last)[..|last.packets|] == BurstPackets(last) && last.at[..|last.at|] == last.at;
      var transfer := Transfer(last.endpoint, StampsOf(marks));
      assert MarksOf(transfer) == marks;
      var timeline := TimelineOf(bursts, ep82);
      assert timeline[..|timeline| - 1] == TimelineOf(init, ep82);
    }
  }
}
