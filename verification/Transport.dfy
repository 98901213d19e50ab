/** The libusb transfer lifecycle: submission, callbacks, cancellation, reaping and release. */
module Transport {
  import opened Bytes
  import opened Stream

  const TRANSFERS_PER_ENDPOINT: nat := 32
  const SLOT_COUNT: nat := 2 * TRANSFERS_PER_ENDPOINT
  const TRANSFER_OVERFLOW: int := 6

  function SlotEndpoint(index: nat): Endpoint {
    if index % 2 == 0 then Boundary else Video
  }

  datatype SessionEvent =
    | PacketReceived(endpoint: Endpoint, data: Data)
    | PacketError(endpoint: Endpoint, status: int)
    | TransferFailed(endpoint: Endpoint, status: int)
    | SubmitFailed(endpoint: Endpoint, error: int)
    | CallbackPanicked
  {
    predicate EndsSession() {
      TransferFailed? || SubmitFailed? || CallbackPanicked?
    }
  }

  datatype SessionError = TransferAllocation | TransferSubmission(code: int)

  datatype Stats = Stats(packets: nat, nonempty: nat, packetErrors: nat, bytes: nat, transferErrors: nat)

  // How a transfer completed, as the callback finds it. A completed descriptor
  // claims a length, which may exceed the slot's buffer.
  datatype Completion =
    | Completed(length: nat, buffer: Data)
    | DescriptorFailed(descriptorStatus: int)
    | Cancelled
    | Failed(transferStatus: int)

  // Where Rust code may panic inside one callback. Nothing runs after a
  // successful resubmission, so no panic is possible there.
  datatype PanicPoint = NoPanic | BeforeHandling | BeforeSend | BeforeResubmit | AfterFailedSubmit

  // One callback as libusb delivers it, and what it answers to a resubmission.
  datatype Delivery = Delivery(slot: nat, completion: Completion, resubmitResult: int, panic: PanicPoint)

  // What libusb answers to allocation and first submission of one slot.
  datatype OpenAnswer = OpenAnswer(granted: bool, submitResult: int)

  // One call of libusb's event handling: the completions it has to report.
  // Those of transfers it does not own are not reported.
  type Round = seq<Delivery>

  // One call that may report completions and then fail.
  datatype PollCall = PollCall(round: Round, failure: Option<int>)

  ghost predicate Reports(round: Round, slot: nat) {
    exists k :: 0 <= k < |round| && round[k].slot == slot
  }

  // What libusb reports round by round, given the transfers asked to be cancelled.
  type Libusb = (set<nat>, nat) -> Round

  ghost predicate EventuallyReports(libusb: Libusb, cancelled: set<nat>, now: nat, slot: nat) {
    exists later: nat :: later >= now && Reports(libusb(cancelled, later), slot)
  }

  // A cancelled transfer is completed in some later round, whatever the time, if
  // it is still in flight then. Nothing is promised about the others.
  ghost predicate Fair(libusb: Libusb) {
    forall cancelled: set<nat>, now: nat, slot: nat :: slot in cancelled ==>
      EventuallyReports(libusb, cancelled, now, slot)
  }

  function Range(n: nat): (r: seq<nat>)
    ensures |r| == n
    ensures forall i :: 0 <= i < n ==> r[i] == i
  {
    seq(n, i => i)
  }

  function FirstSlots(n: nat): (slots: set<nat>)
    ensures forall i: nat :: i in slots <==> i < n
  {
    if n == 0 then {} else FirstSlots(n - 1) + {n - 1}
  }

  // ---------------------------------------------------------------------
  // What a run reports: each callback's statistics match its events.

  datatype Totals = Totals(
    received: nat, bytes: nat, packetErrors: nat, transferErrors: nat, ending: nat, panics: nat)

  function AddEvent(t: Totals, e: SessionEvent): Totals {
    match e
    case PacketReceived(_, data) => t.(received := t.received + 1, bytes := t.bytes + |data|)
    case PacketError(_, _) => t.(packetErrors := t.packetErrors + 1)
    case TransferFailed(_, _) => t.(transferErrors := t.transferErrors + 1, ending := t.ending + 1)
    case SubmitFailed(_, _) => t.(ending := t.ending + 1)
    case CallbackPanicked => t.(ending := t.ending + 1, panics := t.panics + 1)
  }

  function TotalsOf(log: seq<SessionEvent>): Totals {
    if log == [] then Totals(0, 0, 0, 0, 0, 0)
    else AddEvent(TotalsOf(log[..|log| - 1]), log[|log| - 1])
  }

  lemma {:induction false} TotalsSnoc(log: seq<SessionEvent>, e: SessionEvent)
    ensures TotalsOf(log + [e]) == AddEvent(TotalsOf(log), e)
  {
    assert (log + [e])[..|log|] == log;
  }

  // Unless a callback panicked, the counters are exactly those of the log.
  ghost predicate Accounted(stats: Stats, t: Totals) {
    t.panics == 0 ==>
      && stats.nonempty == t.received && stats.bytes == t.bytes
      && stats.packetErrors == t.packetErrors && stats.transferErrors == t.transferErrors
      && stats.packets >= stats.nonempty + stats.packetErrors
  }

  // ---------------------------------------------------------------------
  // One callback, as a function of the shared flag and counters.

  datatype Effect = Effect(running: bool, stats: Stats, sent: seq<SessionEvent>, resubmitted: bool)

  // Counters and the event owed, before anything is sent.
  function Noted(stats: Stats, d: Delivery): (Stats, Option<SessionEvent>) {
    var endpoint := SlotEndpoint(d.slot);
    match d.completion
    case Completed(length, buffer) =>
      var seen := stats.(packets := stats.packets + 1);
      if length > |buffer| then
        (seen.(packetErrors := stats.packetErrors + 1), Some(PacketError(endpoint, TRANSFER_OVERFLOW)))
      else if length > 0 then
        (seen.(nonempty := stats.nonempty + 1, bytes := stats.bytes + length),
         Some(PacketReceived(endpoint, buffer[..length])))
      else (seen, None)
    case DescriptorFailed(status) =>
      (stats.(packets := stats.packets + 1, packetErrors := stats.packetErrors + 1),
       Some(PacketError(endpoint, status)))
    case Cancelled => (stats, None)
    case Failed(status) =>
      (stats.(transferErrors := stats.transferErrors + 1), Some(TransferFailed(endpoint, status)))
  }

  function CallbackEffect(running: bool, stats: Stats, d: Delivery): Effect {
    if d.panic.BeforeHandling? then Effect(false, stats, [CallbackPanicked], false)
    else
      var (stats', owed) := Noted(stats, d);
      var sent := if owed.Some? then [owed.value] else [];
      var still := running && !d.completion.Failed?;
      if d.panic.BeforeSend? then Effect(false, stats', [CallbackPanicked], false)
      else if d.panic.BeforeResubmit? then Effect(false, stats', sent + [CallbackPanicked], false)
      else if !still then Effect(false, stats', sent, false)
      else if d.resubmitResult == 0 then Effect(true, stats', sent, true)
      else if d.panic.AfterFailedSubmit? then Effect(false, stats', sent + [CallbackPanicked], false)
      else Effect(false, stats', sent + [SubmitFailed(SlotEndpoint(d.slot), d.resubmitResult)], false)
  }

  function AddEvents(t: Totals, sent: seq<SessionEvent>): Totals
    decreases |sent|
  {
    if sent == [] then t else AddEvents(AddEvent(t, sent[0]), sent[1..])
  }

  lemma {:induction false} TotalsAppend(log: seq<SessionEvent>, sent: seq<SessionEvent>)
    ensures TotalsOf(log + sent) == AddEvents(TotalsOf(log), sent)
    decreases |sent|
  {
    if sent == [] {
      assert log + sent == log;
    } else {
      TotalsSnoc(log, sent[0]);
      TotalsAppend(log + [sent[0]], sent[1..]);
      assert log + sent == (log + [sent[0]]) + sent[1..];
    }
  }

  lemma {:induction false} AddOne(t: Totals, e: SessionEvent)
    ensures AddEvents(t, [e]) == AddEvent(t, e)
  {
    assert [e][1..] == [];
  }

  lemma {:induction false} AddTwo(t: Totals, e: SessionEvent, f: SessionEvent)
    ensures AddEvents(t, [e] + [f]) == AddEvent(AddEvent(t, e), f)
  {
    assert ([e] + [f])[1..] == [f];
    AddOne(AddEvent(t, e), f);
  }

  // What one callback keeps: accounting, one-way stopping, and no silent stop.
  lemma {:induction false} CallbackKeeps(running: bool, stats: Stats, t: Totals, d: Delivery)
    requires Accounted(stats, t)
    ensures var e := CallbackEffect(running, stats, d);
            var t' := AddEvents(t, e.sent);
            && Accounted(e.stats, t')
            && (e.running ==> running && t'.ending == t.ending)
            && (e.resubmitted <==> e.running)
            && (running && !e.running ==> t'.ending > 0)
            && t'.ending >= t.ending
  {
    var e := CallbackEffect(running, stats, d);
    if |e.sent| == 1 {
      AddOne(t, e.sent[0]);
      assert e.sent == [e.sent[0]];
    } else if |e.sent| >= 2 {
      AddTwo(t, e.sent[0], e.sent[1]);
      assert e.sent == [e.sent[0]] + [e.sent[1]];
    }
  }

  // ---------------------------------------------------------------------
  // The whole session: our fields, libusb's side, and the history.

  datatype SessionState = SessionState(
    // Slot i holds transfer i; the flag says the transfer is submitted.
    submitted: seq<bool>, running: bool, stopped: bool, released: bool, stats: Stats,
    // Transfers libusb owns, those asked to be cancelled, and those freed, in order.
    owned: set<nat>, cancelRequests: set<nat>, freed: seq<nat>,
    // Transfers ever allocated and events ever sent.
    transfers: nat, log: seq<SessionEvent>)

  const OPENING: SessionState :=
    SessionState([], true, false, false, Stats(0, 0, 0, 0, 0), {}, {}, [], 0, [])

  // A slot is flagged exactly when libusb owns its transfer; transfers are freed
  // together, once each, when none is in flight; nobody stops unannounced.
  ghost predicate Sound(s: SessionState) {
    && s.transfers <= SLOT_COUNT
    && FlagsMatch(s)
    && (if s.released then s.stopped && s.submitted == [] && s.freed == Range(s.transfers)
        else |s.submitted| == s.transfers && s.freed == [])
    && (s.stopped || TotalsOf(s.log).ending > 0 <==> !s.running)
    && Accounted(s.stats, TotalsOf(s.log))
  }

  ghost predicate FlagsMatch(s: SessionState) {
    forall i :: i in s.owned <==> 0 <= i < |s.submitted| && s.submitted[i]
  }

  function AfterCallback(s: SessionState, d: Delivery): SessionState
    requires d.slot < |s.submitted|
  {
    var e := CallbackEffect(s.running, s.stats, d);
    s.(running := e.running, stats := e.stats, log := s.log + e.sent,
       owned := if e.resubmitted then s.owned else s.owned - {d.slot},
       submitted := if e.resubmitted then s.submitted else s.submitted[d.slot := false])
  }

  lemma {:induction false} CallbackKeepsSound(s: SessionState, d: Delivery)
    requires Sound(s) && d.slot in s.owned
    ensures d.slot < |s.submitted| && Sound(AfterCallback(s, d))
    ensures AfterCallback(s, d).running ==> s.running
    ensures !s.running ==> AfterCallback(s, d).owned == s.owned - {d.slot}
    ensures s.log <= AfterCallback(s, d).log
  {
    CallbackKeeps(s.running, s.stats, TotalsOf(s.log), d);
    TotalsAppend(s.log, CallbackEffect(s.running, s.stats, d).sent);
    FlagsAfter(s, d);
    hide CallbackEffect, TotalsOf, AddEvents, Accounted, FlagsMatch;
  }

  lemma {:induction false} FlagsAfter(s: SessionState, d: Delivery)
    requires FlagsMatch(s) && d.slot in s.owned
    ensures d.slot < |s.submitted| && FlagsMatch(AfterCallback(s, d))
  {
    hide CallbackEffect;
  }

  // libusb reports, in order, the completions of transfers it still owns.
  function AfterRound(s: SessionState, round: Round): SessionState
    requires forall i :: i in s.owned ==> i < |s.submitted|
    decreases |round|
  {
    if round == [] then s
    else if round[0].slot in s.owned then AfterRound(AfterCallback(s, round[0]), round[1..])
    else AfterRound(s, round[1..])
  }

  lemma {:induction false} RoundKeepsSound(s: SessionState, round: Round)
    requires Sound(s)
    ensures Sound(AfterRound(s, round))
    ensures AfterRound(s, round).running ==> s.running
    ensures AfterRound(s, round).owned <= s.owned && s.log <= AfterRound(s, round).log
    ensures var t := AfterRound(s, round);
            (t.stopped, t.released, t.cancelRequests, t.freed, t.transfers)
            == (s.stopped, s.released, s.cancelRequests, s.freed, s.transfers)
    decreases |round|
  {
    if round != [] {
      if round[0].slot in s.owned {
        CallbackKeepsSound(s, round[0]);
        RoundKeepsSound(AfterCallback(s, round[0]), round[1..]);
      } else {
        RoundKeepsSound(s, round[1..]);
      }
    }
  }

  // Once nothing is running, every reported transfer leaves libusb for good.
  lemma {:induction false} RoundReaps(s: SessionState, round: Round, slot: nat)
    requires Sound(s) && !s.running && Reports(round, slot)
    ensures slot !in AfterRound(s, round).owned
    decreases |round|
  {
    var k :| 0 <= k < |round| && round[k].slot == slot;
    if round[0].slot in s.owned {
      var t := AfterCallback(s, round[0]);
      CallbackKeepsSound(s, round[0]);
      RoundKeepsSound(t, round[1..]);
      if k > 0 {
        assert round[1..][k - 1].slot == slot;
        RoundReaps(t, round[1..], slot);
      }
    } else {
      RoundKeepsSound(s, round[1..]);
      if k > 0 {
        assert round[1..][k - 1].slot == slot;
        RoundReaps(s, round[1..], slot);
      }
    }
  }

  class UsbSession {
    var submitted: seq<bool>
    var running: bool
    var stopped: bool
    var released: bool
    var stats: Stats
    var queue: seq<SessionEvent>
    var owned: set<nat>
    var cancelRequests: set<nat>
    var freed: seq<nat>
    var transfers: nat
    ghost var log: seq<SessionEvent>

    ghost function State(): SessionState
      reads this
    {
      SessionState(submitted, running, stopped, released, stats, owned, cancelRequests, freed, transfers, log)
    }

    constructor ()
      ensures State() == OPENING && queue == []
    {
      submitted, running, stopped, released := [], true, false, false;
      stats, queue := Stats(0, 0, 0, 0, 0), [];
      owned, cancelRequests, freed := {}, {}, [];
      transfers, log := 0, [];
    }

    method Send(e: SessionEvent)
      modifies this`queue, this`log
      ensures queue == old(queue) + [e] && log == old(log) + [e]
    {
      queue, log := queue + [e], log + [e];
    }

    // libusb hands the transfer back and calls us; a panic stays inside.
    method TransferCallback(d: Delivery)
      requires d.slot < |submitted|
      requires d.slot in owned
      modifies this
      ensures State() == AfterCallback(old(State()), d)
      ensures exists sent :: queue == old(queue) + sent && log == old(log) + sent
    {
      ghost var e := CallbackEffect(running, stats, d);
      owned := owned - {d.slot};
      var panicked := HandleCallback(d);
      hide CallbackEffect;
      if panicked {
        running := false;
        submitted := submitted[d.slot := false];
        Send(CallbackPanicked);
      }
      assert queue == old(queue) + e.sent && log == old(log) + e.sent;
      if e.resubmitted {
        assert old(owned) - {d.slot} + {d.slot} == old(owned);
      }
    }

    // The callback's body; the result says whether it panicked on the way.
    method HandleCallback(d: Delivery) returns (panicked: bool)
      requires d.slot < |submitted|
      modifies this`running, this`stats, this`queue, this`log, this`owned, this`submitted
      ensures var e := CallbackEffect(old(running), old(stats), d);
              && stats == e.stats
              && (if panicked then !e.running && !e.resubmitted && log + [CallbackPanicked] == old(log) + e.sent
                                   && queue + [CallbackPanicked] == old(queue) + e.sent
                  else running == e.running && log == old(log) + e.sent && queue == old(queue) + e.sent)
              && owned == (if e.resubmitted then old(owned) + {d.slot} else old(owned))
              && submitted == if panicked || e.resubmitted then old(submitted) else old(submitted)[d.slot := false]
    {
      if d.panic.BeforeHandling? {
        return true;
      }
      var (noted, owed) := Noted(stats, d);
      stats := noted;
      if d.completion.Failed? {
        running := false;
      }
      if d.panic.BeforeSend? {
        return true;
      }
      if owed.Some? {
        Send(owed.value);
      }
      if d.panic.BeforeResubmit? {
        return true;
      }
      if running {
        if d.resubmitResult == 0 {
          owned := owned + {d.slot};
          return false;
        }
        running := false;
        if d.panic.AfterFailedSubmit? {
          return true;
        }
        Send(SubmitFailed(SlotEndpoint(d.slot), d.resubmitResult));
      }
      submitted := submitted[d.slot := false];
      panicked := false;
    }

    method HandleEvents(round: Round)
      requires Sound(State())
      modifies this
      ensures State() == AfterRound(old(State()), round) && Sound(State())
      ensures old(queue) <= queue && log == old(log) + queue[|old(queue)|..]
    {
      hide AfterCallback, TotalsOf, Accounted, Range;
      ghost var start := State();
      var k := 0;
      assert round[0..] == round;
      while k < |round|
        invariant 0 <= k <= |round|
        invariant Sound(State())
        invariant AfterRound(State(), round[k..]) == AfterRound(start, round)
        invariant old(queue) <= queue && log == old(log) + queue[|old(queue)|..]
      {
        assert round[k..][1..] == round[k + 1..];
        if round[k].slot in owned {
          CallbackKeepsSound(State(), round[k]);
          TransferCallback(round[k]);
        }
        k := k + 1;
      }
    }

    // Drive libusb once, then take every event queued; when event handling fails,
    // what its callbacks queued stays for the next poll.
    method Poll(call: PollCall) returns (batch: Result<seq<SessionEvent>, int>)
      requires Sound(State())
      modifies this
      ensures State() == AfterRound(old(State()), call.round) && Sound(State())
      ensures batch.Err? <==> call.failure.Some?
      ensures batch.Err? ==>
                batch.error == call.failure.value
                && old(queue) <= queue && log == old(log) + queue[|old(queue)|..]
      ensures batch.Ok? ==>
                queue == [] && old(queue) <= batch.value && log == old(log) + batch.value[|old(queue)|..]
    {
      HandleEvents(call.round);
      if call.failure.Some? {
        return Err(call.failure.value);
      }
      batch := Ok(queue);
      queue := [];
    }

    // Slots are pushed before they are submitted, so a failure leaves the last
    // one allocated but not flagged. No callback runs before the first poll.
    method AllocateAndSubmit(answers: seq<OpenAnswer>) returns (error: Option<SessionError>)
      requires State() == OPENING && |answers| == SLOT_COUNT
      modifies this
      ensures Sound(State()) && running && !stopped && log == [] && queue == old(queue)
      ensures error.None? ==> transfers == SLOT_COUNT && owned == FirstSlots(SLOT_COUNT)
      ensures error.Some? ==> exists k: nat :: k < SLOT_COUNT && owned == FirstSlots(k)
                                               && transfers == (if answers[k].granted then k + 1 else k)
                                               && !(answers[k].granted && answers[k].submitResult == 0)
    {
      var index := 0;
      while index < SLOT_COUNT
        invariant 0 <= index <= SLOT_COUNT
        invariant State() == OPENING.(submitted := seq(index, _ => true), owned := FirstSlots(index),
                                      transfers := index)
        invariant queue == old(queue)
      {
        if !answers[index].granted {
          return Some(TransferAllocation);
        }
        submitted, transfers := submitted + [false], transfers + 1;
        if answers[index].submitResult != 0 {
          return Some(TransferSubmission(answers[index].submitResult));
        }
        owned := owned + {index};
        submitted := submitted[index := true];
        index := index + 1;
      }
      error := None;
    }

    // Cancel everything in flight, reap until nothing is, then free all once.
    method Stop(libusb: Libusb)
      requires Sound(State()) && (stopped ==> released) && Fair(libusb)
      modifies this
      ensures Sound(State()) && released && !running && owned == {}
      ensures transfers == old(transfers) && freed == Range(transfers)
      ensures old(stopped) ==> State() == old(State()) && queue == old(queue)
      ensures !old(stopped) ==> cancelRequests == old(cancelRequests) + old(owned)
      ensures old(queue) <= queue && log == old(log) + queue[|old(queue)|..]
    {
      if stopped {
        FlagsOfStopped(State());
        return;
      }
      hide AfterRound, Fair, TotalsOf, Accounted;
      stopped, running := true, false;
      CancelAll();
      Reap(libusb);
      FreeAll();
    }

    // Free every transfer and forget the slots.
    method FreeAll()
      requires Sound(State()) && stopped && !released && owned == {}
      modifies this`freed, this`submitted, this`released
      ensures Sound(State())
      ensures State() == old(State()).(released := true, submitted := [], freed := Range(transfers))
    {
      hide TotalsOf, Accounted;
      released := true;
      var k := 0;
      while k < |submitted|
        invariant 0 <= k <= |submitted| && freed == Range(k)
        invariant released && submitted == old(submitted)
      {
        freed := freed + [k];
        k := k + 1;
      }
      submitted := [];
    }

    method CancelAll()
      requires Sound(State())
      modifies this`cancelRequests
      ensures cancelRequests == old(cancelRequests) + owned && Sound(State())
    {
      var i := 0;
      while i < |submitted|
        invariant 0 <= i <= |submitted|
        invariant cancelRequests == old(cancelRequests) + (owned * FirstSlots(i))
      {
        if submitted[i] {
          cancelRequests := cancelRequests + {i};
        }
        i := i + 1;
      }
    }

    method Reap(libusb: Libusb)
      requires Sound(State()) && stopped && !running && !released && Fair(libusb)
      requires owned <= cancelRequests
      modifies this
      ensures Sound(State()) && owned == {}
      ensures old(queue) <= queue && log == old(log) + queue[|old(queue)|..]
      ensures State() == old(State()).(submitted := submitted, stats := stats, owned := {}, log := log)
    {
      hide AfterRound, Sound, Reports, Fair;
      var round := 0;
      ghost var target: nat, deadline: int := 0, 0;
      if owned != {} {
        target, deadline := NextReport(State(), libusb, 0);
      }
      while true in submitted
        invariant Sound(State()) && !running
        invariant owned <= cancelRequests
        invariant owned == {}
                  || (target in owned && round <= deadline && Reports(libusb(cancelRequests, deadline), target))
        invariant State() == old(State()).(submitted := submitted, stats := stats, owned := owned, log := log)
        invariant old(queue) <= queue && log == old(log) + queue[|old(queue)|..]
        decreases |owned|, deadline - round
      {
        SomethingOwned(State());
        target, deadline := ReapStep(State(), libusb, round, target, deadline);
        HandleEvents(libusb(cancelRequests, round));
        round := round + 1;
      }
      NothingOwned(State());
    }
  }

  lemma {:induction false} SomethingOwned(s: SessionState)
    requires Sound(s) && true in s.submitted
    ensures s.owned != {}
  {
    var i :| 0 <= i < |s.submitted| && s.submitted[i];
    assert i in s.owned;
  }

  // A round either completes a transfer for good or brings the next report closer.
  lemma {:induction false} ReapStep(s: SessionState, libusb: Libusb, round: nat, target: nat, deadline: int)
    returns (target': nat, deadline': int)
    requires Sound(s) && !s.running && Fair(libusb) && s.owned <= s.cancelRequests
    requires target in s.owned && round <= deadline && Reports(libusb(s.cancelRequests, deadline), target)
    ensures var t := AfterRound(s, libusb(s.cancelRequests, round));
            && Sound(t) && !t.running && t.owned <= s.owned
            && t == s.(submitted := t.submitted, stats := t.stats, owned := t.owned, log := t.log)
            && (t.owned == {}
                || (target' in t.owned && round + 1 <= deadline'
                    && Reports(libusb(s.cancelRequests, deadline'), target')))
            && (|t.owned| < |s.owned| || (|t.owned| == |s.owned| && deadline' == deadline))
  {
    var reported := libusb(s.cancelRequests, round);
    var t := AfterRound(s, reported);
    RoundKeepsSound(s, reported);
    if round == deadline {
      RoundReaps(s, reported, target);
    }
    SubsetSize(t.owned, s.owned);
    target', deadline' := target, deadline;
    if target !in t.owned {
      StrictSubset(t.owned, s.owned, target);
      if t.owned != {} {
        target', deadline' := NextReport(t, libusb, round + 1);
      }
    }
  }

  lemma {:induction false} FlagsOfStopped(s: SessionState)
    requires Sound(s) && s.released
    ensures s.owned == {}
  {
    assert forall i :: i !in s.owned;
  }

  lemma {:induction false} NothingOwned(s: SessionState)
    requires Sound(s) && true !in s.submitted
    ensures s.owned == {}
  {
    assert forall i :: i !in s.owned;
  }

  lemma {:induction false} StrictSubset(a: set<nat>, b: set<nat>, x: nat)
    requires a <= b && x in b && x !in a
    ensures |a| < |b|
  {
    SubsetSize(a, b - {x});
  }

  lemma {:induction false} SubsetSize(a: set<nat>, b: set<nat>)
    requires a <= b
    ensures |a| <= |b|
  {
    if a != {} {
      var x :| x in a;
      SubsetSize(a - {x}, b - {x});
    }
  }

  // Some transfer still in flight, and a later round that completes it.
  lemma {:induction false} NextReport(s: SessionState, libusb: Libusb, now: nat) returns (slot: nat, later: nat)
    requires Sound(s) && s.owned != {} && s.owned <= s.cancelRequests && Fair(libusb)
    ensures slot in s.owned && later >= now && Reports(libusb(s.cancelRequests, later), slot)
  {
    slot :| slot in s.owned;
    assert EventuallyReports(libusb, s.cancelRequests, now, slot);
    later :| later >= now && Reports(libusb(s.cancelRequests, later), slot);
  }

  // ---------------------------------------------------------------------

  function FlattenEvents(batches: seq<seq<SessionEvent>>): seq<SessionEvent> {
    if batches == [] then []
    else FlattenEvents(batches[..|batches| - 1]) + batches[|batches| - 1]
  }

  function Succeeding(calls: seq<PollCall>): nat {
    if calls == [] then 0
    else Succeeding(calls[..|calls| - 1]) + if calls[|calls| - 1].failure.None? then 1 else 0
  }

  lemma {:induction false} Appended(
    sent: seq<SessionEvent>, queued: seq<SessionEvent>, longer: seq<SessionEvent>, log: seq<SessionEvent>)
    requires queued <= longer && log == sent + queued + longer[|queued|..]
    ensures sent + longer == log
  {
    assert longer == queued + longer[|queued|..];
  }

  // Any number of polls, failing ones included: the batches taken and what is
  // still queued are the log.
  method RunPolls(session: UsbSession, calls: seq<PollCall>) returns (batches: seq<seq<SessionEvent>>)
    requires Sound(session.State()) && !session.stopped && session.queue == session.log == []
    modifies session
    ensures Sound(session.State()) && !session.stopped && session.transfers == old(session.transfers)
    ensures |batches| == Succeeding(calls)
    ensures FlattenEvents(batches) + session.queue == session.log
  {
    hide Sound, AfterRound;
    batches := [];
    assert calls[..0] == [];
    for k := 0 to |calls|
      invariant |batches| == Succeeding(calls[..k])
      invariant Sound(session.State()) && !session.stopped && session.transfers == old(session.transfers)
      invariant FlattenEvents(batches) + session.queue == session.log
    {
      assert calls[..k + 1][..k] == calls[..k];
      RoundKeepsSound(session.State(), calls[k].round);
      ghost var queued, sent := session.queue, FlattenEvents(batches);
      var batch := session.Poll(calls[k]);
      if batch.Ok? {
        Appended(sent, queued, batch.value, session.log);
        assert (batches + [batch.value])[..|batches|] == batches;
        batches := batches + [batch.value];
      } else {
        Appended(sent, queued, session.queue, session.log);
      }
    }
    assert calls[..|calls|] == calls;
  }

  // A complete session under any environment: open (which may fail midway),
  // polls, stop, and the second stop that dropping performs. Every transfer ever
  // allocated is freed exactly once and none is in flight; the batches polled,
  // and what is still queued, are exactly the log.
  method RunSession(answers: seq<OpenAnswer>, calls: seq<PollCall>, libusb: Libusb)
    returns (session: UsbSession, error: Option<SessionError>, batches: seq<seq<SessionEvent>>)
    requires |answers| == SLOT_COUNT && Fair(libusb)
    ensures Sound(session.State()) && session.released && !session.running && session.owned == {}
    ensures session.freed == Range(session.transfers)
    ensures error.None? ==> session.transfers == SLOT_COUNT && |batches| == Succeeding(calls)
    ensures error.Some? ==> batches == []
    ensures FlattenEvents(batches) + session.queue == session.log
  {
    hide Sound, Fair;
    session := new UsbSession();
    batches := [];
    error := session.AllocateAndSubmit(answers);
    if error.None? {
      batches := RunPolls(session, calls);
    }
    ghost var queued := session.queue;
    session.Stop(libusb);
    Appended(FlattenEvents(batches), queued, session.queue, session.log);
    session.Stop(libusb);
  }
}
