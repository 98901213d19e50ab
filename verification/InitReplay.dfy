/** Replay of the initialization plan, literally or with acknowledgement polling. */
module InitReplay {
  import opened Bytes
  import opened InitPlan

  const COMMAND_BLOCK_INDEX: nat := 0x0300
  const COMMAND_BLOCK_SIZE: nat := 64
  const COMMAND_WORD_OFFSET: nat := 60
  const STATUS_INDEX: nat := 0x0340
  const STATUS_SIZE: nat := 64
  const STATUS_POLL_INTERVAL_US: nat := 10_000
  const STATUS_POLL_TIMEOUT_US: nat := 500_000
  const MAX_ATTEMPTS: nat := 50
  const STARTUP_SCAN_TOKENS: set<Byte> := {0x71, 0x81, 0x91, 0xa1}

  datatype InitStrategy = LiteralReplay | ConditionPolling | PlaybackConditionPolling

  // Bit 3 set, the other bits kept.
  function WithBit3(b: Byte): Byte {
    if b / 8 % 2 == 1 then b else b + 8
  }

  function AcknowledgementToken(strategy: InitStrategy, command: Byte): Option<Byte> {
    match strategy
    case LiteralReplay => None
    case ConditionPolling => Some(command)
    case PlaybackConditionPolling => Some(WithBit3(command))
  }

  // Scan commands end in 00 n9 10 n1 after sixty zero bytes; the camera answers n1.
  function ScanAckToken(block: Data): Option<Byte> {
    if |block| != COMMAND_BLOCK_SIZE || exists i :: 0 <= i < COMMAND_WORD_OFFSET && block[i] != 0 then None
    else
      var command := block[COMMAND_WORD_OFFSET..];
      if command[0] == 0 && command[1] % 16 == 0x09 && command[2] == 0x10
         && command[3] == command[1] - command[1] % 16 + 0x01
      then Some(command[3])
      else None
  }

  function StartupScanToken(op: InitOp): Option<Byte> {
    if op.ControlOut? && op.index == COMMAND_BLOCK_INDEX then
      match ScanAckToken(op.data)
      case Some(token) => if token in STARTUP_SCAN_TOKENS then Some(token) else None
      case None => None
    else None
  }

  predicate IsStatusPoll(op: InitOp) {
    op.ControlIn? && op.requestType == 0xc0 && op.request == 0x88 && op.value == 0
    && op.index == STATUS_INDEX && op.length == 64
  }

  // One past the maximal run of status polls that starts at `start`.
  method EndOfStatusPollRun(plan: seq<InitOp>, start: nat) returns (end: nat)
    requires start <= |plan|
    ensures end == start + RunLength(plan[start..]) && start <= end <= |plan|
  {
    end := start;
    assert plan[start..] == plan[end..];
    while end < |plan| && IsStatusPoll(plan[end])
      invariant start <= end <= |plan|
      invariant RunLength(plan[start..]) == end - start + RunLength(plan[end..])
    {
      assert plan[end..][1..] == plan[end + 1..];
      end := end + 1;
    }
  }

  function RunLength(plan: seq<InitOp>): (n: nat)
    ensures n <= |plan|
  {
    if plan == [] || !IsStatusPoll(plan[0]) then 0 else 1 + RunLength(plan[1..])
  }

  // The run is maximal: nothing but status polls in it, and none right after it.
  lemma {:induction false} RunIsMaximal(plan: seq<InitOp>)
    ensures forall k :: 0 <= k < RunLength(plan) ==> IsStatusPoll(plan[k])
    ensures RunLength(plan) < |plan| ==> !IsStatusPoll(plan[RunLength(plan)])
  {
    if plan != [] && IsStatusPoll(plan[0]) {
      RunIsMaximal(plan[1..]);
      assert forall k :: 1 <= k < RunLength(plan) ==> plan[k] == plan[1..][k - 1];
    }
  }

  // ---------------------------------------------------------------------
  // The device, as what it answers, and the transfers it sees.

  datatype BusOp =
    | Read(requestType: nat, request: nat, value: nat, index: nat, length: nat, answer: Data)
    | Write(requestType: nat, request: nat, value: nat, index: nat, data: Data)
    | Select(iface: nat, alternate: nat)
  {
    predicate Changes() { Write? || Select? }
  }

  datatype Answer = Failed | Received(data: Data) | Sent(count: nat) | Done

  // The n-th transfer's answer, and the clock in microseconds at each check of a
  // poll: check 0 is its start, and every attempt sleeps before checking again.
  datatype Environment = Environment(device: nat -> Answer, clock: (nat, nat) -> nat)

  ghost predicate SleepsLongEnough(env: Environment) {
    forall poll: nat, check: nat ::
      env.clock(poll, check + 1) >= env.clock(poll, check) + STATUS_POLL_INTERVAL_US
  }

  lemma {:induction false} ClockAdvances(env: Environment, poll: nat, checks: nat)
    requires SleepsLongEnough(env)
    ensures env.clock(poll, checks) >= env.clock(poll, 0) + checks * STATUS_POLL_INTERVAL_US
  {
    if checks > 0 {
      ClockAdvances(env, poll, checks - 1);
      assert env.clock(poll, checks - 1 + 1) >= env.clock(poll, checks - 1) + STATUS_POLL_INTERVAL_US;
    }
  }

  datatype ReplayError =
    | Usb
    | ShortControlRead(readIndex: nat, readExpected: nat, readActual: nat)
    | ShortControlWrite(writeIndex: nat, writeExpected: nat, writeActual: nat)
    | StatusPollTimeout(token: Byte, lastStatus: Byte)

  lemma {:induction false} SliceSnoc<T>(s: seq<T>, last: T, n: nat)
    requires n <= |s|
    ensures (s + [last])[n..] == s[n..] + [last]
  {
  }

  class UsbHandle {
    const env: Environment
    var log: seq<BusOp>
    var polls: nat
    // The planned delays slept through, in order.
    var slept: seq<nat>

    constructor (env: Environment)
      ensures this.env == env && log == [] && polls == 0 && slept == []
    {
      this.env, log, polls, slept := env, [], 0, [];
    }

    method Sleep(us: nat)
      modifies this`slept
      ensures slept == old(slept) + [us]
    {
      slept := slept + [us];
    }

    // Exactly `length` bytes, or an error; every attempt is on the bus.
    method ReadControl(requestType: nat, request: nat, value: nat, index: nat, length: nat)
      returns (r: Result<Data, ReplayError>)
      modifies this`log
      ensures exists answer :: log == old(log) + [Read(requestType, request, value, index, length, answer)]
                               && (r.Ok? ==> r.value == answer && |answer| == length)
    {
      var answer := env.device(|log|);
      var data := if answer.Received? then answer.data else [];
      log := log + [Read(requestType, request, value, index, length, data)];
      if !answer.Received? {
        return Err(Usb);
      }
      if |data| != length {
        return Err(ShortControlRead(index, length, |data|));
      }
      r := Ok(data);
    }

    method WriteControl(requestType: nat, request: nat, value: nat, index: nat, data: Data)
      returns (error: Option<ReplayError>)
      modifies this`log
      ensures log == old(log) + [Write(requestType, request, value, index, data)]
    {
      var answer := env.device(|log|);
      log := log + [Write(requestType, request, value, index, data)];
      if !answer.Sent? {
        return Some(Usb);
      }
      if answer.count != |data| {
        return Some(ShortControlWrite(index, |data|, answer.count));
      }
      error := None;
    }

    method SetAlternateSetting(iface: nat, alternate: nat) returns (error: Option<ReplayError>)
      modifies this`log
      ensures log == old(log) + [Select(iface, alternate)]
    {
      var answer := env.device(|log|);
      log := log + [Select(iface, alternate)];
      error := if answer.Done? then None else Some(Usb);
    }

    // Read the status block until its first byte is the token or time is up.
    method PollStatusAcknowledgement(token: Byte) returns (r: Result<nat, ReplayError>)
      requires SleepsLongEnough(env)
      modifies this`log, this`polls
      ensures old(log) <= log && StatusReads(log[|old(log)|..]) && |log| - |old(log)| <= MAX_ATTEMPTS
      ensures r.Ok? ==> r.value == |log| - |old(log)| && Acknowledged(log[|old(log)|..], token)
    {
      var poll := polls;
      polls := polls + 1;
      var deadline := env.clock(poll, 0) + STATUS_POLL_TIMEOUT_US;
      var attempts := 0;
      while true
        invariant attempts < MAX_ATTEMPTS && |log| == |old(log)| + attempts && old(log) <= log
        invariant StatusReads(log[|old(log)|..]) && NoToken(log[|old(log)|..], token)
        decreases MAX_ATTEMPTS - attempts
      {
        ghost var before := log;
        var status := ReadControl(0xc0, 0x88, 0, STATUS_INDEX, STATUS_SIZE);
        SliceSnoc(before, log[|before|], |old(log)|);
        if status.Err? {
          return Err(status.error);
        }
        attempts := attempts + 1;
        if status.value[0] == token {
          return Ok(attempts);
        }
        ClockAdvances(env, poll, attempts);
        if env.clock(poll, attempts) >= deadline {
          return Err(StatusPollTimeout(token, status.value[0]));
        }
      }
    }
  }

  predicate IsStatusRead(b: BusOp) {
    b.Read? && b.requestType == 0xc0 && b.request == 0x88 && b.value == 0
    && b.index == STATUS_INDEX && b.length == STATUS_SIZE
  }

  predicate StatusReads(polled: seq<BusOp>) {
    forall k :: 0 <= k < |polled| ==> IsStatusRead(polled[k])
  }

  predicate ShowsToken(b: BusOp, token: Byte) {
    b.Read? && b.answer != [] && b.answer[0] == token
  }

  predicate NoToken(polled: seq<BusOp>, token: Byte) {
    forall k :: 0 <= k < |polled| ==> !ShowsToken(polled[k], token)
  }

  // At most fifty status reads, of which the last and only the last shows the token.
  predicate Acknowledged(polled: seq<BusOp>, token: Byte) {
    && 1 <= |polled| <= MAX_ATTEMPTS
    && StatusReads(polled)
    && ShowsToken(polled[|polled| - 1], token)
    && NoToken(polled[..|polled| - 1], token)
  }

  // ---------------------------------------------------------------------
  // What a replay may put on the bus for a plan.

  // The transfer is the planned one, whatever comes back.
  predicate Attempts(op: InitOp, b: BusOp) {
    match op
    case ControlIn(_, t, r, v, i, n) => b.Read? && b == Read(t, r, v, i, n, b.answer)
    case ControlOut(_, t, r, v, i, data) => b == Write(t, r, v, i, data)
    case SetInterface(_, iface, alternate) => b == Select(iface, alternate)
  }

  predicate Performs(op: InitOp, b: BusOp) {
    Attempts(op, b) && (b.Read? ==> |b.answer| == b.length)
  }

  // The token to wait for when the plan starts with a startup scan that is
  // followed by status polls and the strategy replaces them.
  function PollToken(strategy: InitStrategy, plan: seq<InitOp>): Option<Byte>
    requires plan != []
  {
    match StartupScanToken(plan[0])
    case None => None
    case Some(command) => if RunLength(plan[1..]) > 0 then AcknowledgementToken(strategy, command) else None
  }

  ghost predicate Replays(strategy: InitStrategy, plan: seq<InitOp>, log: seq<BusOp>)
    decreases |plan|
  {
    if plan == [] then log == []
    else if log == [] || !Performs(plan[0], log[0]) then false
    else
      match PollToken(strategy, plan)
      case None => Replays(strategy, plan[1..], log[1..])
      case Some(token) =>
        exists end: nat ::
          && 1 <= end <= |log| && Acknowledged(log[1..end], token)
          && Replays(strategy, plan[1 + RunLength(plan[1..])..], log[end..])
  }

  // The method's loop, in terms of what remains: a log that replays the rest of
  // the plan completes a log that replays the part already done.
  ghost predicate Completes(strategy: InitStrategy, plan: seq<InitOp>, position: nat, log: seq<BusOp>)
    requires position <= |plan|
  {
    forall rest: seq<BusOp> :: Replays(strategy, plan[position..], rest) ==> Replays(strategy, plan, log + rest)
  }

  lemma {:induction false} CompletesNothing(strategy: InitStrategy, plan: seq<InitOp>)
    ensures Completes(strategy, plan, 0, [])
  {
    assert plan[0..] == plan;
    forall rest: seq<BusOp> | Replays(strategy, plan[0..], rest)
      ensures Replays(strategy, plan, [] + rest)
    {
      assert [] + rest == rest;
    }
  }

  lemma {:induction false} CompletesAll(strategy: InitStrategy, plan: seq<InitOp>, log: seq<BusOp>)
    requires Completes(strategy, plan, |plan|, log)
    ensures Replays(strategy, plan, log)
  {
    assert Replays(strategy, plan[|plan|..], []);
    assert log + [] == log;
  }

  lemma {:induction false} CompletesOne(
    strategy: InitStrategy, plan: seq<InitOp>, position: nat, log: seq<BusOp>, b: BusOp)
    requires position < |plan| && Completes(strategy, plan, position, log)
    requires Performs(plan[position], b) && PollToken(strategy, plan[position..]).None?
    ensures Completes(strategy, plan, position + 1, log + [b])
  {
    var here, next := plan[position..], plan[position + 1..];
    assert here[0] == plan[position] && here[1..] == next;
    forall rest: seq<BusOp> | Replays(strategy, next, rest)
      ensures Replays(strategy, plan, log + [b] + rest)
    {
      assert ([b] + rest)[1..] == rest;
      assert Replays(strategy, here, [b] + rest);
      Associate(log, [b], rest);
    }
  }

  lemma {:induction false} CompletesPoll(
    strategy: InitStrategy, plan: seq<InitOp>, position: nat, log: seq<BusOp>, b: BusOp, polled: seq<BusOp>)
    requires position < |plan| && Completes(strategy, plan, position, log)
    requires Performs(plan[position], b) && PollToken(strategy, plan[position..]).Some?
    requires Acknowledged(polled, PollToken(strategy, plan[position..]).value)
    ensures position + 1 + RunLength(plan[position + 1..]) <= |plan|
    ensures Completes(strategy, plan, position + 1 + RunLength(plan[position + 1..]), log + [b] + polled)
  {
    var here := plan[position..];
    var run := RunLength(plan[position + 1..]);
    assert here[0] == plan[position] && here[1..] == plan[position + 1..];
    assert here[1 + run..] == plan[position + 1 + run..];
    forall rest: seq<BusOp> | Replays(strategy, plan[position + 1 + run..], rest)
      ensures Replays(strategy, plan, log + [b] + polled + rest)
    {
      var tail := [b] + polled + rest;
      var end := 1 + |polled|;
      assert tail[0] == b && tail[1..end] == polled && tail[end..] == rest;
      assert Replays(strategy, here, tail);
      Associate(log, [b], polled);
      Associate(log, [b] + polled, rest);
    }
  }

  // The state-changing part of a plan and of a log.

  function PlannedChange(op: InitOp): (b: BusOp)
    requires !op.ControlIn?
    ensures b.Changes() && Performs(op, b)
  {
    match op
    case ControlOut(_, t, r, v, i, data) => Write(t, r, v, i, data)
    case SetInterface(_, iface, alternate) => Select(iface, alternate)
  }

  function PlannedChanges(plan: seq<InitOp>): seq<BusOp> {
    if plan == [] then []
    else (if plan[0].ControlIn? then [] else [PlannedChange(plan[0])]) + PlannedChanges(plan[1..])
  }

  function Changes(log: seq<BusOp>): seq<BusOp> {
    if log == [] then []
    else Changes(log[..|log| - 1]) + if log[|log| - 1].Changes() then [log[|log| - 1]] else []
  }

  lemma {:induction false} ChangesAppend(a: seq<BusOp>, b: seq<BusOp>)
    ensures Changes(a + b) == Changes(a) + Changes(b)
    decreases |b|
  {
    if b == [] {
      assert a + b == a;
    } else {
      assert (a + b)[..|a + b| - 1] == a + b[..|b| - 1];
      ChangesAppend(a, b[..|b| - 1]);
    }
  }

  lemma {:induction false} StatusReadsChangeNothing(polled: seq<BusOp>)
    requires StatusReads(polled)
    ensures Changes(polled) == []
  {
    if polled != [] {
      StatusReadsChangeNothing(polled[..|polled| - 1]);
    }
  }

  lemma {:induction false} RunPlansNothing(plan: seq<InitOp>)
    ensures PlannedChanges(plan) == PlannedChanges(plan[RunLength(plan)..])
  {
    if plan != [] && IsStatusPoll(plan[0]) {
      RunPlansNothing(plan[1..]);
      assert plan[1..][RunLength(plan[1..])..] == plan[RunLength(plan)..];
    } else {
      assert plan[0..] == plan;
    }
  }

  lemma {:induction false} OneChange(b: BusOp)
    ensures Changes([b]) == if b.Changes() then [b] else []
  {
    assert [b][..0] == [];
  }

  lemma {:induction false} NoChanges()
    ensures Changes([]) == [] && PlannedChanges([]) == []
  {
  }

  lemma {:induction false} PerformedFirst(plan: seq<InitOp>, log: seq<BusOp>)
    requires plan != [] && log != [] && Performs(plan[0], log[0])
    requires Changes(log[1..]) == PlannedChanges(plan[1..])
    ensures Changes(log) == PlannedChanges(plan)
  {
    PlannedHead(plan);
    hide Changes, PlannedChanges;
    AttemptChanges(plan[0], log[0]);
    OneChange(log[0]);
    ChangesAppend([log[0]], log[1..]);
    assert [log[0]] + log[1..] == log;
  }

  // Whatever the strategy, a replay performs exactly the planned writes and
  // interface changes, in the planned order.
  lemma {:induction false} ReplayPreservesChanges(strategy: InitStrategy, plan: seq<InitOp>, log: seq<BusOp>)
    requires Replays(strategy, plan, log)
    ensures Changes(log) == PlannedChanges(plan)
    decreases |plan|
  {
    hide Changes, PlannedChanges, PollToken;
    if plan == [] {
      NoChanges();
    } else {
      match PollToken(strategy, plan) {
        case None =>
          ReplayPreservesChanges(strategy, plan[1..], log[1..]);
          PerformedFirst(plan, log);
        case Some(token) =>
          var run := RunLength(plan[1..]);
          var end: nat :| 1 <= end <= |log| && Acknowledged(log[1..end], token)
                          && Replays(strategy, plan[1 + run..], log[end..]);
          PollPreservesChanges(strategy, plan, log, end);
      }
    }
  }

  lemma {:induction false} PollPreservesChanges(strategy: InitStrategy, plan: seq<InitOp>, log: seq<BusOp>, end: nat)
    requires plan != [] && 1 <= end <= |log| && Performs(plan[0], log[0]) && StatusReads(log[1..end])
    requires Replays(strategy, plan[1 + RunLength(plan[1..])..], log[end..])
    ensures Changes(log) == PlannedChanges(plan)
    decreases |plan|, 0
  {
    var run := RunLength(plan[1..]);
    ReplayPreservesChanges(strategy, plan[1 + run..], log[end..]);
    hide Replays;
    StatusReadsChangeNothing(log[1..end]);
    RunPlansNothing(plan[1..]);
    assert plan[1..][run..] == plan[1 + run..];
    ThreeParts(log, end);
    PlannedHead(plan);
    hide Changes, PlannedChanges, RunLength;
    var first: seq<BusOp> := if log[0].Changes() then [log[0]] else [];
    assert first + [] == first;
  }

  lemma {:induction false} PlannedHead(plan: seq<InitOp>)
    requires plan != []
    ensures PlannedChanges(plan)
            == (if plan[0].ControlIn? then [] else [PlannedChange(plan[0])]) + PlannedChanges(plan[1..])
  {
  }

  lemma {:induction false} ThreeParts(log: seq<BusOp>, end: nat)
    requires 1 <= end <= |log|
    ensures Changes(log) == (if log[0].Changes() then [log[0]] else []) + Changes(log[1..end]) + Changes(log[end..])
  {
    OneChange(log[0]);
    ChangesAppend(log[..end], log[end..]);
    ChangesAppend([log[0]], log[1..end]);
    assert [log[0]] + log[1..end] == log[..end] && log[..end] + log[end..] == log;
  }

  // Literal replay is the plan itself, transfer by transfer.
  lemma {:induction false} LiteralReplayIsExact(plan: seq<InitOp>, log: seq<BusOp>)
    ensures Replays(LiteralReplay, plan, log)
            <==> |log| == |plan| && forall k :: 0 <= k < |plan| ==> Performs(plan[k], log[k])
    decreases |plan|
  {
    if plan != [] && log != [] {
      LiteralReplayIsExact(plan[1..], log[1..]);
      assert forall k :: 1 <= k < |plan| ==> plan[k] == plan[1..][k - 1];
      assert forall k :: 1 <= k < |log| ==> log[k] == log[1..][k - 1];
      assert forall k :: 0 <= k < |plan| - 1 ==> plan[1..][k] == plan[k + 1];
      assert forall k :: 0 <= k < |log| - 1 ==> log[1..][k] == log[k + 1];
    }
  }

  // A plan without startup scans replays the same under every strategy.
  lemma {:induction false} StrategiesAgreeWithoutScans(strategy: InitStrategy, plan: seq<InitOp>, log: seq<BusOp>)
    requires forall k :: 0 <= k < |plan| ==> StartupScanToken(plan[k]).None?
    ensures Replays(strategy, plan, log) <==> Replays(LiteralReplay, plan, log)
    decreases |plan|
  {
    if plan != [] && log != [] {
      StrategiesAgreeWithoutScans(strategy, plan[1..], log[1..]);
    }
  }

  lemma {:induction false} PlannedChangesFrom(plan: seq<InitOp>, position: nat)
    requires position < |plan|
    ensures PlannedChanges(plan[position..]) ==
            (if plan[position].ControlIn? then [] else [PlannedChange(plan[position])])
            + PlannedChanges(plan[position + 1..])
  {
    assert plan[position..][1..] == plan[position + 1..];
  }

  ghost predicate Progress(strategy: InitStrategy, plan: seq<InitOp>, position: nat, log: seq<BusOp>) {
    && position <= |plan|
    && Completes(strategy, plan, position, log)
    && PlannedChanges(plan) == Changes(log) + PlannedChanges(plan[position..])
  }

  lemma {:induction false} ProgressStart(strategy: InitStrategy, plan: seq<InitOp>)
    ensures Progress(strategy, plan, 0, [])
  {
    CompletesNothing(strategy, plan);
    assert plan[0..] == plan && Changes([]) == [];
  }

  lemma {:induction false} AttemptChanges(op: InitOp, b: BusOp)
    requires Attempts(op, b)
    ensures b.Changes() <==> !op.ControlIn?
    ensures !op.ControlIn? ==> b == PlannedChange(op)
  {
  }

  // One more attempted transfer keeps the changes a prefix of the planned ones.
  lemma {:induction false} AttemptIsPrefix(
    strategy: InitStrategy, plan: seq<InitOp>, position: nat, log: seq<BusOp>, b: BusOp)
    requires position < |plan| && Progress(strategy, plan, position, log) && Attempts(plan[position], b)
    ensures PlannedChanges(plan) == Changes(log + [b]) + PlannedChanges(plan[position + 1..])
    ensures Changes(log + [b]) <= PlannedChanges(plan)
  {
    hide Completes, Changes, PlannedChanges;
    PlannedChangesFrom(plan, position);
    ChangesAppend(log, [b]);
    OneChange(b);
    AttemptChanges(plan[position], b);
    var change: seq<BusOp> := if plan[position].ControlIn? then [] else [PlannedChange(plan[position])];
    assert Changes([b]) == change;
    Associate(Changes(log), change, PlannedChanges(plan[position + 1..]));
  }

  lemma {:induction false} ProgressOne(
    strategy: InitStrategy, plan: seq<InitOp>, position: nat, log: seq<BusOp>, b: BusOp)
    requires position < |plan| && Progress(strategy, plan, position, log)
    requires Performs(plan[position], b) && PollToken(strategy, plan[position..]).None?
    ensures Progress(strategy, plan, position + 1, log + [b])
  {
    AttemptIsPrefix(strategy, plan, position, log, b);
    CompletesOne(strategy, plan, position, log, b);
  }

  lemma {:induction false} PollIsPrefix(
    strategy: InitStrategy, plan: seq<InitOp>, position: nat, log: seq<BusOp>, b: BusOp, polled: seq<BusOp>)
    requires position < |plan| && Progress(strategy, plan, position, log) && Attempts(plan[position], b)
    requires StatusReads(polled)
    ensures Changes(log + [b] + polled) == Changes(log + [b])
    ensures Changes(log + [b] + polled) <= PlannedChanges(plan)
  {
    hide Completes, Changes, PlannedChanges, StatusReads;
    AttemptIsPrefix(strategy, plan, position, log, b);
    StatusReadsChangeNothing(polled);
    ChangesAppend(log + [b], polled);
    assert Changes(log + [b]) + [] == Changes(log + [b]);
  }

  lemma {:induction false} ProgressPoll(
    strategy: InitStrategy, plan: seq<InitOp>, position: nat, log: seq<BusOp>, b: BusOp, polled: seq<BusOp>)
    requires position < |plan| && Progress(strategy, plan, position, log)
    requires Performs(plan[position], b) && PollToken(strategy, plan[position..]).Some?
    requires Acknowledged(polled, PollToken(strategy, plan[position..]).value)
    ensures Progress(strategy, plan, position + 1 + RunLength(plan[position + 1..]), log + [b] + polled)
  {
    hide Completes, Changes, PlannedChanges, PollToken, RunLength;
    AttemptIsPrefix(strategy, plan, position, log, b);
    PollIsPrefix(strategy, plan, position, log, b, polled);
    CompletesPoll(strategy, plan, position, log, b, polled);
    RunPlansNothing(plan[position + 1..]);
    var run := RunLength(plan[position + 1..]);
    assert plan[position + 1..][run..] == plan[position + 1 + run..];
  }

  lemma {:induction false} TokenAt(strategy: InitStrategy, plan: seq<InitOp>, position: nat)
    requires position < |plan|
    ensures PollToken(strategy, plan[position..]) ==
            match StartupScanToken(plan[position])
            case None => None
            case Some(command) =>
              if RunLength(plan[position + 1..]) > 0 then AcknowledgementToken(strategy, command) else None
    ensures !plan[position].ControlOut? ==> PollToken(strategy, plan[position..]).None?
  {
    assert plan[position..][1..] == plan[position + 1..];
  }

  // The delays of the operations a replay performs; those it omits are not slept.
  function Delays(strategy: InitStrategy, plan: seq<InitOp>): seq<nat>
    decreases |plan|
  {
    if plan == [] then []
    else
      match PollToken(strategy, plan)
      case None => [plan[0].delayUs] + Delays(strategy, plan[1..])
      case Some(_) => [plan[0].delayUs] + Delays(strategy, plan[1 + RunLength(plan[1..])..])
  }

  // A literal replay sleeps every planned delay.
  lemma {:induction false} LiteralReplaySleepsAll(plan: seq<InitOp>)
    ensures |Delays(LiteralReplay, plan)| == |plan|
    ensures forall k :: 0 <= k < |plan| ==> Delays(LiteralReplay, plan)[k] == plan[k].delayUs
  {
    if plan != [] {
      LiteralReplaySleepsAll(plan[1..]);
      assert forall k :: 1 <= k < |plan| ==> plan[k] == plan[1..][k - 1];
    }
  }

  // What was slept so far, and what the rest of the plan still calls for.
  ghost predicate SleptSoFar(strategy: InitStrategy, plan: seq<InitOp>, position: nat, slept: seq<nat>) {
    position <= |plan| && slept + Delays(strategy, plan[position..]) == Delays(strategy, plan)
  }

  lemma {:induction false} SleepStart(strategy: InitStrategy, plan: seq<InitOp>)
    ensures SleptSoFar(strategy, plan, 0, [])
  {
    assert plan[0..] == plan;
    assert [] + Delays(strategy, plan) == Delays(strategy, plan);
  }

  lemma {:induction false} SleepStep(strategy: InitStrategy, plan: seq<InitOp>, position: nat, slept: seq<nat>)
    requires position < |plan| && SleptSoFar(strategy, plan, position, slept)
    ensures var slept' := slept + [plan[position].delayUs];
            && slept' <= Delays(strategy, plan)
            && match PollToken(strategy, plan[position..])
               case None => SleptSoFar(strategy, plan, position + 1, slept')
               case Some(_) =>
                 SleptSoFar(strategy, plan, position + 1 + RunLength(plan[position + 1..]), slept')
  {
    hide PollToken;
    var rest := plan[position..];
    assert rest[1..] == plan[position + 1..];
    var run := RunLength(rest[1..]);
    assert rest[1 + run..] == plan[position + 1 + run..];
    Associate(slept, [plan[position].delayUs], Delays(strategy, rest[1..]));
    Associate(slept, [plan[position].delayUs], Delays(strategy, rest[1 + run..]));
  }

  // The replay itself. On success the bus saw a replay of the plan; on failure
  // the changes made are a prefix of the planned ones.
  method ReplayInitialization(handle: UsbHandle, plan: seq<InitOp>, strategy: InitStrategy)
    returns (error: Option<ReplayError>)
    requires SleepsLongEnough(handle.env) && handle.log == [] && handle.slept == []
    modifies handle
    ensures error.None? ==> Replays(strategy, plan, handle.log) && handle.slept == Delays(strategy, plan)
    ensures Changes(handle.log) <= PlannedChanges(plan) && handle.slept <= Delays(strategy, plan)
  {
    hide Replays, Completes, Changes, PlannedChanges, RunLength, StartupScanToken, AcknowledgementToken, PollToken,
      Delays, SleptSoFar;
    ProgressStart(strategy, plan);
    SleepStart(strategy, plan);
    var position := 0;
    while position < |plan|
      invariant Progress(strategy, plan, position, handle.log)
      invariant SleptSoFar(strategy, plan, position, handle.slept)
      decreases |plan| - position
    {
      var operation := plan[position];
      ghost var before := handle.log;
      SleepStep(strategy, plan, position, handle.slept);
      handle.Sleep(operation.delayUs);
      TokenAt(strategy, plan, position);
      if operation.ControlIn? {
        error := PerformRead(handle, operation);
      } else if operation.ControlOut? {
        error := handle.WriteControl(operation.requestType, operation.request, operation.value, operation.index,
                                     operation.data);
      } else {
        error := handle.SetAlternateSetting(operation.iface, operation.alternate);
      }
      ghost var b := handle.log[|before|];
      assert handle.log == before + [b];
      AttemptIsPrefix(strategy, plan, position, before, b);
      if error.Some? {
        return;
      }
      var command := StartupScanToken(operation);
      if command.Some? && AcknowledgementToken(strategy, command.value).Some? {
        var token := AcknowledgementToken(strategy, command.value).value;
        var next := EndOfStatusPollRun(plan, position + 1);
        if next > position + 1 {
          var attempts := handle.PollStatusAcknowledgement(token);
          ghost var polled := handle.log[|before| + 1..];
          assert handle.log == before + [b] + polled;
          PollIsPrefix(strategy, plan, position, before, b, polled);
          if attempts.Err? {
            return Some(attempts.error);
          }
          ProgressPoll(strategy, plan, position, before, b, polled);
          position := next;
          continue;
        }
      }
      ProgressOne(strategy, plan, position, before, b);
      position := position + 1;
    }
    CompletesAll(strategy, plan, handle.log);
    FinishedChanges(plan, handle.log);
    FinishedSleeps(strategy, plan, handle.slept);
    error := None;
  }

  lemma {:induction false} FinishedSleeps(strategy: InitStrategy, plan: seq<InitOp>, slept: seq<nat>)
    requires SleptSoFar(strategy, plan, |plan|, slept)
    ensures slept == Delays(strategy, plan)
  {
    assert slept + [] == slept;
  }

  lemma {:induction false} FinishedChanges(plan: seq<InitOp>, log: seq<BusOp>)
    requires PlannedChanges(plan) == Changes(log) + PlannedChanges(plan[|plan|..])
    ensures Changes(log) <= PlannedChanges(plan)
  {
  }

  method PerformRead(handle: UsbHandle, operation: InitOp) returns (error: Option<ReplayError>)
    requires operation.ControlIn?
    modifies handle`log
    ensures |handle.log| == |old(handle.log)| + 1 && old(handle.log) <= handle.log
    ensures Attempts(operation, handle.log[|old(handle.log)|])
    ensures error.None? ==> Performs(operation, handle.log[|old(handle.log)|])
  {
    var r := handle.ReadControl(operation.requestType, operation.request, operation.value, operation.index,
                                operation.length);
    error := if r.Err? then Some(r.error) else None;
  }
}
