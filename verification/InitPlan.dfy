/** The initialization plan: its parser, and the extractor that prints what it must undo. */
module InitPlan {
  import opened Bytes
  import opened Text

  datatype InitOp =
    | ControlIn(delayUs: nat, requestType: nat, request: nat, value: nat, index: nat, length: nat)
    | ControlOut(delayUs: nat, requestType: nat, request: nat, value: nat, index: nat, data: Data)
    | SetInterface(delayUs: nat, iface: nat, alternate: nat)

  datatype PlanError =
    | FieldCount(line: nat, count: nat)
    | InvalidNumber(line: nat, field: string, text: string)
    | InvalidHex(line: nat)
    | PayloadLength(line: nat, expected: nat, actual: nat)
    | Unsupported(line: nat, requestType: nat, request: nat)

  const MAX_DELAY_US: nat := 10_000_000
  const MAX_LENGTH: nat := 64

  function ParseBounded(line: nat, field: string, text: string, maximum: nat): (r: Result<nat, PlanError>) {
    match ParseNumber(text)
    case None => Err(InvalidNumber(line, field, text))
    case Some(n) => if n > maximum then Err(InvalidNumber(line, field, text)) else Ok(n)
  }

  // The six numbers of a row, read left to right; the first bad one is reported.
  datatype Numbers = Numbers(
    delayUs: nat, requestType: nat, request: nat, value: nat, index: nat, length: nat)

  function ParseNumbers(line: nat, fields: seq<string>): Result<Numbers, PlanError>
    requires |fields| == 8
  {
    match ParseBounded(line, "delay_us", fields[0], MAX_DELAY_US)
    case Err(e) => Err(e)
    case Ok(delay) =>
    match ParseBounded(line, "bmRequestType", fields[1], 0xff)
    case Err(e) => Err(e)
    case Ok(requestType) =>
    match ParseBounded(line, "bRequest", fields[2], 0xff)
    case Err(e) => Err(e)
    case Ok(request) =>
    match ParseBounded(line, "wValue", fields[3], 0xffff)
    case Err(e) => Err(e)
    case Ok(value) =>
    match ParseBounded(line, "wIndex", fields[4], 0xffff)
    case Err(e) => Err(e)
    case Ok(index) =>
    match ParseBounded(line, "wLength", fields[5], MAX_LENGTH)
    case Err(e) => Err(e)
    case Ok(length) => Ok(Numbers(delay, requestType, request, value, index, length))
  }

  // The narrow operation set; an alternate setting keeps only its low byte.
  function ToOperation(line: nat, n: Numbers, payload: string): Result<InitOp, PlanError> {
    if n.requestType == 0x01 && n.request == 0x0b && n.index == 0 && n.length == 0 then
      Ok(SetInterface(n.delayUs, n.index % 256, n.value % 256))
    else if n.requestType == 0xc0 && n.request == 0x88 then
      Ok(ControlIn(n.delayUs, n.requestType, n.request, n.value, n.index, n.length))
    else if n.requestType == 0x40 && n.request == 0x88 then
      match HexDecode(payload)
      case None => Err(InvalidHex(line))
      case Some(data) =>
        if |data| != n.length then Err(PayloadLength(line, n.length, |data|))
        else Ok(ControlOut(n.delayUs, n.requestType, n.request, n.value, n.index, data))
    else Err(Unsupported(line, n.requestType, n.request))
  }

  predicate Skipped(row: string) {
    row == [] || row[0] == '#'
  }

  function ParseRow(line: nat, row: string): Result<InitOp, PlanError> {
    var fields := SplitOn(row, '\t');
    if |fields| != 8 then Err(FieldCount(line, |fields|))
    else
      match ParseNumbers(line, fields)
      case Err(e) => Err(e)
      case Ok(numbers) => ToOperation(line, numbers, fields[6])
  }

  // Rows from `first` on; the first bad row is the error.
  function ParseRows(rows: seq<string>, first: nat): Result<seq<InitOp>, PlanError> {
    if rows == [] then Ok([])
    else if Skipped(rows[0]) then ParseRows(rows[1..], first + 1)
    else
      match ParseRow(first, rows[0])
      case Err(e) => Err(e)
      case Ok(op) =>
        match ParseRows(rows[1..], first + 1)
        case Err(e) => Err(e)
        case Ok(ops) => Ok([op] + ops)
  }

  function ParsePlan(text: string): Result<seq<InitOp>, PlanError> {
    ParseRows(Lines(text), 1)
  }

  method ParseInitPlan(text: string) returns (r: Result<seq<InitOp>, PlanError>)
    ensures r == ParsePlan(text)
  {
    hide ParseRow, Lines, Skipped;
    var rows := Lines(text);
    var operations: seq<InitOp> := [];
    var offset := 0;
    JoinedNothing(ParseRows(rows, 1));
    assert rows[0..] == rows;
    while offset < |rows|
      invariant 0 <= offset <= |rows|
      invariant ParsePlan(text) == Joined(operations, ParseRows(rows[offset..], offset + 1))
    {
      var row := rows[offset];
      assert rows[offset..][0] == row && rows[offset..][1..] == rows[offset + 1..];
      if !Skipped(row) {
        var op := ParseRow(offset + 1, row);
        if op.Err? {
          return Err(op.error);
        }
        JoinedTwice(operations, op.value, ParseRows(rows[offset + 1..], offset + 2));
        operations := operations + [op.value];
      }
      offset := offset + 1;
    }
    assert operations + [] == operations;
    r := Ok(operations);
  }

  function Joined(first: seq<InitOp>, rest: Result<seq<InitOp>, PlanError>): Result<seq<InitOp>, PlanError> {
    match rest
    case Err(e) => Err(e)
    case Ok(ops) => Ok(first + ops)
  }

  lemma {:induction false} JoinedNothing(rest: Result<seq<InitOp>, PlanError>)
    ensures Joined([], rest) == rest
  {
    if rest.Ok? {
      assert [] + rest.value == rest.value;
    }
  }

  lemma {:induction false} JoinedTwice(first: seq<InitOp>, op: InitOp, rest: Result<seq<InitOp>, PlanError>)
    ensures Joined(first, Joined([op], rest)) == Joined(first + [op], rest)
  {
    if rest.Ok? {
      Associate(first, [op], rest.value);
    }
  }

  // ---------------------------------------------------------------------
  // What every accepted plan satisfies.

  predicate Supported(op: InitOp) {
    && op.delayUs <= MAX_DELAY_US
    && match op
       case ControlIn(_, t, r, value, index, length) =>
         t == 0xc0 && r == 0x88 && value <= 0xffff && index <= 0xffff && length <= MAX_LENGTH
       case ControlOut(_, t, r, value, index, data) =>
         t == 0x40 && r == 0x88 && value <= 0xffff && index <= 0xffff && |data| <= MAX_LENGTH
       case SetInterface(_, iface, alternate) => iface == 0 && alternate <= 0xff
  }

  lemma {:induction false} RowIsSupported(line: nat, row: string)
    ensures ParseRow(line, row).Ok? ==> Supported(ParseRow(line, row).value)
  {
    hide ParseNumber, SplitOn, HexDecode;
  }

  // The replay can only ever be asked for these operations.
  lemma {:induction false} AcceptedPlanIsSupported(rows: seq<string>, first: nat)
    ensures ParseRows(rows, first).Ok? ==>
              forall k :: 0 <= k < |ParseRows(rows, first).value| ==> Supported(ParseRows(rows, first).value[k])
  {
    hide ParseRow, Supported;
    if rows != [] {
      AcceptedPlanIsSupported(rows[1..], first + 1);
      RowIsSupported(first, rows[0]);
    }
  }

  // Parsing distributes over concatenation of whole lines.
  lemma {:induction false} RowsDistribute(a: seq<string>, b: seq<string>, first: nat)
    ensures ParseRows(a + b, first) ==
            match ParseRows(a, first)
            case Err(e) => Err(e)
            case Ok(ops) => Joined(ops, ParseRows(b, first + |a|))
    decreases |a|
  {
    hide ParseRow, Skipped;
    if a == [] {
      assert a + b == b;
      JoinedNothing(ParseRows(b, first));
    } else {
      assert (a + b)[1..] == a[1..] + b;
      RowsDistribute(a[1..], b, first + 1);
      if !Skipped(a[0]) && ParseRow(first, a[0]).Ok? && ParseRows(a[1..], first + 1).Ok? {
        var rest := ParseRows(b, first + |a|);
        if rest.Ok? {
          Associate([ParseRow(first, a[0]).value], ParseRows(a[1..], first + 1).value, rest.value);
        }
      }
    }
  }

  lemma {:induction false} PlanDistributes(a: string, b: string)
    requires EndsWithNewline(a)
    ensures ParsePlan(a + b) ==
            match ParsePlan(a)
            case Err(e) => Err(e)
            case Ok(ops) => Joined(ops, ParseRows(Lines(b), 1 + |Lines(a)|))
  {
    hide ParseRows, Lines, Joined;
    LinesAppend(a, b);
    RowsDistribute(Lines(a), Lines(b), 1);
  }

  // ---------------------------------------------------------------------
  // The extractor: retained requests, and the line printed for each.

  datatype Retained = Retained(
    delayUs: nat, requestType: nat, request: nat, value: nat, index: nat, length: nat, data: Data, frame: nat)

  function PayloadText(data: Data): string {
    if data == [] then "-" else HexOf(data)
  }

  function FieldsOf(r: Retained): (fields: seq<string>)
    ensures |fields| == 8
  {
    [Decimal(r.delayUs), Hex(r.requestType, 2), Hex(r.request, 2), Hex(r.value, 4), Hex(r.index, 4),
     Decimal(r.length), PayloadText(r.data), Decimal(r.frame)]
  }

  function JoinTabs(fields: seq<string>): string
    requires fields != []
  {
    if |fields| == 1 then fields[0] else fields[0] + "\t" + JoinTabs(fields[1..])
  }

  function FormatLine(r: Retained): string {
    JoinTabs(FieldsOf(r))
  }

  // What the printed request means to the replay.
  function MeaningOf(r: Retained): InitOp {
    if r.request == 0x0b then SetInterface(r.delayUs, r.index, r.value)
    else if r.requestType == 0xc0 then
      ControlIn(r.delayUs, r.requestType, r.request, r.value, r.index, r.length)
    else ControlOut(r.delayUs, r.requestType, r.request, r.value, r.index, r.data)
  }

  // The shapes the extractor retains.
  predicate WellRetained(r: Retained) {
    || (r.request == 0x0b && r.index == 0 && r.length == 0 && r.data == [])
    || (r.request == 0x88 && r.requestType == 0xc0 && r.data == [])
    || (r.request == 0x88 && r.requestType == 0x40 && |r.data| == r.length)
  }

  // The requests that survive printing and parsing: an empty output payload is
  // printed as "-", which is not hexadecimal.
  predicate Representable(r: Retained) {
    && r.delayUs <= MAX_DELAY_US && r.value <= 0xffff && r.index <= 0xffff && r.length <= MAX_LENGTH
    && (r.request == 0x0b ==> r.requestType == 0x01 && r.value <= 0xff)
    && (r.request == 0x88 && r.requestType == 0x40 ==> r.length >= 1)
  }

  ghost predicate FreeOf(s: string, c: char) {
    c !in s
  }

  lemma {:induction false} SplitJoined(fields: seq<string>)
    requires fields != [] && forall k :: 0 <= k < |fields| ==> FreeOf(fields[k], '\t')
    ensures SplitOn(JoinTabs(fields), '\t') == fields
    decreases |fields|
  {
    if |fields| > 1 {
      SplitFirst(fields[0], '\t', JoinTabs(fields[1..]));
      assert forall k :: 0 <= k < |fields| - 1 ==> fields[1..][k] == fields[k + 1];
      SplitJoined(fields[1..]);
      assert [fields[0]] + fields[1..] == fields;
    } else {
      assert FreeOf(fields[0], '\t');
      assert [fields[0]] == fields;
    }
  }

  lemma {:induction false} JoinedFree(fields: seq<string>, c: char)
    requires fields != [] && c != '\t' && forall k :: 0 <= k < |fields| ==> FreeOf(fields[k], c)
    ensures FreeOf(JoinTabs(fields), c)
    ensures fields[0] != [] ==> JoinTabs(fields) != [] && JoinTabs(fields)[0] == fields[0][0]
    decreases |fields|
  {
    if |fields| > 1 {
      assert forall k :: 0 <= k < |fields| - 1 ==> fields[1..][k] == fields[k + 1];
      JoinedFree(fields[1..], c);
      assert FreeOf(fields[0], c);
    }
  }

  // Every character of every field is a digit, a letter a-f, 'x' or '-'.
  lemma {:induction false} FieldsAreClean(r: Retained, c: char)
    requires c < ' '
    ensures forall k :: 0 <= k < 8 ==> FreeOf(FieldsOf(r)[k], c)
    ensures FieldsOf(r)[0] != [] && '0' <= FieldsOf(r)[0][0] <= '9'
  {
    DecimalClean(r.delayUs, c);
    HexClean(r.requestType, 2, c);
    HexClean(r.request, 2, c);
    HexClean(r.value, 4, c);
    HexClean(r.index, 4, c);
    DecimalClean(r.length, c);
    HexOfIsDigits(r.data);
    DigitsClean(HexOf(r.data), c);
    DecimalClean(r.frame, c);
    hide Decimal, Hex, HexOf;
  }

  lemma {:induction false} DigitsClean(s: string, c: char)
    requires AllDigits(s) && c < ' '
    ensures FreeOf(s, c)
  {
  }

  lemma {:induction false} DecimalClean(n: nat, c: char)
    requires c < ' '
    ensures FreeOf(Decimal(n), c) && Decimal(n) != [] && '0' <= Decimal(n)[0] <= '9'
  {
    DecimalRoundTrip(n);
    DigitsClean(Decimal(n), c);
  }

  lemma {:induction false} HexClean(n: nat, width: nat, c: char)
    requires c < ' '
    ensures FreeOf(Hex(n, width), c)
  {
    HexRoundTrip(n, width);
    hide Hex;
    var s := Hex(n, width);
    DigitsClean(s[2..], c);
    assert s == s[..2] + s[2..];
  }

  ghost predicate Reads(text: string, n: nat) {
    ParseNumber(text) == if n <= U64_MAX then Some(n) else None
  }

  lemma {:induction false} BoundedNumber(line: nat, field: string, text: string, n: nat, maximum: nat)
    requires Reads(text, n) && maximum <= U64_MAX
    ensures ParseBounded(line, field, text, maximum).Ok? <==> n <= maximum
    ensures n <= maximum ==> ParseBounded(line, field, text, maximum) == Ok(n)
  {
  }

  predicate NumbersFit(n: Numbers) {
    && n.delayUs <= MAX_DELAY_US && n.requestType <= 0xff && n.request <= 0xff
    && n.value <= 0xffff && n.index <= 0xffff && n.length <= MAX_LENGTH
  }

  lemma {:induction false} NumbersParse(line: nat, fields: seq<string>, n: Numbers)
    requires |fields| == 8
    requires Reads(fields[0], n.delayUs) && Reads(fields[1], n.requestType) && Reads(fields[2], n.request)
    requires Reads(fields[3], n.value) && Reads(fields[4], n.index) && Reads(fields[5], n.length)
    ensures ParseNumbers(line, fields).Ok? <==> NumbersFit(n)
    ensures NumbersFit(n) ==> ParseNumbers(line, fields) == Ok(n)
  {
    BoundedNumber(line, "delay_us", fields[0], n.delayUs, MAX_DELAY_US);
    BoundedNumber(line, "bmRequestType", fields[1], n.requestType, 0xff);
    BoundedNumber(line, "bRequest", fields[2], n.request, 0xff);
    BoundedNumber(line, "wValue", fields[3], n.value, 0xffff);
    BoundedNumber(line, "wIndex", fields[4], n.index, 0xffff);
    BoundedNumber(line, "wLength", fields[5], n.length, MAX_LENGTH);
    hide ParseBounded, Reads;
  }

  function NumbersOf(r: Retained): Numbers {
    Numbers(r.delayUs, r.requestType, r.request, r.value, r.index, r.length)
  }

  lemma {:induction false} NumbersRead(line: nat, r: Retained)
    ensures ParseNumbers(line, FieldsOf(r)).Ok? <==> NumbersFit(NumbersOf(r))
    ensures NumbersFit(NumbersOf(r)) ==> ParseNumbers(line, FieldsOf(r)) == Ok(NumbersOf(r))
  {
    hide Decimal, Hex, ParseNumbers, NumbersFit, PayloadText, Reads;
    DecimalReads(r.delayUs);
    HexReads(r.requestType, 2);
    HexReads(r.request, 2);
    HexReads(r.value, 4);
    HexReads(r.index, 4);
    DecimalReads(r.length);
    NumbersParse(line, FieldsOf(r), NumbersOf(r));
  }

  lemma {:induction false} DecimalReads(n: nat)
    ensures Reads(Decimal(n), n)
  {
    DecimalRoundTrip(n);
  }

  lemma {:induction false} HexReads(n: nat, width: nat)
    ensures Reads(Hex(n, width), n)
  {
    HexRoundTrip(n, width);
  }

  lemma {:induction false} DashIsNotHex()
    ensures HexDecode("-").None?
  {
  }

  lemma {:induction false} OperationIff(line: nat, r: Retained)
    requires WellRetained(r) && r.value <= 0xffff && r.index <= 0xffff
    ensures var n := Numbers(r.delayUs, r.requestType, r.request, r.value, r.index, r.length);
            ToOperation(line, n, PayloadText(r.data)) == Ok(MeaningOf(r))
            <==> (r.request == 0x0b ==> r.requestType == 0x01 && r.value <= 0xff)
                 && (r.request == 0x88 && r.requestType == 0x40 ==> r.length >= 1)
  {
    DashIsNotHex();
    HexOfRoundTrip(r.data);
    hide HexOf, HexDecode;
  }

  // The printed line splits into its fields again, and is one line.
  lemma {:induction false} LineIsClean(r: Retained)
    ensures SplitOn(FormatLine(r), '\t') == FieldsOf(r)
    ensures !Skipped(FormatLine(r)) && '\n' !in FormatLine(r) && '\r' !in FormatLine(r)
  {
    FieldsAreClean(r, '\t');
    FieldsAreClean(r, '\n');
    FieldsAreClean(r, '\r');
    SplitJoined(FieldsOf(r));
    JoinedFree(FieldsOf(r), '\n');
    JoinedFree(FieldsOf(r), '\r');
    hide SplitOn;
  }

  // A printed line reads back as the request it stands for exactly when the
  // request is representable; otherwise it is rejected or misread.
  lemma {:induction false} RowRoundTripIff(line: nat, r: Retained)
    requires WellRetained(r)
    ensures ParseRow(line, FormatLine(r)) == Ok(MeaningOf(r)) <==> Representable(r)
    ensures !Skipped(FormatLine(r)) && '\n' !in FormatLine(r) && '\r' !in FormatLine(r)
  {
    LineIsClean(r);
    NumbersRead(line, r);
    hide SplitOn, JoinTabs, FieldsOf, ParseNumbers, PayloadText, FormatLine;
    if r.value <= 0xffff && r.index <= 0xffff {
      OperationIff(line, r);
    }
    ParseRowUnfolds(line, r);
  }

  lemma {:induction false} ParseRowUnfolds(line: nat, r: Retained)
    requires SplitOn(FormatLine(r), '\t') == FieldsOf(r)
    ensures ParseRow(line, FormatLine(r)) ==
            match ParseNumbers(line, FieldsOf(r))
            case Err(e) => Err(e)
            case Ok(n) => ToOperation(line, n, PayloadText(r.data))
  {
    hide ParseNumbers, ToOperation;
  }

  // ---------------------------------------------------------------------
  // Whole plans.

  const PLAN_COLUMNS: seq<string> :=
    ["# delay_us", "bmRequestType", "bRequest", "wValue", "wIndex", "wLength", "data_hex", "capture_frame"]

  function PlanHeader(): string {
    JoinTabs(PLAN_COLUMNS) + "\n"
  }

  function PrintPlan(retained: seq<Retained>): string {
    if retained == [] then PlanHeader()
    else PrintPlan(retained[..|retained| - 1]) + (FormatLine(retained[|retained| - 1]) + "\n")
  }

  function PrintedRows(retained: seq<Retained>): (rows: seq<string>)
    ensures |rows| == |retained|
  {
    if retained == [] then []
    else PrintedRows(retained[..|retained| - 1]) + [FormatLine(retained[|retained| - 1])]
  }

  function Meanings(retained: seq<Retained>): (ops: seq<InitOp>)
    ensures |ops| == |retained|
  {
    seq(|retained|, k requires 0 <= k < |retained| => MeaningOf(retained[k]))
  }

  ghost predicate AllWellRetained(retained: seq<Retained>) {
    forall k :: 0 <= k < |retained| ==> WellRetained(retained[k])
  }

  ghost predicate AllRepresentable(retained: seq<Retained>) {
    forall k :: 0 <= k < |retained| ==> Representable(retained[k])
  }

  lemma {:induction false} OneLine(line: string)
    requires '\n' !in line && '\r' !in line
    ensures Lines(line + "\n") == [line] && EndsWithNewline(line + "\n")
  {
    FirstLine(line, "");
    assert line + "\n" + "" == line + "\n";
    assert Lines("") == [];
    if line != [] {
      assert line[|line| - 1] in line;
    }
  }

  lemma {:induction false} HeaderIsComment()
    ensures EndsWithNewline(PlanHeader()) && |Lines(PlanHeader())| == 1 && Skipped(Lines(PlanHeader())[0])
  {
    ColumnsAreClean('\n');
    ColumnsAreClean('\r');
    JoinedFree(PLAN_COLUMNS, '\n');
    JoinedFree(PLAN_COLUMNS, '\r');
    OneLine(JoinTabs(PLAN_COLUMNS));
  }

  lemma {:induction false} ColumnsAreClean(c: char)
    requires c < ' '
    ensures forall k :: 0 <= k < |PLAN_COLUMNS| ==> FreeOf(PLAN_COLUMNS[k], c)
  {
  }

  lemma {:induction false} PrintedLines(retained: seq<Retained>)
    requires AllWellRetained(retained)
    ensures EndsWithNewline(PrintPlan(retained))
    ensures Lines(PrintPlan(retained)) == Lines(PlanHeader()) + PrintedRows(retained)
  {
    if retained == [] {
      HeaderIsComment();
    } else {
      var init, last := retained[..|retained| - 1], retained[|retained| - 1];
      assert forall k :: 0 <= k < |init| ==> init[k] == retained[k];
      PrintedLines(init);
      RowRoundTripIff(1, last);
      hide FormatLine, Lines;
      OneLine(FormatLine(last));
      LinesAppend(PrintPlan(init), FormatLine(last) + "\n");
      Associate(Lines(PlanHeader()), PrintedRows(init), [FormatLine(last)]);
    }
  }

  lemma {:induction false} RowsRoundTripIff(retained: seq<Retained>, first: nat)
    requires AllWellRetained(retained)
    ensures ParseRows(PrintedRows(retained), first) == Ok(Meanings(retained)) <==> AllRepresentable(retained)
  {
    hide ParseRow, FormatLine, MeaningOf, Representable, WellRetained, Skipped;
    if retained != [] {
      var init, last := retained[..|retained| - 1], retained[|retained| - 1];
      assert forall k :: 0 <= k < |init| ==> init[k] == retained[k];
      RowsRoundTripIff(init, first);
      RowsDistribute(PrintedRows(init), [FormatLine(last)], first);
      RowRoundTripIff(first + |init|, last);
      OneRow(FormatLine(last), first + |init|);
      assert Meanings(retained) == Meanings(init) + [MeaningOf(last)];
      assert AllRepresentable(retained) <==> AllRepresentable(init) && Representable(last);
      LastOfJoined(ParseRows(PrintedRows(init), first), ParseRow(first + |init|, FormatLine(last)),
                   Meanings(init), MeaningOf(last));
    }
  }

  lemma {:induction false} LastOfJoined(first: Result<seq<InitOp>, PlanError>, last: Result<InitOp, PlanError>,
                     ops: seq<InitOp>, op: InitOp)
    ensures (match first
             case Err(e) => Err(e)
             case Ok(read) =>
               Joined(read, match last
                            case Err(e) => Err(e)
                            case Ok(one) => Ok([one]))) == Ok(ops + [op])
            <==> first == Ok(ops) && last == Ok(op)
  {
    if first.Ok? && last.Ok? && first.value + [last.value] == ops + [op] {
      assert (first.value + [last.value])[..|ops|] == (ops + [op])[..|ops|];
      assert first.value == ops;
    }
  }

  lemma {:induction false} OneRow(row: string, line: nat)
    requires !Skipped(row)
    ensures ParseRows([row], line) ==
            match ParseRow(line, row)
            case Err(e) => Err(e)
            case Ok(op) => Ok([op])
  {
    hide ParseRow;
    assert [row][1..] == [];
    assert ParseRows([row][1..], line + 1) == Ok([]);
    if ParseRow(line, row).Ok? {
      assert [ParseRow(line, row).value] + [] == [ParseRow(line, row).value];
    }
  }

  // The round trip on every list the extractor can retain: parsing the printed
  // plan returns the same operations exactly when every request is representable.
  lemma {:induction false} PlanRoundTripIff(retained: seq<Retained>)
    requires AllWellRetained(retained)
    ensures ParsePlan(PrintPlan(retained)) == Ok(Meanings(retained)) <==> AllRepresentable(retained)
  {
    PrintedLines(retained);
    HeaderIsComment();
    RowsRoundTripIff(retained, 2);
    hide Lines, PrintedRows, PrintPlan, FormatLine, ParseRow, MeaningOf, Representable, Skipped;
    SkipFirst(Lines(PlanHeader())[0], PrintedRows(retained));
    assert Lines(PlanHeader()) == [Lines(PlanHeader())[0]];
  }

  lemma {:induction false} SkipFirst(comment: string, rows: seq<string>)
    requires Skipped(comment)
    ensures ParseRows([comment] + rows, 1) == ParseRows(rows, 2)
  {
    assert ([comment] + rows)[1..] == rows;
  }

  // An output request without data is retained and printed, and its plan is rejected.
  lemma {:induction false} EmptyOutputIsLost(delayUs: nat, frame: nat)
    requires delayUs <= MAX_DELAY_US
    ensures var r := Retained(delayUs, 0x40, 0x88, 0, 0, 0, [], frame);
            WellRetained(r) && ParsePlan(PrintPlan([r])) != Ok([MeaningOf(r)])
  {
    var r := Retained(delayUs, 0x40, 0x88, 0, 0, 0, [], frame);
    PlanRoundTripIff([r]);
    assert !Representable([r][0]);
    assert Meanings([r]) == [MeaningOf(r)];
  }

  // ---------------------------------------------------------------------
  // From captured rows to retained requests.

  // One row of the capture; `data` is the payload its hexadecimal field renders.
  datatype CapturedRow = CapturedRow(
    frame: nat, time: real, requestType: nat, request: nat, value: nat, index: nat, length: nat, data: Data)

  datatype ExtractError =
    | UnknownSetInterface(frame: nat)
    | UnexpectedRequestType(frame: nat, requestType: nat)
    | OutputLength(frame: nat, expected: nat, actual: nat)

  // Interface and alternate setting of the known SET_INTERFACE frames.
  const KNOWN_SET_INTERFACE: map<nat, (nat, nat)> :=
    map[4196 := (2, 0), 4200 := (0, 0), 4240 := (0, 7), 4246 := (0, 5), 4644 := (2, 1)]

  // Python's round: to the nearest integer, ties to even.
  function RoundHalfEven(x: real): int {
    var below := x.Floor;
    var part := x - below as real;
    if part < 0.5 then below
    else if part > 0.5 then below + 1
    else if below % 2 == 0 then below
    else below + 1
  }

  function DelayUs(previous: Option<real>, time: real): nat {
    match previous
    case None => 0
    case Some(p) => Max(0, RoundHalfEven((time - p) * 1_000_000.0))
  }

  datatype Verdict = Keep(r: Retained) | SkipInterface | Ignore | Reject(error: ExtractError)

  function Judge(row: CapturedRow, previous: Option<real>): Verdict {
    var delay := DelayUs(previous, row.time);
    if row.request == 11 then
      if row.frame !in KNOWN_SET_INTERFACE then Reject(UnknownSetInterface(row.frame))
      else
        var (iface, alternate) := KNOWN_SET_INTERFACE[row.frame];
        if iface != 0 then SkipInterface
        else Keep(Retained(delay, row.requestType, row.request, alternate, iface, 0, [], row.frame))
    else if row.request == 136 then
      if row.requestType != 0x40 && row.requestType != 0xc0 then
        Reject(UnexpectedRequestType(row.frame, row.requestType))
      else if row.requestType == 0x40 && 2 * |row.data| != row.length * 2 then
        Reject(OutputLength(row.frame, row.length, |row.data|))
      else
        Keep(Retained(delay, row.requestType, row.request, row.value, row.index, row.length,
                      if row.requestType == 0x40 then row.data else [], row.frame))
    else Ignore
  }

  datatype Extraction = Extraction(retained: seq<Retained>, previous: Option<real>, skipped: nat)

  function ExtractAll(rows: seq<CapturedRow>): Result<Extraction, ExtractError> {
    if rows == [] then Ok(Extraction([], None, 0))
    else
      match ExtractAll(rows[..|rows| - 1])
      case Err(e) => Err(e)
      case Ok(x) =>
        var row := rows[|rows| - 1];
        match Judge(row, x.previous)
        case Keep(r) => Ok(Extraction(x.retained + [r], Some(row.time), x.skipped))
        case SkipInterface => Ok(x.(skipped := x.skipped + 1))
        case Ignore => Ok(x)
        case Reject(e) => Err(e)
  }

  lemma {:induction false} ExtractedAreWellRetained(rows: seq<CapturedRow>)
    requires ExtractAll(rows).Ok?
    ensures AllWellRetained(ExtractAll(rows).value.retained)
  {
    if rows != [] {
      ExtractedAreWellRetained(rows[..|rows| - 1]);
    }
  }

  lemma {:induction false} ErrorPersists(rows: seq<CapturedRow>, k: nat)
    requires k <= |rows| && ExtractAll(rows[..k]).Err?
    ensures ExtractAll(rows) == Err(ExtractAll(rows[..k]).error)
    decreases |rows| - k
  {
    if k < |rows| {
      assert rows[..k + 1][..k] == rows[..k];
      ErrorPersists(rows, k + 1);
    } else {
      assert rows[..k] == rows;
    }
  }

  lemma {:induction false} ExtractSnoc(rows: seq<CapturedRow>, row: CapturedRow)
    ensures ExtractAll(rows + [row]) ==
            match ExtractAll(rows)
            case Err(e) => Err(e)
            case Ok(x) =>
              (match Judge(row, x.previous)
               case Keep(r) => Ok(Extraction(x.retained + [r], Some(row.time), x.skipped))
               case SkipInterface => Ok(x.(skipped := x.skipped + 1))
               case Ignore => Ok(x)
               case Reject(e) => Err(e))
  {
    assert (rows + [row])[..|rows|] == rows;
  }

  lemma {:induction false} ExtractStep(rows: seq<CapturedRow>, i: nat, x: Extraction)
    requires i < |rows| && ExtractAll(rows[..i]) == Ok(x)
    ensures match Judge(rows[i], x.previous)
            case Keep(r) =>
              ExtractAll(rows[..i + 1]) == Ok(Extraction(x.retained + [r], Some(rows[i].time), x.skipped))
            case SkipInterface => ExtractAll(rows[..i + 1]) == Ok(x.(skipped := x.skipped + 1))
            case Ignore => ExtractAll(rows[..i + 1]) == Ok(x)
            case Reject(e) => ExtractAll(rows) == Err(e)
  {
    hide Judge;
    assert rows[..i + 1] == rows[..i] + [rows[i]];
    ExtractSnoc(rows[..i], rows[i]);
    if Judge(rows[i], x.previous).Reject? {
      ErrorPersists(rows, i + 1);
    }
  }

  lemma {:induction false} PrintSnoc(retained: seq<Retained>, r: Retained)
    ensures PrintPlan(retained + [r]) == PrintPlan(retained) + (FormatLine(r) + "\n")
  {
    assert (retained + [r])[..|retained|] == retained;
  }

  lemma {:induction false} NothingExtracted()
    ensures PrintPlan([]) == PlanHeader() && ExtractAll([]) == Ok(Extraction([], None, 0))
  {
  }

  // The written plan, with the counts the tool reports.
  method Extract(rows: seq<CapturedRow>) returns (r: Result<string, ExtractError>, retained: nat, skipped: nat)
    ensures r.Err? ==> ExtractAll(rows) == Err(r.error)
    ensures r.Ok? ==> ExtractAll(rows).Ok? && r.value == PrintPlan(ExtractAll(rows).value.retained)
                      && retained == |ExtractAll(rows).value.retained| && skipped == ExtractAll(rows).value.skipped
  {
    var stream := PlanHeader();
    var previous: Option<real> := None;
    ghost var x := Extraction([], None, 0);
    retained, skipped := 0, 0;
    var i := 0;
    NothingExtracted();
    assert rows[..0] == [];
    hide FormatLine, Judge, PrintPlan, ExtractAll, PlanHeader;
    while i < |rows|
      invariant 0 <= i <= |rows|
      invariant ExtractAll(rows[..i]) == Ok(x) && previous == x.previous && skipped == x.skipped
      invariant stream == PrintPlan(x.retained) && retained == |x.retained|
    {
      var row := rows[i];
      ExtractStep(rows, i, x);
      match Judge(row, previous) {
        case Keep(request) =>
          PrintSnoc(x.retained, request);
          stream := stream + (FormatLine(request) + "\n");
          x := Extraction(x.retained + [request], Some(row.time), x.skipped);
          previous := Some(row.time);
          retained := retained + 1;
        case SkipInterface =>
          x := x.(skipped := x.skipped + 1);
          skipped := skipped + 1;
        case Ignore =>
        case Reject(error) =>
          return Err(error), retained, skipped;
      }
      i := i + 1;
    }
    assert rows[..i] == rows;
    r := Ok(stream);
  }

  // An accepted capture parses back to the requests retained from it exactly
  // when each of them is representable.
  lemma {:induction false} ExtractedPlanRoundTripsIff(rows: seq<CapturedRow>)
    requires ExtractAll(rows).Ok?
    ensures var retained := ExtractAll(rows).value.retained;
            ParsePlan(PrintPlan(retained)) == Ok(Meanings(retained)) <==> AllRepresentable(retained)
  {
    ExtractedAreWellRetained(rows);
    PlanRoundTripIff(ExtractAll(rows).value.retained);
  }
}
