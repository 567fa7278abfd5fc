/** Saved sessions: records, their text, and reading them back. A file is the
    sequence of its lines; a line that cannot be read is `None`, and so is a
    file that cannot be opened. */
module Sessions {
  import opened Options
  import opened Bytes
  import opened Endpoints
  import opened FilterSyntax
  import opened FilterCompile
  import opened Rows
  import opened Bounded

  datatype EventDetail = RowDescription(fields: seq<FieldSummary>) | DataRow(columns: seq<DataColumn>)

  datatype Output =
    | Message(message: DisplayMessage, detail: Option<EventDetail>)
    | Line(text: string)
    | Status(text: string)

  const SCHEMA_VERSION := 1

  datatype StoredDirection = F2b | B2f

  datatype StoredField = StoredField(name: string, typeOid: u32, formatCode: i16)

  datatype StoredColumn = StoredColumn(name: string, typeOid: u32, value: string)

  datatype StoredDetail = StoredFields(fields: seq<StoredField>) | StoredColumns(columns: seq<StoredColumn>)

  datatype StoredPayload =
    | StoredMessage(direction: StoredDirection, messageType: string, text: string, rendered: string, client: string,
                    detail: Option<StoredDetail>)
    | StoredLine(text: string)
    | StoredStatus(text: string)

  datatype StoredRecord = StoredRecord(schemaVersion: u32, timestamp: string, payload: StoredPayload)

  /** What the JSON library makes of a line: `record` is absent when the value
      does not have the shape of a record. */
  datatype Json = NotJson | Unversioned | Versioned(version: u32, record: Option<StoredRecord>)

  /** The library calls persistence relies on. */
  datatype Formats = Formats(
    spell: StoredRecord -> string,
    json: string -> Json,
    showAddress: Endpoint -> string,
    parseAddress: string -> Option<Endpoint>,
    isTime: string -> bool)

  /** Printed records read back and take one non-blank line; addresses read back. */
  ghost predicate Sound(f: Formats) {
    && (forall r :: f.json(f.spell(r)) == Versioned(r.schemaVersion, Some(r)) && Trim(f.spell(r)) != "")
    && (forall e :: f.parseAddress(f.showAddress(e)) == Some(e))
  }

  type File = Option<seq<Option<string>>>

  datatype Reason = BadJson | BadVersion | BadShape | BadTime | BadClient

  datatype SessionError = Io | InvalidRecord(line: nat, reason: Reason) | UnsupportedSchema(line: nat, found: u32)

  datatype Result<+T> = Ok(value: T) | Err(error: SessionError)

  // ----- conversions -----

  function StoreDirection(d: MessageDirection): StoredDirection {
    match d
    case FrontendToBackend => F2b
    case BackendToFrontend => B2f
  }

  function LoadDirection(d: StoredDirection): MessageDirection {
    match d
    case F2b => FrontendToBackend
    case B2f => BackendToFrontend
  }

  function StoreDetail(d: EventDetail): StoredDetail {
    match d
    case RowDescription(fields) =>
      StoredFields(seq(|fields|, i requires 0 <= i < |fields| =>
        StoredField(fields[i].name, fields[i].typeOid, fields[i].formatCode)))
    case DataRow(columns) =>
      StoredColumns(seq(|columns|, i requires 0 <= i < |columns| =>
        StoredColumn(columns[i].name, columns[i].typeOid, columns[i].value)))
  }

  function LoadDetail(d: StoredDetail): EventDetail {
    match d
    case StoredFields(fields) =>
      RowDescription(seq(|fields|, i requires 0 <= i < |fields| =>
        FieldSummary(fields[i].name, fields[i].typeOid, fields[i].formatCode)))
    case StoredColumns(columns) =>
      DataRow(seq(|columns|, i requires 0 <= i < |columns| =>
        DataColumn(columns[i].name, columns[i].typeOid, columns[i].value)))
  }

  /** `now` stamps the records that carry no time of their own. */
  function FromOutput(f: Formats, output: Output, now: string): StoredRecord {
    match output
    case Message(m, detail) =>
      var stored := match detail { case None => None case Some(d) => Some(StoreDetail(d)) };
      StoredRecord(SCHEMA_VERSION, m.timestamp,
        StoredMessage(StoreDirection(m.direction), m.kind, m.text, m.rendered, f.showAddress(m.client), stored))
    case Line(text) => StoredRecord(SCHEMA_VERSION, now, StoredLine(text))
    case Status(text) => StoredRecord(SCHEMA_VERSION, now, StoredStatus(text))
  }

  function IntoOutput(f: Formats, record: StoredRecord, line: nat): Result<Output> {
    if !f.isTime(record.timestamp) then Err(InvalidRecord(line, BadTime))
    else
      match record.payload
      case StoredMessage(direction, messageType, text, rendered, client, detail) =>
        var address := f.parseAddress(client);
        if address.None? then Err(InvalidRecord(line, BadClient))
        else
          var loaded := match detail { case None => None case Some(d) => Some(LoadDetail(d)) };
          Ok(Message(
            DisplayMessage(record.timestamp, rendered, address.value, LoadDirection(direction), messageType, text),
            loaded))
      case StoredLine(text) => Ok(Line(text))
      case StoredStatus(text) => Ok(Status(text))
  }

  function TimeOf(output: Output, now: string): string {
    if output.Message? then output.message.timestamp else now
  }

  lemma DetailReadsBack(d: EventDetail)
    ensures LoadDetail(StoreDetail(d)) == d
  {
    match d
    case RowDescription(fields) => assert LoadDetail(StoreDetail(d)).fields == fields;
    case DataRow(columns) => assert LoadDetail(StoreDetail(d)).columns == columns;
  }

  /** A stored record is read back exactly when its time is well formed, and
      then it is the output it was made from. */
  lemma OutputReadsBack(f: Formats, output: Output, now: string, line: nat)
    requires Sound(f)
    ensures IntoOutput(f, FromOutput(f, output, now), line) ==
      if f.isTime(TimeOf(output, now)) then Ok(output) else Err(InvalidRecord(line, BadTime))
  {
    hide StoreDetail, LoadDetail;
    if output.Message? && output.detail.Some? {
      DetailReadsBack(output.detail.value);
    }
  }

  // ----- reading a file -----

  /** One line: nothing to consume when it is blank. */
  function ReadLine(f: Formats, line: Option<string>, number: nat): Result<Option<Output>> {
    if line.None? then Err(Io)
    else if Trim(line.value) == "" then Ok(None)
    else
      match f.json(line.value)
      case NotJson => Err(InvalidRecord(number, BadJson))
      case Unversioned => Err(InvalidRecord(number, BadVersion))
      case Versioned(found, record) =>
        if found != SCHEMA_VERSION then Err(UnsupportedSchema(number, found))
        else if record.None? then Err(InvalidRecord(number, BadShape))
        else
          match IntoOutput(f, record.value, number)
          case Err(e) => Err(e)
          case Ok(output) => Ok(Some(output))
  }

  predicate Readable(f: Formats, line: Option<string>) {
    ReadLine(f, line, 0).Ok?
  }

  predicate AllReadable(f: Formats, lines: seq<Option<string>>) {
    forall i :: 0 <= i < |lines| ==> Readable(f, lines[i])
  }

  /** The records of readable lines, blank ones left out. */
  function Records(f: Formats, lines: seq<Option<string>>): seq<Output>
    requires AllReadable(f, lines)
  {
    if lines == [] then []
    else
      assert Readable(f, lines[|lines| - 1]);
      var before := Records(f, lines[..|lines| - 1]);
      var last := ReadLine(f, lines[|lines| - 1], 0).value;
      if last.None? then before else before + [last.value]
  }

  lemma NumberOnlyNamesTheLine(f: Formats, line: Option<string>, number: nat)
    ensures ReadLine(f, line, number).Ok? <==> Readable(f, line)
    ensures Readable(f, line) ==> ReadLine(f, line, number) == ReadLine(f, line, 0)
  {
    hide LoadDetail, Trim;
  }

  /** One more readable line adds its record, if it has one. */
  lemma OneMoreLine(f: Formats, lines: seq<Option<string>>, k: nat, line: Result<Option<Output>>)
    requires k < |lines| && AllReadable(f, lines[..k]) && line == ReadLine(f, lines[k], k + 1) && line.Ok?
    ensures AllReadable(f, lines[..k + 1])
    ensures Records(f, lines[..k + 1]) ==
      if line.value.None? then Records(f, lines[..k]) else Records(f, lines[..k]) + [line.value.value]
  {
    hide ReadLine;
    NumberOnlyNamesTheLine(f, lines[k], k + 1);
    var more := lines[..k + 1];
    forall i | 0 <= i < |more| ensures Readable(f, more[i]) {
      if i < k {
        assert more[i] == lines[..k][i];
      }
    }
    assert more[..k] == lines[..k];
  }

  /** Why a file is refused: its first bad line, counted from one. */
  ghost predicate RefusedAt(f: Formats, lines: seq<Option<string>>, k: nat, error: SessionError) {
    k < |lines| && AllReadable(f, lines[..k]) && ReadLine(f, lines[k], k + 1) == Err(error)
  }

  lemma RefusedIsUnreadable(f: Formats, lines: seq<Option<string>>, k: nat, error: SessionError)
    requires RefusedAt(f, lines, k, error)
    ensures !AllReadable(f, lines)
  {
    hide ReadLine;
    NumberOnlyNamesTheLine(f, lines[k], k + 1);
  }

  /** The loop shared by every reader, here with a consumer that keeps the
      newest `cap` records and counts the others. A failing line exposes nothing. */
  method ReadTail(f: Formats, file: File, cap: nat) returns (r: Result<(seq<Output>, nat)>)
    ensures r.Ok? <==> file.Some? && AllReadable(f, file.value)
    ensures r.Ok? ==> var all := Records(f, file.value);
      r.value.0 == Tail(all, cap) && r.value.1 == |all| - |r.value.0|
    ensures r.Err? ==> if file.None? then r.error == Io else exists k :: RefusedAt(f, file.value, k, r.error)
  {
    hide ReadLine, AllReadable, Records, Tail;
    if file.None? {
      return Err(Io);
    }
    var lines := file.value;
    var outputs, dropped := [], 0;
    var index := 0;
    NoLines(f, lines);
    assert Tail(Records(f, lines[..0]), cap) == [];
    while index < |lines|
      invariant 0 <= index <= |lines|
      invariant AllReadable(f, lines[..index])
      invariant var all := Records(f, lines[..index]); outputs == Tail(all, cap) && dropped == |all| - |outputs|
    {
      var line := ReadLine(f, lines[index], index + 1);
      if line.Err? {
        assert RefusedAt(f, lines, index, line.error);
        RefusedIsUnreadable(f, lines, index, line.error);
        return Err(line.error);
      }
      OneMoreLine(f, lines, index, line);
      if line.value.Some? {
        var output := line.value.value;
        OneMore(Records(f, lines[..index]), output, cap);
        if cap == 0 {
          dropped := dropped + 1;
        } else {
          if |outputs| == cap {
            outputs := outputs[1..];
            dropped := dropped + 1;
          }
          outputs := outputs + [output];
        }
      }
      index := index + 1;
    }
    assert lines[..index] == lines;
    return Ok((outputs, dropped));
  }

  lemma NoLines(f: Formats, lines: seq<Option<string>>)
    ensures AllReadable(f, lines[..0]) && Records(f, lines[..0]) == []
  {
  }

  // ----- recording -----

  function Recorded(f: Formats, output: Output, now: string): string {
    f.spell(FromOutput(f, output, now))
  }

  /** A file is the recording of these outputs: one line each, stamped at some valid time. */
  ghost predicate IsRecordingOf(f: Formats, lines: seq<string>, outputs: seq<Output>) {
    && |lines| == |outputs|
    && forall i :: 0 <= i < |lines| ==> RecordsOutput(f, lines[i], outputs[i])
  }

  ghost predicate RecordsOutput(f: Formats, line: string, output: Output) {
    exists now :: line == Recorded(f, output, now) && f.isTime(TimeOf(output, now))
  }

  function AsFile(lines: seq<string>): File {
    Some(seq(|lines|, i requires 0 <= i < |lines| => Some(lines[i])))
  }

  lemma RecordedLineReadsBack(f: Formats, line: string, output: Output)
    requires Sound(f) && RecordsOutput(f, line, output)
    ensures ReadLine(f, Some(line), 0) == Ok(Some(output))
  {
    hide FromOutput, IntoOutput, Trim;
    var now :| line == Recorded(f, output, now) && f.isTime(TimeOf(output, now));
    var record := FromOutput(f, output, now);
    CurrentSchema(f, output, now);
    OutputReadsBack(f, output, now, 0);
    assert f.json(f.spell(record)) == Versioned(record.schemaVersion, Some(record));
  }

  lemma CurrentSchema(f: Formats, output: Output, now: string)
    ensures FromOutput(f, output, now).schemaVersion == SCHEMA_VERSION
  {
  }

  /** Recording and reading back returns every output, in order. */
  lemma {:induction false} RecordingReadsBack(f: Formats, lines: seq<string>, outputs: seq<Output>)
    requires Sound(f) && IsRecordingOf(f, lines, outputs)
    ensures AllReadable(f, AsFile(lines).value)
    ensures Records(f, AsFile(lines).value) == outputs
    decreases |lines|
  {
    hide ReadLine, Sound, RecordsOutput;
    var file := AsFile(lines).value;
    forall i | 0 <= i < |lines| ensures ReadLine(f, file[i], 0) == Ok(Some(outputs[i])) {
      assert RecordsOutput(f, lines[i], outputs[i]);
      RecordedLineReadsBack(f, lines[i], outputs[i]);
    }
    if lines != [] {
      var n := |lines| - 1;
      RecordingReadsBack(f, lines[..n], outputs[..n]);
      assert file[..n] == AsFile(lines[..n]).value;
      assert outputs[..n] + [outputs[n]] == outputs;
    }
  }
}
