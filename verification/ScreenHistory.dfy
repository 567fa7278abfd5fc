/** What holds of the interface over whole runs of ticks and keys. */
module ScreenHistory {
  import opened Options
  import opened FilterSyntax
  import FilterCompile
  import opened Bounded
  import opened Sessions
  import opened ScreenModel
  import P = FilterPrinter
  import T = FilterRoundTrip

  datatype Op =
    | Arrive(disk: Disk, records: seq<Output>, connsOpened: nat, logH: nat)
    | Press(disk: Disk, key: Key, logH: nat)

  function Do(w: World, s: Screen, op: Op): Screen {
    match op
    case Arrive(disk, records, connsOpened, logH) => Tick(w, disk, s, records, connsOpened, logH)
    case Press(disk, key, logH) => HandleKey(w, disk, s, key, logH)
  }

  function Run(w: World, s: Screen, ops: seq<Op>): Screen {
    if ops == [] then s else Do(w, Run(w, s, ops[..|ops| - 1]), ops[|ops| - 1])
  }

  // ----- what the index is -----

  predicate Increasing(xs: seq<nat>) {
    forall i, j :: 0 <= i < j < |xs| ==> xs[i] < xs[j]
  }

  ghost predicate Indexes(lib: Library, filter: DisplayFilter, events: seq<Output>, xs: seq<nat>) {
    && Increasing(xs)
    && (forall k :: k in xs <==> 0 <= k < |events| && Shown(lib, filter, events[k]))
  }

  lemma {:induction false} MatchingIndexes(lib: Library, filter: DisplayFilter, events: seq<Output>)
    ensures Indexes(lib, filter, events, Matching(lib, filter, events))
  {
    hide Shown;
    if events != [] {
      var n := |events| - 1;
      MatchingIndexes(lib, filter, events[..n]);
      var before, all := Matching(lib, filter, events[..n]), Matching(lib, filter, events);
      forall k ensures k in all <==> 0 <= k < |events| && Shown(lib, filter, events[k]) {
        assert k in all <==> k in before || (k == n && Shown(lib, filter, events[n]));
        assert 0 <= k < n ==> events[..n][k] == events[k];
      }
      forall i | 0 <= i < |before| ensures before[i] < n {
        assert before[i] in before;
      }
    }
  }

  lemma EmptyTogether(a: seq<nat>, b: seq<nat>)
    requires forall k :: k in a <==> k in b
    ensures a == [] <==> b == []
  {
    if a != [] { assert a[0] in b; }
    if b != [] { assert b[0] in a; }
  }

  /** Increasing lists with the same members are the same list. */
  lemma {:induction false} IncreasingIsUnique(a: seq<nat>, b: seq<nat>)
    requires Increasing(a) && Increasing(b) && forall k :: k in a <==> k in b
    ensures a == b
  {
    EmptyTogether(a, b);
    if a != [] {
      var m, n := |a| - 1, |b| - 1;
      assert a[m] in b && b[n] in a;
      assert a[m] == b[n];
      forall k ensures k in a[..m] <==> k in b[..n] {
        if k in a[..m] {
          assert k in a && k != a[m];
        }
        if k in b[..n] {
          assert k in b && k != b[n];
        }
      }
      IncreasingIsUnique(a[..m], b[..n]);
      assert a == a[..m] + [a[m]] && b == b[..n] + [b[n]];
    }
  }

  /** The index is the one increasing list of the events that match. */
  lemma IndexIsExact(lib: Library, filter: DisplayFilter, events: seq<Output>, xs: seq<nat>)
    ensures xs == Matching(lib, filter, events) <==> Indexes(lib, filter, events, xs)
  {
    MatchingIndexes(lib, filter, events);
    hide Matching, Shown;
    if Indexes(lib, filter, events, xs) {
      IncreasingIsUnique(xs, Matching(lib, filter, events));
    }
  }

  // ----- the index agrees with the history -----

  predicate Settled(lib: Library, h: History) {
    h.visible == Matching(lib, h.filter, h.events) && |h.events| < HISTORY_CAP + HISTORY_TRIM_CHUNK
  }

  lemma NothingIsSettled(lib: Library, filter: DisplayFilter, dropped: nat)
    ensures Settled(lib, History([], [], filter, dropped))
  {
  }

  lemma MatchingGrows(lib: Library, filter: DisplayFilter, events: seq<Output>, output: Output)
    ensures Matching(lib, filter, events + [output]) ==
      Matching(lib, filter, events) + if Shown(lib, filter, output) then [|events|] else []
  {
    hide Shown;
    var all := events + [output];
    assert all[..|all| - 1] == events;
  }

  lemma PushKeepsSettled(w: World, disk: Disk, s: Screen, output: Output)
    requires Settled(w.lib, s.hist)
    ensures Settled(w.lib, Push(w, disk, s, output).hist)
  {
    hide Shown, Matching, Record;
    MatchingGrows(w.lib, s.hist.filter, s.hist.events, output);
  }

  lemma {:induction false} PushAllKeepsSettled(w: World, disk: Disk, s: Screen, records: seq<Output>)
    requires Settled(w.lib, s.hist)
    ensures Settled(w.lib, PushAll(w, disk, s, records).hist)
  {
    hide Push, Settled;
    if records != [] {
      PushAllKeepsSettled(w, disk, s, records[..|records| - 1]);
      PushKeepsSettled(w, disk, PushAll(w, disk, s, records[..|records| - 1]), records[|records| - 1]);
    }
  }

  lemma TickKeepsSettled(w: World, disk: Disk, s: Screen, records: seq<Output>, connsOpened: nat, logH: nat)
    requires Settled(w.lib, s.hist)
    ensures var t := Tick(w, disk, s, records, connsOpened, logH);
      Settled(w.lib, t.hist) && |t.hist.events| <= HISTORY_CAP && t.view.scroll <= MaxScroll(t, logH)
  {
    PushAllKeepsSettled(w, disk, s, records);
    hide PushAll, Matching;
  }

  lemma UpdateFilterKeepsSettled(lib: Library, s: Screen)
    requires Settled(lib, s.hist)
    ensures var t := UpdateFilter(lib, s); Settled(lib, t.hist) && t.hist.events == s.hist.events
  {
    hide Matching, FilterCompile.Compile, FilterCompile.Trim;
  }

  lemma CommandKeepsSettled(w: World, disk: Disk, s: Screen)
    requires Settled(w.lib, s.hist)
    ensures Settled(w.lib, ExecuteCommand(w, disk, s).hist)
  {
    hide Matching, ParseCommand, Loaded, WriteAll;
  }

  lemma FilterEditKeepsSettled(lib: Library, s: Screen, key: Key)
    requires Settled(lib, s.hist)
    ensures Settled(lib, EditFilter(lib, s, key).hist)
  {
    if key.code.Char? {
      UpdateFilterKeepsSettled(lib, s.(line := s.line.(text := s.line.text + [key.code.ch])));
    }
    UpdateFilterKeepsSettled(lib, s.(line := s.line.(text := DropLast(s.line.text))));
    hide UpdateFilter, Matching;
  }

  /** What browsing can do to the history: forget it, or drop the filter. */
  lemma BrowseKeepsHistory(lib: Library, s: Screen, code: KeyCode, logH: nat)
    ensures var t := Browse(lib, s, code, logH);
      && t.recorder == s.recorder && t.accepting == s.accepting
      && if code == Char('c') then t.hist == s.hist.(events := [], visible := [])
         else t.hist == s.hist || t.hist == Reindex(lib, s.hist.(filter := NO_FILTER))
  {
    hide Reindex;
  }

  lemma KeyKeepsSettled(w: World, disk: Disk, s: Screen, key: Key, logH: nat)
    requires Settled(w.lib, s.hist)
    ensures Settled(w.lib, HandleKey(w, disk, s, key, logH).hist)
  {
    CommandKeepsSettled(w, disk, s);
    FilterEditKeepsSettled(w.lib, s, key);
    BrowseKeepsHistory(w.lib, s, key.code, logH);
    hide ExecuteCommand, EditFilter, Browse, Matching;
  }

  /** After any run, from any state where it held, the index is exactly the
      events that match and the buffer is bounded. */
  lemma {:induction false} IndexAgreesWithHistory(w: World, s: Screen, ops: seq<Op>)
    requires Settled(w.lib, s.hist)
    ensures Settled(w.lib, Run(w, s, ops).hist)
  {
    hide Settled, Tick, HandleKey;
    if ops != [] {
      var before, op := Run(w, s, ops[..|ops| - 1]), ops[|ops| - 1];
      IndexAgreesWithHistory(w, s, ops[..|ops| - 1]);
      match op
      case Arrive(disk, records, connsOpened, logH) => TickKeepsSettled(w, disk, before, records, connsOpened, logH);
      case Press(disk, key, logH) => KeyKeepsSettled(w, disk, before, key, logH);
    }
  }

  // ----- the buffer is a bounded queue -----

  /** Everything offered since the last clear or open, and how many events had
      been dropped by then. */
  datatype Log = Log(all: seq<Output>, forgotten: nat)

  predicate Follows(h: History, log: Log) {
    && |h.events| <= |log.all| && h.events == log.all[|log.all| - |h.events|..]
    && (|h.events| >= HISTORY_CAP || |h.events| == |log.all|)
    && h.dropped + |h.events| == log.forgotten + |log.all|
  }

  predicate Wipes(s: Screen, key: Key) {
    !Quits(s, key) && !s.bar.editing && !s.splash && !s.line.editing && key.code == Char('c')
  }

  predicate Loads(w: World, disk: Disk, s: Screen, key: Key) {
    && !Quits(s, key) && s.bar.editing && key.code == Enter
    && var (name, argument) := ParseCommand(s.bar.text);
       !Saves(name) && Opens(name) && !OpenFails(w, disk, s, argument)
  }

  function LogStep(w: World, s: Screen, log: Log, op: Op): Log {
    match op
    case Arrive(_, records, _, _) => if s.accepting then Log(log.all + records, log.forgotten) else log
    case Press(disk, key, _) =>
      if Wipes(s, key) then Log([], s.hist.dropped)
      else if Loads(w, disk, s, key) then
        Log(Loaded(w.formats, disk.files(ParseCommand(s.bar.text).1)).value, 0)
      else log
  }

  function RunLog(w: World, s: Screen, log: Log, ops: seq<Op>): Log {
    if ops == [] then log
    else
      var n := |ops| - 1;
      LogStep(w, Run(w, s, ops[..n]), RunLog(w, s, log, ops[..n]), ops[n])
  }

  lemma TrimFollows(lib: Library, s: Screen, log: Log)
    requires Follows(s.hist, log)
    ensures Follows(ScreenModel.Trim(lib, s).hist, log)
  {
    hide Matching;
  }

  lemma PushFollows(w: World, disk: Disk, s: Screen, log: Log, output: Output)
    requires Follows(s.hist, log)
    ensures Follows(Push(w, disk, s, output).hist, Log(log.all + [output], log.forgotten))
  {
    hide Shown, Record, ScreenModel.Trim;
    var more := Log(log.all + [output], log.forgotten);
    var added := Record(w.formats, disk, s, output).(hist := Append(w.lib, s.hist, output));
    assert added.hist.events == more.all[|more.all| - |added.hist.events|..];
    TrimFollows(w.lib, added, more);
  }

  lemma {:induction false} PushAllFollows(w: World, disk: Disk, s: Screen, log: Log, records: seq<Output>)
    requires Follows(s.hist, log)
    ensures Follows(PushAll(w, disk, s, records).hist, Log(log.all + records, log.forgotten))
  {
    hide Push, Follows;
    if records == [] {
      assert log.all + records == log.all;
    } else {
      var n := |records| - 1;
      PushAllFollows(w, disk, s, log, records[..n]);
      PushFollows(w, disk, PushAll(w, disk, s, records[..n]), Log(log.all + records[..n], log.forgotten), records[n]);
      assert log.all + records[..n] + [records[n]] == log.all + records;
    }
  }

  lemma TickFollows(w: World, s: Screen, log: Log, op: Op)
    requires Follows(s.hist, log) && op.Arrive?
    ensures Follows(Do(w, s, op).hist, LogStep(w, s, log, op))
  {
    hide PushAll, ScreenModel.Trim;
    PushAllFollows(w, op.disk, s, log, op.records);
    var taken := if s.accepting then PushAll(w, op.disk, s, op.records) else s;
    var past := if taken.splash && op.connsOpened > 0 then taken.(splash := false) else taken;
    TrimFollows(w.lib, past, LogStep(w, s, log, op));
  }

  lemma CommandFollows(w: World, disk: Disk, s: Screen, log: Log)
    requires Follows(s.hist, log)
    ensures var (name, argument) := ParseCommand(s.bar.text);
      Follows(ExecuteCommand(w, disk, s).hist,
              if !Saves(name) && Opens(name) && !OpenFails(w, disk, s, argument)
              then Log(Loaded(w.formats, disk.files(argument)).value, 0) else log)
  {
    hide Matching, ParseCommand, Loaded, WriteAll;
  }

  lemma FilterEditKeepsEvents(lib: Library, s: Screen, key: Key)
    ensures var t := EditFilter(lib, s, key);
      && t.hist.events == s.hist.events && t.hist.dropped == s.hist.dropped
      && t.recorder == s.recorder && t.accepting == s.accepting
  {
    hide Matching, FilterCompile.Compile, FilterCompile.Trim;
  }

  lemma CommandEditFollows(w: World, disk: Disk, s: Screen, log: Log, key: Key, logH: nat)
    requires Follows(s.hist, log) && !Quits(s, key) && s.bar.editing
    ensures Follows(EditCommand(w, disk, s, key).hist, LogStep(w, s, log, Press(disk, key, logH)))
  {
    hide Follows, ExecuteCommand, ParseCommand, OpenFails, Loaded;
    if key.code == Enter {
      CommandFollows(w, disk, s, log);
    } else {
      assert EditCommand(w, disk, s, key).hist == s.hist;
    }
  }

  lemma BrowseFollows(w: World, disk: Disk, s: Screen, log: Log, key: Key, logH: nat)
    requires Follows(s.hist, log) && !Quits(s, key) && !s.bar.editing && !s.splash && !s.line.editing
    ensures Follows(Browse(w.lib, s, key.code, logH).hist, LogStep(w, s, log, Press(disk, key, logH)))
  {
    hide ParseCommand, OpenFails, Loaded, Browse, Matching;
    BrowseKeepsHistory(w.lib, s, key.code, logH);
  }

  lemma KeyFollows(w: World, s: Screen, log: Log, op: Op)
    requires Follows(s.hist, log) && op.Press?
    ensures Follows(Do(w, s, op).hist, LogStep(w, s, log, op))
  {
    if Quits(s, op.key) {
    } else if s.bar.editing {
      CommandEditFollows(w, op.disk, s, log, op.key, op.logH);
    } else if s.splash {
    } else if s.line.editing {
      FilterEditKeepsEvents(w.lib, s, op.key);
    } else {
      BrowseFollows(w, op.disk, s, log, op.key, op.logH);
    }
    hide Browse, EditCommand, EditFilter, Quits, ParseCommand, OpenFails, Loaded;
  }

  /** Only the clear key and an open touch the retained events. */
  lemma KeyKeepsEvents(w: World, disk: Disk, s: Screen, key: Key, logH: nat)
    ensures !Wipes(s, key) && !Loads(w, disk, s, key) ==>
      var t := HandleKey(w, disk, s, key, logH);
      t.hist.events == s.hist.events && t.hist.dropped == s.hist.dropped
  {
    CommandKeepsEvents(w, disk, s);
    FilterEditKeepsEvents(w.lib, s, key);
    BrowseKeepsHistory(w.lib, s, key.code, logH);
    hide ExecuteCommand, EditFilter, Browse, Matching, ParseCommand, OpenFails;
  }

  lemma CommandKeepsEvents(w: World, disk: Disk, s: Screen)
    ensures var (name, argument) := ParseCommand(s.bar.text);
      (!Saves(name) && Opens(name) && !OpenFails(w, disk, s, argument)) || ExecuteCommand(w, disk, s).hist == s.hist
  {
    hide Matching, ParseCommand, Loaded, WriteAll;
  }

  /** Whatever is typed, and however arrivals are batched between trims, the
      buffer is a suffix of everything offered, of at least 50,000 events once
      that many were offered, and every event is either retained or counted. */
  lemma {:induction false} BufferFollowsTheLog(w: World, s: Screen, log: Log, ops: seq<Op>)
    requires Follows(s.hist, log)
    ensures Follows(Run(w, s, ops).hist, RunLog(w, s, log, ops))
  {
    hide Follows, Do, LogStep;
    if ops != [] {
      var n := |ops| - 1;
      BufferFollowsTheLog(w, s, log, ops[..n]);
      if ops[n].Arrive? {
        TickFollows(w, Run(w, s, ops[..n]), RunLog(w, s, log, ops[..n]), ops[n]);
      } else {
        KeyFollows(w, Run(w, s, ops[..n]), RunLog(w, s, log, ops[..n]), ops[n]);
      }
    }
  }

  /** At every drawing the chunk-trimmed buffer equals a queue that holds 50,000. */
  lemma BufferIsABoundedQueue(w: World, s: Screen, log: Log, ops: seq<Op>)
    requires Settled(w.lib, s.hist) && Follows(s.hist, log) && ops != [] && ops[|ops| - 1].Arrive?
    ensures var t, all := Run(w, s, ops), RunLog(w, s, log, ops).all;
      && t.hist.events == Tail(all, HISTORY_CAP)
      && t.hist.visible == Matching(w.lib, t.hist.filter, Tail(all, HISTORY_CAP))
  {
    hide Tick, RunLog, Matching, Settled, Follows, HandleKey;
    var n := |ops| - 1;
    var before := Run(w, s, ops[..n]);
    IndexAgreesWithHistory(w, s, ops[..n]);
    BufferFollowsTheLog(w, s, log, ops);
    var op := ops[n];
    assert Run(w, s, ops) == Tick(w, op.disk, before, op.records, op.connsOpened, op.logH);
    TickKeepsSettled(w, op.disk, before, op.records, op.connsOpened, op.logH);
    SmallSuffixIsTail(w.lib, Run(w, s, ops).hist, RunLog(w, s, log, ops));
  }

  lemma SmallSuffixIsTail(lib: Library, h: History, log: Log)
    requires Settled(lib, h) && Follows(h, log) && |h.events| <= HISTORY_CAP
    ensures h.events == Tail(log.all, HISTORY_CAP) && h.visible == Matching(lib, h.filter, Tail(log.all, HISTORY_CAP))
  {
    hide Matching;
  }

  // ----- recording -----

  /** The key runs a save or an open. */
  predicate RunsCommand(s: Screen, key: Key) {
    !Quits(s, key) && s.bar.editing && key.code == Enter &&
    var name := ParseCommand(s.bar.text).0; Saves(name) || Opens(name)
  }

  /** No key of the run saves or opens. */
  predicate NoCommands(w: World, s: Screen, ops: seq<Op>) {
    ops != [] ==>
      var n := |ops| - 1;
      && NoCommands(w, s, ops[..n])
      && (ops[n].Press? ==> !RunsCommand(Run(w, s, ops[..n]), ops[n].key))
  }

  predicate TimesAreValid(f: Formats, outputs: seq<Output>, now: string) {
    forall i :: 0 <= i < |outputs| ==> f.isTime(TimeOf(outputs[i], now))
  }

  predicate ArrivalsAreTimed(f: Formats, ops: seq<Op>) {
    forall i :: 0 <= i < |ops| && ops[i].Arrive? ==> TimesAreValid(f, ops[i].records, ops[i].disk.now)
  }

  ghost predicate WritesSucceed(disk: Disk) {
    forall path, line :: disk.writes(path, line)
  }

  ghost predicate AllWritesSucceed(ops: seq<Op>) {
    forall i :: 0 <= i < |ops| && ops[i].Arrive? ==> WritesSucceed(ops[i].disk)
  }

  function Arrived(ops: seq<Op>): seq<Output> {
    if ops == [] then []
    else
      var n := |ops| - 1;
      Arrived(ops[..n]) + if ops[n].Arrive? then ops[n].records else []
  }

  /** The recorder, if it is still there, holds exactly these outputs. */
  ghost predicate Holds(f: Formats, s: Screen, path: string, outputs: seq<Output>) {
    s.recorder.Some? ==> s.recorder.value.path == path && IsRecordingOf(f, s.recorder.value.lines, outputs)
  }

  lemma RecordingGrows(f: Formats, lines: seq<string>, outputs: seq<Output>, output: Output, now: string)
    requires IsRecordingOf(f, lines, outputs) && f.isTime(TimeOf(output, now))
    ensures IsRecordingOf(f, lines + [Recorded(f, output, now)], outputs + [output])
  {
    hide Recorded;
    var line := Recorded(f, output, now);
    assert RecordsOutput(f, line, output);
    forall i | 0 <= i <= |lines| ensures RecordsOutput(f, (lines + [line])[i], (outputs + [output])[i]) {
      if i < |lines| {
        assert RecordsOutput(f, lines[i], outputs[i]);
      }
    }
  }

  lemma TrimKeepsRecorder(lib: Library, s: Screen)
    ensures var t := ScreenModel.Trim(lib, s); t.recorder == s.recorder && t.accepting == s.accepting
  {
    hide Matching;
  }

  lemma PushRecords(w: World, disk: Disk, s: Screen, path: string, outputs: seq<Output>, output: Output)
    requires Holds(w.formats, s, path, outputs) && w.formats.isTime(TimeOf(output, disk.now))
    ensures Holds(w.formats, Push(w, disk, s, output), path, outputs + [output])
    ensures WritesSucceed(disk) && s.recorder.Some? ==> Push(w, disk, s, output).recorder.Some?
  {
    hide Shown, ScreenModel.Trim, Recorded, IsRecordingOf;
    var added := Record(w.formats, disk, s, output).(hist := Append(w.lib, s.hist, output));
    TrimKeepsRecorder(w.lib, added);
    if s.recorder.Some? {
      RecordingGrows(w.formats, s.recorder.value.lines, outputs, output, disk.now);
    }
  }

  lemma {:induction false} PushAllRecords(w: World, disk: Disk, s: Screen, path: string, outputs: seq<Output>,
                                          records: seq<Output>)
    requires Holds(w.formats, s, path, outputs) && TimesAreValid(w.formats, records, disk.now)
    ensures Holds(w.formats, PushAll(w, disk, s, records), path, outputs + records)
    ensures WritesSucceed(disk) && s.recorder.Some? ==> PushAll(w, disk, s, records).recorder.Some?
  {
    hide Push, Holds, WritesSucceed;
    if records == [] {
      assert outputs + records == outputs;
    } else {
      var n := |records| - 1;
      PushAllRecords(w, disk, s, path, outputs, records[..n]);
      PushRecords(w, disk, PushAll(w, disk, s, records[..n]), path, outputs + records[..n], records[n]);
      assert outputs + records[..n] + [records[n]] == outputs + records;
    }
  }

  lemma {:induction false} PushAllKeepsAccepting(w: World, disk: Disk, s: Screen, records: seq<Output>)
    ensures PushAll(w, disk, s, records).accepting == s.accepting
  {
    if records != [] {
      var n := |records| - 1;
      PushAllKeepsAccepting(w, disk, s, records[..n]);
      var before := PushAll(w, disk, s, records[..n]);
      hide Record, Append, ScreenModel.Trim;
      TrimKeepsRecorder(w.lib,
        Record(w.formats, disk, before, records[n]).(hist := Append(w.lib, before.hist, records[n])));
    }
  }

  lemma KeyKeepsRecorder(w: World, disk: Disk, s: Screen, key: Key, logH: nat)
    requires !RunsCommand(s, key)
    ensures var t := HandleKey(w, disk, s, key, logH); t.recorder == s.recorder && t.accepting == s.accepting
  {
    hide ParseCommand;
    if !Quits(s, key) && s.bar.editing {
      assert EditCommand(w, disk, s, key).recorder == s.recorder
        && EditCommand(w, disk, s, key).accepting == s.accepting;
    }
    FilterEditKeepsEvents(w.lib, s, key);
    BrowseKeepsHistory(w.lib, s, key.code, logH);
    hide Browse, EditFilter, EditCommand, Matching, ExecuteCommand;
  }

  lemma TickRecords(w: World, s: Screen, path: string, outputs: seq<Output>, op: Op)
    requires op.Arrive? && s.accepting && Holds(w.formats, s, path, outputs)
    requires TimesAreValid(w.formats, op.records, op.disk.now)
    ensures var t := Do(w, s, op);
      && t.accepting && Holds(w.formats, t, path, outputs + op.records)
      && (WritesSucceed(op.disk) && s.recorder.Some? ==> t.recorder.Some?)
  {
    PushAllRecords(w, op.disk, s, path, outputs, op.records);
    PushAllKeepsAccepting(w, op.disk, s, op.records);
    var taken := PushAll(w, op.disk, s, op.records);
    var past := if taken.splash && op.connsOpened > 0 then taken.(splash := false) else taken;
    TrimKeepsRecorder(w.lib, past);
    hide PushAll, ScreenModel.Trim, IsRecordingOf, WritesSucceed;
  }

  /** The recording holds every record that arrived, whatever the filter shows,
      the history drops or the user clears. */
  lemma {:induction false} RecorderSeesEverything(w: World, s: Screen, path: string, outputs: seq<Output>, ops: seq<Op>)
    requires s.accepting && Holds(w.formats, s, path, outputs)
    requires NoCommands(w, s, ops) && ArrivalsAreTimed(w.formats, ops)
    ensures Run(w, s, ops).accepting && Holds(w.formats, Run(w, s, ops), path, outputs + Arrived(ops))
    ensures AllWritesSucceed(ops) && s.recorder.Some? ==> Run(w, s, ops).recorder.Some?
  {
    hide Tick, HandleKey, IsRecordingOf, WritesSucceed, TimesAreValid, RunsCommand;
    if ops == [] {
      assert outputs + Arrived(ops) == outputs;
    } else {
      var n := |ops| - 1;
      RecorderSeesEverything(w, s, path, outputs, ops[..n]);
      var before := Run(w, s, ops[..n]);
      assert AllWritesSucceed(ops) ==> AllWritesSucceed(ops[..n]);
      match ops[n]
      case Arrive(disk, records, _, _) =>
        TickRecords(w, before, path, outputs + Arrived(ops[..n]), ops[n]);
        assert outputs + Arrived(ops[..n]) + records == outputs + Arrived(ops);
      case Press(disk, key, logH) =>
        KeyKeepsRecorder(w, disk, before, key, logH);
        assert Arrived(ops) == Arrived(ops[..n]);
    }
  }

  lemma {:induction false} WriteAllRecords(f: Formats, disk: Disk, path: string, outputs: seq<Output>)
    requires TimesAreValid(f, outputs, disk.now)
    ensures var lines := WriteAll(f, disk, path, outputs); lines.Some? ==> IsRecordingOf(f, lines.value, outputs)
  {
    hide Recorded;
    if outputs != [] {
      var n := |outputs| - 1;
      WriteAllRecords(f, disk, path, outputs[..n]);
      var before := WriteAll(f, disk, path, outputs[..n]);
      if before.Some? {
        RecordingGrows(f, before.value, outputs[..n], outputs[n], disk.now);
        assert outputs[..n] + [outputs[n]] == outputs;
      }
    }
  }

  /** Save, keep capturing for any run, then open the file that was written: the
      newest 50,000 of everything retained at the save and everything since. */
  lemma RecordThenReplay(w: World, s: Screen, save: Disk, path: string, ops: seq<Op>, open: Disk)
    requires Sound(w.formats) && s.accepting && TimesAreValid(w.formats, s.hist.events, save.now)
    requires !StartRecording(w, save, s, path).1
    requires NoCommands(w, StartRecording(w, save, s, path).0, ops) && ArrivalsAreTimed(w.formats, ops)
    requires AllWritesSucceed(ops) && open.flushes(path)
    ensures var last := Run(w, StartRecording(w, save, s, path).0, ops);
      && last.recorder.Some?
      && (open.files(path) == AsFile(last.recorder.value.lines) ==>
            var (t, failed) := OpenSession(w, open, last, path);
            var all := s.hist.events + Arrived(ops);
            && !failed && t.hist.events == Tail(all, HISTORY_CAP) && t.hist.dropped == |all| - |t.hist.events|
            && t.hist.filter == last.hist.filter && t.hist.visible == Matching(w.lib, t.hist.filter, t.hist.events))
  {
    hide Matching, Run, Arrived, AllReadable, Records, IsRecordingOf, Sound, TimesAreValid, NoCommands,
      ArrivalsAreTimed, AllWritesSucceed, AsFile;
    WriteAllRecords(w.formats, save, path, s.hist.events);
    var started := StartRecording(w, save, s, path).0;
    RecorderSeesEverything(w, started, path, s.hist.events, ops);
    var last := Run(w, started, ops);
    RecordingReadsBack(w.formats, last.recorder.value.lines, s.hist.events + Arrived(ops));
    SomeFile(last.recorder.value.lines);
  }

  lemma SomeFile(lines: seq<string>)
    ensures AsFile(lines).Some?
  {
  }

  // ----- typing a filter -----

  function TypeText(w: World, disk: Disk, s: Screen, text: string, logH: nat): Screen {
    if text == "" then s
    else
      var n := |text| - 1;
      HandleKey(w, disk, TypeText(w, disk, s, text[..n], logH), Key(Char(text[n]), false), logH)
  }

  /** Typing text into the filter line leaves the history alone, and what counts
      is whether the whole text compiles, whatever its beginnings did. */
  lemma {:induction false} TypingFilters(w: World, disk: Disk, s: Screen, text: string, logH: nat)
    requires s.line.editing && !s.bar.editing && !s.splash && Settled(w.lib, s.hist)
    ensures var t := TypeText(w, disk, s, text, logH);
      && t.line.editing && !t.bar.editing && !t.splash && Settled(w.lib, t.hist)
      && t.hist.events == s.hist.events && t.line.text == s.line.text + text
      && (text != "" ==>
            match FilterCompile.Compile(w.lib, t.line.text)
            case Filter(f) => t.hist.filter == f && t.line.error.None?
            case Rejected(e) => t.line.error == Some(e))
  {
    hide FilterCompile.Compile, Settled, HandleKey;
    if text == "" {
      assert s.line.text + text == s.line.text;
    } else {
      var n := |text| - 1;
      TypingFilters(w, disk, s, text[..n], logH);
      var before := TypeText(w, disk, s, text[..n], logH);
      assert before.line.text + [text[n]] == s.line.text + text;
      TypedChar(w, disk, before, text[n], logH);
    }
  }

  lemma TypedChar(w: World, disk: Disk, s: Screen, ch: char, logH: nat)
    requires s.line.editing && !s.bar.editing && !s.splash && Settled(w.lib, s.hist)
    ensures var t := HandleKey(w, disk, s, Key(Char(ch), false), logH);
      && t.line.editing && !t.bar.editing && !t.splash && Settled(w.lib, t.hist)
      && t.hist.events == s.hist.events && t.line.text == s.line.text + [ch]
      && (match FilterCompile.Compile(w.lib, t.line.text)
          case Filter(f) => t.hist.filter == f && t.line.error.None?
          case Rejected(e) => t.line.error == Some(e))
  {
    hide Matching, FilterCompile.Trim;
    UpdateFilterKeepsSettled(w.lib, s.(line := s.line.(text := s.line.text + [ch])));
  }

  /** Typing the printed form of a well-typed expression into an empty filter
      line shows exactly the retained events that the expression accepts. */
  lemma TypingAnExpressionShowsItsEvents(w: World, disk: Disk, s: Screen, spell: P.IpSpelling, e: Expr, logH: nat)
    requires s.line.editing && !s.bar.editing && !s.splash && Settled(w.lib, s.hist) && s.line.text == ""
    requires P.Faithful(w.lib, spell) && P.WellTyped(w.lib, e)
    ensures T.Typed(w.lib, spell, e)
    ensures var t := TypeText(w, disk, s, T.Print(w.lib, spell, e), logH);
      && t.hist.events == s.hist.events && Increasing(t.hist.visible)
      && (forall k :: k in t.hist.visible <==>
            0 <= k < |s.hist.events| && (s.hist.events[k].Message? ==> ExprMatches(w.lib, e, s.hist.events[k].message)))
  {
    hide P.Faithful, P.WellTyped, T.Print, TypeText, FilterCompile.Compile, Matching, ExprMatches, FilterMatches;
    var f := T.PrintCompilesBack(w.lib, spell, e);
    var text := T.Print(w.lib, spell, e);
    var t := TypeText(w, disk, s, text, logH);
    TypingFilters(w, disk, s, text, logH);
    assert "" + text == text;
    MatchingIndexes(w.lib, f, s.hist.events);
  }
}
