/** The interface's state and the methods that update it in place. Between
    calls the index is exactly the matching events and the history is bounded. */
module Tui {
  import opened Options
  import opened FilterSyntax
  import opened Bounded
  import opened Sessions
  import opened ScreenModel
  import opened Metrics
  import FilterCompile
  import MetricsModel
  import Viewport
  import H = ScreenHistory

  class App {
    var events: seq<Output>
    var visible: seq<nat>
    var scroll: nat
    var follow: bool
    var wrap: bool
    var rich: bool
    var mode: string
    var metrics: MetricsStore
    var peakMsgsIn: nat
    var peakMsgsOut: nat
    var filter: DisplayFilter
    var filterText: string
    var filterError: Option<FilterError>
    var filterEditing: bool
    var commandEditing: bool
    var commandText: string
    var noticeIsError: Option<bool>
    var acceptSourceRecords: bool
    var dropped: nat
    var showSplash: bool
    var recorder: Option<Recorder>

    function State(): Screen
      reads this
    {
      Screen(
        History(events, visible, filter, dropped), View(scroll, follow, wrap, rich),
        FilterLine(filterText, filterError, filterEditing), CommandBar(commandText, commandEditing, noticeIsError),
        acceptSourceRecords, showSplash, recorder)
    }

    /** The index is exact and the history is bounded. */
    ghost predicate Valid(lib: Library)
      reads `events, `visible, `filter, `dropped
    {
      H.Settled(lib, History(events, visible, filter, dropped))
    }

    constructor (mode: string, metrics: MetricsStore, rich: bool, filter: DisplayFilter, hasSplash: bool)
      ensures forall lib :: Valid(lib)
      ensures this.mode == mode && this.metrics == metrics && peakMsgsIn == peakMsgsOut == 0
      ensures State() == Screen(
        History([], [], filter, 0), View(0, true, false, rich),
        FilterLine(filter.expression, None, false), CommandBar("", false, None), true, hasSplash, None)
    {
      events, visible, scroll, follow, wrap, this.rich := [], [], 0, true, false, rich;
      this.mode, this.metrics, peakMsgsIn, peakMsgsOut := mode, metrics, 0, 0;
      this.filter, filterText, filterError, filterEditing := filter, filter.expression, None, false;
      commandEditing, commandText, noticeIsError := false, "", None;
      acceptSourceRecords, dropped, showSplash, recorder := true, 0, hasSplash, None;
    }

    method RebuildVisible(lib: Library)
      modifies `visible, `scroll
      ensures State() == Rebuild(lib, old(State()), old(State().hist))
      ensures H.Indexes(lib, filter, events, visible)
    {
      hide Shown, H.Indexes;
      var matching: seq<nat> := [];
      for index := 0 to |events|
        invariant matching == Matching(lib, filter, events[..index])
        invariant unchanged(this)
      {
        assert events[..index + 1][..index] == events[..index];
        if Shown(lib, filter, events[index]) {
          matching := matching + [index];
        }
      }
      assert events[..|events|] == events;
      H.MatchingIndexes(lib, filter, events);
      visible := matching;
      scroll := 0;
    }

    /** Drops the oldest events down to the cap and counts them. */
    method TrimHistory(lib: Library)
      modifies `events, `visible, `scroll, `dropped
      ensures State() == Trim(lib, old(State()))
      ensures events == Tail(old(events), HISTORY_CAP) && dropped + |events| == old(dropped + |events|)
    {
      hide Matching;
      if |events| <= HISTORY_CAP {
        return;
      }
      var dropN := |events| - HISTORY_CAP;
      events := events[dropN..];
      dropped := dropped + dropN;
      RebuildVisible(lib);
    }

    /** A failed write ends the recording; nothing shown depends on it. */
    method WriteRecord(f: Formats, disk: Disk, output: Output)
      modifies `recorder, `noticeIsError
      ensures State() == Record(f, disk, old(State()), output)
    {
      hide Recorded;
      if recorder.Some? {
        var r := recorder.value;
        var line := Recorded(f, output, disk.now);
        if disk.writes(r.path, line) {
          recorder := Some(Recorder(r.path, r.lines + [line]));
        } else {
          recorder := None;
          noticeIsError := Some(true);
        }
      }
    }

    /** Takes one event: recorded before anything can hide it, then retained,
        and from then on either still there or counted among the dropped. */
    method PushOutput(w: World, disk: Disk, output: Output)
      requires Valid(w.lib)
      modifies `events, `visible, `scroll, `dropped, `recorder, `noticeIsError
      ensures Valid(w.lib)
      ensures State() == Push(w, disk, old(State()), output)
      ensures dropped + |events| == old(dropped + |events|) + 1
    {
      H.PushKeepsSettled(w, disk, State(), output);
      hide Trim, Shown, Record, Matching, H.Settled;
      WriteRecord(w.formats, disk, output);
      var index := |events|;
      if Shown(w.lib, filter, output) {
        visible := visible + [index];
      }
      events := events + [output];
      if |events| >= HISTORY_CAP + HISTORY_TRIM_CHUNK {
        TrimHistory(w.lib);
      }
    }

    /** Applies the text of the filter line; one that does not compile changes
        nothing that is shown. */
    method UpdateFilter(lib: Library)
      requires Valid(lib)
      modifies `filter, `filterError, `visible, `scroll
      ensures Valid(lib)
      ensures State() == ScreenModel.UpdateFilter(lib, old(State()))
      ensures filterError.Some? ==> visible == old(visible) && filter == old(filter)
    {
      hide Matching, FilterCompile.Compile, FilterCompile.Trim;
      if FilterCompile.Trim(filterText) == "" {
        filter := NO_FILTER;
        filterError := None;
        RebuildVisible(lib);
        return;
      }
      var compiled := FilterCompile.ParseFilter(lib, filterText);
      match compiled {
        case Filter(f) =>
          filter := f;
          filterError := None;
          RebuildVisible(lib);
        case Rejected(error) =>
          filterError := Some(error);
      }
    }

    /** Afterwards every retained event is shown. */
    method ClearFilter(lib: Library)
      requires Valid(lib)
      modifies `filterText, `filter, `filterError, `visible, `scroll
      ensures Valid(lib)
      ensures State() == ScreenModel.ClearFilter(lib, old(State()))
      ensures forall k :: 0 <= k < |events| ==> k in visible
    {
      hide Matching;
      filterText := "";
      filter := NO_FILTER;
      filterError := None;
      RebuildVisible(lib);
    }

    /** Writes every retained event to a new recording, or fails and changes nothing. */
    method StartRecording(w: World, disk: Disk, argument: string) returns (failed: bool)
      modifies `recorder
      ensures (State(), failed) == ScreenModel.StartRecording(w, disk, old(State()), argument)
      ensures failed ==> unchanged(this)
      ensures !failed && H.TimesAreValid(w.formats, events, disk.now) ==>
        recorder.Some? && recorder.value.path == argument && IsRecordingOf(w.formats, recorder.value.lines, events)
    {
      hide Recorded, IsRecordingOf, H.TimesAreValid;
      if argument == "" || !disk.creates(argument) {
        return true;
      }
      var lines := [];
      for i := 0 to |events|
        invariant WriteAll(w.formats, disk, argument, events[..i]) == Some(lines)
        invariant unchanged(this)
      {
        assert events[..i + 1][..i] == events[..i];
        var line := Recorded(w.formats, events[i], disk.now);
        if !disk.writes(argument, line) {
          WriteStops(w.formats, disk, argument, events, i + 1);
          return true;
        }
        lines := lines + [line];
      }
      assert events[..|events|] == events;
      if !disk.flushes(argument) {
        return true;
      }
      if H.TimesAreValid(w.formats, events, disk.now) {
        H.WriteAllRecords(w.formats, disk, argument, events);
      }
      recorder := Some(Recorder(argument, lines));
      return false;
    }

    /** Loaded events take the place of the retained ones, and recording ends. */
    method Reload(lib: Library, outputs: seq<Output>)
      requires |outputs| <= HISTORY_CAP
      modifies `recorder, `events, `visible, `scroll
      ensures Valid(lib)
      ensures State() == Rebuild(lib, old(State()).(recorder := None), old(State()).hist.(events := outputs))
    {
      hide Matching;
      recorder := None;
      events := outputs;
      visible := [];
      RebuildVisible(lib);
    }

    /** The interface turns to replay: it follows, without splash or live source. */
    method Replay(lib: Library, outputs: seq<Output>, earlier: nat)
      requires |outputs| <= HISTORY_CAP
      modifies `recorder, `events, `visible, `scroll, `follow, `showSplash, `acceptSourceRecords, `dropped
      ensures Valid(lib)
      ensures State() == Replace(lib, old(State()), outputs, earlier)
    {
      hide Rebuild, Matching;
      Reload(lib, outputs);
      follow := true;
      showSplash, acceptSourceRecords := false, false;
      dropped := earlier;
    }

    /** A replay counts afresh. */
    method RestartMetrics()
      modifies `mode, `metrics, `peakMsgsIn, `peakMsgsOut
      ensures State() == old(State())
      ensures mode == "replay" && fresh(metrics) && metrics.Valid() && peakMsgsIn == peakMsgsOut == 0
      ensures metrics.State() == MetricsModel.NewStore(DEFAULT_CONNECTION_CAP)
    {
      hide MetricsStore.Valid, MetricsModel.NewStore, MetricsStore.State;
      mode := "replay";
      metrics := new MetricsStore(DEFAULT_CONNECTION_CAP, DEFAULT_RATE_HISTORY);
      peakMsgsIn, peakMsgsOut := 0, 0;
    }

    /** Opens a saved session, or fails and changes nothing. */
    method OpenSession(w: World, disk: Disk, argument: string) returns (failed: bool)
      requires Valid(w.lib)
      modifies this
      ensures Valid(w.lib)
      ensures (State(), failed) == ScreenModel.OpenSession(w, disk, old(State()), argument)
      ensures failed ==> unchanged(this)
      ensures !failed ==> mode == "replay" && fresh(metrics) && metrics.Valid() && peakMsgsIn == peakMsgsOut == 0
      ensures !failed ==> metrics.State() == MetricsModel.NewStore(DEFAULT_CONNECTION_CAP)
      ensures !failed ==>
        var all := Loaded(w.formats, disk.files(argument));
        all.Some? && events == Tail(all.value, HISTORY_CAP) && dropped + |events| == |all.value|
    {
      hide AllReadable, Records, Replace, MetricsStore.Valid, MetricsModel.NewStore, MetricsStore.State, H.Settled,
        RefusedAt;
      if argument == "" {
        return true;
      }
      var read := ReadTail(w.formats, disk.files(argument), HISTORY_CAP);
      if read.Err? {
        return true;
      }
      if recorder.Some? && !disk.flushes(recorder.value.path) {
        return true;
      }
      ReplacedHistory(w.lib, State(), read.value.0, read.value.1);
      Replay(w.lib, read.value.0, read.value.1);
      RestartMetrics();
      return false;
    }

    method ExecuteCommand(w: World, disk: Disk)
      requires Valid(w.lib)
      modifies this
      ensures Valid(w.lib)
      ensures State() == ScreenModel.ExecuteCommand(w, disk, old(State()))
      ensures (peakMsgsIn, peakMsgsOut) == if metrics == old(metrics) then old((peakMsgsIn, peakMsgsOut)) else (0, 0)
    {
      hide ScreenModel.StartRecording, ScreenModel.OpenSession, ParseCommand, Matching;
      var (name, argument) := ParseCommand(commandText);
      var failed := true;
      if Saves(name) {
        failed := StartRecording(w, disk, argument);
      } else if Opens(name) {
        failed := OpenSession(w, disk, argument);
      }
      noticeIsError := Some(failed);
      commandEditing := false;
    }

    /** Handles one key; the result says whether to quit. Only the clear key and
        an open touch the retained events. */
    method HandleKey(w: World, disk: Disk, key: Key, logH: nat) returns (quit: bool)
      requires Valid(w.lib)
      modifies this
      ensures Valid(w.lib)
      ensures quit == Quits(old(State()), key)
      ensures State() == ScreenModel.HandleKey(w, disk, old(State()), key, logH)
      ensures (peakMsgsIn, peakMsgsOut) == if metrics == old(metrics) then old((peakMsgsIn, peakMsgsOut)) else (0, 0)
      ensures !H.Wipes(old(State()), key) && !H.Loads(w, disk, old(State()), key) ==>
        events == old(events) && dropped == old(dropped)
    {
      H.KeyKeepsEvents(w, disk, State(), key, logH);
      hide H.Wipes, H.Loads, H.Settled, MetricsStore.Valid, ScreenModel.EditCommand, ScreenModel.EditFilter,
        ScreenModel.Browse;
      if key.code == Char('c') && key.ctrl {
        return true;
      }
      if commandEditing {
        EditCommand(w, disk, key);
        return false;
      }
      if showSplash {
        if key.code == Char('/') || key.code == Char(':') {
          commandEditing, commandText, noticeIsError := true, "", None;
        }
        return key.code == Char('q');
      }
      if filterEditing {
        EditFilter(w.lib, key);
        return false;
      }
      if key.code == Char('q') {
        return true;
      }
      Browse(w.lib, key.code, logH);
      return false;
    }

    /** A key while the command bar is open. */
    method EditCommand(w: World, disk: Disk, key: Key)
      requires Valid(w.lib)
      modifies this
      ensures Valid(w.lib)
      ensures State() == ScreenModel.EditCommand(w, disk, old(State()), key)
      ensures (peakMsgsIn, peakMsgsOut) == if metrics == old(metrics) then old((peakMsgsIn, peakMsgsOut)) else (0, 0)
    {
      hide ScreenModel.ExecuteCommand, H.Settled;
      match key.code {
        case Esc =>
          commandEditing := false;
          commandText := "";
        case Enter => ExecuteCommand(w, disk);
        case Backspace => commandText := DropLast(commandText);
        case Char(ch) =>
          if !key.ctrl {
            commandText := commandText + [ch];
          }
        case _ =>
      }
    }

    /** A key while the filter line is edited: the retained events stay. */
    method EditFilter(lib: Library, key: Key)
      requires Valid(lib)
      modifies `filterText, `filter, `filterError, `filterEditing, `visible, `scroll
      ensures Valid(lib)
      ensures State() == ScreenModel.EditFilter(lib, old(State()), key)
    {
      hide ScreenModel.UpdateFilter, ScreenModel.ClearFilter, H.Settled;
      match key.code {
        case Esc =>
          ClearFilter(lib);
          filterEditing := false;
        case Enter =>
          if filterError.None? {
            filterEditing := false;
          }
        case Backspace =>
          filterText := DropLast(filterText);
          UpdateFilter(lib);
        case Char(ch) =>
          if !key.ctrl {
            filterText := filterText + [ch];
            UpdateFilter(lib);
          }
        case _ =>
      }
    }

    /** A key while nothing is edited. */
    method Browse(lib: Library, code: KeyCode, logH: nat)
      requires Valid(lib)
      modifies `follow, `scroll, `wrap, `rich, `events, `visible, `filter, `filterText, `filterError, `filterEditing,
        `commandEditing, `commandText, `noticeIsError
      ensures Valid(lib)
      ensures State() == ScreenModel.Browse(lib, old(State()), code, logH)
    {
      hide ScreenModel.ClearFilter, ScreenModel.BrowseChar, H.Settled;
      match code {
        case Char(ch) => BrowseChar(lib, ch);
        case Down => follow, scroll := false, scroll + 1;
        case Up => follow, scroll := false, Minus(scroll, 1);
        case PageDown => follow, scroll := false, scroll + logH;
        case PageUp => follow, scroll := false, Minus(scroll, logH);
        case End => follow := true;
        case Home => follow, scroll := false, 0;
        case Esc =>
          if filter.root.Some? {
            ClearFilter(lib);
          }
        case _ =>
      }
    }

    method BrowseChar(lib: Library, ch: char)
      requires Valid(lib)
      modifies `follow, `scroll, `wrap, `rich, `events, `visible, `filterEditing, `commandEditing, `commandText,
        `noticeIsError
      ensures Valid(lib)
      ensures State() == ScreenModel.BrowseChar(old(State()), ch)
    {
      hide H.Settled;
      H.NothingIsSettled(lib, filter, dropped);
      match ch {
        case 'j' => follow, scroll := false, scroll + 1;
        case 'k' => follow, scroll := false, Minus(scroll, 1);
        case 'G' => follow := true;
        case 'g' => follow, scroll := false, 0;
        case 'f' => follow := !follow;
        case 'w' => wrap := !wrap;
        case 'r' => rich := !rich;
        case 'c' => events, visible := [], [];
        case 'y' => filterEditing := true;
        case '/' => commandEditing, commandText, noticeIsError := true, "", None;
        case ':' => commandEditing, commandText, noticeIsError := true, "", None;
        case _ =>
      }
    }

    method LeaveSplashIfTraffic()
      modifies `showSplash
      ensures showSplash == (old(showSplash) && metrics.connsOpened == 0)
    {
      if showSplash && metrics.connsOpened > 0 {
        showSplash := false;
      }
    }

    method ClampScroll(logH: nat)
      modifies `scroll
      ensures State() == Clamp(old(State()), logH)
      ensures Viewport.Clamped(State(), logH)
    {
      var most := if wrap || rich then Minus(|visible|, 1) else Minus(|visible|, logH);
      if follow {
        scroll := most;
      }
      scroll := if scroll < most then scroll else most;
    }

    /** The scale of the rate bars: the highest message rate in either direction
        since the session began, no bar being higher. */
    method TrackPeaks()
      modifies `peakMsgsIn, `peakMsgsOut
      ensures State() == old(State())
      ensures IsPeak(old(peakMsgsIn), InRates(metrics.samples), peakMsgsIn)
      ensures IsPeak(old(peakMsgsOut), OutRates(metrics.samples), peakMsgsOut)
    {
      peakMsgsIn := Highest(peakMsgsIn, InRates(metrics.samples));
      peakMsgsOut := Highest(peakMsgsOut, OutRates(metrics.samples));
    }

    /** Takes what arrived since the last turn, unless a session is replayed. */
    method TakeArrivals(w: World, disk: Disk, records: seq<Output>)
      requires Valid(w.lib)
      modifies `events, `visible, `scroll, `dropped, `recorder, `noticeIsError
      ensures Valid(w.lib)
      ensures State() == if acceptSourceRecords then PushAll(w, disk, old(State()), records) else old(State())
      ensures dropped + |events| == old(dropped + |events|) + if acceptSourceRecords then |records| else 0
    {
      hide Push, H.Settled;
      for i := 0 to |records|
        invariant Valid(w.lib)
        invariant State() ==
          if acceptSourceRecords then PushAll(w, disk, old(State()), records[..i]) else old(State())
        invariant dropped + |events| == old(dropped + |events|) + if acceptSourceRecords then i else 0
      {
        assert records[..i + 1][..i] == records[..i];
        if acceptSourceRecords {
          PushOutput(w, disk, records[i]);
        }
      }
      assert records[..|records|] == records;
    }

    /** Leaves the splash once a connection was opened, trims and clamps. */
    method PrepareToDraw(lib: Library, logH: nat)
      modifies `events, `visible, `scroll, `dropped, `showSplash
      ensures State() == ReadyToDraw(lib, old(State()), metrics.connsOpened, logH)
      ensures |events| <= HISTORY_CAP && dropped + |events| == old(dropped + |events|)
      ensures Viewport.Clamped(State(), logH)
    {
      hide Trim, Clamp, Viewport.Clamped;
      LeaveSplashIfTraffic();
      TrimHistory(lib);
      ClampScroll(logH);
    }

    /** One turn of the loop up to drawing: whatever arrived, the history is
        trimmed, its index exact, the scroll in range and no rate above its peak. */
    method Turn(w: World, disk: Disk, records: seq<Output>, logH: nat)
      requires Valid(w.lib)
      modifies `events, `visible, `scroll, `dropped, `recorder, `noticeIsError, `showSplash, `peakMsgsIn, `peakMsgsOut
      ensures Valid(w.lib)
      ensures State() == Tick(w, disk, old(State()), records, metrics.connsOpened, logH)
      ensures |events| <= HISTORY_CAP && Viewport.Clamped(State(), logH)
      ensures dropped + |events| == old(dropped + |events|) + if acceptSourceRecords then |records| else 0
      ensures IsPeak(old(peakMsgsIn), InRates(metrics.samples), peakMsgsIn)
      ensures IsPeak(old(peakMsgsOut), OutRates(metrics.samples), peakMsgsOut)
    {
      hide PushAll, Trim, Clamp, Viewport.Clamped, H.Settled, IsPeak, InRates, OutRates;
      H.TickKeepsSettled(w, disk, State(), records, metrics.connsOpened, logH);
      TakeArrivals(w, disk, records);
      PrepareToDraw(w.lib, logH);
      TrackPeaks();
    }
  }

  function InRates(samples: seq<MetricsModel.Totals>): seq<nat> {
    seq(|samples|, i requires 0 <= i < |samples| => samples[i].msgsIn)
  }

  function OutRates(samples: seq<MetricsModel.Totals>): seq<nat> {
    seq(|samples|, i requires 0 <= i < |samples| => samples[i].msgsOut)
  }

  /** `peak` is the highest of the rates and the peak before them. */
  predicate IsPeak(before: nat, rates: seq<nat>, peak: nat) {
    && before <= peak && (forall i :: 0 <= i < |rates| ==> rates[i] <= peak)
    && (peak == before || peak in rates)
  }

  function Highest(before: nat, rates: seq<nat>): (peak: nat)
    ensures IsPeak(before, rates, peak)
  {
    if rates == [] then before
    else
      var rest := Highest(before, rates[..|rates| - 1]);
      if rates[|rates| - 1] > rest then rates[|rates| - 1] else rest
  }

  lemma ReplacedHistory(lib: Library, s: Screen, outputs: seq<Output>, earlier: nat)
    ensures var t := Replace(lib, s, outputs, earlier); t.hist.events == outputs && t.hist.dropped == earlier
  {
    hide Matching;
  }

  /** Once a write fails, nothing after it is written. */
  lemma {:induction false} WriteStops(f: Formats, disk: Disk, path: string, outputs: seq<Output>, k: nat)
    requires k <= |outputs| && WriteAll(f, disk, path, outputs[..k]).None?
    ensures WriteAll(f, disk, path, outputs).None?
    decreases |outputs| - k
  {
    if k == |outputs| {
      assert outputs[..k] == outputs;
    } else {
      assert outputs[..k + 1][..k] == outputs[..k];
      WriteStops(f, disk, path, outputs, k + 1);
    }
  }
}
