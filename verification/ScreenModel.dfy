/** The terminal interface as a value: its retained history, the index of the
    events that match the filter, and what every key and every tick does to them. */
module ScreenModel {
  import opened Options
  import opened FilterSyntax
  import FilterLexer
  import opened FilterCompile
  import opened Bounded
  import opened Sessions

  const HISTORY_CAP: nat := 50_000
  const HISTORY_TRIM_CHUNK: nat := 1_024

  /** A file being recorded to, with the lines written so far. */
  datatype Recorder = Recorder(path: string, lines: seq<string>)

  /** The retained events, with the indices of those the filter shows. */
  datatype History = History(events: seq<Output>, visible: seq<nat>, filter: DisplayFilter, dropped: nat)

  datatype View = View(scroll: nat, follow: bool, wrap: bool, rich: bool)

  datatype FilterLine = FilterLine(text: string, error: Option<FilterError>, editing: bool)

  datatype CommandBar = CommandBar(text: string, editing: bool, noticeIsError: Option<bool>)

  datatype Screen = Screen(
    hist: History, view: View, line: FilterLine, bar: CommandBar,
    accepting: bool, splash: bool, recorder: Option<Recorder>)

  datatype World = World(lib: Library, formats: Formats)

  /** What the file system and the clock answer during one operation. */
  datatype Disk = Disk(
    files: string -> File, creates: string -> bool, writes: (string, string) -> bool, flushes: string -> bool,
      now: string)

  // ----- the index -----

  predicate Shown(lib: Library, filter: DisplayFilter, output: Output) {
    output.Message? ==> FilterMatches(lib, filter, output.message)
  }

  /** The indices of the events the filter shows, in order. */
  function Matching(lib: Library, filter: DisplayFilter, events: seq<Output>): seq<nat> {
    if events == [] then []
    else
      var n := |events| - 1;
      Matching(lib, filter, events[..n]) + if Shown(lib, filter, events[n]) then [n] else []
  }

  function Reindex(lib: Library, h: History): History {
    h.(visible := Matching(lib, h.filter, h.events))
  }

  /** A new history is shown from its top. */
  function Rebuild(lib: Library, s: Screen, h: History): Screen {
    s.(hist := Reindex(lib, h), view := s.view.(scroll := 0))
  }

  function Trim(lib: Library, s: Screen): Screen {
    if |s.hist.events| <= HISTORY_CAP then s
    else
      var dropN := |s.hist.events| - HISTORY_CAP;
      Rebuild(lib, s, s.hist.(events := s.hist.events[dropN..], dropped := s.hist.dropped + dropN))
  }

  function Append(lib: Library, h: History, output: Output): History {
    h.(visible := if Shown(lib, h.filter, output) then h.visible + [|h.events|] else h.visible,
       events := h.events + [output])
  }

  function Record(f: Formats, disk: Disk, s: Screen, output: Output): (r: Screen)
    ensures r.hist == s.hist && r.accepting == s.accepting
  {
    match s.recorder
    case None => s
    case Some(r) =>
      var line := Recorded(f, output, disk.now);
      if disk.writes(r.path, line) then s.(recorder := Some(Recorder(r.path, r.lines + [line])))
      else s.(recorder := None, bar := s.bar.(noticeIsError := Some(true)))
  }

  function Push(w: World, disk: Disk, s: Screen, output: Output): Screen {
    var added := Record(w.formats, disk, s, output).(hist := Append(w.lib, s.hist, output));
    if |added.hist.events| >= HISTORY_CAP + HISTORY_TRIM_CHUNK then Trim(w.lib, added) else added
  }

  function PushAll(w: World, disk: Disk, s: Screen, records: seq<Output>): Screen {
    if records == [] then s
    else
      var before := PushAll(w, disk, s, records[..|records| - 1]);
      Push(w, disk, before, records[|records| - 1])
  }

  // ----- the filter line -----

  function SetFilter(lib: Library, s: Screen, filter: DisplayFilter): Screen {
    Rebuild(lib, s.(line := s.line.(error := None)), s.hist.(filter := filter))
  }

  function UpdateFilter(lib: Library, s: Screen): Screen {
    if FilterCompile.Trim(s.line.text) == "" then SetFilter(lib, s, NO_FILTER)
    else
      match Compile(lib, s.line.text)
      case Filter(filter) => SetFilter(lib, s, filter)
      case Rejected(error) => s.(line := s.line.(error := Some(error)))
  }

  function ClearFilter(lib: Library, s: Screen): Screen {
    SetFilter(lib, s.(line := s.line.(text := "")), NO_FILTER)
  }

  // ----- commands -----

  function TrimMarks(s: string): string {
    if s != "" && (s[0] == ':' || s[0] == '/') then TrimMarks(s[1..]) else s
  }

  function NameLength(s: string): (n: nat)
    ensures n <= |s|
  {
    if s == "" || FilterLexer.IsWhitespace(s[0]) then 0 else 1 + NameLength(s[1..])
  }

  /** A command's name and its argument. */
  function ParseCommand(text: string): (string, string) {
    var input := FilterCompile.Trim(TrimMarks(FilterCompile.Trim(text)));
    var n := NameLength(input);
    if n == |input| then (input, "") else (input[..n], FilterCompile.Trim(input[n + 1..]))
  }

  predicate Saves(name: string) {
    name == "w" || name == "write" || name == "save"
  }

  predicate Opens(name: string) {
    name == "o" || name == "open"
  }

  /** The lines written for these outputs, if every write succeeds. */
  function WriteAll(f: Formats, disk: Disk, path: string, outputs: seq<Output>): Option<seq<string>> {
    if outputs == [] then Some([])
    else
      var n := |outputs| - 1;
      var before := WriteAll(f, disk, path, outputs[..n]);
      var line := Recorded(f, outputs[n], disk.now);
      if before.Some? && disk.writes(path, line) then Some(before.value + [line]) else None
  }

  /** The screen afterwards, and whether the command failed. */
  function StartRecording(w: World, disk: Disk, s: Screen, argument: string): (Screen, bool) {
    if argument == "" || !disk.creates(argument) then (s, true)
    else
      var lines := WriteAll(w.formats, disk, argument, s.hist.events);
      if lines.None? || !disk.flushes(argument) then (s, true)
      else (s.(recorder := Some(Recorder(argument, lines.value))), false)
  }

  /** All records of a file every line of which is readable. */
  function Loaded(f: Formats, file: File): Option<seq<Output>> {
    if file.Some? && AllReadable(f, file.value) then Some(Records(f, file.value)) else None
  }

  predicate OpenFails(w: World, disk: Disk, s: Screen, argument: string) {
    || argument == "" || Loaded(w.formats, disk.files(argument)).None?
    || (s.recorder.Some? && !disk.flushes(s.recorder.value.path))
  }

  function StartReplay(s: Screen, dropped: nat): Screen {
    s.(hist := s.hist.(dropped := dropped), view := s.view.(follow := true), splash := false, accepting := false)
  }

  /** The loaded events take the place of everything retained. */
  function Replace(lib: Library, s: Screen, outputs: seq<Output>, dropped: nat): Screen {
    StartReplay(Rebuild(lib, s.(recorder := None), s.hist.(events := outputs)), dropped)
  }

  function OpenSession(w: World, disk: Disk, s: Screen, argument: string): (Screen, bool) {
    if OpenFails(w, disk, s, argument) then (s, true)
    else
      var all := Loaded(w.formats, disk.files(argument)).value;
      var tail := Tail(all, HISTORY_CAP);
      (Replace(w.lib, s, tail, |all| - |tail|), false)
  }

  function ExecuteCommand(w: World, disk: Disk, s: Screen): Screen {
    var (name, argument) := ParseCommand(s.bar.text);
    var (after, failed) :=
      if Saves(name) then StartRecording(w, disk, s, argument)
      else if Opens(name) then OpenSession(w, disk, s, argument)
      else (s, true);
    after.(bar := after.bar.(noticeIsError := Some(failed), editing := false))
  }

  // ----- keys -----

  datatype KeyCode =
    | Esc | Enter | Backspace | Char(ch: char)
    | Down | Up | PageDown | PageUp | End | Home | OtherKey

  datatype Key = Key(code: KeyCode, ctrl: bool)

  function Minus(a: nat, b: nat): nat {
    if a < b then 0 else a - b
  }

  function DropLast(s: string): string {
    if s == "" then "" else s[..|s| - 1]
  }

  function EditCommand(w: World, disk: Disk, s: Screen, key: Key): Screen {
    match key.code
    case Esc => s.(bar := s.bar.(editing := false, text := ""))
    case Enter => ExecuteCommand(w, disk, s)
    case Backspace => s.(bar := s.bar.(text := DropLast(s.bar.text)))
    case Char(ch) => if key.ctrl then s else s.(bar := s.bar.(text := s.bar.text + [ch]))
    case _ => s
  }

  function OpenCommandBar(s: Screen): Screen {
    s.(bar := CommandBar("", true, None))
  }

  function Retype(lib: Library, s: Screen, text: string): Screen {
    UpdateFilter(lib, s.(line := s.line.(text := text)))
  }

  function EditFilter(lib: Library, s: Screen, key: Key): Screen {
    match key.code
    case Esc =>
      var cleared := ClearFilter(lib, s);
      cleared.(line := cleared.line.(editing := false))
    case Enter => if s.line.error.None? then s.(line := s.line.(editing := false)) else s
    case Backspace => Retype(lib, s, DropLast(s.line.text))
    case Char(ch) => if key.ctrl then s else Retype(lib, s, s.line.text + [ch])
    case _ => s
  }

  function ScrollDown(v: View, rows: nat): View {
    v.(follow := false, scroll := v.scroll + rows)
  }

  function ScrollUp(v: View, rows: nat): View {
    v.(follow := false, scroll := Minus(v.scroll, rows))
  }

  function ScrollTop(v: View): View {
    v.(follow := false, scroll := 0)
  }

  function BrowseChar(s: Screen, ch: char): Screen {
    match ch
    case 'j' => s.(view := ScrollDown(s.view, 1))
    case 'k' => s.(view := ScrollUp(s.view, 1))
    case 'G' => s.(view := s.view.(follow := true))
    case 'g' => s.(view := ScrollTop(s.view))
    case 'f' => s.(view := s.view.(follow := !s.view.follow))
    case 'w' => s.(view := s.view.(wrap := !s.view.wrap))
    case 'r' => s.(view := s.view.(rich := !s.view.rich))
    case 'c' => s.(hist := s.hist.(events := [], visible := []))
    case 'y' => s.(line := s.line.(editing := true))
    case '/' => OpenCommandBar(s)
    case ':' => OpenCommandBar(s)
    case _ => s
  }

  function Browse(lib: Library, s: Screen, code: KeyCode, logH: nat): Screen {
    match code
    case Char(ch) => BrowseChar(s, ch)
    case Down => s.(view := ScrollDown(s.view, 1))
    case Up => s.(view := ScrollUp(s.view, 1))
    case PageDown => s.(view := ScrollDown(s.view, logH))
    case PageUp => s.(view := ScrollUp(s.view, logH))
    case End => s.(view := s.view.(follow := true))
    case Home => s.(view := ScrollTop(s.view))
    case Esc => if s.hist.filter.root.Some? then ClearFilter(lib, s) else s
    case _ => s
  }

  /** Whether the key quits; a quitting key changes nothing. */
  predicate Quits(s: Screen, key: Key) {
    || (key.code == Char('c') && key.ctrl)
    || (!s.bar.editing && key.code == Char('q') && (s.splash || !s.line.editing))
  }

  function HandleKey(w: World, disk: Disk, s: Screen, key: Key, logH: nat): Screen {
    if Quits(s, key) then s
    else if s.bar.editing then EditCommand(w, disk, s, key)
    else if s.splash then
      if key.code == Char('/') || key.code == Char(':') then OpenCommandBar(s) else s
    else if s.line.editing then EditFilter(w.lib, s, key)
    else Browse(w.lib, s, key.code, logH)
  }

  // ----- the loop -----

  function MaxScroll(s: Screen, logH: nat): nat {
    Minus(|s.hist.visible|, if s.view.wrap || s.view.rich then 1 else logH)
  }

  function Clamp(s: Screen, logH: nat): Screen {
    var most := MaxScroll(s, logH);
    s.(view := s.view.(scroll := if s.view.follow || s.view.scroll > most then most else s.view.scroll))
  }

  /** Leave the splash once a connection was opened, trim, clamp the scroll. */
  function ReadyToDraw(lib: Library, s: Screen, connsOpened: nat, logH: nat): Screen {
    Clamp(Trim(lib, if s.splash && connsOpened > 0 then s.(splash := false) else s), logH)
  }

  /** One turn of the loop up to drawing: what arrived is taken first. */
  function Tick(w: World, disk: Disk, s: Screen, records: seq<Output>, connsOpened: nat, logH: nat): Screen {
    ReadyToDraw(w.lib, if s.accepting then PushAll(w, disk, s, records) else s, connsOpened, logH)
  }
}
