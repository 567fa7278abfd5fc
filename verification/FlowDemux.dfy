/** Demultiplexing: what the table holds and prints for one 4-tuple is what
    that tuple's own segments produce, whatever else is interleaved. */
module FlowDemux {
  import opened Options
  import opened Segments
  import opened Decode
  import opened MetricsModel
  import opened FlowModel
  import opened FlowLifecycle

  /** What the table knows about one key, apart from the id in the metrics:
      the connection and the messages and bytes counted for it. */
  datatype Entry = Absent | Present(conn: ConnState, counters: Totals)

  datatype EntryStep = EntryStep(entry: Entry, out: seq<Record>)

  function Anonymous(c: ConnState): ConnState {
    c.(stats := 0)
  }

  function EntryOf(t: TableState, key: ConnKey): Entry
    requires KnownConns(t)
  {
    if key in t.conns then Present(Anonymous(t.conns[key]), StatsOf(t.store, t.conns[key].stats).counters) else Absent
  }

  function Counted(counters: Totals, direction: Traffic, outcome: DrainOutcome): Totals {
    if outcome.msgs > 0 then Plus(counters, Delta(direction, outcome.msgs, outcome.bytes)) else counters
  }

  /** One segment of the key through its entry alone. */
  function PassEntry(c: ConnState, counters: Totals, seg: TcpSegment, pgPort: nat): EntryStep {
    var h := HandleConn(c, seg, pgPort);
    var counters := Counted(counters, DirectionOf(seg, pgPort), h.outcome);
    var out := Records(h.out);
    if seg.rst then EntryStep(Absent, out + [Reset])
    else if seg.fin && !h.conn.metricsClosed then
      EntryStep(Present(h.conn.(metricsClosed := true), counters), out + [Closed])
    else EntryStep(Present(h.conn, counters), out + [])
  }

  function StepEntry(e: Entry, key: ConnKey, seg: TcpSegment, pgPort: nat): EntryStep {
    if e.Absent? || (seg.syn && e.conn.metricsClosed) then
      var s := PassEntry(NewConn(key.client, 0), ZERO, seg, pgPort);
      EntryStep(s.entry, [NewConnection(key)] + s.out)
    else
      PassEntry(e.conn, e.counters, seg, pgPort)
  }

  function RunEntry(key: ConnKey, run: seq<TcpSegment>, pgPort: nat): EntryStep {
    if run == [] then
      EntryStep(Absent, [])
    else
      var before := RunEntry(key, run[..|run| - 1], pgPort);
      var last := StepEntry(before.entry, key, run[|run| - 1], pgPort);
      EntryStep(last.entry, before.out + last.out)
  }

  function OnlyKey(run: seq<TcpSegment>, key: ConnKey, pgPort: nat): seq<TcpSegment> {
    if run == [] then []
    else
      var before, last := OnlyKey(run[..|run| - 1], key, pgPort), run[|run| - 1];
      if KeyOf(last, pgPort) == Some(key) then before + [last] else before
  }

  /** What the table printed while handling segments of the key. */
  function PrintedFor(cap: nat, pgPort: nat, run: seq<TcpSegment>, key: ConnKey): seq<Record> {
    if run == [] then []
    else
      var before, last := run[..|run| - 1], run[|run| - 1];
      var printed := PrintedFor(cap, pgPort, before, key);
      if KeyOf(last, pgPort) == Some(key) then
        printed + HandleSegment(RunTable(cap, pgPort, before).table, last, pgPort).out
      else
        printed
  }

  lemma HandleIgnoresId(c: ConnState, seg: TcpSegment, pgPort: nat)
    ensures var h, a := HandleConn(c, seg, pgPort), HandleConn(Anonymous(c), seg, pgPort);
      a.conn == Anonymous(h.conn) && a.outcome == h.outcome && a.out == h.out
  {
    hide Drain, FeedSide;
  }

  lemma PassLocal(t: TableState, key: ConnKey, seg: TcpSegment, pgPort: nat)
    requires KnownConns(t) && key in t.conns
    ensures var s := HandleAt(t, key, seg, pgPort);
      EntryStep(EntryOf(s.table, key), s.out) ==
        PassEntry(Anonymous(t.conns[key]), StatsOf(t.store, t.conns[key].stats).counters, seg, pgPort)
  {
    hide HandleConn, Account, CloseConnection;
    var h := HandleConn(t.conns[key], seg, pgPort);
    HandleConnKeepsStats(t.conns[key], seg, pgPort);
    HandleIgnoresId(t.conns[key], seg, pgPort);
    AccountFacts(t.store, h.conn.stats, DirectionOf(seg, pgPort), h.outcome);
    var u := PassAt(t, key, seg, pgPort);
    CloseFacts(u.store, h.conn.stats);
  }

  lemma OpenLocal(t: TableState, key: ConnKey)
    requires KnownConns(t)
    ensures EntryOf(OpenEntry(t, key), key) == Present(NewConn(key.client, 0), ZERO)
  {
    hide OpenConnection;
    OpenFacts(t.store, key);
  }

  lemma OthersUntouchedByPass(t: TableState, key: ConnKey, seg: TcpSegment, pgPort: nat, other: ConnKey)
    requires KnownConns(t) && DistinctIds(t) && key in t.conns && key != other
    ensures EntryOf(HandleAt(t, key, seg, pgPort).table, other) == EntryOf(t, other)
  {
    hide HandleConn, Account, CloseConnection;
    var h := HandleConn(t.conns[key], seg, pgPort);
    HandleConnKeepsStats(t.conns[key], seg, pgPort);
    AccountFacts(t.store, h.conn.stats, DirectionOf(seg, pgPort), h.outcome);
    var u := PassAt(t, key, seg, pgPort);
    CloseFacts(u.store, h.conn.stats);
  }

  lemma OthersUntouchedByOpen(t: TableState, key: ConnKey, other: ConnKey)
    requires KnownConns(t) && key != other
    ensures EntryOf(OpenEntry(t, key), other) == EntryOf(t, other)
  {
    hide OpenConnection;
    OpenFacts(t.store, key);
  }

  lemma AgreeingIsDistinct(t: TableState)
    requires Agrees(t)
    ensures KnownConns(t) && DistinctIds(t)
  {
  }

  /** One segment steps the entry of its own key and leaves all others alone. */
  lemma SegmentIsLocal(t: TableState, seg: TcpSegment, pgPort: nat, key: ConnKey)
    requires Agrees(t)
    ensures KnownConns(t)
    ensures var s := HandleSegment(t, seg, pgPort);
      if KeyOf(seg, pgPort) == Some(key) then
        EntryStep(EntryOf(s.table, key), s.out) == StepEntry(EntryOf(t, key), key, seg, pgPort)
      else
        EntryOf(s.table, key) == EntryOf(t, key)
  {
    hide Agrees, HandleAt, OpenEntry, PassEntry, NewConn;
    AgreeingIsDistinct(t);
    match KeyOf(seg, pgPort)
    case None =>
    case Some(own) =>
      var u := t;
      if ShouldOpen(t.conns, own, seg) {
        u := OpenEntry(t, own);
        OpenAgrees(t, own);
        AgreeingIsDistinct(u);
        OpenLocal(t, own);
      }
      PassLocal(u, own, seg, pgPort);
      if own != key {
        if ShouldOpen(t.conns, own, seg) {
          OthersUntouchedByOpen(t, own, key);
        }
        OthersUntouchedByPass(u, own, seg, pgPort, key);
      }
  }

  /** For any interleaving of any connections: the state held, the messages and
      bytes counted and the lines printed for one key equal those of running
      only that key's segments. */
  lemma {:induction false} Demultiplexes(cap: nat, pgPort: nat, run: seq<TcpSegment>, key: ConnKey)
    ensures EntryStep(EntryOf(RunTable(cap, pgPort, run).table, key), PrintedFor(cap, pgPort, run, key)) ==
            RunEntry(key, OnlyKey(run, key, pgPort), pgPort)
  {
    hide HandleSegment, StepEntry, EntryOf, KeyOf;
    if run == [] {
      assert EntryOf(EmptyTable(cap), key) == Absent by { EmptyHasNoEntry(cap, key); }
    } else {
      var before, last := run[..|run| - 1], run[|run| - 1];
      var t := RunTable(cap, pgPort, before).table;
      LifecycleAgrees(cap, pgPort, before);
      SegmentIsLocal(t, last, pgPort, key);
      Demultiplexes(cap, pgPort, before, key);
      var mine := OnlyKey(before, key, pgPort);
      assert (mine + [last])[..|mine|] == mine;
    }
  }

  lemma EmptyHasNoEntry(cap: nat, key: ConnKey)
    ensures EntryOf(EmptyTable(cap), key) == Absent
  {
  }

  // ----- keys -----

  /** The same segment seen in the other direction. */
  function Reverse(seg: TcpSegment): TcpSegment {
    seg.(src := seg.dst, dst := seg.src, srcPort := seg.dstPort, dstPort := seg.srcPort)
  }

  /** Both directions reach the same key unless two distinct endpoints both
      use the watched port, and then they never do. */
  lemma BothDirectionsShareAKey(seg: TcpSegment, pgPort: nat)
    ensures KeyOf(seg, pgPort) == KeyOf(Reverse(seg), pgPort) <==>
            !(seg.srcPort == pgPort && seg.dstPort == pgPort && seg.src != seg.dst)
  {
  }
}
