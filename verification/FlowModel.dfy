/** Connection tracking as functions of values: one segment through one
    connection, and one segment through the table of all connections. */
module FlowModel {
  import opened Options
  import opened Endpoints
  import opened Segments
  import opened Decode
  import opened MetricsModel
  import opened Reassembly

  /** Reassembly and decode state of one direction. */
  datatype Side = Side(rx: Rx, dec: Decoder)

  function NewSide(role: Role, client: Endpoint): Side {
    Side(FRESH_RX, NewDecoder(role, client))
  }

  function FeedSide(side: Side, seg: TcpSegment): Side {
    var f := Feed(side.rx, Segment(seg.seqno, seg.syn, seg.payload));
    Side(f.rx, Append(side.dec, f.appended))
  }

  datatype ConnState = ConnState(client: Side, server: Side, encrypted: bool, metricsClosed: bool, stats: ConnId)

  function NewConn(client: Endpoint, stats: ConnId): ConnState {
    ConnState(NewSide(Client, client), NewSide(Server, client), false, false, stats)
  }

  /** Tells the server direction which one-byte answer to expect. */
  function Arm(server: Side, wait: ServerWait): Side {
    var ctx := server.dec.ctx;
    match wait
    case NoWait => server
    case SslWait => server.(dec := server.dec.(ctx := ctx.(awaitingBackendSsl := true)))
    case GssWait => server.(dec := server.dec.(ctx := ctx.(awaitingBackendGss := true)))
  }

  datatype ConnStep = ConnStep(conn: ConnState, outcome: DrainOutcome, out: seq<Output>)

  function HandleClient(c: ConnState, seg: TcpSegment): ConnStep {
    var side := FeedSide(c.client, seg);
    var r := Drain(side.dec);
    var armed := Arm(c.server, r.outcome.wait);
    ConnStep(c.(client := side.(dec := r.dir), server := armed, encrypted := r.outcome.encrypted), r.outcome, r.out)
  }

  function HandleServer(c: ConnState, seg: TcpSegment): ConnStep {
    var side := FeedSide(c.server, seg);
    var r := Drain(side.dec);
    ConnStep(c.(server := side.(dec := r.dir), encrypted := r.outcome.encrypted), r.outcome, r.out)
  }

  function HandleConn(c: ConnState, seg: TcpSegment, pgPort: nat): ConnStep {
    if c.encrypted then ConnStep(c, NO_OUTCOME, [])
    else if seg.dstPort == pgPort then HandleClient(c, seg)
    else HandleServer(c, seg)
  }

  function DirectionOf(seg: TcpSegment, pgPort: nat): Traffic {
    if seg.dstPort == pgPort then In else Out
  }

  /** What a drain outcome does to the metrics of the connection it belongs to. */
  function Account(s: Store, id: ConnId, direction: Traffic, outcome: DrainOutcome): (t: Store)
    requires Known(s, id)
    ensures |t.stats| == |s.stats|
  {
    var s := if outcome.encrypted then SetEncrypted(s, id, true) else s;
    if outcome.msgs > 0 then RecordMessages(s, id, direction, outcome.msgs, outcome.bytes) else s
  }

  // ----- the table -----

  datatype ConnKey = ConnKey(client: Endpoint, server: Endpoint)

  datatype TableState = TableState(conns: map<ConnKey, ConnState>, store: Store)

  datatype Record = NewConnection(key: ConnKey) | Decoded(output: Output) | Reset | Closed

  function KeyOf(seg: TcpSegment, pgPort: nat): Option<ConnKey> {
    var src, dst := Endpoint(seg.src, seg.srcPort), Endpoint(seg.dst, seg.dstPort);
    if seg.dstPort == pgPort then Some(ConnKey(src, dst))
    else if seg.srcPort == pgPort then Some(ConnKey(dst, src))
    else None
  }

  predicate ShouldOpen(conns: map<ConnKey, ConnState>, key: ConnKey, seg: TcpSegment) {
    key in conns ==> seg.syn && conns[key].metricsClosed
  }

  predicate KnownConns(t: TableState) {
    forall k :: k in t.conns ==> Known(t.store, t.conns[k].stats)
  }

  function OpenEntry(t: TableState, key: ConnKey): (u: TableState)
    requires KnownConns(t)
    ensures KnownConns(u) && key in u.conns
  {
    TableState(t.conns[key := NewConn(key.client, |t.store.stats| + 1)],
               OpenConnection(t.store, key.client, key.server, false))
  }

  datatype TableStep = TableStep(table: TableState, out: seq<Record>)

  function Records(out: seq<Output>): seq<Record> {
    seq(|out|, i requires 0 <= i < |out| => Decoded(out[i]))
  }

  /** A segment through the connection in the table under `key`. */
  function PassAt(t: TableState, key: ConnKey, seg: TcpSegment, pgPort: nat): (u: TableState)
    requires KnownConns(t) && key in t.conns
    ensures KnownConns(u) && key in u.conns && u.conns.Keys == t.conns.Keys
  {
    var h := HandleConn(t.conns[key], seg, pgPort);
    HandleConnKeepsStats(t.conns[key], seg, pgPort);
    TableState(t.conns[key := h.conn], Account(t.store, h.conn.stats, DirectionOf(seg, pgPort), h.outcome))
  }

  /** RST removes the entry; the first FIN closes its metrics and keeps it. */
  function FinishAt(t: TableState, key: ConnKey, seg: TcpSegment): (s: TableStep)
    requires KnownConns(t) && key in t.conns
    ensures KnownConns(s.table)
  {
    var c := t.conns[key];
    if seg.rst then
      TableStep(TableState(t.conns - {key}, CloseConnection(t.store, c.stats)), [Reset])
    else if seg.fin && !c.metricsClosed then
      TableStep(TableState(t.conns[key := c.(metricsClosed := true)], CloseConnection(t.store, c.stats)), [Closed])
    else
      TableStep(t, [])
  }

  function HandleAt(t: TableState, key: ConnKey, seg: TcpSegment, pgPort: nat): (s: TableStep)
    requires KnownConns(t) && key in t.conns
    ensures KnownConns(s.table)
  {
    var f := FinishAt(PassAt(t, key, seg, pgPort), key, seg);
    TableStep(f.table, Records(HandleConn(t.conns[key], seg, pgPort).out) + f.out)
  }

  function HandleSegment(t: TableState, seg: TcpSegment, pgPort: nat): (s: TableStep)
    requires KnownConns(t)
    ensures KnownConns(s.table)
  {
    match KeyOf(seg, pgPort)
    case None => TableStep(t, [])
    case Some(key) =>
      if ShouldOpen(t.conns, key, seg) then
        var s := HandleAt(OpenEntry(t, key), key, seg, pgPort);
        TableStep(s.table, [NewConnection(key)] + s.out)
      else
        HandleAt(t, key, seg, pgPort)
  }

  function EmptyTable(cap: nat): TableState {
    TableState(map[], NewStore(cap))
  }

  /** The table after a captured run, with everything it printed. */
  function RunTable(cap: nat, pgPort: nat, run: seq<TcpSegment>): (s: TableStep)
    ensures KnownConns(s.table)
  {
    if run == [] then
      TableStep(EmptyTable(cap), [])
    else
      var before := RunTable(cap, pgPort, run[..|run| - 1]);
      var last := HandleSegment(before.table, run[|run| - 1], pgPort);
      TableStep(last.table, before.out + last.out)
  }

  lemma HandleConnKeepsStats(c: ConnState, seg: TcpSegment, pgPort: nat)
    ensures HandleConn(c, seg, pgPort).conn.stats == c.stats
    ensures HandleConn(c, seg, pgPort).conn.metricsClosed == c.metricsClosed
  {
  }
}
