/** Byte and message accounting over the whole life of a connection and over
    the whole table. */
module FlowConservation {
  import opened Endpoints
  import opened Segments
  import opened PgWire
  import opened Decode
  import opened MetricsModel
  import opened FlowModel
  import opened FlowLifecycle
  import opened FlowNegotiation
  import opened FlowDemux
  import Reassembly

  // ----- tallies of an output -----

  function MessagesOf(out: seq<Output>, role: Role): nat {
    if out == [] then 0
    else
      var o := out[|out| - 1];
      MessagesOf(out[..|out| - 1], role) + if o.Message? && o.role == role then 1 else 0
  }

  function LostOf(out: seq<Output>, role: Role): nat {
    if out == [] then 0
    else
      var o := out[|out| - 1];
      LostOf(out[..|out| - 1], role) + if o.LostBytes? && o.role == role then o.lost else 0
  }

  lemma {:induction false} TalliesConcat(a: seq<Output>, b: seq<Output>, role: Role)
    ensures MessagesOf(a + b, role) == MessagesOf(a, role) + MessagesOf(b, role)
    ensures LostOf(a + b, role) == LostOf(a, role) + LostOf(b, role)
  {
    if b == [] {
      assert a + b == a;
    } else {
      assert (a + b)[..|a + b| - 1] == a + b[..|b| - 1];
      TalliesConcat(a, b[..|b| - 1], role);
    }
  }

  lemma TalliesOfOne(o: Output, role: Role)
    ensures MessagesOf([o], role) == if o.Message? && o.role == role then 1 else 0
    ensures LostOf([o], role) == if o.LostBytes? && o.role == role then o.lost else 0
  {
    assert [o][..0] == [];
  }

  /** A drain accounts for its own direction and emits nothing for the other. */
  ghost predicate Accounted(d: Decoder, r: Drained) {
    && r.dir.role == d.role
    && r.outcome.bytes + |r.dir.rxbuf| + LostOf(r.out, d.role) == |d.rxbuf|
    && r.outcome.msgs == MessagesOf(r.out, d.role)
    && (r.outcome.msgs == 0 ==> r.outcome.bytes == 0)
    && (forall role :: role != d.role ==> MessagesOf(r.out, role) == LostOf(r.out, role) == 0)
  }

  lemma StepAccounted(d: Decoder)
    requires DrainStep(d).Took?
    ensures var h := DrainStep(d).handled; Accounted(d, Drained(h.dir, h.outcome, h.out, 0, false))
  {
    hide DecodeFrontend, DecodeBackend, MessagesOf, LostOf;
    var h := DrainStep(d).handled;
    if h.out == [] {
      TalliesOfNone();
    } else {
      assert h.out == [h.out[0]];
      forall role {
        TalliesOfOne(h.out[0], role);
      }
    }
  }

  lemma TalliesOfNone()
    ensures forall role :: MessagesOf([], role) == LostOf([], role) == 0
  {
  }

  lemma {:induction false} DrainAccounted(d: Decoder)
    ensures Accounted(d, Drain(d))
    decreases |d.rxbuf|, if d.ctx.awaitingFrontendSsl then 1 else 0
  {
    hide DrainStep, MessagesOf, LostOf;
    match DrainStep(d)
    case Idle =>
      TalliesOfNone();
    case Failed =>
      forall role {
        TalliesOfOne(LostBytes(d.role, |d.rxbuf|), role);
      }
    case Took(h) =>
      StepAccounted(d);
      if h.more {
        DrainAccounted(h.dir);
        forall role {
          TalliesConcat(h.out, Drain(h.dir).out, role);
        }
      } else {
        assert h.out + [] == h.out;
      }
  }

  // ----- whole lives -----

  /** What the metrics count for a connection over a run. */
  function CountedOver(c: ConnState, run: seq<TcpSegment>, pgPort: nat): Totals {
    if run == [] then
      ZERO
    else
      var before, last := run[..|run| - 1], run[|run| - 1];
      var h := HandleConn(RunConn(c, before, pgPort).conn, last, pgPort);
      Counted(CountedOver(c, before, pgPort), DirectionOf(last, pgPort), h.outcome)
  }

  /** What one segment delivers to one direction. */
  function DeliveredBy(c: ConnState, seg: TcpSegment, pgPort: nat, direction: Traffic): nat {
    var side := if direction.In? then c.client else c.server;
    var fed := Reassembly.Feed(side.rx, Reassembly.Segment(seg.seqno, seg.syn, seg.payload));
    if c.encrypted || DirectionOf(seg, pgPort) != direction then 0 else |fed.appended|
  }

  /** Bytes that reassembly delivered to one direction over a run. */
  function DeliveredOver(c: ConnState, run: seq<TcpSegment>, pgPort: nat, direction: Traffic): nat {
    if run == [] then
      0
    else
      var before, last := run[..|run| - 1], run[|run| - 1];
      DeliveredOver(c, before, pgPort, direction)
        + DeliveredBy(RunConn(c, before, pgPort).conn, last, pgPort, direction)
  }

  ghost predicate Conserved(c: ConnState, run: seq<TcpSegment>, pgPort: nat) {
    var r, n := RunConn(c, run, pgPort), CountedOver(c, run, pgPort);
    && r.conn.client.dec.role.Client? && r.conn.server.dec.role.Server?
    && n.bytesIn + |r.conn.client.dec.rxbuf| + LostOf(r.out, Client) == DeliveredOver(c, run, pgPort, In)
    && n.bytesOut + |r.conn.server.dec.rxbuf| + LostOf(r.out, Server) == DeliveredOver(c, run, pgPort, Out)
    && n.msgsIn == MessagesOf(r.out, Client)
    && n.msgsOut == MessagesOf(r.out, Server)
  }

  /** One segment: what it delivers is counted, buffered or reported lost, and
      what it counts it emits. */
  lemma SegmentConserves(c: ConnState, seg: TcpSegment, pgPort: nat)
    requires c.client.dec.role.Client? && c.server.dec.role.Server?
    ensures var h := HandleConn(c, seg, pgPort); var n := Counted(ZERO, DirectionOf(seg, pgPort), h.outcome);
      && h.conn.client.dec.role.Client? && h.conn.server.dec.role.Server?
      && n.bytesIn + |h.conn.client.dec.rxbuf| + LostOf(h.out, Client) ==
           |c.client.dec.rxbuf| + DeliveredBy(c, seg, pgPort, In)
      && n.bytesOut + |h.conn.server.dec.rxbuf| + LostOf(h.out, Server) ==
           |c.server.dec.rxbuf| + DeliveredBy(c, seg, pgPort, Out)
      && n.msgsIn == MessagesOf(h.out, Client) && n.msgsOut == MessagesOf(h.out, Server)
  {
    hide Drain, Reassembly.Feed, MessagesOf, LostOf;
    TalliesOfNone();
    DrainAccounted(FeedSide(c.client, seg).dec);
    DrainAccounted(FeedSide(c.server, seg).dec);
  }

  lemma CountedAdds(counters: Totals, direction: Traffic, outcome: DrainOutcome)
    ensures Counted(counters, direction, outcome) == Plus(counters, Counted(ZERO, direction, outcome))
  {
  }

  /** For each direction, over any run of any segments: counted bytes, bytes
      still buffered and bytes reported lost add up to the bytes delivered, and
      counted messages are exactly the message records emitted. */
  lemma {:induction false} BytesAndMessagesConserved(client: Endpoint, id: ConnId, run: seq<TcpSegment>, pgPort: nat)
    ensures Conserved(NewConn(client, id), run, pgPort)
  {
    var c := NewConn(client, id);
    if run == [] {
      TalliesOfNone();
    } else {
      hide HandleConn, Counted, DeliveredBy, MessagesOf, LostOf, NewConn;
      var before, last := run[..|run| - 1], run[|run| - 1];
      BytesAndMessagesConserved(client, id, before, pgPort);
      var r := RunConn(c, before, pgPort);
      var h := HandleConn(r.conn, last, pgPort);
      SegmentConserves(r.conn, last, pgPort);
      CountedAdds(CountedOver(c, before, pgPort), DirectionOf(last, pgPort), h.outcome);
      TalliesConcat(r.out, h.out, Client);
      TalliesConcat(r.out, h.out, Server);
    }
  }

  // ----- from the table back to one life -----

  /** The segments of a key since the entry it now has was opened. */
  function CurrentLife(key: ConnKey, run: seq<TcpSegment>, pgPort: nat): seq<TcpSegment> {
    if run == [] then []
    else
      var before, last := run[..|run| - 1], run[|run| - 1];
      var e := RunEntry(key, before, pgPort).entry;
      if e.Absent? || (last.syn && e.conn.metricsClosed) then [last] else CurrentLife(key, before, pgPort) + [last]
  }

  function Alive(c: ConnState): ConnState {
    c.(metricsClosed := false)
  }

  lemma HandleIgnoresClosed(c: ConnState, seg: TcpSegment, pgPort: nat)
    ensures var h, a := HandleConn(c, seg, pgPort), HandleConn(Alive(c), seg, pgPort);
      a.conn == Alive(h.conn) && a.outcome == h.outcome && a.out == h.out
  {
    hide Drain, FeedSide;
  }

  ghost predicate IsLife(e: Entry, client: Endpoint, life: seq<TcpSegment>, pgPort: nat) {
    e.Present? ==>
      && Alive(e.conn) == RunConn(NewConn(client, 0), life, pgPort).conn
      && e.counters == CountedOver(NewConn(client, 0), life, pgPort)
  }

  /** One more segment through an entry is one more segment of its life. */
  lemma PassExtendsLife(c: ConnState, counters: Totals, client: Endpoint, life: seq<TcpSegment>, seg: TcpSegment,
                        pgPort: nat)
    requires IsLife(Present(c, counters), client, life, pgPort)
    ensures IsLife(PassEntry(c, counters, seg, pgPort).entry, client, life + [seg], pgPort)
  {
    hide HandleConn, NewConn, Records, Counted;
    HandleIgnoresClosed(c, seg, pgPort);
    assert (life + [seg])[..|life|] == life;
  }

  /** The entry of a key, and what is counted for it, is the life of one
      connection from its opening segment on. */
  lemma {:induction false} EntryIsOneLife(key: ConnKey, run: seq<TcpSegment>, pgPort: nat)
    ensures IsLife(RunEntry(key, run, pgPort).entry, key.client, CurrentLife(key, run, pgPort), pgPort)
  {
    hide NewConn, PassEntry, IsLife;
    if run == [] {
      AbsentIsLife(key.client, [], pgPort);
    } else {
      var before, last := run[..|run| - 1], run[|run| - 1];
      var e := RunEntry(key, before, pgPort).entry;
      EntryIsOneLife(key, before, pgPort);
      if e.Absent? || (last.syn && e.conn.metricsClosed) {
        NewIsLife(key.client, pgPort);
        PassExtendsLife(NewConn(key.client, 0), ZERO, key.client, [], last, pgPort);
        assert [] + [last] == [last];
      } else {
        PassExtendsLife(e.conn, e.counters, key.client, CurrentLife(key, before, pgPort), last, pgPort);
      }
    }
  }

  lemma AbsentIsLife(client: Endpoint, life: seq<TcpSegment>, pgPort: nat)
    ensures IsLife(Absent, client, life, pgPort)
  {
  }

  lemma NewIsLife(client: Endpoint, pgPort: nat)
    ensures IsLife(Present(NewConn(client, 0), ZERO), client, [], pgPort)
  {
  }

  // ----- the table's totals -----

  function MessageRecords(out: seq<Record>): nat {
    if out == [] then 0
    else
      var o := out[|out| - 1];
      MessageRecords(out[..|out| - 1]) + if o.Decoded? && o.output.Message? then 1 else 0
  }

  lemma {:induction false} MessageRecordsConcat(a: seq<Record>, b: seq<Record>)
    ensures MessageRecords(a + b) == MessageRecords(a) + MessageRecords(b)
  {
    if b == [] {
      assert a + b == a;
    } else {
      assert (a + b)[..|a + b| - 1] == a + b[..|b| - 1];
      MessageRecordsConcat(a, b[..|b| - 1]);
    }
  }

  lemma {:induction false} RecordsKeepMessages(out: seq<Output>)
    ensures MessageRecords(Records(out)) == CountMessages(out)
  {
    if out != [] {
      var n := |out| - 1;
      assert Records(out)[..n] == Records(out[..n]);
      RecordsKeepMessages(out[..n]);
    }
  }

  lemma HandleCountsMessages(c: ConnState, seg: TcpSegment, pgPort: nat)
    ensures var h := HandleConn(c, seg, pgPort); h.outcome.msgs == CountMessages(h.out)
  {
    hide Drain, FeedSide;
    DrainConserves(FeedSide(c.client, seg).dec);
    DrainConserves(FeedSide(c.server, seg).dec);
  }

  lemma HandleAtCountsMessages(t: TableState, key: ConnKey, seg: TcpSegment, pgPort: nat)
    requires KnownConns(t) && key in t.conns
    ensures var s := HandleAt(t, key, seg, pgPort);
      s.table.store.totals.msgsIn + s.table.store.totals.msgsOut ==
        t.store.totals.msgsIn + t.store.totals.msgsOut + MessageRecords(s.out)
  {
    hide HandleConn, MessageRecords;
    var h := HandleConn(t.conns[key], seg, pgPort);
    HandleCountsMessages(t.conns[key], seg, pgPort);
    RecordsKeepMessages(h.out);
    MessageRecordsConcat(Records(h.out), FinishAt(PassAt(t, key, seg, pgPort), key, seg).out);
    NoMessageRecords();
  }

  lemma NoMessageRecords()
    ensures MessageRecords([]) == MessageRecords([Reset]) == MessageRecords([Closed]) == 0
    ensures forall key :: MessageRecords([NewConnection(key)]) == 0
  {
    assert [Reset][..0] == [] && [Closed][..0] == [];
    assert forall key :: [NewConnection(key)][..0] == [];
  }

  /** Over any run, the aggregate message counters count the message records
      printed for all connections together, and every aggregate counter is the
      sum over every connection ever opened. */
  lemma {:induction false} TotalsCountPrintedMessages(cap: nat, pgPort: nat, run: seq<TcpSegment>)
    ensures var s := RunTable(cap, pgPort, run);
      && s.table.store.totals.msgsIn + s.table.store.totals.msgsOut == MessageRecords(s.out)
      && s.table.store.totals == Sum(s.table.store.stats)
  {
    hide HandleAt, OpenConnection, MessageRecords, Sum, Agrees;
    LifecycleAgrees(cap, pgPort, run);
    assert RunTable(cap, pgPort, run).table.store.totals == Sum(RunTable(cap, pgPort, run).table.store.stats) by {
      AgreesFacts(RunTable(cap, pgPort, run).table);
    }
    NoMessageRecords();
    if run != [] {
      var before, last := RunTable(cap, pgPort, run[..|run| - 1]), run[|run| - 1];
      TotalsCountPrintedMessages(cap, pgPort, run[..|run| - 1]);
      var s := HandleSegment(before.table, last, pgPort);
      MessageRecordsConcat(before.out, s.out);
      match KeyOf(last, pgPort)
      case None =>
      case Some(key) =>
        if ShouldOpen(before.table.conns, key, last) {
          OpenKeepsTotals(before.table, key);
          var u := OpenEntry(before.table, key);
          HandleAtCountsMessages(u, key, last, pgPort);
          MessageRecordsConcat([NewConnection(key)], HandleAt(u, key, last, pgPort).out);
        } else {
          HandleAtCountsMessages(before.table, key, last, pgPort);
        }
    }
  }

  lemma OpenKeepsTotals(t: TableState, key: ConnKey)
    requires KnownConns(t)
    ensures OpenEntry(t, key).store.totals == t.store.totals
  {
  }
}
