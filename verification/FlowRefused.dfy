/** A connection whose encryption request is refused and that goes on in
    cleartext: the request and the refusal first, then one drain per direction. */
module FlowRefused {
  import opened Options
  import opened Bytes
  import opened Endpoints
  import opened Segments
  import opened SequenceSpace
  import opened PgWire
  import opened Decode
  import opened MetricsModel
  import opened FlowModel
  import opened FlowNegotiation
  import opened FlowDemux
  import opened FlowConservation
  import opened FlowEndToEnd
  import R = Reassembly
  import C = ReassemblyCompleteness

  /** The eight bytes of an SSL or a GSS request. */
  function Request(gss: bool): (s: seq<byte>)
    ensures |s| == 8
  {
    [0, 0, 0, 8, 4, 210, 22, if gss then 48 else 47]
  }

  /** The answer `N`. */
  const REFUSAL: seq<byte> := [78]

  /** The request is not overtaken by its answer, and nothing else is delivered. */
  predicate Orderly(gss: bool, run: seq<TcpSegment>, pgPort: nat) {
    run == [] ||
    var sent, replied := Delivered(run, pgPort, In), Delivered(run, pgPort, Out);
    && Orderly(gss, run[..|run| - 1], pgPort)
    && sent <= Request(gss) && replied <= REFUSAL && (replied != [] ==> sent == Request(gss))
  }

  /** The run delivers a request and then its refusal, in whatever pieces, copies
      and order of segments. */
  predicate Refused(gss: bool, run: seq<TcpSegment>, pgPort: nat) {
    Orderly(gss, run, pgPort) && Delivered(run, pgPort, In) == Request(gss) && Delivered(run, pgPort, Out) == REFUSAL
  }

  function RequestRecord(client: Endpoint, gss: bool): Output {
    Message(client, Client, FromClient(if gss then GssEncRequest else SslRequest))
  }

  function RefusalRecord(client: Endpoint, gss: bool): Output {
    Message(client, Server, FromServer(if gss then GssEncResponse(Refuse) else SslResponse(Refuse)))
  }

  // ----- the decoders while the request and the refusal arrive -----

  /** The client decoder once its request was taken: a startup message is next. */
  function Asked(client: Endpoint): Decoder {
    NewDecoder(Client, client).(ctx := DEFAULT_CONTEXT.(awaitingFrontendSsl := false))
  }

  /** The client decoder with `x` bytes of the request delivered. */
  function ClientAt(client: Endpoint, gss: bool, x: nat): Decoder
    requires x <= 8
  {
    if x < 8 then NewDecoder(Client, client).(rxbuf := Request(gss)[..x]) else Asked(client)
  }

  /** The server decoder after the request, if `asked`, and its answer, if `told`. */
  function ServerAt(client: Endpoint, gss: bool, asked: bool, told: bool): Decoder {
    if asked && !told then
      NewDecoder(Server, client).(ctx :=
        if gss then DEFAULT_CONTEXT.(awaitingBackendGss := true) else DEFAULT_CONTEXT.(awaitingBackendSsl := true))
    else NewDecoder(Server, client)
  }

  function Exchanged(client: Endpoint, gss: bool, asked: bool, told: bool): seq<Output> {
    (if asked then [RequestRecord(client, gss)] else []) + (if told then [RefusalRecord(client, gss)] else [])
  }

  function CountsOf(asked: bool, told: bool): Totals {
    Totals(if asked then 1 else 0, if told then 1 else 0, if asked then 8 else 0, if told then 1 else 0)
  }

  lemma RequestLength()
    ensures Be32(0, 0, 0, 8) == 8
  {
  }

  lemma RequestCode(low: byte)
    ensures Be32(4, 210, 22, low) == 80877056 + low
  {
    assert Be16(4, 210) == 1234;
    assert Be16(22, low) == 5632 + low;
  }

  lemma DecodesByWords(s: seq<byte>, gss: bool)
    requires |s| == 8
    ensures WordAt(s, 0) == 8 && WordAt(s, 4) == (if gss then GSS_REQUEST_CODE else SSL_REQUEST_CODE) ==>
              DecodeNegotiation(s) == Parsed(if gss then GssEncRequest else SslRequest, 8)
  {
    hide Be32;
  }

  /** The whole request in the buffer is taken, and draining stops for the answer. */
  lemma RequestIsTaken(client: Endpoint, gss: bool)
    ensures var d := NewDecoder(Client, client).(rxbuf := Request(gss));
      DrainStep(d) == Took(Handled(Asked(client), DrainOutcome(if gss then GssWait else SslWait, false, 1, 8),
                                   [RequestRecord(client, gss)], false))
  {
    hide DecodeNegotiation, Be32;
    RequestLength();
    RequestCode(if gss then 48 else 47);
    DecodesByWords(Request(gss), gss);
    assert Request(gss)[8..] == [];
  }

  lemma PartIsIdle(client: Endpoint, s: seq<byte>)
    requires |s| < 8
    ensures DrainStep(NewDecoder(Client, client).(rxbuf := s)).Idle? && DrainStep(Asked(client)).Idle?
  {
  }

  lemma ClientDrains(client: Endpoint, gss: bool, x: nat, y: nat)
    requires x <= y <= 8
    ensures var asks := x < 8 && y == 8;
      var d := Append(ClientAt(client, gss, x), Request(gss)[x..y]);
      var wait := if !asks then NoWait else if gss then GssWait else SslWait;
      Drain(d) == Drained(ClientAt(client, gss, y),
                          DrainOutcome(wait, false, if asks then 1 else 0, if asks then 8 else 0),
                          if asks then [RequestRecord(client, gss)] else [], 0, false)
  {
    hide DrainStep, Drain, Request;
    var d := Append(ClientAt(client, gss, x), Request(gss)[x..y]);
    DrainUnfold(d);
    if x < 8 {
      assert Request(gss)[..x] + Request(gss)[x..y] == Request(gss)[..y];
      if y == 8 {
        assert Request(gss)[..8] == Request(gss);
        RequestIsTaken(client, gss);
        assert [RequestRecord(client, gss)] + [] == [RequestRecord(client, gss)];
      } else {
        PartIsIdle(client, Request(gss)[..y]);
      }
    } else {
      assert Request(gss)[x..y] == [];
      PartIsIdle(client, []);
    }
  }

  lemma ServerDrains(client: Endpoint, gss: bool, asked: bool, told: bool, told': bool)
    requires told ==> told'
    requires told' ==> asked
    ensures var d := Append(ServerAt(client, gss, asked, told), if told' && !told then REFUSAL else []);
      var n := if told' && !told then 1 else 0;
      Drain(d) == Drained(ServerAt(client, gss, asked, told'), DrainOutcome(NoWait, false, n, n),
                          if told' && !told then [RefusalRecord(client, gss)] else [], 0, false)
  {
    var d := Append(ServerAt(client, gss, asked, told), if told' && !told then REFUSAL else []);
    DrainUnfold(d);
    if told' && !told {
      var h := DrainStep(d).handled;
      assert h.dir == NewDecoder(Server, client) && h.more;
      DrainUnfold(h.dir);
      assert [RefusalRecord(client, gss)] + [] == [RefusalRecord(client, gss)];
    }
  }

  // ----- the opening -----

  ghost predicate InOpening(client: Endpoint, gss: bool, run: seq<TcpSegment>, pgPort: nat) {
    var r := RunConn(NewConn(client, 0), run, pgPort);
    var sent, replied := SegmentsOf(run, pgPort, In), SegmentsOf(run, pgPort, Out);
    var x, told := |Delivered(run, pgPort, In)|, Delivered(run, pgPort, Out) != [];
    && x <= 8 && !r.conn.encrypted
    && r.conn.client == Side(R.FeedAll(R.FRESH_RX, sent).rx, ClientAt(client, gss, x))
    && r.conn.server == Side(R.FeedAll(R.FRESH_RX, replied).rx, ServerAt(client, gss, x == 8, told))
    && r.out == Exchanged(client, gss, x == 8, told)
    && CountedOver(NewConn(client, 0), run, pgPort) == CountsOf(x == 8, told)
  }

  lemma PartOf(whole: seq<byte>, a: seq<byte>, b: seq<byte>)
    requires a + b <= whole
    ensures b == whole[|a|..|a| + |b|]
  {
    assert b == (a + b)[|a|..];
  }

  lemma Arms(rx: R.Rx, client: Endpoint, gss: bool)
    ensures Arm(Side(rx, NewDecoder(Server, client)), if gss then GssWait else SslWait)
         == Side(rx, ServerAt(client, gss, true, false))
  {
  }

  lemma ClientInOpening(client: Endpoint, gss: bool, run: seq<TcpSegment>, pgPort: nat)
    requires run != [] && DirectionOf(run[|run| - 1], pgPort).In? && Orderly(gss, run, pgPort)
    requires InOpening(client, gss, run[..|run| - 1], pgPort)
    ensures InOpening(client, gss, run, pgPort)
  {
    hide Drain, R.Feed, SegmentsOf, Request, ClientAt, NewConn, Orderly, DrainStep, NewDecoder;
    var before, last := run[..|run| - 1], run[|run| - 1];
    LastOf(run, pgPort, In);
    OrderlyAt(gss, run, pgPort);
    var x, y := |Delivered(before, pgPort, In)|, |Delivered(run, pgPort, In)|;
    var fed := R.Feed(R.FeedAll(R.FRESH_RX, SegmentsOf(before, pgPort, In)).rx,
                      R.Segment(last.seqno, last.syn, last.payload));
    PartOf(Request(gss), Delivered(before, pgPort, In), fed.appended);
    ClientDrains(client, gss, x, y);
    Arms(R.FeedAll(R.FRESH_RX, SegmentsOf(run, pgPort, Out)).rx, client, gss);
    OrderlyAt(gss, before, pgPort);
    var conn := RunConn(NewConn(client, 0), before, pgPort).conn;
    assert FeedSide(conn.client, last) == Side(fed.rx, Append(ClientAt(client, gss, x), Request(gss)[x..y]));
  }

  lemma OrderlyAt(gss: bool, run: seq<TcpSegment>, pgPort: nat)
    requires Orderly(gss, run, pgPort)
    ensures var sent, replied := Delivered(run, pgPort, In), Delivered(run, pgPort, Out);
      sent <= Request(gss) && replied <= REFUSAL && (replied != [] ==> sent == Request(gss))
    ensures run != [] ==> Orderly(gss, run[..|run| - 1], pgPort)
  {
  }

  lemma ServerInOpening(client: Endpoint, gss: bool, run: seq<TcpSegment>, pgPort: nat)
    requires run != [] && DirectionOf(run[|run| - 1], pgPort).Out? && Orderly(gss, run, pgPort)
    requires InOpening(client, gss, run[..|run| - 1], pgPort)
    ensures InOpening(client, gss, run, pgPort)
  {
    hide Drain, R.Feed, SegmentsOf, Request, ServerAt, NewConn, Orderly, DrainStep, NewDecoder;
    var before, last := run[..|run| - 1], run[|run| - 1];
    LastOf(run, pgPort, Out);
    OrderlyAt(gss, run, pgPort);
    var x := |Delivered(run, pgPort, In)|;
    var told, told' := Delivered(before, pgPort, Out) != [], Delivered(run, pgPort, Out) != [];
    var fed := R.Feed(R.FeedAll(R.FRESH_RX, SegmentsOf(before, pgPort, Out)).rx,
                      R.Segment(last.seqno, last.syn, last.payload));
    PartOf(REFUSAL, Delivered(before, pgPort, Out), fed.appended);
    assert fed.appended == if told' && !told then REFUSAL else [];
    ServerDrains(client, gss, x == 8, told, told');
    var conn := RunConn(NewConn(client, 0), before, pgPort).conn;
    assert FeedSide(conn.server, last) == Side(fed.rx, Append(ServerAt(client, gss, x == 8, told), fed.appended));
  }

  lemma {:induction false} OpeningExchanges(client: Endpoint, gss: bool, run: seq<TcpSegment>, pgPort: nat)
    requires Orderly(gss, run, pgPort)
    ensures InOpening(client, gss, run, pgPort)
    decreases |run|
  {
    hide InOpening;
    if run == [] {
      NothingYet(client, gss, pgPort);
    } else {
      OpeningExchanges(client, gss, run[..|run| - 1], pgPort);
      if DirectionOf(run[|run| - 1], pgPort).In? {
        ClientInOpening(client, gss, run, pgPort);
      } else {
        ServerInOpening(client, gss, run, pgPort);
      }
    }
  }

  lemma NothingYet(client: Endpoint, gss: bool, pgPort: nat)
    ensures InOpening(client, gss, [], pgPort)
  {
    assert Request(gss)[..0] == [];
  }

  // ----- the usual opening -----

  lemma FeedsLast(run: seq<TcpSegment>, pgPort: nat, direction: Traffic)
    requires run != [] && DirectionOf(run[|run| - 1], pgPort) == direction
    ensures var before, last := run[..|run| - 1], run[|run| - 1];
      var f := R.FeedAll(R.FRESH_RX, SegmentsOf(before, pgPort, direction));
      var g := R.Feed(f.rx, R.Segment(last.seqno, last.syn, last.payload));
      && R.FeedAll(R.FRESH_RX, SegmentsOf(run, pgPort, direction)) == R.Fed(g.rx, f.appended + g.appended)
      && forall other :: other != direction ==> SegmentsOf(run, pgPort, other) == SegmentsOf(before, pgPort, other)
  {
    hide R.Feed;
    LastOf(run, pgPort, direction);
  }

  /** In order, a SYN and then data at the next number: the data is delivered. */
  lemma OpensAndDelivers(isn: u32, data: seq<byte>)
    requires data != []
    ensures var ready := R.Rx(Some(Wrap(isn + 1)), map[]);
      && R.Feed(R.FRESH_RX, R.Segment(isn, true, [])) == R.Fed(ready, [])
      && R.Feed(ready, R.Segment(Wrap(isn + 1), false, data)).appended == data
  {
  }

  lemma NoSegments(pgPort: nat)
    ensures forall direction :: R.FeedAll(R.FRESH_RX, SegmentsOf([], pgPort, direction)) == R.Fed(R.FRESH_RX, [])
  {
  }

  predicate IsSyn(seg: TcpSegment) {
    seg.syn && seg.payload == []
  }

  predicate IsFirst(seg: TcpSegment, syn: TcpSegment, data: seq<byte>) {
    !seg.syn && seg.seqno == Wrap(syn.seqno + 1) && seg.payload == data
  }

  /** Both SYNs, the request and the refusal, each captured once and in order. */
  lemma UsualOpeningIsRefused(gss: bool, run: seq<TcpSegment>, pgPort: nat)
    requires |run| == 4 && IsSyn(run[0]) && IsSyn(run[1])
    requires IsFirst(run[2], run[0], Request(gss)) && IsFirst(run[3], run[1], REFUSAL)
    requires DirectionOf(run[0], pgPort).In? && DirectionOf(run[1], pgPort).Out?
    requires DirectionOf(run[2], pgPort).In? && DirectionOf(run[3], pgPort).Out?
    ensures Refused(gss, run, pgPort)
  {
    hide R.Feed, R.FeedAll, SegmentsOf, Request, Wrap;
    OpensAndDelivers(run[0].seqno, Request(gss));
    OpensAndDelivers(run[1].seqno, REFUSAL);
    var r1, r2, r3 := run[..1], run[..2], run[..3];
    assert r1[..0] == [] && r2[..1] == r1 && r3[..2] == r2 && run[..3] == r3;
    NoSegments(pgPort);
    FeedsLast(r1, pgPort, In);
    FeedsLast(r2, pgPort, Out);
    FeedsLast(r3, pgPort, In);
    FeedsLast(run, pgPort, Out);
    assert Orderly(gss, r1, pgPort);
    assert Orderly(gss, r2, pgPort);
    assert Orderly(gss, r3, pgPort);
  }

  // ----- what follows the opening -----

  lemma {:induction false} RunsOn(c: ConnState, a: seq<TcpSegment>, b: seq<TcpSegment>, pgPort: nat)
    ensures var first := RunConn(c, a, pgPort);
      var second := RunConn(first.conn, b, pgPort);
      RunConn(c, a + b, pgPort) == ConnRun(second.conn, first.out + second.out)
    decreases |b|
  {
    hide HandleConn;
    var first := RunConn(c, a, pgPort);
    if b == [] {
      assert a + b == a && first.out + [] == first.out;
    } else {
      var before, last := b[..|b| - 1], b[|b| - 1];
      RunsOn(c, a, before, pgPort);
      assert (a + b)[..|a + b| - 1] == a + before;
      var second := RunConn(first.conn, before, pgPort);
      var h := HandleConn(second.conn, last, pgPort);
      assert first.out + second.out + h.out == first.out + (second.out + h.out);
    }
  }

  lemma CountsOnTop(a: Totals, b: Totals, direction: Traffic, o: DrainOutcome)
    ensures Counted(Plus(a, b), direction, o) == Plus(a, Counted(b, direction, o))
  {
  }

  lemma {:induction false} CountsOn(c: ConnState, a: seq<TcpSegment>, b: seq<TcpSegment>, pgPort: nat)
    ensures var first := RunConn(c, a, pgPort).conn;
      CountedOver(c, a + b, pgPort) == Plus(CountedOver(c, a, pgPort), CountedOver(first, b, pgPort))
    decreases |b|
  {
    hide HandleConn, RunConn, Plus, Counted;
    var first := RunConn(c, a, pgPort).conn;
    if b == [] {
      assert a + b == a;
      PlusNothing(CountedOver(c, a, pgPort), CountedOver(first, b, pgPort));
    } else {
      var before, last := b[..|b| - 1], b[|b| - 1];
      CountsOn(c, a, before, pgPort);
      RunsOn(c, a, before, pgPort);
      assert (a + b)[..|a + b| - 1] == a + before;
      var o := HandleConn(RunConn(first, before, pgPort).conn, last, pgPort).outcome;
      CountsOnTop(CountedOver(c, a, pgPort), CountedOver(first, before, pgPort), DirectionOf(last, pgPort), o);
    }
  }

  lemma {:induction false} SegmentsRunOn(a: seq<TcpSegment>, b: seq<TcpSegment>, pgPort: nat, direction: Traffic)
    ensures SegmentsOf(a + b, pgPort, direction) == SegmentsOf(a, pgPort, direction) + SegmentsOf(b, pgPort, direction)
    decreases |b|
  {
    if b == [] {
      assert a + b == a;
    } else {
      SegmentsRunOn(a, b[..|b| - 1], pgPort, direction);
      assert (a + b)[..|a + b| - 1] == a + b[..|b| - 1];
    }
  }

  lemma {:induction false} FeedsRunOn(rx: R.Rx, a: seq<R.Segment>, b: seq<R.Segment>)
    ensures var first := R.FeedAll(rx, a);
      var second := R.FeedAll(first.rx, b);
      R.FeedAll(rx, a + b) == R.Fed(second.rx, first.appended + second.appended)
    decreases |b|
  {
    hide R.Feed;
    var first := R.FeedAll(rx, a);
    if b == [] {
      assert a + b == a && first.appended + [] == first.appended;
    } else {
      var before, last := b[..|b| - 1], b[|b| - 1];
      FeedsRunOn(rx, a, before);
      assert (a + b)[..|a + b| - 1] == a + before;
      var second := R.FeedAll(first.rx, before);
      var f := R.Feed(second.rx, last);
      assert first.appended + second.appended + f.appended == first.appended + (second.appended + f.appended);
    }
  }

  /** What a direction delivers after its first `n` bytes. */
  function Remainder(run: seq<TcpSegment>, pgPort: nat, direction: Traffic, n: nat): seq<byte> {
    var all := Delivered(run, pgPort, direction);
    if n <= |all| then all[n..] else []
  }

  lemma RemainderIsFed(opening: seq<TcpSegment>, later: seq<TcpSegment>, pgPort: nat, direction: Traffic)
    ensures var first := R.FeedAll(R.FRESH_RX, SegmentsOf(opening, pgPort, direction));
      && Delivered(opening + later, pgPort, direction)
           == first.appended + Remainder(opening + later, pgPort, direction, |first.appended|)
      && Remainder(opening + later, pgPort, direction, |first.appended|)
           == R.FeedAll(first.rx, SegmentsOf(later, pgPort, direction)).appended
  {
    SegmentsRunOn(opening, later, pgPort, direction);
    FeedsRunOn(R.FRESH_RX, SegmentsOf(opening, pgPort, direction), SegmentsOf(later, pgPort, direction));
  }

  lemma AfterRefusal(client: Endpoint, gss: bool, opening: seq<TcpSegment>, pgPort: nat)
    requires Refused(gss, opening, pgPort)
    ensures var c := RunConn(NewConn(client, 0), opening, pgPort).conn;
      && Ready(c)
      && c.client == Side(R.FeedAll(R.FRESH_RX, SegmentsOf(opening, pgPort, In)).rx, Asked(client))
      && c.server == Side(R.FeedAll(R.FRESH_RX, SegmentsOf(opening, pgPort, Out)).rx, NewDecoder(Server, client))
    ensures RunConn(NewConn(client, 0), opening, pgPort).out == [RequestRecord(client, gss), RefusalRecord(client, gss)]
    ensures CountedOver(NewConn(client, 0), opening, pgPort) == Totals(1, 1, 8, 1)
  {
    hide RunConn, CountedOver, SegmentsOf, NewConn, Request, Orderly, R.FeedAll;
    OpeningExchanges(client, gss, opening, pgPort);
  }

  /** The connection is in cleartext where the drains `c` and `s` leave it; it
      emitted the request, the refusal and then what they emitted, and counted
      all of it. */
  ghost predicate GoesOnInClear(client: Endpoint, gss: bool, run: seq<TcpSegment>, pgPort: nat,
                                c: Drained, s: Drained) {
    var r := RunConn(NewConn(client, 0), run, pgPort);
    && !r.conn.encrypted && r.conn.client.dec == c.dir && r.conn.server.dec == s.dir
    && [RequestRecord(client, gss), RefusalRecord(client, gss)] <= r.out
    && OutputOf(r.out, Client) == [RequestRecord(client, gss)] + c.out
    && OutputOf(r.out, Server) == [RefusalRecord(client, gss)] + s.out
    && CountedOver(NewConn(client, 0), run, pgPort) ==
         Totals(1 + c.outcome.msgs, 1 + s.outcome.msgs, 8 + c.outcome.bytes, 1 + s.outcome.bytes)
  }

  /** A connection whose request was refused decodes, from then on, as one drain
      per direction of what each delivered after the exchange. */
  lemma RefusedThenTwoDrains(client: Endpoint, gss: bool, opening: seq<TcpSegment>, later: seq<TcpSegment>, pgPort: nat)
    requires Refused(gss, opening, pgPort)
    requires Clean(Drain(Append(Asked(client), Remainder(opening + later, pgPort, In, 8))))
    requires Clean(Drain(Append(NewDecoder(Server, client), Remainder(opening + later, pgPort, Out, 1))))
    ensures GoesOnInClear(client, gss, opening + later, pgPort,
                          Drain(Append(Asked(client), Remainder(opening + later, pgPort, In, 8))),
                          Drain(Append(NewDecoder(Server, client), Remainder(opening + later, pgPort, Out, 1))))
  {
    hide Drain, Append, Clean, OutputOf, RunConn, CountedOver, Orderly, SegmentsOf, R.FeedAll, Request, Ready, Asked,
      NewDecoder, Remainder;
    AfterRefusal(client, gss, opening, pgPort);
    var first := RunConn(NewConn(client, 0), opening, pgPort);
    RemainderIsFed(opening, later, pgPort, In);
    RemainderIsFed(opening, later, pgPort, Out);
    RunsOn(NewConn(client, 0), opening, later, pgPort);
    CountsOn(NewConn(client, 0), opening, later, pgPort);
    DecodesAsTwoDrains(first.conn, later, pgPort);
    ExchangeBySide(client, gss);
    var second := RunConn(first.conn, later, pgPort);
    OutputConcat(first.out, second.out, Client);
    OutputConcat(first.out, second.out, Server);
  }

  lemma ExchangeBySide(client: Endpoint, gss: bool)
    ensures var out := [RequestRecord(client, gss), RefusalRecord(client, gss)];
      OutputOf(out, Client) == [RequestRecord(client, gss)] && OutputOf(out, Server) == [RefusalRecord(client, gss)]
  {
    hide OutputOf;
    var request, refusal := RequestRecord(client, gss), RefusalRecord(client, gss);
    OutputOfOneRole([request], Client);
    OutputOfOneRole([refusal], Server);
    OutputConcat([request], [refusal], Client);
    OutputConcat([request], [refusal], Server);
    assert [request] + [refusal] == [request, refusal];
  }

  // ----- schedules -----

  /** So the schedule does not matter after a refusal either: whatever the
      interleaving, order and duplication once the exchange is over, records,
      counts and decode state are those of one drain per direction of the
      blocks that arrived without a gap. */
  lemma RefusedScheduleDoesNotMatter(client: Endpoint, gss: bool, opening: seq<TcpSegment>, later: seq<TcpSegment>,
                                     pgPort: nat, sent: Capture, replied: Capture)
    requires Refused(gss, opening, pgPort)
    requires Captures(opening + later, pgPort, In, sent) && Captures(opening + later, pgPort, Out, replied)
    ensures Request(gss) <= Arrived(sent) <= C.Concat(sent.blocks)
    ensures REFUSAL <= Arrived(replied) <= C.Concat(replied.blocks)
    ensures
      Clean(Drain(Append(Asked(client), C.Concat(sent.blocks)[8..])))
      && Clean(Drain(Append(NewDecoder(Server, client), C.Concat(replied.blocks)[1..]))) ==>
        GoesOnInClear(client, gss, opening + later, pgPort,
                      Drain(Append(Asked(client), Arrived(sent)[8..])),
                      Drain(Append(NewDecoder(Server, client), Arrived(replied)[1..])))
  {
    hide Drain, Append, Clean, GoesOnInClear, Orderly, SegmentsOf, R.FeedAll, Request, Asked, NewDecoder, C.Concat,
      Captures, Arrived;
    var unsent := DeliversArrived(opening + later, pgPort, In, sent);
    var unreplied := DeliversArrived(opening + later, pgPort, Out, replied);
    RemainderIsFed(opening, later, pgPort, In);
    RemainderIsFed(opening, later, pgPort, Out);
    assert C.Concat(sent.blocks)[8..] == Arrived(sent)[8..] + unsent;
    assert C.Concat(replied.blocks)[1..] == Arrived(replied)[1..] + unreplied;
    if Clean(Drain(Append(Asked(client), C.Concat(sent.blocks)[8..])))
      && Clean(Drain(Append(NewDecoder(Server, client), C.Concat(replied.blocks)[1..])))
    {
      CleanPrefix(Asked(client), Arrived(sent)[8..], unsent);
      CleanPrefix(NewDecoder(Server, client), Arrived(replied)[1..], unreplied);
      RefusedThenTwoDrains(client, gss, opening, later, pgPort);
    }
  }
}
