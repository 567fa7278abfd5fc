/** End to end: for streams that decode without error and without an SSL or GSS
    request, what a connection decodes and counts does not depend on how its
    segments were scheduled. */
module FlowEndToEnd {
  import opened Bytes
  import opened Endpoints
  import opened Segments
  import opened PgWire
  import opened Decode
  import opened MetricsModel
  import opened FlowModel
  import opened FlowNegotiation
  import opened FlowDemux
  import opened FlowConservation
  import R = Reassembly
  import C = ReassemblyCompleteness

  // ----- one direction -----

  /** The segments of one direction, as reassembly sees them. */
  function SegmentsOf(run: seq<TcpSegment>, pgPort: nat, direction: Traffic): seq<R.Segment> {
    if run == [] then []
    else
      var before, last := SegmentsOf(run[..|run| - 1], pgPort, direction), run[|run| - 1];
      if DirectionOf(last, pgPort) == direction then before + [R.Segment(last.seqno, last.syn, last.payload)]
        else before
  }

  /** The records one direction emitted. */
  function OutputOf(out: seq<Output>, role: Role): seq<Output> {
    if out == [] then []
    else
      var before, last := OutputOf(out[..|out| - 1], role), out[|out| - 1];
      if last.role == role then before + [last] else before
  }

  lemma {:induction false} OutputConcat(a: seq<Output>, b: seq<Output>, role: Role)
    ensures OutputOf(a + b, role) == OutputOf(a, role) + OutputOf(b, role)
  {
    if b == [] {
      assert a + b == a;
    } else {
      assert (a + b)[..|a + b| - 1] == a + b[..|b| - 1];
      OutputConcat(a, b[..|b| - 1], role);
    }
  }

  lemma StepSpeaksForItself(d: Decoder)
    requires DrainStep(d).Took?
    ensures var h := DrainStep(d).handled;
      h.dir.role == d.role && forall o :: o in h.out ==> o.role == d.role
  {
    hide DecodeFrontend, DecodeBackend;
  }

  lemma {:induction false} DrainSpeaksForItself(d: Decoder)
    ensures forall o :: o in Drain(d).out ==> o.role == d.role
    decreases |d.rxbuf|, if d.ctx.awaitingFrontendSsl then 1 else 0
  {
    hide DrainStep;
    match DrainStep(d)
    case Idle =>
    case Failed =>
    case Took(h) =>
      StepSpeaksForItself(d);
      if h.more {
        DrainSpeaksForItself(h.dir);
      }
  }

  lemma {:induction false} OutputOfOneRole(out: seq<Output>, role: Role)
    requires forall o :: o in out ==> o.role == role
    ensures OutputOf(out, role) == out
    ensures forall other :: other != role ==> OutputOf(out, other) == []
  {
    if out != [] {
      var n := |out| - 1;
      OutputOfOneRole(out[..n], role);
      assert out == out[..n] + [out[n]];
    }
  }

  /** What a clean prefix of a direction's stream amounts to. */
  function OneDrain(d: Decoder, rx: R.Rx, run: seq<R.Segment>): Drained {
    Drain(Append(d, R.FeedAll(rx, run).appended))
  }

  lemma CleanPrefix(d: Decoder, x: seq<byte>, y: seq<byte>)
    requires Clean(Drain(Append(d, x + y)))
    ensures Clean(Drain(Append(d, x)))
    ensures Drain(Append(d, x + y)) == After(Drain(Append(d, x)), Drain(Append(Drain(Append(d, x)).dir, y)))
  {
    hide Drain, Append;
    AppendAppend(d, x, y);
    DrainSplit(Append(d, x), y);
  }

  /** One more segment, fed and drained, is one more piece of the one drain. */
  lemma DirectionStep(d: Decoder, rx: R.Rx, run: seq<R.Segment>)
    requires run != [] && Clean(OneDrain(d, rx, run))
    ensures var before := OneDrain(d, rx, run[..|run| - 1]);
      var fed := R.Feed(R.FeedAll(rx, run[..|run| - 1]).rx, run[|run| - 1]);
      && Clean(before)
      && OneDrain(d, rx, run) == After(before, Drain(Append(before.dir, fed.appended)))
  {
    hide Drain, R.Feed, Append;
    var f := R.FeedAll(rx, run[..|run| - 1]);
    CleanPrefix(d, f.appended, R.Feed(f.rx, run[|run| - 1]).appended);
  }

  // ----- the connection -----

  /** In cleartext, with no answer pending and nothing left to decode. */
  predicate Ready(c: ConnState) {
    && !c.encrypted && c.client.dec.role.Client? && c.server.dec.role.Server? && Pending(c.server.dec.ctx) == 0
    && DrainStep(c.client.dec).Idle? && DrainStep(c.server.dec).Idle?
  }

  /** What a side makes of a run's segments in one go. */
  function SideDrain(side: Side, sent: seq<R.Segment>): Drained {
    OneDrain(side.dec, side.rx, sent)
  }

  /** Both directions of the run decode cleanly when drained in one go. */
  ghost predicate BothClean(c: ConnState, run: seq<TcpSegment>, pgPort: nat) {
    && Clean(SideDrain(c.client, SegmentsOf(run, pgPort, In)))
    && Clean(SideDrain(c.server, SegmentsOf(run, pgPort, Out)))
  }

  ghost predicate SideIs(side: Side, out: seq<Output>, role: Role, r: Drained, rx: R.Rx) {
    side.rx == rx && side.dec == r.dir && OutputOf(out, role) == r.out
  }

  /** Each direction of the connection is where one drain of all it delivered
      would leave it, with the output and the counts of that drain. */
  ghost predicate IsTwoDrains(c: ConnState, run: seq<TcpSegment>, pgPort: nat) {
    var r, n := RunConn(c, run, pgPort), CountedOver(c, run, pgPort);
    var sent, replied := SegmentsOf(run, pgPort, In), SegmentsOf(run, pgPort, Out);
    var client, server := SideDrain(c.client, sent), SideDrain(c.server, replied);
    && !r.conn.encrypted
    && SideIs(r.conn.client, r.out, Client, client, R.FeedAll(c.client.rx, sent).rx)
    && SideIs(r.conn.server, r.out, Server, server, R.FeedAll(c.server.rx, replied).rx)
    && n == Totals(client.outcome.msgs, server.outcome.msgs, client.outcome.bytes, server.outcome.bytes)
  }

  lemma NothingDrained(side: Side)
    requires DrainStep(side.dec).Idle?
    ensures SideDrain(side, []) == Nothing(side.dec)
  {
    hide DrainStep;
    DrainUnfold(side.dec);
    assert side.dec.rxbuf + [] == side.dec.rxbuf;
  }

  lemma CountsOfDrain(d: Decoder, counters: Totals, direction: Traffic)
    ensures var o := Drain(d).outcome;
      Counted(counters, direction, o) == Plus(counters, Delta(direction, o.msgs, o.bytes))
  {
    hide Drain;
    DrainAccounted(d);
  }

  /** A direction in the state of one drain takes its next segment. */
  lemma {:induction false} SideStep(start: Side, side: Side, sent: seq<R.Segment>, seg: TcpSegment)
    requires start.dec.role.Client? || Pending(start.dec.ctx) == 0
    requires sent != [] && sent[|sent| - 1] == R.Segment(seg.seqno, seg.syn, seg.payload)
    requires Clean(SideDrain(start, sent))
    requires var before := sent[..|sent| - 1];
      side == Side(R.FeedAll(start.rx, before).rx, SideDrain(start, before).dir)
    ensures var fed := FeedSide(side, seg);
      var r := Drain(fed.dec);
      && fed.rx == R.FeedAll(start.rx, sent).rx && fed.dec.role == start.dec.role
      && SideDrain(start, sent) == After(SideDrain(start, sent[..|sent| - 1]), r)
      && r.outcome.wait.NoWait? && !r.outcome.encrypted
  {
    hide Drain, R.Feed;
    var d, n := start.dec, |sent| - 1;
    DirectionStep(d, start.rx, sent);
    var stream := Append(d, R.FeedAll(start.rx, sent[..n]).appended);
    DrainAccounted(stream);
    if d.role.Server? {
      ServerDrainTalk(stream);
    }
    StepNotEncrypted(FeedSide(side, seg).dec);
  }

  lemma LastOf(run: seq<TcpSegment>, pgPort: nat, direction: Traffic)
    requires run != [] && DirectionOf(run[|run| - 1], pgPort) == direction
    ensures var sent, last := SegmentsOf(run, pgPort, direction), run[|run| - 1];
      && sent != [] && sent[|sent| - 1] == R.Segment(last.seqno, last.syn, last.payload)
      && sent[..|sent| - 1] == SegmentsOf(run[..|run| - 1], pgPort, direction)
      && (forall other :: other != direction ==>
            SegmentsOf(run, pgPort, other) == SegmentsOf(run[..|run| - 1], pgPort, other))
  {
  }

  lemma ClientStep(c: ConnState, run: seq<TcpSegment>, pgPort: nat)
    requires Ready(c) && run != [] && DirectionOf(run[|run| - 1], pgPort).In?
    requires BothClean(c, run, pgPort) && IsTwoDrains(c, run[..|run| - 1], pgPort)
    ensures IsTwoDrains(c, run, pgPort)
  {
    hide Drain, FeedSide, R.FeedAll, Clean, OutputOf, SideDrain, SegmentsOf, Counted, DrainStep;
    var before, last := run[..|run| - 1], run[|run| - 1];
    LastOf(run, pgPort, In);
    var r := RunConn(c, before, pgPort);
    SideStep(c.client, r.conn.client, SegmentsOf(run, pgPort, In), last);
    var dec := FeedSide(r.conn.client, last).dec;
    StepOutput(r.out, dec);
    CountsOfDrain(dec, CountedOver(c, before, pgPort), In);
  }

  lemma ServerStep(c: ConnState, run: seq<TcpSegment>, pgPort: nat)
    requires Ready(c) && run != [] && DirectionOf(run[|run| - 1], pgPort).Out?
    requires BothClean(c, run, pgPort) && IsTwoDrains(c, run[..|run| - 1], pgPort)
    ensures IsTwoDrains(c, run, pgPort)
  {
    hide Drain, FeedSide, R.FeedAll, Clean, OutputOf, SideDrain, SegmentsOf, Counted, DrainStep;
    var before, last := run[..|run| - 1], run[|run| - 1];
    LastOf(run, pgPort, Out);
    var r := RunConn(c, before, pgPort);
    SideStep(c.server, r.conn.server, SegmentsOf(run, pgPort, Out), last);
    var dec := FeedSide(r.conn.server, last).dec;
    StepOutput(r.out, dec);
    CountsOfDrain(dec, CountedOver(c, before, pgPort), Out);
  }

  lemma StepOutput(out: seq<Output>, d: Decoder)
    ensures forall role :: OutputOf(out + Drain(d).out, role) ==
              OutputOf(out, role) + (if role == d.role then Drain(d).out else [])
  {
    hide Drain, OutputOf;
    DrainSpeaksForItself(d);
    OutputOfOneRole(Drain(d).out, d.role);
    forall role {
      OutputConcat(out, Drain(d).out, role);
    }
  }

  /** Without a pending negotiation no drain can report encryption. */
  lemma StepNotEncrypted(d: Decoder)
    requires Pending(d.ctx) == 0 || d.role.Client?
    ensures !Drain(d).outcome.encrypted
  {
    hide Drain;
    if d.role.Client? {
      ClientDrainTalk(d);
    } else {
      ServerDrainTalk(d);
    }
  }

  /** Every prefix of a cleanly decodable run is cleanly decodable. */
  lemma BothCleanBefore(c: ConnState, run: seq<TcpSegment>, pgPort: nat)
    requires run != [] && BothClean(c, run, pgPort)
    ensures BothClean(c, run[..|run| - 1], pgPort)
  {
    hide OneDrain, Clean;
    var direction := DirectionOf(run[|run| - 1], pgPort);
    LastOf(run, pgPort, direction);
    if direction.In? {
      DirectionStep(c.client.dec, c.client.rx, SegmentsOf(run, pgPort, In));
    } else {
      DirectionStep(c.server.dec, c.server.rx, SegmentsOf(run, pgPort, Out));
    }
  }

  /** From any point where a connection is ready, segment-by-segment decoding of
      both directions equals one drain of everything each then delivers. */
  lemma {:induction false} DecodesAsTwoDrains(c: ConnState, run: seq<TcpSegment>, pgPort: nat)
    requires Ready(c) && BothClean(c, run, pgPort)
    ensures IsTwoDrains(c, run, pgPort)
  {
    hide IsTwoDrains, BothClean, Ready;
    if run == [] {
      StartsAsTwoDrains(c, pgPort);
    } else {
      BothCleanBefore(c, run, pgPort);
      DecodesAsTwoDrains(c, run[..|run| - 1], pgPort);
      if DirectionOf(run[|run| - 1], pgPort).In? {
        ClientStep(c, run, pgPort);
      } else {
        ServerStep(c, run, pgPort);
      }
    }
  }

  lemma StartsAsTwoDrains(c: ConnState, pgPort: nat)
    requires Ready(c)
    ensures IsTwoDrains(c, [], pgPort)
  {
    hide Drain, DrainStep;
    NothingDrained(c.client);
    NothingDrained(c.server);
  }

  lemma NewIsReady(client: Endpoint)
    ensures Ready(NewConn(client, 0))
  {
  }

  // ----- schedules -----

  lemma {:induction false} FeedAllAfterSyn(isn: u32, run: seq<R.Segment>)
    ensures R.FeedAll(R.FRESH_RX, [R.Segment(isn, true, [])] + run) == R.FeedAll(C.Opened(isn), run)
  {
    hide R.Feed;
    var syn := R.Segment(isn, true, []);
    if run == [] {
      assert [syn][..0] == [];
      assert [syn] + run == [syn];
      OpeningAppendsNothing(isn);
    } else {
      var n := |run| - 1;
      assert ([syn] + run)[..n + 1] == [syn] + run[..n];
      FeedAllAfterSyn(isn, run[..n]);
    }
  }

  lemma OpeningAppendsNothing(isn: u32)
    ensures R.Feed(R.FRESH_RX, R.Segment(isn, true, [])).appended == []
  {
  }

  lemma {:induction false} ConcatSplits(blocks: C.Blocks, f: nat) returns (rest: seq<byte>)
    requires f <= |blocks|
    ensures C.Concat(blocks) == C.Concat(blocks[..f]) + rest
    decreases |blocks|
  {
    var n := |blocks| - 1;
    if f == |blocks| {
      rest := [];
      assert blocks[..f] == blocks;
    } else {
      assert blocks[..n][..f] == blocks[..f];
      rest := ConcatSplits(blocks[..n], f);
      rest := rest + blocks[n];
    }
  }

  /** What one direction sends: a stream in fixed blocks, and the order in
      which its SYN, its blocks and bare acknowledgements were captured. */
  datatype Capture = Capture(blocks: C.Blocks, isn: u32, schedule: seq<C.Arrival>)

  ghost predicate Captures(run: seq<TcpSegment>, pgPort: nat, direction: Traffic, t: Capture) {
    && C.Proper(t.blocks) && C.Indexed(t.blocks, t.schedule) && C.InWindow(t.blocks, t.schedule)
    && SegmentsOf(run, pgPort, direction) ==
         [R.Segment(t.isn, true, [])] + C.Segments(t.blocks, t.isn, t.schedule)
  }

  /** The stream of the blocks that arrived without a gap. */
  function Arrived(t: Capture): seq<byte> {
    C.Concat(t.blocks[..C.Front(t.blocks, C.Received(t.schedule))])
  }

  /** What reassembly makes of one direction of a connection's segments. */
  function Delivered(run: seq<TcpSegment>, pgPort: nat, direction: Traffic): seq<byte> {
    R.FeedAll(R.FRESH_RX, SegmentsOf(run, pgPort, direction)).appended
  }

  lemma DeliversArrived(run: seq<TcpSegment>, pgPort: nat, direction: Traffic, t: Capture) returns (rest: seq<byte>)
    requires Captures(run, pgPort, direction, t)
    ensures Delivered(run, pgPort, direction) == Arrived(t)
    ensures C.Concat(t.blocks) == Arrived(t) + rest
  {
    hide R.FeedAll, C.Concat, C.Front, C.InWindow, C.Keyed, C.Segments;
    FeedAllAfterSyn(t.isn, C.Segments(t.blocks, t.isn, t.schedule));
    C.DeliversTheReceivedFront(t.blocks, t.isn, t.schedule);
    rest := ConcatSplits(t.blocks, C.Front(t.blocks, C.Received(t.schedule)));
  }

  /** Whatever the interleaving of the two directions and the order,
      duplication and acknowledgements within each: the records emitted, the
      messages and bytes counted and the decode state reached are those of one
      drain of the blocks that arrived without a gap. */
  lemma ScheduleDoesNotMatter(client: Endpoint, run: seq<TcpSegment>, pgPort: nat, sent: Capture, replied: Capture)
    requires Captures(run, pgPort, In, sent) && Captures(run, pgPort, Out, replied)
    requires Clean(Drain(Append(NewDecoder(Client, client), C.Concat(sent.blocks))))
    requires Clean(Drain(Append(NewDecoder(Server, client), C.Concat(replied.blocks))))
    ensures var r, n := RunConn(NewConn(client, 0), run, pgPort), CountedOver(NewConn(client, 0), run, pgPort);
      var c := Drain(Append(NewDecoder(Client, client), Arrived(sent)));
      var s := Drain(Append(NewDecoder(Server, client), Arrived(replied)));
      && !r.conn.encrypted
      && r.conn.client.dec == c.dir && r.conn.server.dec == s.dir
      && OutputOf(r.out, Client) == c.out && OutputOf(r.out, Server) == s.out
      && n == Totals(c.outcome.msgs, s.outcome.msgs, c.outcome.bytes, s.outcome.bytes)
  {
    hide Drain, Append, R.FeedAll, C.Concat, OutputOf, NewDecoder, Arrived, Captures, Clean, Ready;
    var unsent := DeliversArrived(run, pgPort, In, sent);
    var unreplied := DeliversArrived(run, pgPort, Out, replied);
    CleanPrefix(NewDecoder(Client, client), Arrived(sent), unsent);
    CleanPrefix(NewDecoder(Server, client), Arrived(replied), unreplied);
    NewIsReady(client);
    DecodesAsTwoDrains(NewConn(client, 0), run, pgPort);
  }

  /** Two captures of the same two streams, both complete, decode and count the same. */
  lemma CompleteCapturesAgree(client: Endpoint, pgPort: nat, one: seq<TcpSegment>, other: seq<TcpSegment>,
                              sent: C.Blocks, replied: C.Blocks, sent1: Capture, replied1: Capture,
                              sent2: Capture, replied2: Capture)
    requires sent1.blocks == sent2.blocks == sent && replied1.blocks == replied2.blocks == replied
    requires Captures(one, pgPort, In, sent1) && Captures(one, pgPort, Out, replied1)
    requires Captures(other, pgPort, In, sent2) && Captures(other, pgPort, Out, replied2)
    requires Clean(Drain(Append(NewDecoder(Client, client), C.Concat(sent))))
    requires Clean(Drain(Append(NewDecoder(Server, client), C.Concat(replied))))
    requires forall k :: 0 <= k < |sent| ==> k in C.Received(sent1.schedule) && k in C.Received(sent2.schedule)
    requires forall k :: 0 <= k < |replied| ==> k in C.Received(replied1.schedule) && k in C.Received(replied2.schedule)
    ensures var a, b := RunConn(NewConn(client, 0), one, pgPort), RunConn(NewConn(client, 0), other, pgPort);
      && OutputOf(a.out, Client) == OutputOf(b.out, Client)
      && OutputOf(a.out, Server) == OutputOf(b.out, Server)
    ensures CountedOver(NewConn(client, 0), one, pgPort) == CountedOver(NewConn(client, 0), other, pgPort)
  {
    hide Drain, Append, C.Concat, NewConn, OutputOf, NewDecoder, Captures, Clean, RunConn, CountedOver;
    ScheduleDoesNotMatter(client, one, pgPort, sent1, replied1);
    ScheduleDoesNotMatter(client, other, pgPort, sent2, replied2);
    assert C.Front(sent, C.Received(sent1.schedule)) == C.Front(sent, C.Received(sent2.schedule)) == |sent|;
    assert C.Front(replied, C.Received(replied1.schedule)) == C.Front(replied, C.Received(replied2.schedule))
      == |replied|;
  }
}
