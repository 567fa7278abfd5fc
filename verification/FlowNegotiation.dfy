/** SSL and GSS negotiation over the whole life of a connection, under any
    segments whatever. */
module FlowNegotiation {
  import opened Endpoints
  import opened Segments
  import opened PgWire
  import opened Decode
  import opened MetricsModel
  import opened FlowModel
  import Reassembly

  /** A connection after a run of its segments, with everything it emitted. */
  datatype ConnRun = ConnRun(conn: ConnState, out: seq<Output>)

  function RunConn(c: ConnState, run: seq<TcpSegment>, pgPort: nat): ConnRun {
    if run == [] then
      ConnRun(c, [])
    else
      var before := RunConn(c, run[..|run| - 1], pgPort);
      var h := HandleConn(before.conn, run[|run| - 1], pgPort);
      ConnRun(h.conn, before.out + h.out)
  }

  predicate IsRequest(o: Output, gss: bool) {
    o.Message? && o.event.FromClient? && if gss then o.event.request.GssEncRequest? else o.event.request.SslRequest?
  }

  predicate IsAnswer(o: Output, gss: bool) {
    o.Message? && o.event.FromServer? && if gss then o.event.reply.GssEncResponse? else o.event.reply.SslResponse?
  }

  predicate IsAccept(o: Output, gss: bool) {
    IsAnswer(o, gss) && o.event.reply.answer.Accept?
  }

  function CountRequests(out: seq<Output>): nat {
    if out == [] then 0
    else
      var o := out[|out| - 1];
      CountRequests(out[..|out| - 1]) + if IsRequest(o, false) || IsRequest(o, true) then 1 else 0
  }

  function CountAnswers(out: seq<Output>): nat {
    if out == [] then 0
    else
      var o := out[|out| - 1];
      CountAnswers(out[..|out| - 1]) + if IsAnswer(o, false) || IsAnswer(o, true) then 1 else 0
  }

  lemma {:induction false} CountsConcat(a: seq<Output>, b: seq<Output>)
    ensures CountRequests(a + b) == CountRequests(a) + CountRequests(b)
    ensures CountAnswers(a + b) == CountAnswers(a) + CountAnswers(b)
  {
    if b == [] {
      assert a + b == a;
    } else {
      assert (a + b)[..|a + b| - 1] == a + b[..|b| - 1];
      CountsConcat(a, b[..|b| - 1]);
    }
  }

  ghost predicate HasRequest(out: seq<Output>, gss: bool) {
    exists o :: o in out && IsRequest(o, gss)
  }

  ghost predicate HasAccept(out: seq<Output>, gss: bool) {
    exists o :: o in out && IsAccept(o, gss)
  }

  lemma OneOutput(o: Output)
    ensures CountRequests([o]) == if IsRequest(o, false) || IsRequest(o, true) then 1 else 0
    ensures CountAnswers([o]) == if IsAnswer(o, false) || IsAnswer(o, true) then 1 else 0
    ensures forall gss :: HasRequest([o], gss) == IsRequest(o, gss)
    ensures forall gss :: HasAccept([o], gss) == IsAccept(o, gss)
  {
    assert [o][..0] == [];
    assert o in [o];
  }

  lemma NoOutput()
    ensures CountRequests([]) == CountAnswers([]) == 0
    ensures forall gss :: !HasRequest([], gss) && !HasAccept([], gss)
  {
  }

  lemma HasConcat(a: seq<Output>, b: seq<Output>)
    ensures forall gss :: HasRequest(a + b, gss) <==> HasRequest(a, gss) || HasRequest(b, gss)
    ensures forall gss :: HasAccept(a + b, gss) <==> HasAccept(a, gss) || HasAccept(b, gss)
  {
    assert forall o :: o in a + b <==> o in a || o in b;
  }

  predicate Awaits(ctx: DecodeContext, gss: bool) {
    if gss then ctx.awaitingBackendGss else ctx.awaitingBackendSsl
  }

  /** Server answers still expected. */
  function Pending(ctx: DecodeContext): nat {
    if Awaits(ctx, false) || Awaits(ctx, true) then 1 else 0
  }

  // ----- one drain -----

  /** What draining the client side says about requests. */
  ghost predicate ClientTalk(d: Decoder, r: Drained) {
    && r.dir.role == d.role && !r.outcome.encrypted
    && r.dir.ctx == d.ctx.(awaitingFrontendSsl := r.dir.ctx.awaitingFrontendSsl,
                           awaitingFrontendStartup := r.dir.ctx.awaitingFrontendStartup)
    && (r.dir.ctx.awaitingFrontendSsl ==> d.ctx.awaitingFrontendSsl && r.outcome.wait.NoWait?)
    && (!r.outcome.wait.NoWait? ==> d.ctx.awaitingFrontendSsl)
    && CountAnswers(r.out) == 0
    && CountRequests(r.out) == (if r.outcome.wait.NoWait? then 0 else 1)
    && (forall gss :: HasRequest(r.out, gss) <==> r.outcome.wait == if gss then GssWait else SslWait)
  }

  lemma ClientStepTalk(d: Decoder)
    requires d.role.Client?
    ensures DrainStep(d).Took? ==>
              var h := DrainStep(d).handled;
              && ClientTalk(d, Drained(h.dir, h.outcome, h.out, 0, false))
              && (!h.more <==> !h.outcome.wait.NoWait?)
  {
    hide DecodeFrontend, CountRequests, CountAnswers, HasRequest;
    if DrainStep(d).Took? {
      var h := DrainStep(d).handled;
      if h.out == [] {
        NoOutput();
      } else {
        OneOutput(h.out[0]);
        assert h.out == [h.out[0]];
      }
    }
  }

  lemma {:induction false} ClientDrainTalk(d: Decoder)
    requires d.role.Client?
    ensures ClientTalk(d, Drain(d))
    decreases |d.rxbuf|, if d.ctx.awaitingFrontendSsl then 1 else 0
  {
    hide DrainStep, CountRequests, CountAnswers, HasRequest, HasAccept;
    match DrainStep(d)
    case Idle =>
      NoOutput();
    case Failed =>
      OneOutput(LostBytes(d.role, |d.rxbuf|));
    case Took(h) =>
      ClientStepTalk(d);
      if h.more {
        ClientDrainTalk(h.dir);
        CountsConcat(h.out, Drain(h.dir).out);
        HasConcat(h.out, Drain(h.dir).out);
      } else {
        assert h.out + [] == h.out;
      }
  }

  /** What draining the server side says about answers. */
  ghost predicate ServerTalk(d: Decoder, r: Drained) {
    && r.dir.role == d.role && r.outcome.wait.NoWait?
    && CountRequests(r.out) == 0
    && CountAnswers(r.out) + Pending(r.dir.ctx) == Pending(d.ctx)
    && (forall gss :: Awaits(r.dir.ctx, gss) ==> Awaits(d.ctx, gss))
    && (forall gss :: HasAccept(r.out, gss) ==> Awaits(d.ctx, gss))
    && (r.outcome.encrypted <==> HasAccept(r.out, false) || HasAccept(r.out, true))
  }

  predicate OneAtMost(ctx: DecodeContext) {
    !(Awaits(ctx, false) && Awaits(ctx, true))
  }

  lemma ServerStepTalk(d: Decoder)
    requires d.role.Server? && OneAtMost(d.ctx)
    ensures DrainStep(d).Took? ==>
              var h := DrainStep(d).handled;
              ServerTalk(d, Drained(h.dir, h.outcome, h.out, 0, false)) && h.more
  {
    hide DecodeBackend, CountRequests, CountAnswers, HasAccept;
    if DrainStep(d).Took? {
      var h := DrainStep(d).handled;
      OneOutput(h.out[0]);
      assert h.out == [h.out[0]];
    }
  }

  lemma {:induction false} ServerDrainTalk(d: Decoder)
    requires d.role.Server? && OneAtMost(d.ctx)
    ensures ServerTalk(d, Drain(d))
    decreases |d.rxbuf|, if d.ctx.awaitingFrontendSsl then 1 else 0
  {
    hide DrainStep, CountRequests, CountAnswers, HasRequest, HasAccept;
    match DrainStep(d)
    case Idle =>
      NoOutput();
    case Failed =>
      OneOutput(LostBytes(d.role, |d.rxbuf|));
    case Took(h) =>
      ServerStepTalk(d);
      ServerDrainTalk(h.dir);
      CountsConcat(h.out, Drain(h.dir).out);
      HasConcat(h.out, Drain(h.dir).out);
  }

  // ----- whole lives -----

  ghost predicate RequestBefore(out: seq<Output>, j: nat, gss: bool) {
    exists i :: 0 <= i < j && i < |out| && IsRequest(out[i], gss)
  }

  /** Every accepted answer comes after the client's own request of that kind. */
  ghost predicate AcceptsFollowRequests(out: seq<Output>) {
    forall j, gss :: 0 <= j < |out| && IsAccept(out[j], gss) ==> RequestBefore(out, j, gss)
  }

  /** At most one request is ever recognised, every request is answered or
      still pending, the server waits for at most one kind of answer and only
      after that request, and the connection is encrypted exactly when an
      accept was seen, which always follows the matching request. */
  ghost predicate Negotiated(c: ConnState, out: seq<Output>) {
    && c.client.dec.role.Client? && c.server.dec.role.Server?
    && OneAtMost(c.server.dec.ctx)
    && CountRequests(out) <= 1
    && (c.client.dec.ctx.awaitingFrontendSsl ==> CountRequests(out) == 0)
    && CountAnswers(out) + Pending(c.server.dec.ctx) == CountRequests(out)
    && (forall gss :: Awaits(c.server.dec.ctx, gss) ==> HasRequest(out, gss))
    && (c.encrypted <==> HasAccept(out, false) || HasAccept(out, true))
    && AcceptsFollowRequests(out)
  }

  lemma AcceptsConcat(a: seq<Output>, b: seq<Output>)
    requires AcceptsFollowRequests(a)
    requires forall gss :: HasAccept(b, gss) ==> HasRequest(a, gss)
    ensures AcceptsFollowRequests(a + b)
  {
    var out := a + b;
    forall j, gss | 0 <= j < |out| && IsAccept(out[j], gss)
      ensures RequestBefore(out, j, gss)
    {
      if j < |a| {
        assert RequestBefore(a, j, gss);
        var i :| 0 <= i < j && i < |a| && IsRequest(a[i], gss);
        assert out[i] == a[i];
      } else {
        assert b[j - |a|] in b;
        assert HasRequest(a, gss);
        var o :| o in a && IsRequest(o, gss);
        var i :| 0 <= i < |a| && a[i] == o;
        assert out[i] == o;
      }
    }
  }

  lemma ClientKeepsNegotiated(c: ConnState, out: seq<Output>, seg: TcpSegment)
    requires Negotiated(c, out) && !c.encrypted
    ensures var h := HandleClient(c, seg); Negotiated(h.conn, out + h.out)
  {
    hide CountRequests, CountAnswers, HasRequest, HasAccept, AcceptsFollowRequests, Drain, Reassembly.Feed;
    var side := FeedSide(c.client, seg);
    ClientDrainTalk(side.dec);
    var r := Drain(side.dec);
    CountsConcat(out, r.out);
    HasConcat(out, r.out);
    assert forall gss :: HasAccept(r.out, gss) ==> CountAnswers(r.out) > 0 by { AcceptIsAnswer(r.out); }
    AcceptsConcat(out, r.out);
  }

  lemma {:induction false} AcceptIsAnswer(out: seq<Output>)
    ensures forall gss :: HasAccept(out, gss) ==> CountAnswers(out) > 0
  {
    if out != [] {
      var n := |out| - 1;
      AcceptIsAnswer(out[..n]);
      OneOutput(out[n]);
      assert out == out[..n] + [out[n]];
      HasConcat(out[..n], [out[n]]);
    } else {
      NoOutput();
    }
  }

  lemma ServerKeepsNegotiated(c: ConnState, out: seq<Output>, seg: TcpSegment)
    requires Negotiated(c, out) && !c.encrypted
    ensures var h := HandleServer(c, seg); Negotiated(h.conn, out + h.out)
  {
    hide CountRequests, CountAnswers, HasRequest, HasAccept, AcceptsFollowRequests, Drain, Reassembly.Feed;
    var side := FeedSide(c.server, seg);
    ServerDrainTalk(side.dec);
    var r := Drain(side.dec);
    CountsConcat(out, r.out);
    HasConcat(out, r.out);
    AcceptsConcat(out, r.out);
  }

  /** Negotiation safety for a connection from its opening on. */
  lemma {:induction false} NegotiationSafe(client: Endpoint, id: ConnId, run: seq<TcpSegment>, pgPort: nat)
    ensures var r := RunConn(NewConn(client, id), run, pgPort); Negotiated(r.conn, r.out)
  {
    hide HandleClient, HandleServer, CountRequests, CountAnswers, HasRequest, HasAccept;
    if run == [] {
      NoOutput();
    } else {
      var before := RunConn(NewConn(client, id), run[..|run| - 1], pgPort);
      var last := run[|run| - 1];
      NegotiationSafe(client, id, run[..|run| - 1], pgPort);
      hide Negotiated;
      if before.conn.encrypted {
        assert before.out + [] == before.out;
      } else if last.dstPort == pgPort {
        ClientKeepsNegotiated(before.conn, before.out, last);
      } else {
        ServerKeepsNegotiated(before.conn, before.out, last);
      }
    }
  }

  /** After the segment that set `encrypted`, no segment changes anything. */
  lemma {:induction false} SilentOnceEncrypted(c: ConnState, run: seq<TcpSegment>, later: seq<TcpSegment>, pgPort: nat)
    requires RunConn(c, run, pgPort).conn.encrypted
    ensures RunConn(c, run + later, pgPort) == RunConn(c, run, pgPort)
  {
    hide HandleClient, HandleServer;
    if later == [] {
      assert run + later == run;
    } else {
      var n := |later| - 1;
      assert (run + later)[..|run + later| - 1] == run + later[..n];
      SilentOnceEncrypted(c, run, later[..n], pgPort);
      var r := RunConn(c, run, pgPort);
      assert r.out + [] == r.out;
    }
  }
}
