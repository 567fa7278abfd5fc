/** One direction of a connection as the object the tap updates in place: the
    reassembly half fed by segments and the decode half drained into messages. */
module Directions {
  import opened Options
  import opened Bytes
  import opened Endpoints
  import opened SequenceSpace
  import opened Rows
  import opened PgWire
  import opened Decode
  import Reassembly

  class Direction {
    const role: Role
    const client: Endpoint
    var nextSeq: Option<u32>
    var ooo: map<u32, seq<byte>>
    var rxbuf: seq<byte>
    var ctx: DecodeContext
    var rowDesc: Option<seq<FieldSummary>>

    function Rx(): Reassembly.Rx
      reads this
    {
      Reassembly.Rx(nextSeq, ooo)
    }

    function Decoding(): Decoder
      reads this
    {
      Decoder(role, client, rxbuf, ctx, rowDesc)
    }

    constructor (role: Role, client: Endpoint)
      ensures Rx() == Reassembly.FRESH_RX && Decoding() == NewDecoder(role, client)
    {
      this.role, this.client := role, client;
      nextSeq, ooo, rxbuf, ctx, rowDesc := None, map[], [], DEFAULT_CONTEXT, None;
    }

    /** For plaintext that was already in order and past negotiation. */
    constructor ForDecoding(role: Role, client: Endpoint)
      ensures Rx() == Reassembly.FRESH_RX
      ensures Decoding() == NewDecoder(role, client).(ctx := DEFAULT_CONTEXT.(awaitingFrontendSsl := false))
    {
      this.role, this.client := role, client;
      nextSeq, ooo, rxbuf, rowDesc := None, map[], [], None;
      ctx := DEFAULT_CONTEXT.(awaitingFrontendSsl := false);
    }

    method Feed(seqno: u32, syn: bool, data: seq<byte>)
      modifies `nextSeq, `ooo, `rxbuf
      ensures var f := Reassembly.Feed(old(Rx()), Reassembly.Segment(seqno, syn, data));
        Rx() == f.rx && rxbuf == old(rxbuf) + f.appended
    {
      hide Wrap, SignedDistance, Reassembly.DrainAhead;
      if syn {
        nextSeq := Some(Wrap(seqno + 1));
      }
      if data == [] {
        return;
      }
      if nextSeq.None? {
        nextSeq := Some(seqno); // no SYN was seen
      }
      var next := nextSeq.value;
      var diff := SignedDistance(seqno, next);
      if diff > 0 {
        ooo := ooo[seqno := data];
        return;
      }
      var cur: u32, chunk := seqno, data;
      if diff < 0 {
        var skip := Reassembly.Skip(diff);
        if skip >= |chunk| {
          return; // nothing new in it
        }
        chunk := chunk[skip..];
        cur := Wrap(cur + skip);
      }
      WrapOfNumber(seqno);
      assert diff == 0 ==> data[0..] == data;
      rxbuf := rxbuf + chunk;
      var adv := Wrap(cur + |chunk|);
      DrainAhead(adv);
    }

    /** Append buffered segments as long as they follow on, then move on. */
    method DrainAhead(from: u32)
      modifies `nextSeq, `ooo, `rxbuf
      ensures var d := Reassembly.DrainAhead(old(ooo), from);
        nextSeq == Some(d.adv) && ooo == d.ooo && rxbuf == old(rxbuf) + d.bytes
    {
      var adv: u32 := from;
      ghost var d := Reassembly.DrainAhead(ooo, from);
      while adv in ooo
        invariant var rest := Reassembly.DrainAhead(ooo, adv);
          rest.ooo == d.ooo && rest.adv == d.adv && rxbuf + rest.bytes == old(rxbuf) + d.bytes
        decreases ooo.Keys
      {
        var b := ooo[adv];
        ghost var rest := Reassembly.DrainAhead(ooo - {adv}, Wrap(adv + |b|));
        assert rxbuf + (b + rest.bytes) == rxbuf + b + rest.bytes;
        ooo := ooo - {adv};
        rxbuf := rxbuf + b;
        adv := Wrap(adv + |b|);
      }
      nextSeq := Some(adv);
    }
  }

  /** Handles one frontend message; `more` is false to stop draining. */
  method HandleFrontend(dir: Direction, msg: Frontend, outcome: DrainOutcome, consumed: nat)
      returns (outcome': DrainOutcome, out: seq<Output>, more: bool)
    modifies dir`ctx
    ensures var h := Decode.HandleFrontend(old(dir.Decoding()), msg, consumed);
      dir.Decoding() == h.dir && outcome' == Combine(outcome, h.outcome) && out == h.out && more == h.more
  {
    outcome', more := outcome, true;
    out := [];
    if !msg.NoNegotiation? {
      outcome' := outcome'.(msgs := outcome'.msgs + 1, bytes := outcome'.bytes + consumed);
      out := [Message(dir.client, dir.role, FromClient(msg))];
    }
    match msg {
      case NoNegotiation =>
        dir.ctx := dir.ctx.(awaitingFrontendSsl := false);
      case SslRequest =>
        dir.ctx := dir.ctx.(awaitingFrontendSsl := false);
        outcome' := outcome'.(wait := SslWait);
        more := false;
      case GssEncRequest =>
        dir.ctx := dir.ctx.(awaitingFrontendSsl := false);
        outcome' := outcome'.(wait := GssWait);
        more := false;
      case Startup(_) =>
        dir.ctx := dir.ctx.(awaitingFrontendStartup := false);
      case CancelRequest(_) =>
      case Command(_, _) =>
    }
  }

  method HandleBackend(dir: Direction, msg: Backend, outcome: DrainOutcome, consumed: nat)
      returns (outcome': DrainOutcome, out: seq<Output>)
    modifies dir`ctx, dir`rowDesc
    ensures var h := Decode.HandleBackend(old(dir.Decoding()), msg, consumed);
      dir.Decoding() == h.dir && outcome' == Combine(outcome, h.outcome) && out == h.out && h.more
  {
    outcome' := outcome.(msgs := outcome.msgs + 1, bytes := outcome.bytes + consumed);
    out := [Message(dir.client, dir.role, FromServer(msg))];
    match msg {
      case RowDescription(fields) =>
        dir.rowDesc := Some(fields);
      case NoData =>
        dir.rowDesc := None;
      case DataRow(count, data) =>
        var columns := DataRowColumns(count, data, dir.rowDesc);
        out := [Message(dir.client, dir.role, Row(columns, dir.rowDesc.Some?))];
      case SslResponse(answer) =>
        dir.ctx := dir.ctx.(awaitingBackendSsl := false);
        if answer.Accept? {
          outcome' := outcome'.(encrypted := true);
        }
      case GssEncResponse(answer) =>
        dir.ctx := dir.ctx.(awaitingBackendGss := false);
        if answer.Accept? {
          outcome' := outcome'.(encrypted := true);
        }
      case Reply(_, _) =>
    }
  }

  /** Reports and drops a buffer that is out of sync with the protocol. */
  method DecodeError(dir: Direction) returns (out: seq<Output>)
    modifies dir`rxbuf
    ensures dir.rxbuf == [] && out == [LostBytes(dir.role, |old(dir.rxbuf)|)]
  {
    out := [LostBytes(dir.role, |dir.rxbuf|)];
    dir.rxbuf := [];
  }

  /** A drain's result on top of an outcome and output so far. */
  ghost function OnTop(outcome: DrainOutcome, out: seq<Output>, r: Drained): (Decoder, DrainOutcome, seq<Output>) {
    (r.dir, Combine(outcome, r.outcome), out + r.out)
  }

  lemma OnTopOfTurn(d: Decoder, outcome: DrainOutcome, out: seq<Output>)
    ensures match DrainStep(d)
      case Idle => OnTop(outcome, out, Drain(d)) == (d, outcome, out)
      case Failed => OnTop(outcome, out, Drain(d)) == (d.(rxbuf := []), outcome, out + [LostBytes(d.role, |d.rxbuf|)])
      case Took(h) =>
        if h.more then
          OnTop(outcome, out, Drain(d)) == OnTop(Combine(outcome, h.outcome), out + h.out, Drain(h.dir))
        else OnTop(outcome, out, Drain(d)) == (h.dir, Combine(outcome, h.outcome), out + h.out)
  {
    hide DrainStep;
    assert out + [] == out;
    if DrainStep(d).Took? {
      var h := DrainStep(d).handled;
      var rest := if h.more then Drain(h.dir) else Nothing(h.dir);
      assert Drain(d) == Then(h, rest);
      assert out + (h.out + rest.out) == out + h.out + rest.out && out + h.out + [] == out + h.out;
    }
  }

  /** Decodes messages from the buffer until it runs dry, errs, or pauses. */
  method DrainDirection(dir: Direction, outcome: DrainOutcome) returns (outcome': DrainOutcome, out: seq<Output>)
    modifies dir`rxbuf, dir`ctx, dir`rowDesc
    ensures outcome.encrypted ==> dir.Decoding() == old(dir.Decoding()) && outcome' == outcome && out == []
    ensures !outcome.encrypted ==>
              var r := Drain(old(dir.Decoding()));
              dir.Decoding() == r.dir && outcome' == Combine(outcome, r.outcome) && out == r.out
  {
    outcome', out := outcome, [];
    if outcome.encrypted {
      return;
    }
    ghost var whole := OnTop(outcome, [], Drain(dir.Decoding()));
    assert whole.2 == Drain(dir.Decoding()).out;
    hide DrainStep, Drain, Combine, OnTop;
    while true
      invariant OnTop(outcome', out, Drain(dir.Decoding())) == whole
      decreases |dir.rxbuf|, if dir.ctx.awaitingFrontendSsl then 1 else 0
    {
      OnTopOfTurn(dir.Decoding(), outcome', out);
      var stop, emitted;
      stop, outcome', emitted := DrainOnce(dir, outcome');
      out := out + emitted;
      if stop {
        return;
      }
    }
  }

  /** One turn of the drain loop: take a message from the head of the buffer. */
  method DrainOnce(dir: Direction, outcome: DrainOutcome) returns (stop: bool, outcome': DrainOutcome, out: seq<Output>)
    modifies dir`rxbuf, dir`ctx, dir`rowDesc
    ensures match DrainStep(old(dir.Decoding()))
      case Idle => stop && dir.Decoding() == old(dir.Decoding()) && outcome' == outcome && out == []
      case Failed => stop && dir.Decoding() == old(dir.Decoding()).(rxbuf := [])
                     && outcome' == outcome && out == [LostBytes(dir.role, |old(dir.rxbuf)|)]
      case Took(h) => stop == !h.more && dir.Decoding() == h.dir
                      && outcome' == Combine(outcome, h.outcome) && out == h.out
  {
    hide DecodeFrontend, DecodeBackend, Columns;
    stop, outcome', out := true, outcome, [];
    if dir.role.Client? {
      match DecodeFrontend(dir.rxbuf, dir.ctx) {
        case NeedMore =>
        case Malformed =>
          out := DecodeError(dir);
        case Parsed(msg, consumed) =>
          dir.rxbuf := dir.rxbuf[consumed..];
          var more;
          outcome', out, more := HandleFrontend(dir, msg, outcome, consumed);
          stop := !more;
      }
    } else {
      match DecodeBackend(dir.rxbuf, dir.ctx) {
        case NeedMore =>
        case Malformed =>
          out := DecodeError(dir);
        case Parsed(msg, consumed) =>
          dir.rxbuf := dir.rxbuf[consumed..];
          outcome', out := HandleBackend(dir, msg, outcome, consumed);
          stop := false;
      }
    }
  }
}
