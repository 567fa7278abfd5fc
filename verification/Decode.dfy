/** Draining one direction's buffer into decoded messages, as functions of the
    decode half of a direction, and what chunked draining preserves. */
module Decode {
  import opened Options
  import opened Bytes
  import opened Endpoints
  import opened Rows
  import opened PgWire

  datatype Role = Client | Server

  datatype Event =
    | FromClient(request: Frontend)
    | FromServer(reply: Backend)
    | Row(columns: seq<DataColumn>, labelled: bool)

  /** A decoded message, or the line that reports bytes lost to a decode error. */
  datatype Output = Message(client: Endpoint, role: Role, event: Event) | LostBytes(role: Role, lost: nat)

  /** Which one-byte answer the server direction must be armed for. */
  datatype ServerWait = NoWait | SslWait | GssWait

  datatype DrainOutcome = DrainOutcome(wait: ServerWait, encrypted: bool, msgs: nat, bytes: nat)

  const NO_OUTCOME := DrainOutcome(NoWait, false, 0, 0)

  /** The decode half of a direction. */
  datatype Decoder = Decoder(
    role: Role,
    client: Endpoint,
    rxbuf: seq<byte>,
    ctx: DecodeContext,
    rowDesc: Option<seq<FieldSummary>>)

  function NewDecoder(role: Role, client: Endpoint): Decoder {
    Decoder(role, client, [], DEFAULT_CONTEXT, None)
  }

  function Append(d: Decoder, more: seq<byte>): Decoder {
    d.(rxbuf := d.rxbuf + more)
  }

  /** One handled message: the new state, what it adds to the outcome and to
      the output, and whether draining goes on. */
  datatype Handled = Handled(dir: Decoder, outcome: DrainOutcome, out: seq<Output>, more: bool)

  function HandleFrontend(d: Decoder, msg: Frontend, consumed: nat): Handled {
    var emitted := [Message(d.client, d.role, FromClient(msg))];
    match msg
    case NoNegotiation =>
      Handled(d.(ctx := d.ctx.(awaitingFrontendSsl := false)), NO_OUTCOME, [], true)
    case SslRequest =>
      Handled(d.(ctx := d.ctx.(awaitingFrontendSsl := false)), DrainOutcome(SslWait, false, 1, consumed), emitted,
        false)
    case GssEncRequest =>
      Handled(d.(ctx := d.ctx.(awaitingFrontendSsl := false)), DrainOutcome(GssWait, false, 1, consumed), emitted,
        false)
    case Startup(_) =>
      Handled(d.(ctx := d.ctx.(awaitingFrontendStartup := false)), DrainOutcome(NoWait, false, 1, consumed), emitted,
        true)
    case CancelRequest(_) =>
      Handled(d, DrainOutcome(NoWait, false, 1, consumed), emitted, true)
    case Command(_, _) =>
      Handled(d, DrainOutcome(NoWait, false, 1, consumed), emitted, true)
  }

  function HandleBackend(d: Decoder, msg: Backend, consumed: nat): Handled {
    var plain := DrainOutcome(NoWait, false, 1, consumed);
    var emitted := [Message(d.client, d.role, FromServer(msg))];
    match msg
    case RowDescription(fields) => Handled(d.(rowDesc := Some(fields)), plain, emitted, true)
    case NoData => Handled(d.(rowDesc := None), plain, emitted, true)
    case DataRow(count, data) =>
      var columns := Columns(data, d.rowDesc, 0, if count < 0 then 0 else count);
      Handled(d, plain, [Message(d.client, d.role, Row(columns, d.rowDesc.Some?))], true)
    case SslResponse(answer) =>
      Handled(d.(ctx := d.ctx.(awaitingBackendSsl := false)), plain.(encrypted := answer.Accept?), emitted, true)
    case GssEncResponse(answer) =>
      Handled(d.(ctx := d.ctx.(awaitingBackendGss := false)), plain.(encrypted := answer.Accept?), emitted, true)
    case Reply(_, _) => Handled(d, plain, emitted, true)
  }

  /** The outcome after `first` and then `then`. */
  function Combine(first: DrainOutcome, later: DrainOutcome): DrainOutcome {
    DrainOutcome(
      if later.wait.NoWait? then first.wait else later.wait,
      first.encrypted || later.encrypted,
      first.msgs + later.msgs,
      first.bytes + later.bytes)
  }

  /** `None`, a handled message, or a decode error at the head of the buffer. */
  datatype Step = Idle | Took(handled: Handled) | Failed

  function DrainStep(d: Decoder): (s: Step)
    ensures s.Took? ==>
              var d' := s.handled.dir;
              |d'.rxbuf| < |d.rxbuf| ||
              (d'.rxbuf == d.rxbuf && d.ctx.awaitingFrontendSsl && !d'.ctx.awaitingFrontendSsl)
  {
    if d.role.Client? then
      match DecodeFrontend(d.rxbuf, d.ctx)
      case NeedMore => Idle
      case Malformed => Failed
      case Parsed(msg, n) => Took(HandleFrontend(d.(rxbuf := d.rxbuf[n..]), msg, n))
    else
      match DecodeBackend(d.rxbuf, d.ctx)
      case NeedMore => Idle
      case Malformed => Failed
      case Parsed(msg, n) => Took(HandleBackend(d.(rxbuf := d.rxbuf[n..]), msg, n))
  }

  datatype Drained = Drained(dir: Decoder, outcome: DrainOutcome, out: seq<Output>, lost: nat, failed: bool)

  function Nothing(d: Decoder): Drained {
    Drained(d, NO_OUTCOME, [], 0, false)
  }

  /** Result of handling `h` and then draining on to `rest`. */
  function Then(h: Handled, rest: Drained): Drained {
    Drained(rest.dir, Combine(h.outcome, rest.outcome), h.out + rest.out, rest.lost, rest.failed)
  }

  function Drain(d: Decoder): Drained
    decreases |d.rxbuf|, if d.ctx.awaitingFrontendSsl then 1 else 0
  {
    match DrainStep(d)
    case Idle => Nothing(d)
    case Failed =>
      Drained(d.(rxbuf := []), NO_OUTCOME, [LostBytes(d.role, |d.rxbuf|)], |d.rxbuf|, true)
    case Took(h) =>
      Then(h, if h.more then Drain(h.dir) else Nothing(h.dir))
  }

  // ----- conservation -----

  function CountMessages(out: seq<Output>): nat {
    if out == [] then 0 else CountMessages(out[..|out| - 1]) + if out[|out| - 1].Message? then 1 else 0
  }

  lemma {:induction false} CountMessagesConcat(a: seq<Output>, b: seq<Output>)
    ensures CountMessages(a + b) == CountMessages(a) + CountMessages(b)
  {
    if b == [] {
      assert a + b == a;
    } else {
      assert (a + b)[..|a + b| - 1] == a + b[..|b| - 1];
      CountMessagesConcat(a, b[..|b| - 1]);
    }
  }

  lemma StepConserves(d: Decoder)
    ensures DrainStep(d).Took? ==>
              var h := DrainStep(d).handled;
              h.outcome.bytes + |h.dir.rxbuf| == |d.rxbuf| && h.outcome.msgs == CountMessages(h.out)
  {
    hide DecodeFrontend, DecodeBackend, Columns;
  }

  /** Every byte is counted, still buffered, or reported lost; every counted
      message is one emitted message record, and the other way round. */
  lemma {:induction false} DrainConserves(d: Decoder)
    ensures var r := Drain(d);
      && r.outcome.bytes + |r.dir.rxbuf| + r.lost == |d.rxbuf|
      && r.outcome.msgs == CountMessages(r.out)
      && (r.lost > 0 ==> r.failed && r.dir.rxbuf == [])
    decreases |d.rxbuf|, if d.ctx.awaitingFrontendSsl then 1 else 0
  {
    hide DrainStep;
    StepConserves(d);
    match DrainStep(d)
    case Idle =>
    case Failed =>
    case Took(h) =>
      if h.more {
        DrainConserves(h.dir);
        CountMessagesConcat(h.out, Drain(h.dir).out);
      } else {
        assert h.out + [] == h.out;
      }
  }

  // ----- chunking -----

  /** No decode error and no request that pauses the client. */
  predicate Clean(r: Drained) {
    !r.failed && r.outcome.wait.NoWait?
  }

  lemma StepIsStable(d: Decoder, more: seq<byte>)
    requires !DrainStep(d).Idle?
    ensures DrainStep(d).Failed? ==> DrainStep(Append(d, more)).Failed?
    ensures DrainStep(d).Took? ==>
              var h := DrainStep(d).handled;
              DrainStep(Append(d, more)) == Took(h.(dir := Append(h.dir, more)))
  {
    hide DecodeFrontend, DecodeBackend, Columns;
    if d.role.Client? {
      FrontendIsStable(d.rxbuf, d.rxbuf + more, d.ctx);
      var r := DecodeFrontend(d.rxbuf, d.ctx);
      assert r.Parsed? ==> (d.rxbuf + more)[r.consumed..] == d.rxbuf[r.consumed..] + more;
    } else {
      BackendIsStable(d.rxbuf, d.rxbuf + more, d.ctx);
      var r := DecodeBackend(d.rxbuf, d.ctx);
      assert r.Parsed? ==> (d.rxbuf + more)[r.consumed..] == d.rxbuf[r.consumed..] + more;
    }
  }

  /** Draining `first` and then, from where it stopped, `second`. */
  function After(first: Drained, second: Drained): Drained {
    Drained(second.dir, Combine(first.outcome, second.outcome), first.out + second.out,
            first.lost + second.lost, first.failed || second.failed)
  }

  lemma DrainUnfold(d: Decoder)
    ensures DrainStep(d).Idle? ==> Drain(d) == Nothing(d)
    ensures DrainStep(d).Failed? ==> Drain(d).failed
    ensures DrainStep(d).Took? ==>
              var h := DrainStep(d).handled;
              Drain(d) == Then(h, if h.more then Drain(h.dir) else Nothing(h.dir))
  {
    hide DrainStep;
  }

  lemma ThenAfter(h: Handled, first: Drained, second: Drained)
    ensures Then(h, After(first, second)) == After(Then(h, first), second)
  {
    assert h.out + (first.out + second.out) == h.out + first.out + second.out;
  }

  lemma NothingAfter(d: Decoder, r: Drained)
    ensures After(Nothing(d), r) == r && After(r, Nothing(r.dir)) == r
  {
    assert [] + r.out == r.out && r.out + [] == r.out;
  }

  /** A buffer that drains cleanly in one go drains to the same state, output
      and counts when its tail arrives after a first drain. */
  lemma {:induction false} DrainSplit(d: Decoder, more: seq<byte>)
    requires Clean(Drain(Append(d, more)))
    ensures var first := Drain(d);
      && Clean(first)
      && Drain(Append(d, more)) == After(first, Drain(Append(first.dir, more)))
    decreases |d.rxbuf|, if d.ctx.awaitingFrontendSsl then 1 else 0
  {
    hide DrainStep, Drain, Append;
    DrainUnfold(d);
    DrainUnfold(Append(d, more));
    if DrainStep(d).Idle? {
      NothingAfter(d, Drain(Append(d, more)));
    } else {
      StepIsStable(d, more);
      var h := DrainStep(d).handled;
      if h.more {
        DrainSplit(h.dir, more);
        var first := Drain(h.dir);
        ThenAfter(h, first, Drain(Append(first.dir, more)));
      } else {
        StopsOnlyOnRequest(d);
      }
    }
  }

  lemma StopsOnlyOnRequest(d: Decoder)
    requires DrainStep(d).Took? && !DrainStep(d).handled.more
    ensures !DrainStep(d).handled.outcome.wait.NoWait?
  {
    hide DecodeFrontend, DecodeBackend, Columns;
  }

  /** Draining after each chunk, as happens once per segment. */
  function DrainChunks(d: Decoder, chunks: seq<seq<byte>>): Drained {
    if chunks == [] then
      Nothing(d)
    else
      var before := DrainChunks(d, chunks[..|chunks| - 1]);
      After(before, Drain(Append(before.dir, chunks[|chunks| - 1])))
  }

  function Flatten(chunks: seq<seq<byte>>): seq<byte> {
    if chunks == [] then [] else Flatten(chunks[..|chunks| - 1]) + chunks[|chunks| - 1]
  }

  lemma AppendAppend(d: Decoder, a: seq<byte>, b: seq<byte>)
    ensures Append(Append(d, a), b) == Append(d, a + b)
  {
    assert d.rxbuf + a + b == d.rxbuf + (a + b);
  }

  /** Whatever the chunking, a cleanly decodable stream decodes to what one
      drain of the whole of it gives. */
  lemma {:induction false} ChunksDrainAsOne(d: Decoder, chunks: seq<seq<byte>>)
    requires DrainStep(d).Idle? && Clean(Drain(Append(d, Flatten(chunks))))
    ensures DrainChunks(d, chunks) == Drain(Append(d, Flatten(chunks)))
  {
    hide DrainStep, Drain, Clean;
    if chunks == [] {
      DrainUnfold(d);
      assert d.rxbuf + [] == d.rxbuf;
    } else {
      var before, last := chunks[..|chunks| - 1], chunks[|chunks| - 1];
      var d' := Append(d, Flatten(before));
      AppendAppend(d, Flatten(before), last);
      DrainSplit(d', last);
      ChunksDrainAsOne(d, before);
    }
  }
}
