/** A concrete stand-in for the external message decoder: message framing as
    in "Message Formats" of the PostgreSQL protocol documentation, with the
    mode flags the tap keeps for it. Bodies stay opaque except where the tap
    looks inside them. */
module PgWire {
  import opened Options
  import opened Bytes
  import opened Rows

  datatype DecodeContext = DecodeContext(
    awaitingFrontendSsl: bool,
    awaitingFrontendStartup: bool,
    awaitingBackendSsl: bool,
    awaitingBackendGss: bool)

  const DEFAULT_CONTEXT := DecodeContext(true, true, false, false)

  datatype Frontend =
    | SslRequest
    | GssEncRequest
    | NoNegotiation
    | Startup(body: seq<byte>)
    | CancelRequest(body: seq<byte>)
    | Command(tag: byte, body: seq<byte>)

  datatype Answer = Accept | Refuse | Unknown

  datatype Backend =
    | SslResponse(answer: Answer)
    | GssEncResponse(answer: Answer)
    | RowDescription(fields: seq<FieldSummary>)
    | NoData
    | DataRow(fieldCount: int, data: seq<byte>)
    | Reply(tag: byte, body: seq<byte>)

  /** `Ok(None)`, `Ok(Some(msg))` with the bytes it took, or `Err`. */
  datatype Decoded<+M> = NeedMore | Parsed(msg: M, consumed: nat) | Malformed

  const SSL_REQUEST_CODE := 80877103
  const GSS_REQUEST_CODE := 80877104
  const CANCEL_REQUEST_CODE := 80877102

  // Q P B D E C S H X p d f c
  const FRONTEND_TAGS: set<byte> := {81, 80, 66, 68, 69, 67, 83, 72, 88, 112, 100, 102, 99}

  // R S K v Z C I E N A T n D t 1 2 3 s G H W d f c
  const BACKEND_TAGS: set<byte> := {82, 83, 75, 118, 90, 67, 73, 69, 78, 65, 84, 110, 68, 116,
                                    49, 50, 51, 115, 71, 72, 87, 100, 102, 99}

  function WordAt(buf: seq<byte>, at: nat): u32
    requires at + 4 <= |buf|
  {
    Be32(buf[at], buf[at + 1], buf[at + 2], buf[at + 3])
  }

  /** Type byte, then a length that counts itself, then the body. */
  function DecodeTyped(buf: seq<byte>, tags: set<byte>): (r: Decoded<(byte, seq<byte>)>)
    ensures r.Parsed? ==> 5 <= r.consumed <= |buf|
  {
    if buf == [] then NeedMore
    else if buf[0] !in tags then Malformed
    else if |buf| < 5 then NeedMore
    else
      var len := WordAt(buf, 1);
      if len < 4 then Malformed
      else if |buf| < 1 + len then NeedMore
      else Parsed((buf[0], buf[5..1 + len]), 1 + len)
  }

  function DecodeNegotiation(buf: seq<byte>): (r: Decoded<Frontend>)
    ensures r.Parsed? ==> r.msg.SslRequest? || r.msg.GssEncRequest? || r.msg.NoNegotiation?
    ensures r.Parsed? ==> r.consumed == if r.msg.NoNegotiation? then 0 else 8
    ensures r.Parsed? ==> r.consumed <= |buf|
  {
    if |buf| < 8 then NeedMore
    else if WordAt(buf, 0) == 8 && WordAt(buf, 4) == SSL_REQUEST_CODE then Parsed(SslRequest, 8)
    else if WordAt(buf, 0) == 8 && WordAt(buf, 4) == GSS_REQUEST_CODE then Parsed(GssEncRequest, 8)
    else Parsed(NoNegotiation, 0)
  }

  function DecodeStartup(buf: seq<byte>): (r: Decoded<Frontend>)
    ensures r.Parsed? ==> r.msg.Startup? || r.msg.CancelRequest?
    ensures r.Parsed? ==> 8 <= r.consumed <= |buf|
  {
    if |buf| < 4 then NeedMore
    else
      var len := WordAt(buf, 0);
      if len < 8 then Malformed
      else if |buf| < len then NeedMore
      else if len == 16 && WordAt(buf, 4) == CANCEL_REQUEST_CODE then Parsed(CancelRequest(buf[8..len]), len)
      else Parsed(Startup(buf[4..len]), len)
  }

  function DecodeFrontend(buf: seq<byte>, ctx: DecodeContext): (r: Decoded<Frontend>)
    ensures r.Parsed? ==> r.consumed <= |buf|
    ensures r.Parsed? && r.consumed == 0 ==> r.msg.NoNegotiation?
    ensures r.Parsed? && !ctx.awaitingFrontendSsl ==>
              !r.msg.SslRequest? && !r.msg.GssEncRequest? && !r.msg.NoNegotiation?
    ensures r.Parsed? && r.msg.NoNegotiation? ==> r.consumed == 0
  {
    if ctx.awaitingFrontendSsl then
      DecodeNegotiation(buf)
    else if ctx.awaitingFrontendStartup then
      DecodeStartup(buf)
    else
      match DecodeTyped(buf, FRONTEND_TAGS)
      case NeedMore => NeedMore
      case Malformed => Malformed
      case Parsed(m, n) => Parsed(Command(m.0, m.1), n)
  }

  /** One accepting letter, `N`, or anything else. */
  function DecodeAnswer(b: byte, accept: byte): Answer {
    if b == accept then Accept else if b == 78 then Refuse else Unknown
  }

  /** Bytes up to the terminating zero, and what follows it. */
  function CString(b: seq<byte>): Option<(string, seq<byte>)> {
    if b == [] then None
    else if b[0] == 0 then Some(("", b[1..]))
    else
      match CString(b[1..])
      case None => None
      case Some((s, rest)) => Some(([b[0] as char] + s, rest))
  }

  function I16(hi: byte, lo: byte): i16 {
    var n := Be16(hi, lo);
    if n < 0x8000 then n else n - 0x1_0000
  }

  /** `n` field descriptions: name, then 18 bytes holding the type OID at 6 and the format code at 16. */
  function DecodeFields(b: seq<byte>, n: nat): Option<seq<FieldSummary>>
    decreases n
  {
    if n == 0 then Some([])
    else
      match CString(b)
      case None => None
      case Some((name, rest)) =>
        if |rest| < 18 then None
        else
          match DecodeFields(rest[18..], n - 1)
          case None => None
          case Some(fields) => Some([FieldSummary(name, WordAt(rest, 6), I16(rest[16], rest[17]))] + fields)
  }

  function DecodeReply(tag: byte, body: seq<byte>): Option<Backend> {
    if tag == 84 then // RowDescription
      if |body| < 2 then None
      else
        match DecodeFields(body[2..], if I16(body[0], body[1]) < 0 then 0 else I16(body[0], body[1]))
        case None => None
        case Some(fields) => Some(RowDescription(fields))
    else if tag == 110 then Some(NoData)
    else if tag == 68 then // DataRow
      if |body| < 2 then None else Some(DataRow(I16(body[0], body[1]), body[2..]))
    else Some(Reply(tag, body))
  }

  function DecodeBackend(buf: seq<byte>, ctx: DecodeContext): (r: Decoded<Backend>)
    ensures r.Parsed? ==> 0 < r.consumed <= |buf|
    ensures r.Parsed? && r.msg.SslResponse? ==> ctx.awaitingBackendSsl
    ensures r.Parsed? && r.msg.GssEncResponse? ==> ctx.awaitingBackendGss
  {
    if ctx.awaitingBackendSsl then
      if buf == [] then NeedMore else Parsed(SslResponse(DecodeAnswer(buf[0], 83)), 1)
    else if ctx.awaitingBackendGss then
      if buf == [] then NeedMore else Parsed(GssEncResponse(DecodeAnswer(buf[0], 71)), 1)
    else
      match DecodeTyped(buf, BACKEND_TAGS)
      case NeedMore => NeedMore
      case Malformed => Malformed
      case Parsed(m, n) =>
        match DecodeReply(m.0, m.1)
        case None => Malformed
        case Some(reply) => Parsed(reply, n)
  }

  /** Later bytes never change a decision already made. */
  lemma TypedIsStable(buf: seq<byte>, longer: seq<byte>, tags: set<byte>)
    requires buf <= longer && !DecodeTyped(buf, tags).NeedMore?
    ensures DecodeTyped(longer, tags) == DecodeTyped(buf, tags)
  {
    hide Be32;
    if buf[0] in tags {
      assert WordAt(longer, 1) == WordAt(buf, 1);
      var len := WordAt(buf, 1);
      if 4 <= len {
        assert longer[5..1 + len] == buf[5..1 + len];
      }
    }
  }

  lemma FrontendIsStable(buf: seq<byte>, longer: seq<byte>, ctx: DecodeContext)
    requires buf <= longer && !DecodeFrontend(buf, ctx).NeedMore?
    ensures DecodeFrontend(longer, ctx) == DecodeFrontend(buf, ctx)
  {
    hide Be32, DecodeTyped;
    if ctx.awaitingFrontendSsl {
    } else if ctx.awaitingFrontendStartup {
      var len := WordAt(buf, 0);
      assert WordAt(longer, 0) == len;
      if 8 <= len {
        assert longer[4..len] == buf[4..len] && longer[8..len] == buf[8..len];
      }
    } else {
      TypedIsStable(buf, longer, FRONTEND_TAGS);
    }
  }

  lemma BackendIsStable(buf: seq<byte>, longer: seq<byte>, ctx: DecodeContext)
    requires buf <= longer && !DecodeBackend(buf, ctx).NeedMore?
    ensures DecodeBackend(longer, ctx) == DecodeBackend(buf, ctx)
  {
    hide DecodeTyped, DecodeReply;
    if !ctx.awaitingBackendSsl && !ctx.awaitingBackendGss {
      TypedIsStable(buf, longer, BACKEND_TAGS);
    }
  }
}
