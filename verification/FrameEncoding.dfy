/** How a TCP segment is laid out in a frame, and the proof that the parser
    accepts exactly these layouts and reads back exactly the segment that was
    laid out. IP, its extensions and TCP follow their standards. After a 0x8100
    type the Ethernet layout is the parser's own, which is not that of 802.1Q;
    standard tags are laid out separately, with when they are read. */
module FrameEncoding {
  import opened Options
  import opened Bytes
  import opened Endpoints
  import opened Segments
  import opened Frames

  // ----- TCP (section 3.1 of RFC 9293) -----

  /** `reserved` is the low half of the data-offset byte and `trailer` the
      window, checksum and urgent pointer. */
  datatype TcpLayer = TcpLayer(
    srcPort: nat, dstPort: nat, seqno: u32, ack: u32,
    reserved: nat, flags: byte, trailer: seq<byte>, options: seq<byte>, payload: seq<byte>)

  predicate TcpFits(t: TcpLayer) {
    && t.srcPort < 0x1_0000 && t.dstPort < 0x1_0000 && t.reserved < 16
    && |t.trailer| == 6 && |t.options| % 4 == 0 && |t.options| <= 40
  }

  function TcpFixed(t: TcpLayer): (s: seq<byte>)
    requires TcpFits(t)
    ensures |s| == 20
  {
    Put16(t.srcPort) + Put16(t.dstPort) + Put32(t.seqno) + Put32(t.ack)
    + [(5 + |t.options| / 4) * 16 + t.reserved, t.flags] + t.trailer
  }

  function TcpBytes(t: TcpLayer): seq<byte>
    requires TcpFits(t)
  {
    TcpFixed(t) + t.options + t.payload
  }

  function SegmentOf(t: TcpLayer, src: IpAddr, dst: IpAddr): TcpSegment
    requires TcpFits(t)
  {
    TcpSegment(src, dst, t.srcPort, t.dstPort, t.seqno, t.ack,
               FlagSet(t.flags, 2), FlagSet(t.flags, 1), FlagSet(t.flags, 4), t.payload)
  }

  lemma TcpFixedFields(t: TcpLayer)
    requires TcpFits(t)
    ensures var s := TcpFixed(t);
      && Be16(s[0], s[1]) == t.srcPort && Be16(s[2], s[3]) == t.dstPort
      && Be32(s[4], s[5], s[6], s[7]) == t.seqno && Be32(s[8], s[9], s[10], s[11]) == t.ack
      && s[12] == (5 + |t.options| / 4) * 16 + t.reserved && s[13] == t.flags
  {
    hide Be16, Be32, Put16, Put32;
    var s := TcpFixed(t);
    assert s[0..2] == Put16(t.srcPort) && s[2..4] == Put16(t.dstPort);
    assert s[4..8] == Put32(t.seqno) && s[8..12] == Put32(t.ack);
    assert s[0] == s[0..2][0] && s[1] == s[0..2][1] && s[2] == s[2..4][0] && s[3] == s[2..4][1];
    assert s[4] == s[4..8][0] && s[5] == s[4..8][1] && s[6] == s[4..8][2] && s[7] == s[4..8][3];
    assert s[8] == s[8..12][0] && s[9] == s[8..12][1] && s[10] == s[8..12][2] && s[11] == s[8..12][3];
  }

  lemma TcpReadsBack(t: TcpLayer, src: IpAddr, dst: IpAddr)
    requires TcpFits(t)
    ensures ParseTcp(TcpBytes(t), src, dst) == Some(SegmentOf(t, src, dst))
  {
    hide Be16, Be32, TcpFixed, FlagSet;
    TcpFixedFields(t);
    var l4 := TcpBytes(t);
    assert forall i :: 0 <= i < 20 ==> l4[i] == TcpFixed(t)[i];
    assert l4[12] / 16 == 5 + |t.options| / 4;
    assert l4[20 + |t.options|..] == t.payload;
  }

  lemma Put16Reads(a: byte, b: byte)
    ensures Put16(Be16(a, b)) == [a, b]
  {
  }

  lemma LastByte(high: nat, low: byte)
    ensures (high * 0x100 + low) / 0x100 == high && (high * 0x100 + low) % 0x100 == low
  {
  }

  lemma Be32Steps(a: byte, b: byte, c: byte, d: byte)
    ensures Be32(a, b, c, d) == ((a * 0x100 + b) * 0x100 + c) * 0x100 + d
  {
  }

  lemma Put32Steps(n: nat, high: nat, middle: nat, top: nat)
    requires n < 0x1_0000_0000 && high == n / 0x100 && middle == high / 0x100 && top == middle / 0x100
    ensures top < 0x100 && Put32(n) == [top, middle % 0x100, high % 0x100, n % 0x100]
  {
  }

  lemma Put32Reads(a: byte, b: byte, c: byte, d: byte)
    ensures Put32(Be32(a, b, c, d)) == [a, b, c, d]
  {
    hide Put32, Be32;
    var middle: nat := a * 0x100 + b;
    var high: nat := middle * 0x100 + c;
    Be32Steps(a, b, c, d);
    LastByte(high, d);
    LastByte(middle, c);
    LastByte(a, b);
    Put32Steps(Be32(a, b, c, d), high, middle, a);
  }

  /** Whatever the parser accepts as TCP is the layout of what it returned. */
  lemma TcpAccepted(l4: seq<byte>, src: IpAddr, dst: IpAddr) returns (t: TcpLayer)
    requires ParseTcp(l4, src, dst).Some?
    ensures TcpFits(t) && TcpBytes(t) == l4 && SegmentOf(t, src, dst) == ParseTcp(l4, src, dst).value
  {
    hide Be16, Be32, Put16, Put32, FlagSet;
    var offset := l4[12] / 16 * 4;
    t := TcpLayer(
      Be16(l4[0], l4[1]), Be16(l4[2], l4[3]),
      Be32(l4[4], l4[5], l4[6], l4[7]), Be32(l4[8], l4[9], l4[10], l4[11]),
      l4[12] % 16, l4[13], l4[14..20], l4[20..offset], l4[offset..]);
    Put16Reads(l4[0], l4[1]);
    Put16Reads(l4[2], l4[3]);
    Put32Reads(l4[4], l4[5], l4[6], l4[7]);
    Put32Reads(l4[8], l4[9], l4[10], l4[11]);
    assert TcpFixed(t) == l4[..20];
    assert l4[..20] + l4[20..offset] + l4[offset..] == l4;
  }

  // ----- IPv6 extension headers (section 4 of RFC 8200, section 2.2 of RFC 4302) -----

  /** One extension header without its next-header byte. */
  datatype Extension = Extension(kind: byte, content: seq<byte>)

  predicate ExtensionFits(e: Extension) {
    && IsExtensionHeader(e.kind) && |e.content| >= 7
    && var units: nat := e.content[0];
       1 + |e.content| == (if e.kind == 44 then 8 else if e.kind == 51 then (units + 2) * 4 else (units + 1) * 8)
  }

  predicate ChainFits(chain: seq<Extension>) {
    forall i :: 0 <= i < |chain| ==> ExtensionFits(chain[i])
  }

  /** The next-header value that announces this chain. */
  function Announced(chain: seq<Extension>): byte {
    if chain == [] then TCP else chain[0].kind
  }

  function ChainBytes(chain: seq<Extension>): seq<byte> {
    if chain == [] then [] else [Announced(chain[1..])] + chain[0].content + ChainBytes(chain[1..])
  }

  lemma {:induction false} ChainReadsBack(chain: seq<Extension>, l4: seq<byte>)
    requires ChainFits(chain)
    ensures Unextended(Announced(chain), ChainBytes(chain) + l4) == Some(l4)
  {
    if chain == [] {
      assert ChainBytes(chain) + l4 == l4;
    } else {
      var e := chain[0];
      assert ExtensionFits(e);
      var body := ChainBytes(chain) + l4;
      var rest := ChainBytes(chain[1..]) + l4;
      assert body == [Announced(chain[1..])] + e.content + rest;
      assert body[1] == e.content[0] && body[1 + |e.content|..] == rest;
      ChainReadsBack(chain[1..], l4);
    }
  }

  lemma ChainUnfold(chain: seq<Extension>)
    requires chain != [] && ExtensionFits(chain[0]) && ChainFits(chain[1..])
    ensures ChainFits(chain)
    ensures ChainBytes(chain) == [Announced(chain[1..])] + chain[0].content + ChainBytes(chain[1..])
  {
    hide ExtensionFits;
    forall i | 0 <= i < |chain| ensures ExtensionFits(chain[i]) {
      assert i > 0 ==> chain[i] == chain[1..][i - 1];
    }
  }

  lemma ExtensionAccepted(nh: byte, body: seq<byte>) returns (n: nat)
    requires IsExtensionHeader(nh) && |body| >= 8 && Unextended(nh, body).Some?
    ensures 8 <= n <= |body| && Unextended(body[0], body[n..]) == Unextended(nh, body)
    ensures ExtensionFits(Extension(nh, body[1..n]))
  {
    n := ExtensionHeaderLen(nh, body).value;
    assert body[1..n][0] == body[1];
  }

  lemma NoMoreExtensions(nh: byte, body: seq<byte>)
    requires !(IsExtensionHeader(nh) && |body| >= 8) && Unextended(nh, body).Some?
    ensures nh == TCP && Unextended(nh, body).value == body
  {
  }

  lemma {:induction false} ChainAccepted(nh: byte, body: seq<byte>) returns (chain: seq<Extension>)
    requires Unextended(nh, body).Some?
    ensures ChainFits(chain) && Announced(chain) == nh && ChainBytes(chain) + Unextended(nh, body).value == body
    decreases |body|
  {
    hide Unextended, ExtensionHeaderLen, IsExtensionHeader, ExtensionFits;
    if IsExtensionHeader(nh) && |body| >= 8 {
      var n := ExtensionAccepted(nh, body);
      var left := Unextended(nh, body).value;
      var rest := ChainAccepted(body[0], body[n..]);
      chain := [Extension(nh, body[1..n])] + rest;
      assert chain[1..] == rest;
      ChainUnfold(chain);
      hide ChainFits, ChainBytes;
      calc {
        ChainBytes(chain) + left;
        [body[0]] + body[1..n] + ChainBytes(rest) + left;
        [body[0]] + body[1..n] + (ChainBytes(rest) + left);
        [body[0]] + body[1..n] + body[n..];
        body;
      }
    } else {
      NoMoreExtensions(nh, body);
      chain := [];
    }
  }

  // ----- IP -----

  /** `declared` is the length field: more than what was captured when the
      capture cut the packet short. */
  datatype IpLayer =
    | Ip4(tos: byte, declared: nat, ident: seq<byte>, ttl: byte, checksum: seq<byte>, src: seq<byte>, dst: seq<byte>,
          options: seq<byte>)
    | Ip6(trafficClass: nat, flow: seq<byte>, declared: nat, hops: byte, src: seq<byte>, dst: seq<byte>,
      chain: seq<Extension>)

  /** Either the length field is right and anything may follow as padding, or
      the packet was cut and nothing follows. */
  predicate Declares(declared: nat, captured: nat, padding: seq<byte>) {
    declared < 0x1_0000 && (declared == captured || (declared > captured && padding == []))
  }

  predicate IpFits(ip: IpLayer, l4: seq<byte>, padding: seq<byte>)
    ensures IpFits(ip, l4, padding) ==> HeaderFits(ip)
  {
    match ip
    case Ip4(_, declared, ident, _, checksum, src, dst, options) =>
      && |ident| == 4 && |checksum| == 2 && |src| == 4 && |dst| == 4
      && |options| % 4 == 0 && |options| <= 40
      && Declares(declared, 20 + |options| + |l4|, padding)
    case Ip6(trafficClass, flow, declared, _, src, dst, chain) =>
      && trafficClass < 16 && |flow| == 3 && |src| == 16 && |dst| == 16
      && ChainFits(chain) && Declares(declared, |ChainBytes(chain)| + |l4|, padding)
  }

  predicate HeaderFits(ip: IpLayer) {
    && ip.declared < 0x1_0000
    && if ip.Ip4? then |ip.options| <= 40 && |ip.src| == |ip.dst| == 4
       else ip.trafficClass < 16 && |ip.src| == |ip.dst| == 16
  }

  function IpHeader(ip: IpLayer): seq<byte>
    requires HeaderFits(ip)
  {
    match ip
    case Ip4(tos, declared, ident, ttl, checksum, src, dst, options) =>
      [0x45 + |options| / 4, tos] + Put16(declared) + ident + [ttl, TCP] + checksum + src + dst + options
    case Ip6(trafficClass, flow, declared, hops, src, dst, chain) =>
      [0x60 + trafficClass] + flow + Put16(declared) + [Announced(chain), hops] + src + dst + ChainBytes(chain)
  }

  function Source(ip: IpLayer): IpAddr
    requires HeaderFits(ip)
  {
    if ip.Ip4? then V4(ip.src) else V6(ip.src)
  }

  function Destination(ip: IpLayer): IpAddr
    requires HeaderFits(ip)
  {
    if ip.Ip4? then V4(ip.dst) else V6(ip.dst)
  }

  lemma Ip4HeaderFields(ip: IpLayer, l4: seq<byte>, padding: seq<byte>)
    requires ip.Ip4? && IpFits(ip, l4, padding)
    ensures var h := IpHeader(ip);
      && |h| == 20 + |ip.options| && h[0] == 0x45 + |ip.options| / 4 && Be16(h[2], h[3]) == ip.declared
      && h[9] == TCP && h[12..16] == ip.src && h[16..20] == ip.dst
  {
    hide Be16, Put16;
    var h := IpHeader(ip);
    assert h[2..4] == Put16(ip.declared);
    assert h[2] == h[2..4][0] && h[3] == h[2..4][1];
  }

  lemma Ip4ReadsBack(ip: IpLayer, t: TcpLayer, padding: seq<byte>)
    requires ip.Ip4? && TcpFits(t) && IpFits(ip, TcpBytes(t), padding)
    ensures IpSegment(IpHeader(ip) + TcpBytes(t) + padding) == Some(SegmentOf(t, Source(ip), Destination(ip)))
  {
    hide Be16, Put16, IpHeader, TcpBytes, SegmentOf, ParseTcp, Ipv6Segment;
    var l4, h := TcpBytes(t), IpHeader(ip);
    Ip4HeaderFields(ip, l4, padding);
    TcpReadsBack(t, Source(ip), Destination(ip));
    var b := h + l4 + padding;
    assert forall i :: 0 <= i < |h| ==> b[i] == h[i];
    assert b[12..16] == h[12..16] && b[16..20] == h[16..20];
    assert b[|h|..|h| + |l4|] == l4;
    assert padding == [] ==> |b| == |h| + |l4|;
  }

  lemma Ip6HeaderFields(ip: IpLayer, l4: seq<byte>, padding: seq<byte>)
    requires ip.Ip6? && IpFits(ip, l4, padding)
    ensures var h := IpHeader(ip);
      && |h| == 40 + |ChainBytes(ip.chain)| && h[0] == 0x60 + ip.trafficClass && Be16(h[4], h[5]) == ip.declared
      && h[6] == Announced(ip.chain) && h[8..24] == ip.src && h[24..40] == ip.dst && h[40..] == ChainBytes(ip.chain)
  {
    hide Be16, Put16, ChainBytes, ChainFits, Announced;
    var h := IpHeader(ip);
    assert h[4..6] == Put16(ip.declared);
    assert h[4] == h[4..6][0] && h[5] == h[4..6][1];
  }

  lemma Ip6ReadsBack(ip: IpLayer, t: TcpLayer, padding: seq<byte>)
    requires ip.Ip6? && TcpFits(t) && IpFits(ip, TcpBytes(t), padding)
    ensures IpSegment(IpHeader(ip) + TcpBytes(t) + padding) == Some(SegmentOf(t, Source(ip), Destination(ip)))
  {
    hide Be16, Put16, IpHeader, TcpBytes, SegmentOf, ParseTcp, ParseIpv4, ChainBytes, Announced, ChainFits, Unextended;
    var l4, h := TcpBytes(t), IpHeader(ip);
    Ip6HeaderFields(ip, l4, padding);
    ChainReadsBack(ip.chain, l4);
    TcpReadsBack(t, Source(ip), Destination(ip));
    var b := h + l4 + padding;
    assert forall i :: 0 <= i < |h| ==> b[i] == h[i];
    assert b[8..24] == h[8..24] && b[24..40] == h[24..40];
    assert padding == [] ==> |b| == |h| + |l4|;
    assert Ipv6Body(b) == ChainBytes(ip.chain) + l4;
  }

  lemma Ip4HeaderRead(b: seq<byte>, ihl: nat) returns (ip: IpLayer)
    requires 20 <= ihl <= |b| && b[0] / 16 == 4 && ihl == b[0] % 16 * 4 && b[9] == TCP
    ensures ip == Ip4(b[1], Be16(b[2], b[3]), b[4..8], b[8], b[10..12], b[12..16], b[16..20], b[20..ihl])
    ensures HeaderFits(ip) && IpHeader(ip) == b[..ihl]
  {
    hide Be16, Put16;
    ip := Ip4(b[1], Be16(b[2], b[3]), b[4..8], b[8], b[10..12], b[12..16], b[16..20], b[20..ihl]);
    Put16Reads(b[2], b[3]);
    assert [0x45 + |ip.options| / 4, b[1]] + Put16(ip.declared) + b[4..8] + [b[8], TCP] + b[10..12] + b[12..16]
      + b[16..20]
      + b[20..ihl] == b[..ihl];
  }

  /** Whatever is accepted as IPv4 is an IPv4 header, a TCP layer and padding. */
  lemma Ip4Accepted(b: seq<byte>) returns (ip: IpLayer, t: TcpLayer, padding: seq<byte>)
    requires b != [] && b[0] / 16 == 4 && ParseIpv4(b).Some?
    ensures ip.Ip4? && TcpFits(t) && IpFits(ip, TcpBytes(t), padding)
    ensures IpHeader(ip) + TcpBytes(t) + padding == b
    ensures SegmentOf(t, Source(ip), Destination(ip)) == ParseIpv4(b).value
  {
    hide Be16, Put16, TcpBytes, SegmentOf, ParseTcp, TcpFits, IpHeader;
    var ihl := b[0] % 16 * 4;
    var end := Min(Be16(b[2], b[3]), |b|);
    t := TcpAccepted(b[ihl..end], V4(b[12..16]), V4(b[16..20]));
    padding := b[end..];
    ip := Ip4HeaderRead(b, ihl);
    hide ParseIpv4;
    assert b[..ihl] + b[ihl..end] + b[end..] == b;
  }

  lemma Ip6HeaderRead(b: seq<byte>, chain: seq<Extension>) returns (ip: IpLayer)
    requires |b| >= 40 && b[0] / 16 == 6 && Announced(chain) == b[6]
    ensures ip == Ip6(b[0] % 16, b[1..4], Be16(b[4], b[5]), b[7], b[8..24], b[24..40], chain)
    ensures HeaderFits(ip) && IpHeader(ip) == b[..40] + ChainBytes(chain)
  {
    hide Be16, Put16, ChainBytes, Announced;
    ip := Ip6(b[0] % 16, b[1..4], Be16(b[4], b[5]), b[7], b[8..24], b[24..40], chain);
    Put16Reads(b[4], b[5]);
    assert [0x60 + ip.trafficClass] + ip.flow + Put16(ip.declared) + [Announced(chain), ip.hops] + ip.src + ip.dst
      == b[..40];
  }

  /** Whatever is accepted as IPv6 is a header, an extension chain, a TCP layer and padding. */
  lemma Ip6Accepted(b: seq<byte>) returns (ip: IpLayer, t: TcpLayer, padding: seq<byte>)
    requires b != [] && b[0] / 16 == 6 && Ipv6Segment(b).Some?
    ensures ip.Ip6? && TcpFits(t) && IpFits(ip, TcpBytes(t), padding)
    ensures IpHeader(ip) + TcpBytes(t) + padding == b
    ensures SegmentOf(t, Source(ip), Destination(ip)) == Ipv6Segment(b).value
  {
    hide Be16, Put16, TcpBytes, SegmentOf, ParseTcp, TcpFits, ChainBytes, ChainFits, Announced, Unextended, IpHeader;
    var end := Min(40 + Be16(b[4], b[5]), |b|);
    var body := b[40..end];
    var l4 := Unextended(b[6], body).value;
    var chain := ChainAccepted(b[6], body);
    t := TcpAccepted(l4, V6(b[8..24]), V6(b[24..40]));
    padding := b[end..];
    ip := Ip6HeaderRead(b, chain);
    hide Ipv6Segment, Ipv6Body;
    assert b[..40] + body + padding == b;
    calc {
      IpHeader(ip) + l4 + padding;
      b[..40] + ChainBytes(chain) + l4 + padding;
      b[..40] + (ChainBytes(chain) + l4) + padding;
      b[..40] + body + padding;
      b;
    }
  }

  // ----- link layer -----

  /** `shims` are the pairs of bytes the parser skips, one for each 0x8100 type;
      in a standard tag it is the next type that stands there. */
  datatype Link =
    | Ethernet(macs: seq<byte>, shims: seq<seq<byte>>, ethertype: nat)
    | Raw(dlt: int)
    | Loopback(header: seq<byte>)
    | Cooked(header: seq<byte>)
    | Cooked2(header: seq<byte>)

  predicate Shims(shims: seq<seq<byte>>) {
    forall i :: 0 <= i < |shims| ==> |shims[i]| == 2
  }

  predicate LinkFits(link: Link) {
    match link
    case Ethernet(macs, shims, ethertype) => |macs| == 12 && CarriesIp(ethertype) && Shims(shims)
    case Raw(dlt) => IsRaw(dlt)
    case Loopback(header) => |header| == 4
    case Cooked(header) => |header| == 16
    case Cooked2(header) => |header| == 20
  }

  function FirstType(shims: seq<seq<byte>>, ethertype: nat): nat {
    if shims == [] then ethertype else VLAN
  }

  /** Each shim comes after the type that the 0x8100 before it introduces. */
  function ShimBytes(shims: seq<seq<byte>>, ethertype: nat): seq<byte>
    requires ethertype < 0x1_0000
  {
    if shims == [] then []
    else Put16(FirstType(shims[1..], ethertype)) + shims[0] + ShimBytes(shims[1..], ethertype)
  }

  function LinkBytes(link: Link): seq<byte>
    requires LinkFits(link)
  {
    match link
    case Ethernet(macs, shims, ethertype) => macs + Put16(FirstType(shims, ethertype)) + ShimBytes(shims, ethertype)
    case Raw(_) => []
    case Loopback(header) => header
    case Cooked(header) => header
    case Cooked2(header) => header
  }

  function Dlt(link: Link): int {
    match link
    case Ethernet(_, _, _) => DLT_EN10MB
    case Raw(dlt) => dlt
    case Loopback(_) => DLT_NULL
    case Cooked(_) => DLT_LINUX_SLL
    case Cooked2(_) => DLT_LINUX_SLL2
  }

  lemma {:induction false} ShimsReadBack(shims: seq<seq<byte>>, ethertype: nat, b: seq<byte>)
    requires CarriesIp(ethertype) && Shims(shims)
    ensures Untagged(FirstType(shims, ethertype), ShimBytes(shims, ethertype) + b) == (ethertype, b)
  {
    var payload := ShimBytes(shims, ethertype) + b;
    if shims == [] {
      assert payload == b;
    } else {
      var next, rest := FirstType(shims[1..], ethertype), ShimBytes(shims[1..], ethertype) + b;
      ShimsReadBack(shims[1..], ethertype, b);
      assert payload == Put16(next) + shims[0] + rest;
      assert payload[0] == Put16(next)[0] && payload[1] == Put16(next)[1] && payload[4..] == rest;
    }
  }

  lemma {:induction false} ShimsAccepted(first: nat, payload: seq<byte>) returns (shims: seq<seq<byte>>)
    requires CarriesIp(Untagged(first, payload).0)
    ensures Shims(shims)
    ensures var u := Untagged(first, payload); FirstType(shims, u.0) == first && ShimBytes(shims, u.0) + u.1 == payload
    decreases |payload|
  {
    if first == VLAN && |payload| >= 4 {
      var rest := ShimsAccepted(Be16(payload[0], payload[1]), payload[4..]);
      Put16Reads(payload[0], payload[1]);
      shims := [payload[2..4]] + rest;
      assert shims[1..] == rest;
      assert payload == payload[..2] + payload[2..4] + payload[4..];
    } else {
      shims := [];
    }
  }

  lemma LinkReadsBack(link: Link, b: seq<byte>)
    requires LinkFits(link)
    ensures LinkPayload(LinkBytes(link) + b, Dlt(link)) == Some(b)
  {
    hide Untagged, ShimBytes, Be16, Put16;
    var data := LinkBytes(link) + b;
    if link.Ethernet? {
      var first, inner := Put16(FirstType(link.shims, link.ethertype)), ShimBytes(link.shims, link.ethertype) + b;
      ShimsReadBack(link.shims, link.ethertype, b);
      assert data == link.macs + first + inner;
      assert data[12] == first[0] && data[13] == first[1] && data[14..] == inner;
    } else {
      assert data[|LinkBytes(link)|..] == b;
    }
  }

  lemma LinkAccepted(data: seq<byte>, dlt: int) returns (link: Link)
    requires LinkPayload(data, dlt).Some?
    ensures LinkFits(link) && Dlt(link) == dlt && LinkBytes(link) + LinkPayload(data, dlt).value == data
  {
    hide Untagged, ShimBytes, Be16, Put16;
    if dlt == DLT_EN10MB {
      var first := Be16(data[12], data[13]);
      var u := Untagged(first, data[14..]);
      var shims := ShimsAccepted(first, data[14..]);
      Put16Reads(data[12], data[13]);
      link := Ethernet(data[..12], shims, u.0);
      assert data == data[..12] + data[12..14] + data[14..];
    } else if dlt == DLT_NULL {
      link := Loopback(data[..4]);
    } else if dlt == DLT_LINUX_SLL {
      link := Cooked(data[..16]);
    } else if dlt == DLT_LINUX_SLL2 {
      link := Cooked2(data[..20]);
    } else {
      link := Raw(dlt);
    }
  }

  // ----- 802.1Q tags -----

  /** A tag stack as the standard lays it out: 0x8100 and the control value of
      each tag, then the type of what is carried. */
  function TagBytes(tags: seq<nat>, ethertype: nat): seq<byte>
    requires ethertype < 0x1_0000 && forall i :: 0 <= i < |tags| ==> tags[i] < 0x1_0000
  {
    if tags == [] then Put16(ethertype) else Put16(VLAN) + Put16(tags[0]) + TagBytes(tags[1..], ethertype)
  }

  /** The control values happen to spell the types the parser looks for. */
  predicate ReadableTags(tags: seq<nat>) {
    tags != [] && if |tags| == 1 then CarriesIp(tags[0]) else tags[0] == VLAN && ReadableTags(tags[1..])
  }

  lemma {:induction false} UntaggedShrinks(ethertype: nat, payload: seq<byte>)
    ensures var u := Untagged(ethertype, payload);
      |u.1| <= |payload| && (ethertype == VLAN && |payload| >= 4 ==> |u.1| <= |payload| - 4)
    decreases |payload|
  {
    if ethertype == VLAN && |payload| >= 4 {
      UntaggedShrinks(Be16(payload[0], payload[1]), payload[4..]);
    }
  }

  /** The parser takes a tag's control value for the next type. */
  lemma TagStep(control: nat, inner: seq<byte>)
    requires control < 0x1_0000 && |inner| >= 2
    ensures var s := Put16(VLAN) + Put16(control) + inner;
      Be16(s[0], s[1]) == VLAN && Untagged(VLAN, s[2..]) == Untagged(control, inner[2..])
  {
    var s := Put16(VLAN) + Put16(control) + inner;
    var payload := s[2..];
    assert payload[0] == Put16(control)[0] && payload[1] == Put16(control)[1];
    hide Put16, Be16;
    assert payload[4..] == inner[2..];
  }

  lemma {:induction false} TagsAreReadWhen(tags: seq<nat>, ethertype: nat, b: seq<byte>)
    requires ethertype < 0x1_0000 && forall i :: 0 <= i < |tags| ==> tags[i] < 0x1_0000
    requires tags != []
    ensures var s := TagBytes(tags, ethertype) + b;
      |s| >= |b| + 6 && Be16(s[0], s[1]) == VLAN &&
      (var u := Untagged(VLAN, s[2..]); CarriesIp(u.0) && u.1 == b <==> ReadableTags(tags))
  {
    hide Put16, Be16;
    var inner := TagBytes(tags[1..], ethertype) + b;
    assert TagBytes(tags, ethertype) + b == Put16(VLAN) + Put16(tags[0]) + inner;
    if |tags| == 1 {
      assert inner == Put16(ethertype) + b && inner[2..] == b;
      TagStep(tags[0], inner);
      UntaggedShrinks(tags[0], b);
    } else {
      TagsAreReadWhen(tags[1..], ethertype, b);
      hide TagBytes;
      TagStep(tags[0], inner);
    }
  }

  /** Which tagged frames get through: all untagged ones, and of the tagged ones
      only those whose control values spell the types the parser looks for. */
  lemma TaggedFramesReadWhen(macs: seq<byte>, tags: seq<nat>, ethertype: nat, b: seq<byte>)
    requires |macs| == 12 && CarriesIp(ethertype) && forall i :: 0 <= i < |tags| ==> tags[i] < 0x1_0000
    ensures LinkPayload(macs + TagBytes(tags, ethertype) + b, DLT_EN10MB) == Some(b) <==>
        tags == [] || ReadableTags(tags)
  {
    var data := macs + TagBytes(tags, ethertype) + b;
    var s := TagBytes(tags, ethertype) + b;
    assert data == macs + s;
    if tags == [] {
      assert data[12] == s[0] && data[13] == s[1] && data[14..] == b;
    } else {
      TagsAreReadWhen(tags, ethertype, b);
      hide Untagged, TagBytes, ReadableTags, Be16;
      assert data[12] == s[0] && data[13] == s[1] && data[14..] == s[2..];
    }
  }

  /** A frame with one tag, from VLAN 10 say, is dropped whatever it carries. */
  lemma OneTagIsDropped(macs: seq<byte>, control: nat, ethertype: nat, b: seq<byte>)
    requires |macs| == 12 && ethertype < 0x1_0000 && control < 0x1_0000 && !CarriesIp(control) && control != VLAN
    ensures FrameSegment(macs + TagBytes([control], ethertype) + b, DLT_EN10MB) == None
  {
    var data := macs + TagBytes([control], ethertype) + b;
    assert TagBytes([control], ethertype) == Put16(VLAN) + Put16(control) + Put16(ethertype);
    assert data[12] == Put16(VLAN)[0] && data[13] == Put16(VLAN)[1];
    assert data[14] == Put16(control)[0] && data[15] == Put16(control)[1];
    hide Be16, Put16, TagBytes;
    assert data[14..][4..] == data[18..];
    assert Untagged(VLAN, data[14..]) == Untagged(control, data[18..]) == (control, data[18..]);
  }

  // ----- the frame -----

  datatype Frame = Frame(link: Link, ip: IpLayer, tcp: TcpLayer, padding: seq<byte>)

  predicate FrameFits(f: Frame) {
    LinkFits(f.link) && TcpFits(f.tcp) && IpFits(f.ip, TcpBytes(f.tcp), f.padding)
  }

  function FrameBytes(f: Frame): seq<byte>
    requires FrameFits(f)
  {
    LinkBytes(f.link) + (IpHeader(f.ip) + TcpBytes(f.tcp) + f.padding)
  }

  function Carried(f: Frame): TcpSegment
    requires FrameFits(f)
  {
    SegmentOf(f.tcp, Source(f.ip), Destination(f.ip))
  }

  /** Parsing inverts encoding, for every link type, option list, extension
      chain, padding and truncation, and any 0x8100 types in the parser's own
      layout. What becomes of standard tags is said by TaggedFramesReadWhen. */
  lemma ParseInvertsEncoding(f: Frame)
    requires FrameFits(f)
    ensures FrameSegment(FrameBytes(f), Dlt(f.link)) == Some(Carried(f))
  {
    hide LinkPayload, LinkBytes, IpSegment, IpHeader, TcpBytes, SegmentOf, IpFits, LinkFits, Dlt, TcpFits;
    LinkReadsBack(f.link, IpHeader(f.ip) + TcpBytes(f.tcp) + f.padding);
    if f.ip.Ip4? {
      Ip4ReadsBack(f.ip, f.tcp, f.padding);
    } else {
      Ip6ReadsBack(f.ip, f.tcp, f.padding);
    }
  }

  /** Every accepted frame is the encoding of what was read from it. */
  lemma AcceptedIsEncoded(data: seq<byte>, dlt: int) returns (f: Frame)
    requires FrameSegment(data, dlt).Some?
    ensures FrameFits(f) && Dlt(f.link) == dlt && FrameBytes(f) == data && Carried(f) == FrameSegment(data, dlt).value
  {
    hide LinkPayload, LinkBytes, IpHeader, TcpBytes, SegmentOf, IpFits, LinkFits, Dlt, TcpFits, ParseIpv4, Ipv6Segment;
    var b := LinkPayload(data, dlt).value;
    var link := LinkAccepted(data, dlt);
    if b[0] / 16 == 4 {
      var ip, t, padding := Ip4Accepted(b);
      f := Frame(link, ip, t, padding);
    } else {
      var ip, t, padding := Ip6Accepted(b);
      f := Frame(link, ip, t, padding);
    }
  }

  /** A frame yields a segment exactly when it is the encoding of that segment. */
  lemma ParserAcceptsExactlyTheEncodings(data: seq<byte>, dlt: int, segment: TcpSegment)
    ensures FrameSegment(data, dlt) == Some(segment) <==>
      exists f: Frame :: FrameFits(f) && Dlt(f.link) == dlt && FrameBytes(f) == data && Carried(f) == segment
  {
    hide FrameSegment, FrameFits, FrameBytes, Dlt, Carried;
    if FrameSegment(data, dlt) == Some(segment) {
      var f := AcceptedIsEncoded(data, dlt);
      assert FrameFits(f);
    }
    forall f: Frame | FrameFits(f) && Dlt(f.link) == dlt && FrameBytes(f) == data && Carried(f) == segment
      ensures FrameSegment(data, dlt) == Some(segment)
    {
      ParseInvertsEncoding(f);
    }
  }

  lemma Middle(before: seq<byte>, middle: seq<byte>, after: seq<byte>)
    ensures (before + middle + after)[|before|..|before| + |middle|] == middle
  {
  }

  /** On arbitrary bytes the payload is a slice of the frame. */
  lemma PayloadIsASlice(data: seq<byte>, dlt: int) returns (i: nat, j: nat)
    requires FrameSegment(data, dlt).Some?
    ensures i <= j <= |data| && FrameSegment(data, dlt).value.payload == data[i..j]
  {
    hide FrameSegment, LinkBytes, IpHeader, TcpFixed, LinkFits, IpFits, Dlt, TcpFits;
    var f := AcceptedIsEncoded(data, dlt);
    var link, header, fixed := LinkBytes(f.link), IpHeader(f.ip), TcpFixed(f.tcp);
    var before := link + header + fixed + f.tcp.options;
    calc {
      data;
      link + (header + (fixed + f.tcp.options + f.tcp.payload) + f.padding);
      before + f.tcp.payload + f.padding;
    }
    hide FrameBytes, TcpBytes, FrameFits;
    Middle(before, f.tcp.payload, f.padding);
    i, j := |before|, |before| + |f.tcp.payload|;
  }
}
