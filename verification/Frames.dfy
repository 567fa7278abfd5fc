/** From a captured frame to a TCP segment: link header, VLAN tags, IPv4 or
    IPv6 with its extension headers, TCP. A slice of the frame is a sequence here. */
module Frames {
  import opened Options
  import opened Bytes
  import opened Endpoints
  import opened Segments

  const DLT_NULL := 0
  const DLT_EN10MB := 1
  const DLT_RAW_OLD := 12
  const DLT_RAW := 101
  const DLT_LINUX_SLL := 113
  const DLT_LINUX_SLL2 := 276
  const DLT_IPV4 := 228
  const DLT_IPV6 := 229

  const VLAN := 0x8100
  const TCP: byte := 6

  // ----- link layer -----

  /** The type reached by following 0x8100 types, with what follows it. Each
      step reads the type from the two bytes right after 0x8100 and skips four. */
  function Untagged(ethertype: nat, payload: seq<byte>): (nat, seq<byte>)
    decreases |payload|
  {
    if ethertype == VLAN && |payload| >= 4 then Untagged(Be16(payload[0], payload[1]), payload[4..])
    else (ethertype, payload)
  }

  predicate CarriesIp(ethertype: nat) {
    ethertype == 0x0800 || ethertype == 0x86DD
  }

  function After(data: seq<byte>, n: nat): Option<seq<byte>> {
    if |data| < n then None else Some(data[n..])
  }

  predicate IsRaw(dlt: int) {
    dlt == DLT_RAW || dlt == DLT_RAW_OLD || dlt == DLT_IPV4 || dlt == DLT_IPV6
  }

  function LinkPayload(data: seq<byte>, dlt: int): Option<seq<byte>> {
    if dlt == DLT_EN10MB then
      if |data| < 14 then None
      else
        var (ethertype, payload) := Untagged(Be16(data[12], data[13]), data[14..]);
        if CarriesIp(ethertype) then Some(payload) else None
    else if IsRaw(dlt) then Some(data)
    else if dlt == DLT_NULL then After(data, 4)
    else if dlt == DLT_LINUX_SLL then After(data, 16)
    else if dlt == DLT_LINUX_SLL2 then After(data, 20)
    else None
  }

  method StripLink(data: seq<byte>, dlt: int) returns (r: Option<seq<byte>>)
    ensures r == LinkPayload(data, dlt)
  {
    if dlt == DLT_EN10MB {
      if |data| < 14 {
        return None;
      }
      var ethertype, payload := Be16(data[12], data[13]), data[14..];
      while ethertype == VLAN && |payload| >= 4
        invariant Untagged(ethertype, payload) == Untagged(Be16(data[12], data[13]), data[14..])
        decreases |payload|
      {
        ethertype, payload := Be16(payload[0], payload[1]), payload[4..];
      }
      return if CarriesIp(ethertype) then Some(payload) else None;
    } else if IsRaw(dlt) {
      return Some(data);
    } else if dlt == DLT_NULL {
      return After(data, 4);
    } else if dlt == DLT_LINUX_SLL {
      return After(data, 16);
    } else if dlt == DLT_LINUX_SLL2 {
      return After(data, 20);
    }
    return None;
  }

  // ----- TCP -----

  predicate FlagSet(flags: byte, bit: nat)
    requires bit == 1 || bit == 2 || bit == 4
  {
    flags / bit % 2 == 1
  }

  function ParseTcp(l4: seq<byte>, src: IpAddr, dst: IpAddr): Option<TcpSegment> {
    if |l4| < 20 then None
    else
      var offset := l4[12] / 16 * 4;
      if offset < 20 || |l4| < offset then None
      else Some(TcpSegment(
        src, dst,
        Be16(l4[0], l4[1]), Be16(l4[2], l4[3]),
        Be32(l4[4], l4[5], l4[6], l4[7]), Be32(l4[8], l4[9], l4[10], l4[11]),
        FlagSet(l4[13], 2), FlagSet(l4[13], 1), FlagSet(l4[13], 4),
        l4[offset..]))
  }

  // ----- IPv4 -----

  function Min(a: nat, b: nat): nat {
    if a < b then a else b
  }

  function ParseIpv4(b: seq<byte>): Option<TcpSegment> {
    if |b| < 20 then None
    else
      var ihl := b[0] % 16 * 4;
      if ihl < 20 || |b| < ihl then None
      else if b[9] != TCP then None
      else
        var end := Min(Be16(b[2], b[3]), |b|);
        if end < ihl then None
        else ParseTcp(b[ihl..end], V4(b[12..16]), V4(b[16..20]))
  }

  // ----- IPv6 -----

  predicate IsExtensionHeader(nh: byte) {
    nh == 0 || nh == 43 || nh == 44 || nh == 51 || nh == 60
  }

  function ExtensionHeaderLen(nh: byte, ext: seq<byte>): Option<nat> {
    if nh == 44 then Some(8)
    else if |ext| < 2 then None
    else
      var units: nat := ext[1];
      Some(if nh == 51 then (units + 2) * 4 else (units + 1) * 8)
  }

  /** What is left of an IPv6 body after its extension headers, if that is TCP. */
  function Unextended(nh: byte, body: seq<byte>): Option<seq<byte>>
    decreases |body|
  {
    if IsExtensionHeader(nh) && |body| >= 8 then
      match ExtensionHeaderLen(nh, body)
      case None => None
      case Some(n) => if n > |body| then None else Unextended(body[0], body[n..])
    else if nh == TCP then Some(body)
    else None
  }

  function Ipv6Body(b: seq<byte>): seq<byte>
    requires |b| >= 40
  {
    b[40..Min(40 + Be16(b[4], b[5]), |b|)]
  }

  function Ipv6Segment(b: seq<byte>): Option<TcpSegment> {
    if |b| < 40 then None
    else
      match Unextended(b[6], Ipv6Body(b))
      case None => None
      case Some(l4) => ParseTcp(l4, V6(b[8..24]), V6(b[24..40]))
  }

  /** One step of the walk, on the body from `off` on. */
  lemma WalkStep(b: seq<byte>, nh: byte, off: nat, end: nat)
    requires IsExtensionHeader(nh) && off + 8 <= end <= |b|
    ensures var body := b[off..end];
      match ExtensionHeaderLen(nh, body)
      case None => Unextended(nh, body) == None
      case Some(n) => Unextended(nh, body) == if off + n > end then None else Unextended(b[off], b[off + n..end])
  {
    hide IsExtensionHeader, ExtensionHeaderLen;
    var body := b[off..end];
    match ExtensionHeaderLen(nh, body)
    case None =>
    case Some(n) =>
      if off + n <= end {
        assert body[n..] == b[off + n..end];
      }
  }

  method ParseIpv6(b: seq<byte>) returns (r: Option<TcpSegment>)
    ensures r == Ipv6Segment(b)
  {
    hide IsExtensionHeader, ParseTcp;
    if |b| < 40 {
      return None;
    }
    var nextHeader := b[6];
    var src, dst := V6(b[8..24]), V6(b[24..40]);
    var off := 40;
    var bodyEnd := Min(40 + Be16(b[4], b[5]), |b|);
    while IsExtensionHeader(nextHeader) && off + 8 <= bodyEnd
      invariant 40 <= off <= bodyEnd <= |b|
      invariant Unextended(nextHeader, b[off..bodyEnd]) == Unextended(b[6], Ipv6Body(b))
    {
      WalkStep(b, nextHeader, off, bodyEnd);
      var extNext := b[off];
      var extLen := ExtensionHeaderLen(nextHeader, b[off..bodyEnd]);
      match extLen {
        case None => return None;
        case Some(n) =>
          nextHeader := extNext;
          off := off + n;
          if off > bodyEnd {
            return None;
          }
      }
    }
    if nextHeader != TCP {
      return None;
    }
    return ParseTcp(b[off..bodyEnd], src, dst);
  }

  // ----- the frame -----

  function IpSegment(b: seq<byte>): Option<TcpSegment> {
    if b == [] then None
    else if b[0] / 16 == 4 then ParseIpv4(b)
    else if b[0] / 16 == 6 then Ipv6Segment(b)
    else None
  }

  function FrameSegment(data: seq<byte>, dlt: int): Option<TcpSegment> {
    match LinkPayload(data, dlt)
    case None => None
    case Some(b) => IpSegment(b)
  }

  method ParseFrame(data: seq<byte>, dlt: int) returns (r: Option<TcpSegment>)
    ensures r == FrameSegment(data, dlt)
  {
    hide LinkPayload, ParseIpv4, Ipv6Segment;
    var ip := StripLink(data, dlt);
    if ip.None? || ip.value == [] {
      return None;
    }
    var b := ip.value;
    if b[0] / 16 == 4 {
      return ParseIpv4(b);
    } else if b[0] / 16 == 6 {
      r := ParseIpv6(b);
      return r;
    }
    return None;
  }
}
