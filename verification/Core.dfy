/** Vocabulary shared by every component: optional values, bytes and the
    wrapping 32-bit sequence-number space. */
module Options {
  datatype Option<+T> = None | Some(value: T)
}

module Bytes {
  type byte = x: int | 0 <= x < 256
  type u16 = x: int | 0 <= x < 0x1_0000
  type u32 = x: int | 0 <= x < 0x1_0000_0000
  type i16 = x: int | -0x8000 <= x < 0x8000

  /** Big-endian integers, as `u16::from_be_bytes` and `u32::from_be_bytes` read them. */
  function Be16(hi: byte, lo: byte): (n: nat)
    ensures n < 0x1_0000
  {
    hi * 0x100 + lo
  }

  function Be32(a: byte, b: byte, c: byte, d: byte): (n: nat)
    ensures n < 0x1_0000_0000
  {
    Be16(a, b) * 0x1_0000 + Be16(c, d)
  }

  function Put16(n: nat): (s: seq<byte>)
    requires n < 0x1_0000
    ensures |s| == 2 && Be16(s[0], s[1]) == n
  {
    [n / 0x100, n % 0x100]
  }

  function Put32(n: nat): (s: seq<byte>)
    requires n < 0x1_0000_0000
    ensures |s| == 4 && Be32(s[0], s[1], s[2], s[3]) == n
  {
    var high := n / 0x100;
    [high / 0x100 / 0x100, high / 0x100 % 0x100, high % 0x100, n % 0x100]
  }
}

module Endpoints {
  import opened Bytes

  type Octets4 = s: seq<byte> | |s| == 4 witness [0, 0, 0, 0]
  type Octets16 = s: seq<byte> | |s| == 16 witness [0, 0, 0, 0, 0, 0, 0, 0, 0, 0, 0, 0, 0, 0, 0, 0]

  datatype IpAddr = V4(quad: Octets4) | V6(octets: Octets16)

  datatype Endpoint = Endpoint(ip: IpAddr, port: u16)
}

/** TCP sequence numbers: integers modulo 2^32 compared by signed distance
    (section 3.4 of RFC 9293). */
module SequenceSpace {
  import opened Bytes

  const MODULUS: int := 0x1_0000_0000
  const HALF: int := 0x8000_0000

  /** `wrapping_add` keeps the low 32 bits of the mathematical sum. */
  function Wrap(x: int): u32 {
    x % 0x1_0000_0000
  }

  /** `a.wrapping_sub(b) as i32`. */
  function SignedDistance(a: u32, b: u32): (d: int)
    ensures -HALF <= d < HALF
  {
    var d := Wrap(a - b);
    if d < HALF then d else d - MODULUS
  }

  lemma WrapOfNumber(x: u32)
    ensures Wrap(x) == x
  {
  }

  lemma WrapAdd(x: int, y: int)
    ensures Wrap(Wrap(x) + y) == Wrap(x + y)
  {
  }

  /** Positions less than one full turn apart keep distinct sequence numbers. */
  lemma WrapInjective(a: int, b: int)
    requires -MODULUS < a - b < MODULUS
    requires Wrap(a) == Wrap(b)
    ensures a == b
  {
  }

  /** The signed comparison is exact precisely on the half-open half circle. */
  lemma DistanceExact(base: int, a: int, b: int)
    ensures SignedDistance(Wrap(base + a), Wrap(base + b)) == a - b <==> -HALF <= a - b < HALF
  {
  }
}

/** What frame parsing hands to connection tracking. */
module Segments {
  import opened Bytes
  import opened Endpoints

  datatype TcpSegment = TcpSegment(
    src: IpAddr,
    dst: IpAddr,
    srcPort: u16,
    dstPort: u16,
    seqno: u32,
    ack: u32,
    syn: bool,
    fin: bool,
    rst: bool,
    payload: seq<byte>)
}

/** The newest `cap` items: what every bounded buffer here is meant to hold. */
module Bounded {
  function Tail<T>(s: seq<T>, cap: nat): (t: seq<T>)
    ensures |t| <= cap && |t| <= |s|
  {
    if |s| <= cap then s else s[|s| - cap..]
  }

  /** How a queue of at most `cap` items takes one more. */
  lemma OneMore<T>(s: seq<T>, item: T, cap: nat)
    ensures var q := Tail(s, cap);
      Tail(s + [item], cap) == if cap == 0 then [] else if |q| == cap then q[1..] + [item] else q + [item]
  {
  }
}
