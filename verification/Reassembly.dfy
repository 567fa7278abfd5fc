/** What `Direction::feed` computes, as functions of the reassembly state, and
    the same algorithm over unbounded stream offsets that it refines. */
module Reassembly {
  import opened Options
  import opened Bytes
  import opened SequenceSpace

  /** The two reassembly fields of a direction: the next wanted sequence number
      and the segments buffered ahead of it, keyed by their first byte. */
  datatype Rx = Rx(next: Option<u32>, ooo: map<u32, seq<byte>>)

  const FRESH_RX := Rx(None, map[])

  datatype Segment = Segment(seqno: u32, syn: bool, data: seq<byte>)

  /** State after a feed, with the bytes it appended to the receive buffer. */
  datatype Fed = Fed(rx: Rx, appended: seq<byte>)

  datatype Drained = Drained(ooo: map<u32, seq<byte>>, adv: u32, bytes: seq<byte>)

  function DrainAhead(ooo: map<u32, seq<byte>>, adv: u32): Drained
    decreases ooo.Keys
  {
    if adv in ooo then
      var rest := DrainAhead(ooo - {adv}, Wrap(adv + |ooo[adv]|));
      Drained(rest.ooo, rest.adv, ooo[adv] + rest.bytes)
    else
      Drained(ooo, adv, [])
  }

  /** Bytes of a segment that start before the delivery point. Negating the
      most negative distance wraps back to itself, and its cast to a 64-bit
      `usize` is then larger than any payload. */
  function Skip(diff: int): (skip: nat)
    requires -HALF <= diff <= 0
  {
    if diff == -HALF then 0x1_0000_0000_0000_0000 - HALF else -diff
  }

  function AfterSyn(rx: Rx, seg: Segment): Rx {
    if seg.syn then rx.(next := Some(Wrap(seg.seqno + 1))) else rx
  }

  function FeedAt(ooo: map<u32, seq<byte>>, next: u32, seqno: u32, data: seq<byte>): (f: Fed)
    ensures f.rx.next.Some?
  {
    var diff := SignedDistance(seqno, next);
    if diff > 0 then
      Fed(Rx(Some(next), ooo[seqno := data]), [])
    else if diff < 0 && Skip(diff) >= |data| then
      Fed(Rx(Some(next), ooo), [])
    else
      var skip := Skip(diff);
      var chunk := data[skip..];
      var d := DrainAhead(ooo, Wrap(Wrap(seqno + skip) + |chunk|));
      Fed(Rx(Some(d.adv), d.ooo), chunk + d.bytes)
  }

  function Feed(rx: Rx, seg: Segment): Fed {
    var rx := AfterSyn(rx, seg);
    if seg.data == [] then
      Fed(rx, [])
    else
      FeedAt(rx.ooo, if rx.next.Some? then rx.next.value else seg.seqno, seg.seqno, seg.data)
  }

  /** Feeding a whole run; `appended` is everything ever appended. */
  function FeedAll(rx: Rx, run: seq<Segment>): Fed {
    if run == [] then
      Fed(rx, [])
    else
      var before := FeedAll(rx, run[..|run| - 1]);
      var last := Feed(before.rx, run[|run| - 1]);
      Fed(last.rx, before.appended + last.appended)
  }

  // ----- the reassembler over unbounded offsets -----

  datatype Ideal = Ideal(next: nat, ooo: map<nat, seq<byte>>)

  datatype IdealFed = IdealFed(state: Ideal, appended: seq<byte>)

  function IdealDrain(ooo: map<nat, seq<byte>>, adv: nat): IdealFed
    decreases ooo.Keys
  {
    if adv in ooo then
      var rest := IdealDrain(ooo - {adv}, adv + |ooo[adv]|);
      IdealFed(rest.state, ooo[adv] + rest.appended)
    else
      IdealFed(Ideal(adv, ooo), [])
  }

  function IdealFeed(s: Ideal, off: nat, data: seq<byte>): IdealFed {
    if off > s.next then
      IdealFed(s.(ooo := s.ooo[off := data]), [])
    else if s.next - off >= |data| then
      IdealFed(s, [])
    else
      var chunk := data[s.next - off..];
      var d := IdealDrain(s.ooo, s.next + |chunk|);
      IdealFed(d.state, chunk + d.appended)
  }

  // ----- refinement -----

  ghost predicate IsKeyOf(ideal: map<nat, seq<byte>>, base: int, k: u32) {
    exists o :: o in ideal && Wrap(base + o) == k
  }

  ghost predicate SameBuffer(ooo: map<u32, seq<byte>>, ideal: map<nat, seq<byte>>, base: int) {
    && (forall o {:trigger ideal[o]} :: o in ideal ==> Wrap(base + o) in ooo && ooo[Wrap(base + o)] == ideal[o])
    && (forall k :: k in ooo ==> IsKeyOf(ideal, base, k))
  }

  /** `base` is the sequence number of stream offset 0. */
  ghost predicate Refines(rx: Rx, s: Ideal, base: int) {
    && rx.next == Some(Wrap(base + s.next))
    && SameBuffer(rx.ooo, s.ooo, base)
  }

  /** Everything buffered lies within one turn of the number circle above `lo`. */
  ghost predicate WithinTurn(ideal: map<nat, seq<byte>>, lo: nat) {
    forall o {:trigger ideal[o]} :: o in ideal ==> lo <= o && o + |ideal[o]| < lo + MODULUS
  }

  lemma RemovedKnown(ooo: map<u32, seq<byte>>, ideal: map<nat, seq<byte>>, base: int, at: nat, k: u32)
    requires SameBuffer(ooo, ideal, base) && at in ideal
    requires k in ooo && k != Wrap(base + at)
    ensures IsKeyOf(ideal - {at}, base, k)
  {
    hide Wrap;
    assert IsKeyOf(ideal, base, k);
    var o :| o in ideal && Wrap(base + o) == k;
    assert o in ideal - {at};
  }

  lemma SameBufferRemove(ooo: map<u32, seq<byte>>, ideal: map<nat, seq<byte>>, base: int, lo: nat, at: nat)
    requires SameBuffer(ooo, ideal, base) && WithinTurn(ideal, lo)
    requires at in ideal
    ensures SameBuffer(ooo - {Wrap(base + at)}, ideal - {at}, base)
  {
    hide Wrap, IsKeyOf;
    var key := Wrap(base + at);
    forall o | o in ideal - {at}
      ensures Wrap(base + o) in ooo - {key}
    {
      if Wrap(base + o) == key { WrapInjective(base + o, base + at); }
    }
    forall k | k in ooo - {key} {
      RemovedKnown(ooo, ideal, base, at, k);
    }
  }

  lemma InsertedFound(ooo: map<u32, seq<byte>>, ideal: map<nat, seq<byte>>, base: int, lo: nat,
                      at: nat, data: seq<byte>, o: nat)
    requires SameBuffer(ooo, ideal, base) && WithinTurn(ideal, lo)
    requires lo <= at < lo + MODULUS && o in ideal
    ensures var ooo' := ooo[Wrap(base + at) := data];
      Wrap(base + o) in ooo' && ooo'[Wrap(base + o)] == ideal[at := data][o]
  {
    hide Wrap, IsKeyOf;
    if o != at && Wrap(base + o) == Wrap(base + at) {
      WrapInjective(base + o, base + at);
    }
  }

  lemma InsertedKnown(ooo: map<u32, seq<byte>>, ideal: map<nat, seq<byte>>, base: int,
                      at: nat, data: seq<byte>, k: u32)
    requires SameBuffer(ooo, ideal, base)
    requires k in ooo[Wrap(base + at) := data]
    ensures IsKeyOf(ideal[at := data], base, k)
  {
    hide Wrap;
    if k == Wrap(base + at) {
      assert at in ideal[at := data];
    } else {
      assert IsKeyOf(ideal, base, k);
      var o :| o in ideal && Wrap(base + o) == k;
      assert o in ideal[at := data];
    }
  }

  lemma SameBufferInsert(ooo: map<u32, seq<byte>>, ideal: map<nat, seq<byte>>, base: int, lo: nat,
                         at: nat, data: seq<byte>)
    requires SameBuffer(ooo, ideal, base) && WithinTurn(ideal, lo)
    requires lo <= at < lo + MODULUS
    ensures SameBuffer(ooo[Wrap(base + at) := data], ideal[at := data], base)
  {
    hide Wrap, IsKeyOf;
    forall o | o in ideal {
      InsertedFound(ooo, ideal, base, lo, at, data, o);
    }
    var ooo' := ooo[Wrap(base + at) := data];
    forall k | k in ooo' {
      InsertedKnown(ooo, ideal, base, at, data, k);
    }
  }

  lemma {:induction false} DrainRefines(ooo: map<u32, seq<byte>>, ideal: map<nat, seq<byte>>, base: int, lo: nat,
                                        adv: nat)
    requires SameBuffer(ooo, ideal, base) && WithinTurn(ideal, lo)
    requires lo <= adv < lo + MODULUS
    ensures var d, i := DrainAhead(ooo, Wrap(base + adv)), IdealDrain(ideal, adv);
      d.bytes == i.appended && Refines(Rx(Some(d.adv), d.ooo), i.state, base)
    decreases ideal.Keys
  {
    hide Wrap;
    if adv in ideal {
      SameBufferRemove(ooo, ideal, base, lo, adv);
      WrapAdd(base + adv, |ideal[adv]|);
      DrainRefines(ooo - {Wrap(base + adv)}, ideal - {adv}, base, lo, adv + |ideal[adv]|);
    } else if Wrap(base + adv) in ooo {
      var o :| o in ideal && Wrap(base + o) == Wrap(base + adv);
      WrapInjective(base + o, base + adv);
      assert false;
    }
  }

  /** One data segment: the wrapping code takes the step the unbounded
      reassembler takes, as long as the segment starts less than half a turn
      from the delivery point and all buffered data fits in one turn. */
  lemma FeedRefines(rx: Rx, s: Ideal, base: int, lo: nat, off: nat, data: seq<byte>)
    requires Refines(rx, s, base) && WithinTurn(s.ooo, lo)
    requires data != [] && |data| < HALF
    requires -HALF < off - s.next < HALF
    requires lo <= s.next && s.next + |data| < lo + MODULUS && off < lo + MODULUS
    ensures var f, i := Feed(rx, Segment(Wrap(base + off), false, data)), IdealFeed(s, off, data);
      f.appended == i.appended && Refines(f.rx, i.state, base)
  {
    hide Wrap, SignedDistance, DrainAhead, IdealDrain, SameBuffer;
    DistanceExact(base, off, s.next);
    if off > s.next {
      SameBufferInsert(rx.ooo, s.ooo, base, lo, off, data);
    } else if s.next - off < |data| {
      var skip := s.next - off;
      WrapAdd(base + off, skip);
      WrapAdd(base + s.next, |data| - skip);
      DrainRefines(rx.ooo, s.ooo, base, lo, s.next + |data| - skip);
    }
  }

  /** A pure acknowledgement changes nothing at any sequence number. */
  lemma AckIsNeutral(rx: Rx, seqno: u32)
    ensures Feed(rx, Segment(seqno, false, [])) == Fed(rx, [])
  {
  }
}
