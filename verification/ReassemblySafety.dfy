/** Safety of reassembly: whatever order, overlap or duplication the slices of
    one sender stream arrive in, only that stream is ever delivered. */
module ReassemblySafety {
  import opened Options
  import opened Bytes
  import opened SequenceSpace
  import opened Reassembly

  predicate IsSlice(stream: seq<byte>, off: nat, data: seq<byte>) {
    off + |data| <= |stream| && data == stream[off..off + |data|]
  }

  ghost predicate HoldsSlices(stream: seq<byte>, ooo: map<nat, seq<byte>>) {
    forall o {:trigger ooo[o]} :: o in ooo ==> IsSlice(stream, o, ooo[o])
  }

  lemma {:induction false} IdealDrainSafe(stream: seq<byte>, ooo: map<nat, seq<byte>>, adv: nat)
    requires HoldsSlices(stream, ooo) && adv <= |stream|
    ensures var d := IdealDrain(ooo, adv);
      && adv <= d.state.next <= |stream|
      && d.appended == stream[adv..d.state.next]
      && HoldsSlices(stream, d.state.ooo)
      && d.state.next !in d.state.ooo
    decreases ooo.Keys
  {
    if adv in ooo {
      assert IsSlice(stream, adv, ooo[adv]);
      IdealDrainSafe(stream, ooo - {adv}, adv + |ooo[adv]|);
    }
  }

  /** One slice moves the delivery point forward over the stream itself, past
      the slice whenever the slice starts at or before the delivery point. */
  lemma IdealFeedSafe(stream: seq<byte>, s: Ideal, off: nat, data: seq<byte>)
    requires HoldsSlices(stream, s.ooo) && s.next <= |stream|
    requires IsSlice(stream, off, data)
    ensures var i := IdealFeed(s, off, data);
      && s.next <= i.state.next <= |stream|
      && i.appended == stream[s.next..i.state.next]
      && HoldsSlices(stream, i.state.ooo)
      && (off <= s.next ==> off + |data| <= i.state.next)
      && (s.next !in s.ooo ==> i.state.next !in i.state.ooo)
  {
    if off <= s.next && s.next - off < |data| {
      IdealDrainSafe(stream, s.ooo, off + |data|);
      assert data[s.next - off..] == stream[s.next..off + |data|];
    }
  }

  ghost predicate Buffered(ooo: map<nat, seq<byte>>, p: nat) {
    exists o :: o in ooo && o <= p < o + |ooo[o]|
  }

  lemma {:induction false} IdealDrainKeepsAhead(ooo: map<nat, seq<byte>>, adv: nat, p: nat)
    requires IdealDrain(ooo, adv).state.next <= p
    ensures adv <= p && Buffered(IdealDrain(ooo, adv).state.ooo, p) == Buffered(ooo, p)
    decreases ooo.Keys
  {
    if adv in ooo {
      var rest := ooo - {adv};
      IdealDrainKeepsAhead(rest, adv + |ooo[adv]|, p);
      if Buffered(ooo, p) {
        var o :| o in ooo && o <= p < o + |ooo[o]|;
        assert o in rest && rest[o] == ooo[o];
      }
      if Buffered(rest, p) {
        var o :| o in rest && o <= p < o + |rest[o]|;
        assert o in ooo && ooo[o] == rest[o];
      }
    }
  }

  /** Ahead of the delivery point a slice adds its own positions and, unless it
      replaces a longer buffered slice, loses none. */
  lemma IdealFeedKeepsAhead(s: Ideal, off: nat, data: seq<byte>, p: nat)
    requires off > s.next && off in s.ooo ==> |s.ooo[off]| <= |data|
    requires IdealFeed(s, off, data).state.next <= p
    ensures s.next <= p
    ensures Buffered(IdealFeed(s, off, data).state.ooo, p) <==>
            Buffered(s.ooo, p) || off <= p < off + |data|
  {
    if off > s.next {
      var ooo := s.ooo[off := data];
      if Buffered(s.ooo, p) {
        var o :| o in s.ooo && o <= p < o + |s.ooo[o]|;
        assert o in ooo;
      }
      if Buffered(ooo, p) {
        var o :| o in ooo && o <= p < o + |ooo[o]|;
        assert o != off ==> o in s.ooo;
      }
      assert off in ooo;
    } else if s.next - off < |data| {
      IdealDrainKeepsAhead(s.ooo, off + |data|, p);
    }
  }

  // ----- runs of captured segments -----

  predicate IsPureSyn(isn: u32, seg: Segment) {
    seg.syn && seg.seqno == isn && seg.data == []
  }

  /** A segment that carries nothing, or exactly the bytes the sender has at
      the offset its sequence number names. */
  predicate IsTrueData(stream: seq<byte>, isn: u32, seg: Segment) {
    !seg.syn && (seg.data == [] || IsSlice(stream, Wrap(seg.seqno - isn - 1), seg.data))
  }

  /** Any mix of true data and acknowledgements; SYNs, if captured at all, come
      before the first delivered byte. */
  ghost predicate Admissible(stream: seq<byte>, isn: u32, run: seq<Segment>) {
    run == [] ||
    var before, last := run[..|run| - 1], run[|run| - 1];
    && Admissible(stream, isn, before)
    && (IsTrueData(stream, isn, last) || (IsPureSyn(isn, last) && FeedAll(FRESH_RX, before).appended == []))
  }

  /** The stream offset at which delivery starts: 0 once a SYN was seen, else
      wherever the first captured data begins. */
  function Anchor(isn: u32, run: seq<Segment>): nat {
    if run == [] then
      0
    else
      var before, last := run[..|run| - 1], run[|run| - 1];
      if FeedAll(FRESH_RX, before).rx.next.Some? && !last.syn then Anchor(isn, before)
      else if last.syn || last.data == [] then 0
      else Wrap(last.seqno - isn - 1)
  }

  lemma SeqnoOfOffset(isn: u32, seqno: u32)
    ensures Wrap(isn + 1 + Wrap(seqno - isn - 1)) == seqno
  {
    WrapAdd(seqno - isn - 1, isn + 1);
  }

  /** Stream position `p` was carried by some segment of the run. */
  predicate Received(isn: u32, run: seq<Segment>, p: nat) {
    run != [] &&
    var before, last := run[..|run| - 1], run[|run| - 1];
    (var off := Wrap(last.seqno - isn - 1); off <= p < off + |last.data|) || Received(isn, before, p)
  }

  /** No segment of the run replaced a longer one buffered under the same key. */
  predicate NeverShrinks(run: seq<Segment>) {
    run == [] ||
    var before, last := run[..|run| - 1], run[|run| - 1];
    var rx := FeedAll(FRESH_RX, before).rx;
    && NeverShrinks(before)
    && (rx.next.Some? && SignedDistance(last.seqno, rx.next.value) > 0 && last.seqno in rx.ooo && last.data != []
        ==> |rx.ooo[last.seqno]| <= |last.data|)
  }

  ghost predicate Retains(isn: u32, run: seq<Segment>, s: Ideal) {
    forall p: nat :: s.next <= p ==> Received(isn, run, p) == Buffered(s.ooo, p)
  }

  ghost predicate Mirrors(stream: seq<byte>, isn: u32, f: Fed, anchor: nat, s: Ideal) {
    && Refines(f.rx, s, isn + 1)
    && HoldsSlices(stream, s.ooo)
    && s.next !in s.ooo
    && s.next == anchor + |f.appended| <= |stream|
    && f.appended == stream[anchor..s.next]
  }

  lemma EmptyMirror(stream: seq<byte>, isn: u32, anchor: nat)
    requires anchor <= |stream|
    ensures Mirrors(stream, isn, Fed(Rx(Some(Wrap(isn + 1 + anchor)), map[]), []), anchor, Ideal(anchor, map[]))
  {
  }

  /** The unbounded reassembler that shadows a run whose delivery point is known. */
  lemma DataStep(stream: seq<byte>, isn: u32, f: Fed, anchor: nat, s: Ideal, seg: Segment) returns (s': Ideal)
    requires |stream| < HALF && Mirrors(stream, isn, f, anchor, s)
    requires IsTrueData(stream, isn, seg) && seg.data != []
    ensures var g := Feed(f.rx, seg); Mirrors(stream, isn, Fed(g.rx, f.appended + g.appended), anchor, s')
    ensures s' == IdealFeed(s, Wrap(seg.seqno - isn - 1), seg.data).state
  {
    hide Wrap, Feed, SignedDistance;
    var off := Wrap(seg.seqno - isn - 1);
    SeqnoOfOffset(isn, seg.seqno);
    assert seg == Segment(Wrap(isn + 1 + off), false, seg.data);
    FeedRefines(f.rx, s, isn + 1, 0, off, seg.data);
    IdealFeedSafe(stream, s, off, seg.data);
    s' := IdealFeed(s, off, seg.data).state;
  }

  /** The run-level no-shrink condition, read off the unbounded reassembler. */
  lemma NoShrinkAtOffset(isn: u32, run: seq<Segment>, s: Ideal)
    requires run != [] && NeverShrinks(run)
    requires var rx := FeedAll(FRESH_RX, run[..|run| - 1]).rx; rx.next.Some? && Refines(rx, s, isn + 1)
    requires s.next < HALF && run[|run| - 1].data != []
    ensures var seg := run[|run| - 1];
      var off := Wrap(seg.seqno - isn - 1);
      off < HALF && off > s.next && off in s.ooo ==> |s.ooo[off]| <= |seg.data|
  {
    hide Wrap, FeedAll, SignedDistance, IsKeyOf;
    var seg := run[|run| - 1];
    var off := Wrap(seg.seqno - isn - 1);
    SeqnoOfOffset(isn, seg.seqno);
    DistanceExact(isn + 1, off, s.next);
    if off in s.ooo {
      assert |s.ooo[off]| == |s.ooo[off]|;
    }
  }

  lemma RetainsStep(isn: u32, run: seq<Segment>, s: Ideal)
    requires run != [] && Retains(isn, run[..|run| - 1], s)
    requires var seg := run[|run| - 1]; var off := Wrap(seg.seqno - isn - 1);
      off > s.next && off in s.ooo ==> |s.ooo[off]| <= |seg.data|
    ensures var seg := run[|run| - 1]; Retains(isn, run, IdealFeed(s, Wrap(seg.seqno - isn - 1), seg.data).state)
  {
    hide Wrap, IdealFeed, Buffered;
    var seg := run[|run| - 1];
    var off := Wrap(seg.seqno - isn - 1);
    forall p: nat | IdealFeed(s, off, seg.data).state.next <= p
      ensures Received(isn, run, p) == Buffered(IdealFeed(s, off, seg.data).state.ooo, p)
    {
      IdealFeedKeepsAhead(s, off, seg.data, p);
    }
  }

  lemma {:induction false} Shadow(stream: seq<byte>, isn: u32, run: seq<Segment>) returns (s: Ideal)
    requires |stream| < HALF && Admissible(stream, isn, run)
    ensures var f := FeedAll(FRESH_RX, run);
      if f.rx.next.None? then f.appended == [] && f.rx.ooo == map[]
      else Mirrors(stream, isn, f, Anchor(isn, run), s)
    ensures FeedAll(FRESH_RX, run).rx.next.None? ==> forall p: nat :: !Received(isn, run, p)
    ensures FeedAll(FRESH_RX, run).rx.next.Some? && NeverShrinks(run) ==> Retains(isn, run, s)
  {
    hide Wrap, FeedAt;
    if run == [] {
      s := Ideal(0, map[]);
    } else {
      var before, last := run[..|run| - 1], run[|run| - 1];
      var f := FeedAll(FRESH_RX, before);
      var t := Shadow(stream, isn, before);
      assert f.appended + [] == f.appended;
      if IsPureSyn(isn, last) {
        s := if f.rx.next.None? then Ideal(0, map[]) else t;
        // Nothing delivered yet, so the anchor of an open run was the SYN's.
        EmptyMirror(stream, isn, 0);
        if f.rx.next.Some? {
          SynBeforeDelivery(stream, isn, before);
        }
        forall p: nat | s.next <= p && NeverShrinks(run)
          ensures Received(isn, run, p) == Buffered(s.ooo, p)
        {
          assert Received(isn, run, p) == Received(isn, before, p);
        }
      } else if last.data == [] {
        s := t;
        assert f.rx.next.Some? && NeverShrinks(run) ==> Retains(isn, run, s);
      } else if f.rx.next.Some? {
        s := DataStep(stream, isn, f, Anchor(isn, before), t, last);
        if NeverShrinks(run) {
          NoShrinkAtOffset(isn, run, t);
          RetainsStep(isn, run, t);
        }
        assert NeverShrinks(run) ==> Retains(isn, run, s);
      } else {
        var off := Wrap(last.seqno - isn - 1);
        SeqnoOfOffset(isn, last.seqno);
        EmptyMirror(stream, isn, off);
        var g := Fed(Rx(Some(last.seqno), map[]), []);
        s := DataStep(stream, isn, g, off, Ideal(off, map[]), last);
        assert Feed(f.rx, last) == Feed(g.rx, last);
        RetainsStep(isn, run, Ideal(off, map[]));
        assert Retains(isn, run, s);
      }
    }
  }

  lemma FeedAtProgress(ooo: map<u32, seq<byte>>, next: u32, seqno: u32, data: seq<byte>)
    requires data != []
    ensures var f := FeedAt(ooo, next, seqno, data);
      && (f.appended == [] ==> f.rx.next == Some(next))
      && (seqno == next ==> f.appended != [])
  {
    hide DrainAhead;
  }

  /** If the delivery point is set but nothing has been delivered, a SYN set it. */
  lemma {:induction false} SynBeforeDelivery(stream: seq<byte>, isn: u32, run: seq<Segment>)
    requires |stream| < HALF && Admissible(stream, isn, run)
    requires FeedAll(FRESH_RX, run).appended == [] && FeedAll(FRESH_RX, run).rx.next.Some?
    ensures Anchor(isn, run) == 0 && FeedAll(FRESH_RX, run).rx.next == Some(Wrap(isn + 1))
  {
    hide Wrap, FeedAt;
    var before, last := run[..|run| - 1], run[|run| - 1];
    var f := FeedAll(FRESH_RX, before);
    var g := Feed(f.rx, last);
    assert |f.appended| + |g.appended| == 0;
    if last.data != [] {
      FeedAtProgress(f.rx.ooo, if f.rx.next.Some? then f.rx.next.value else last.seqno, last.seqno, last.data);
    }
    if !last.syn && f.rx.next.Some? {
      SynBeforeDelivery(stream, isn, before);
    }
  }

  // ----- main results -----

  /** Any run over a stream shorter than half the sequence space, with or
      without its SYN: what was appended is exactly one contiguous part of the
      stream starting at the anchor, the next sequence number counts it, and
      everything still buffered is true stream data. */
  lemma DeliversOnlyTheStream(stream: seq<byte>, isn: u32, run: seq<Segment>)
    requires |stream| < HALF && Admissible(stream, isn, run)
    ensures var f := FeedAll(FRESH_RX, run); var a := Anchor(isn, run);
      && (f.rx.next.None? ==> f.appended == [])
      && (f.rx.next.Some? ==>
            && a + |f.appended| <= |stream|
            && f.appended == stream[a..a + |f.appended|]
            && f.rx.next == Some(Wrap(isn + 1 + a + |f.appended|)))
    ensures run != [] && run[0].syn ==> Anchor(isn, run) == 0
    ensures var ooo := FeedAll(FRESH_RX, run).rx.ooo;
      forall k :: k in ooo ==> IsTrueData(stream, isn, Segment(k, false, ooo[k]))
  {
    hide Wrap, FeedAll, Anchor, Admissible, SameBuffer, HoldsSlices, IsTrueData;
    var f := FeedAll(FRESH_RX, run);
    var s := Shadow(stream, isn, run);
    if f.rx.next.Some? {
      forall k | k in f.rx.ooo
        ensures IsTrueData(stream, isn, Segment(k, false, f.rx.ooo[k]))
      {
        var o := OffsetBehindKey(stream, isn, f.rx.ooo, s.ooo, k);
      }
    }
    if run != [] && run[0].syn {
      SynFirstAnchorsAtZero(stream, isn, run);
    }
  }

  lemma OffsetOfSeqno(isn: u32, o: nat)
    requires o < MODULUS
    ensures Wrap(Wrap(isn + 1 + o) - isn - 1) == o
  {
  }

  lemma SliceAt(stream: seq<byte>, ooo: map<nat, seq<byte>>, o: nat)
    requires HoldsSlices(stream, ooo) && o in ooo
    ensures IsSlice(stream, o, ooo[o]) && o + |ooo[o]| <= |stream|
  {
  }

  lemma TrueDataAt(stream: seq<byte>, isn: u32, o: nat, data: seq<byte>)
    requires |stream| < HALF && IsSlice(stream, o, data)
    ensures IsTrueData(stream, isn, Segment(Wrap(isn + 1 + o), false, data))
  {
    hide Wrap;
    OffsetOfSeqno(isn, o);
  }

  lemma KeyOffset(ooo: map<u32, seq<byte>>, ideal: map<nat, seq<byte>>, base: int, k: u32) returns (o: nat)
    requires SameBuffer(ooo, ideal, base) && k in ooo
    ensures o in ideal && Wrap(base + o) == k && ideal[o] == ooo[k]
  {
    hide Wrap;
    assert IsKeyOf(ideal, base, k);
    o :| o in ideal && Wrap(base + o) == k;
  }

  /** The stream offset of a buffered segment, from its wrapping key. */
  lemma OffsetBehindKey(stream: seq<byte>, isn: u32, ooo: map<u32, seq<byte>>, ideal: map<nat, seq<byte>>, k: u32)
      returns (o: nat)
    requires |stream| < HALF && HoldsSlices(stream, ideal)
    requires SameBuffer(ooo, ideal, isn + 1) && k in ooo
    ensures o in ideal && ideal[o] == ooo[k] && k == Wrap(isn + 1 + o) && o + |ooo[k]| <= |stream|
    ensures IsTrueData(stream, isn, Segment(k, false, ooo[k]))
  {
    hide Wrap, IsSlice, HoldsSlices, IsTrueData;
    o := KeyOffset(ooo, ideal, isn + 1, k);
    SliceAt(stream, ideal, o);
    TrueDataAt(stream, isn, o, ideal[o]);
  }

  lemma {:induction false} SynFirstAnchorsAtZero(stream: seq<byte>, isn: u32, run: seq<Segment>)
    requires run != [] && run[0].syn
    ensures Anchor(isn, run) == 0 && FeedAll(FRESH_RX, run).rx.next.Some?
  {
    hide Wrap, FeedAt;
    var before, last := run[..|run| - 1], run[|run| - 1];
    if before != [] {
      SynFirstAnchorsAtZero(stream, isn, before);
    }
  }

  /** Nothing buffered starts behind the delivery point and reaches past it. */
  predicate NoStraddler(rx: Rx) {
    rx.next.Some? ==>
      forall k :: k in rx.ooo ==>
        SignedDistance(k, rx.next.value) < 0 ==> -SignedDistance(k, rx.next.value) >= |rx.ooo[k]|
  }

  /** The straddler test on wrapping keys is the test on stream offsets. */
  lemma StraddlerIsBuffered(stream: seq<byte>, isn: u32, f: Fed, anchor: nat, s: Ideal)
    requires |stream| < HALF && Mirrors(stream, isn, f, anchor, s)
    ensures NoStraddler(f.rx) <==> !Buffered(s.ooo, s.next)
  {
    hide Wrap, SignedDistance, IsSlice, IsKeyOf;
    if Buffered(s.ooo, s.next) {
      var o :| o in s.ooo && o <= s.next < o + |s.ooo[o]|;
      DistanceExact(isn + 1, o, s.next);
      assert Wrap(isn + 1 + o) in f.rx.ooo && f.rx.ooo[Wrap(isn + 1 + o)] == s.ooo[o];
    }
    hide SameBuffer, HoldsSlices;
    if !NoStraddler(f.rx) {
      var k :| k in f.rx.ooo && SignedDistance(k, f.rx.next.value) < 0
        && -SignedDistance(k, f.rx.next.value) < |f.rx.ooo[k]|;
      var o := OffsetBehindKey(stream, isn, f.rx.ooo, s.ooo, k);
      DistanceExact(isn + 1, o, s.next);
    }
  }

  /** Completeness for arbitrary overlaps: as long as no arrival shrank a
      buffered segment, every contiguously received byte has been delivered if
      and only if no buffered segment straddles the delivery point. */
  lemma CompleteUnlessStraddled(stream: seq<byte>, isn: u32, run: seq<Segment>)
    requires |stream| < HALF && Admissible(stream, isn, run) && NeverShrinks(run)
    requires FeedAll(FRESH_RX, run).rx.next.Some?
    ensures var f := FeedAll(FRESH_RX, run);
      !Received(isn, run, Anchor(isn, run) + |f.appended|) <==> NoStraddler(f.rx)
  {
    hide Admissible, NeverShrinks, FeedAll, NoStraddler, Received, Buffered;
    var s := Shadow(stream, isn, run);
    StraddlerIsBuffered(stream, isn, FeedAll(FRESH_RX, run), Anchor(isn, run), s);
  }

  lemma RunSnoc(stream: seq<byte>, isn: u32, before: seq<Segment>, last: Segment, p: nat)
    ensures var run := before + [last];
      var rx := FeedAll(FRESH_RX, before).rx;
      && FeedAll(FRESH_RX, run).rx == Feed(rx, last).rx
      && FeedAll(FRESH_RX, run).appended == FeedAll(FRESH_RX, before).appended + Feed(rx, last).appended
      && (Admissible(stream, isn, before) && IsTrueData(stream, isn, last) ==> Admissible(stream, isn, run))
      && (NeverShrinks(before) && last.seqno !in rx.ooo ==> NeverShrinks(run))
      && (Received(isn, run, p) <==>
          Received(isn, before, p) || (var off := Wrap(last.seqno - isn - 1); off <= p < off + |last.data|))
  {
    hide Feed, SignedDistance, Wrap;
    assert (before + [last])[..|before|] == before;
  }

  /** A five-byte stream whose overlapping arrivals leave a received byte
      undelivered: a buffered slice straddles the delivery point. */
  lemma StraddlingSliceStalls()
    ensures var stream := [10, 11, 12, 13, 14];
      var run := [Segment(0, true, [])] + [Segment(2, false, [11, 12, 13])] + [Segment(1, false, [10, 11])];
      && Admissible(stream, 0, run) && NeverShrinks(run)
      && FeedAll(FRESH_RX, run).appended == [10, 11] && Received(0, run, 2)
  {
    hide FeedAll, Feed, Wrap, IsTrueData, Admissible, NeverShrinks, Received;
    var stream: seq<byte> := [10, 11, 12, 13, 14];
    var syn, ahead, first := Segment(0, true, []), Segment(2, false, [11, 12, 13]), Segment(1, false, [10, 11]);
    assert IsTrueData(stream, 0, ahead) && IsTrueData(stream, 0, first) by {
      StraddlingSlices();
    }
    StraddlingFeeds();
    SynRun(stream, 0);
    RunSnoc(stream, 0, [syn], ahead, 2);
    RunSnoc(stream, 0, [syn] + [ahead], first, 2);
  }

  lemma StraddlingSlices()
    ensures var stream := [10, 11, 12, 13, 14];
      && IsTrueData(stream, 0, Segment(2, false, [11, 12, 13]))
      && IsTrueData(stream, 0, Segment(1, false, [10, 11]))
  {
  }

  lemma StraddlingFeeds()
    ensures var ooo: map<u32, seq<byte>> := map[2 := [11, 12, 13]];
      && Wrap(0 + 1) == Wrap(2 - 0 - 1) == 1
      && Feed(Rx(Some(1), map[]), Segment(2, false, [11, 12, 13])) == Fed(Rx(Some(1), ooo), [])
      && Feed(Rx(Some(1), ooo), Segment(1, false, [10, 11])) == Fed(Rx(Some(3), ooo), [10, 11])
  {
    hide Feed;
    LongSliceIsBuffered();
    FirstSliceDelivers();
  }

  lemma LongSliceIsBuffered()
    ensures Feed(Rx(Some(1), map[]), Segment(2, false, [11, 12, 13])) == Fed(Rx(Some(1), map[2 := [11, 12, 13]]), [])
  {
    hide DrainAhead;
    assert SignedDistance(2, 1) == 1;
  }

  lemma FirstSliceDelivers()
    ensures var ooo: map<u32, seq<byte>> := map[2 := [11, 12, 13]];
      Feed(Rx(Some(1), ooo), Segment(1, false, [10, 11])) == Fed(Rx(Some(3), ooo), [10, 11])
  {
    var ooo: map<u32, seq<byte>> := map[2 := [11, 12, 13]];
    assert SignedDistance(1, 1) == 0;
    assert DrainAhead(ooo, 3) == Drained(ooo, 3, []);
  }

  lemma SynRun(stream: seq<byte>, isn: u32)
    ensures var run := [Segment(isn, true, [])];
      && FeedAll(FRESH_RX, run) == Fed(Rx(Some(Wrap(isn + 1)), map[]), [])
      && Admissible(stream, isn, run) && NeverShrinks(run)
  {
    var run := [Segment(isn, true, [])];
    assert run[..0] == [];
  }

  /** The same stream with no straddler, yet a received byte is gone: a shorter
      retransmission replaced the longer slice buffered under its key. */
  lemma ShrunkSliceStalls()
    ensures var stream := [10, 11, 12, 13, 14];
      var run := [Segment(0, true, [])] + [Segment(2, false, [11, 12, 13])] + [Segment(2, false, [11])]
        + [Segment(1, false, [10])];
      && Admissible(stream, 0, run) && FeedAll(FRESH_RX, run).rx.ooo == map[]
      && FeedAll(FRESH_RX, run).appended == [10, 11] && Received(0, run, 2)
  {
    hide FeedAll, Feed, Wrap, IsTrueData, Admissible, NeverShrinks, Received;
    var stream: seq<byte> := [10, 11, 12, 13, 14];
    var syn, ahead, short, first :=
      Segment(0, true, []), Segment(2, false, [11, 12, 13]), Segment(2, false, [11]), Segment(1, false, [10]);
    assert IsTrueData(stream, 0, ahead) && IsTrueData(stream, 0, short) && IsTrueData(stream, 0, first) by {
      ShrunkSlices();
    }
    ShrunkFeeds();
    SynRun(stream, 0);
    RunSnoc(stream, 0, [syn], ahead, 2);
    RunSnoc(stream, 0, [syn] + [ahead], short, 2);
    RunSnoc(stream, 0, [syn] + [ahead] + [short], first, 2);
  }

  lemma ShrunkSlices()
    ensures var stream := [10, 11, 12, 13, 14];
      && IsTrueData(stream, 0, Segment(2, false, [11, 12, 13]))
      && IsTrueData(stream, 0, Segment(2, false, [11]))
      && IsTrueData(stream, 0, Segment(1, false, [10]))
  {
  }

  lemma ShrunkFeeds()
    ensures var ooo: map<u32, seq<byte>> := map[2 := [11, 12, 13]]; var short: map<u32, seq<byte>> := map[2 := [11]];
      && Wrap(0 + 1) == Wrap(2 - 0 - 1) == 1
      && Feed(Rx(Some(1), map[]), Segment(2, false, [11, 12, 13])) == Fed(Rx(Some(1), ooo), [])
      && Feed(Rx(Some(1), ooo), Segment(2, false, [11])) == Fed(Rx(Some(1), short), [])
      && Feed(Rx(Some(1), short), Segment(1, false, [10])) == Fed(Rx(Some(3), map[]), [10, 11])
  {
    LongSliceIsBuffered();
    var ooo: map<u32, seq<byte>> := map[2 := [11]];
    assert DrainAhead(ooo, 2) == Drained(map[], 3, [11]) by {
      assert ooo - {2} == map[];
      assert DrainAhead(ooo - {2}, 3) == Drained(map[], 3, []);
    }
  }

  /** A SYN keeps the position right if and only if nothing was delivered yet. */
  lemma LateSynRewinds(isn: u32, f: Fed)
    requires |f.appended| < MODULUS && f.rx.next == Some(Wrap(isn + 1 + |f.appended|))
    ensures Feed(f.rx, Segment(isn, true, [])).rx.next == Some(Wrap(isn + 1 + |f.appended|)) <==> f.appended == []
  {
    if Wrap(isn + 1 + |f.appended|) == Wrap(isn + 1) {
      WrapInjective(isn + 1 + |f.appended|, isn + 1);
    }
  }

  /** After a retransmitted SYN the first data segment is delivered again. */
  lemma LateSynRedelivers(isn: u32, rx: Rx, data: seq<byte>)
    requires data != []
    ensures var again := Feed(Feed(rx, Segment(isn, true, [])).rx, Segment(Wrap(isn + 1), false, data));
      |data| <= |again.appended| && again.appended[..|data|] == data
  {
  }

  /** From any state, data on the SYN itself loses its first byte, which is taken
      for the SYN's own sequence number; so with nothing buffered it is delivered
      whole if and only if there is none. */
  lemma SynPayloadLosesFirstByte(isn: u32, rx: Rx, data: seq<byte>)
    ensures var f := Feed(rx, Segment(isn, true, data));
      && f.appended == (if |data| <= 1 then [] else data[1..] + DrainAhead(rx.ooo, Wrap(isn + |data|)).bytes)
      && (rx.ooo == map[] ==> (f.appended == data <==> data == []))
  {
    hide DrainAhead;
    var next := Wrap(isn + 1);
    if |data| > 1 {
      WrapAdd(isn + 1, |data| - 1);
      assert SignedDistance(isn, next) == -1;
      assert Wrap(next + |data[1..]|) == Wrap(isn + |data|);
    }
    if rx.ooo == map[] {
      NothingToDrain(Wrap(isn + |data|));
    }
  }

  lemma NothingToDrain(adv: u32)
    ensures DrainAhead(map[], adv).bytes == []
  {
  }
}
