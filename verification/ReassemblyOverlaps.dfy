/** Which overlaps reassembly can live with: the exact sets of slices that are
    delivered completely in every order. */
module ReassemblyOverlaps {
  import opened Bytes
  import opened SequenceSpace
  import opened Reassembly
  import opened ReassemblySafety

  /** The stream positions from `start` up to `end`. */
  datatype Slice = Slice(start: nat, end: nat)

  /** `b` begins inside `a`, past the first byte of the stream, and ends after it. */
  predicate Crosses(a: Slice, b: Slice) {
    0 < b.start && a.start <= b.start < a.end < b.end
  }

  predicate Uncrossed(slices: set<Slice>) {
    forall a, b :: a in slices && b in slices ==> !Crosses(a, b)
  }

  predicate Fits(stream: seq<byte>, s: Slice) {
    s.start <= s.end <= |stream|
  }

  predicate AllFit(stream: seq<byte>, slices: set<Slice>) {
    forall s :: s in slices ==> Fits(stream, s)
  }

  /** The segment that carries a slice. */
  function Carrier(stream: seq<byte>, isn: u32, s: Slice): Segment
    requires Fits(stream, s)
  {
    Segment(Wrap(isn + 1 + s.start), false, stream[s.start..s.end])
  }

  predicate IsAck(seg: Segment) {
    !seg.syn && seg.data == []
  }

  predicate Carries(stream: seq<byte>, isn: u32, slices: set<Slice>, seg: Segment)
    requires AllFit(stream, slices)
  {
    exists s :: s in slices && seg == Carrier(stream, isn, s)
  }

  /** A capture of the slices: the SYN, then slices and acknowledgements in any
      order, each any number of times or never. */
  predicate CaptureOf(stream: seq<byte>, isn: u32, slices: set<Slice>, run: seq<Segment>)
    requires AllFit(stream, slices)
  {
    && run != [] && run[0] == Segment(isn, true, [])
    && forall i :: 0 < i < |run| ==> IsAck(run[i]) || Carries(stream, isn, slices, run[i])
  }

  /** No byte that follows the delivered ones was received. */
  predicate Complete(isn: u32, run: seq<Segment>) {
    !Received(isn, run, |FeedAll(FRESH_RX, run).appended|)
  }

  // ----- where the delivery point can get -----

  /** Where delivery stands after a chain of slices, in order from the start. */
  function EndOf(chain: seq<Slice>): nat {
    if chain == [] then 0 else chain[|chain| - 1].end
  }

  /** Each slice starts at or before the end of the one before it and goes past it. */
  predicate IsChain(slices: set<Slice>, chain: seq<Slice>) {
    chain == [] ||
    var before, last := chain[..|chain| - 1], chain[|chain| - 1];
    last in slices && last.start <= EndOf(before) < last.end && IsChain(slices, before)
  }

  ghost predicate Reachable(slices: set<Slice>, d: nat) {
    exists chain :: IsChain(slices, chain) && EndOf(chain) == d
  }

  lemma ReachZero(slices: set<Slice>)
    ensures Reachable(slices, 0)
  {
    assert IsChain(slices, []) && EndOf([]) == 0;
  }

  lemma ReachOver(slices: set<Slice>, d: nat, slice: Slice)
    requires Reachable(slices, d) && slice in slices && slice.start <= d < slice.end
    ensures Reachable(slices, slice.end)
  {
    var chain :| IsChain(slices, chain) && EndOf(chain) == d;
    assert (chain + [slice])[..|chain|] == chain;
    assert IsChain(slices, chain + [slice]);
  }

  lemma {:induction false} ChainStaysIn(slices: set<Slice>, points: set<nat>, chain: seq<Slice>)
    requires 0 in points && IsChain(slices, chain)
    requires forall d: nat, s :: d in points && s in slices && s.start <= d < s.end ==> s.end in points
    ensures EndOf(chain) in points
    decreases |chain|
  {
    if chain != [] {
      ChainStaysIn(slices, points, chain[..|chain| - 1]);
    }
  }

  /** The reachable points are the least set with `ReachZero` and `ReachOver`. */
  lemma ReachIsLeast(slices: set<Slice>, points: set<nat>, d: nat)
    requires 0 in points && Reachable(slices, d)
    requires forall e: nat, s :: e in points && s in slices && s.start <= e < s.end ==> s.end in points
    ensures d in points
  {
    var chain :| IsChain(slices, chain) && EndOf(chain) == d;
    ChainStaysIn(slices, points, chain);
  }

  /** Delivery can stand at `d` inside `a` while the crossing `b` is still ahead;
      or `a`, the shorter of two slices that start together, replaces `b` before
      delivery gets there. */
  ghost predicate StallsAt(slices: set<Slice>, a: Slice, b: Slice, d: nat) {
    && a in slices && b in slices && Crosses(a, b) && Reachable(slices, d)
    && a.start <= d && (d < b.start || d == a.start == b.start)
  }

  ghost predicate Stalls(slices: set<Slice>) {
    exists a, b, d :: StallsAt(slices, a, b, d)
  }

  // ----- sets that do not stall are delivered completely -----

  /** With delivery at `adv`, no slice that arrived straddles it, and one ahead
      at a reachable point is buffered there in full. */
  ghost predicate Settled(slices: set<Slice>, got: set<Slice>, ooo: map<nat, seq<byte>>, adv: nat) {
    && Reachable(slices, adv) && got <= slices
    && (forall o {:trigger ooo[o]} :: o in ooo ==> Slice(o, o + |ooo[o]|) in got && ooo[o] != [])
    && (forall t :: t in got ==> adv <= t.start || t.end <= adv)
    && (forall t :: t in got && adv <= t.start && Reachable(slices, t.start)
          ==> t.start in ooo && t.end <= t.start + |ooo[t.start]|)
  }

  /** Delivery moves over `x`, which just arrived or was buffered at `d`. */
  lemma OverSettles(slices: set<Slice>, got: set<Slice>, ooo: map<nat, seq<byte>>, d: nat, x: Slice)
    requires !Stalls(slices) && Settled(slices, got, ooo, d)
    requires x in slices && x.start <= d < x.end && (d in ooo ==> x.end == d + |ooo[d]|)
    ensures Settled(slices, got + {x}, ooo - {d}, x.end)
  {
    hide Reachable, Stalls;
    ReachOver(slices, d, x);
    forall t | t in got + {x} ensures x.end <= t.start || t.end <= x.end {
      if t != x && d < t.start < x.end < t.end {
        StallsIf(slices, x, t, d);
        assert false;
      }
    }
    var rest := ooo - {d};
    forall o | o in rest ensures Slice(o, o + |rest[o]|) in got + {x} && rest[o] != [] {
      assert rest[o] == ooo[o];
    }
  }

  lemma StallsIf(slices: set<Slice>, a: Slice, b: Slice, d: nat)
    requires StallsAt(slices, a, b, d)
    ensures Stalls(slices)
  {
  }

  lemma DrainOne(slices: set<Slice>, got: set<Slice>, ooo: map<nat, seq<byte>>, adv: nat)
    requires !Stalls(slices) && Settled(slices, got, ooo, adv) && adv in ooo
    ensures Settled(slices, got, ooo - {adv}, adv + |ooo[adv]|)
  {
    hide Stalls, Reachable;
    var x := Slice(adv, adv + |ooo[adv]|);
    OverSettles(slices, got, ooo, adv, x);
    assert got + {x} == got;
  }

  lemma {:induction false} DrainSettles(slices: set<Slice>, got: set<Slice>, ooo: map<nat, seq<byte>>, adv: nat)
    requires !Stalls(slices) && Settled(slices, got, ooo, adv)
    ensures var d := IdealDrain(ooo, adv).state; Settled(slices, got, d.ooo, d.next)
    decreases ooo.Keys
  {
    hide Stalls, Settled;
    if adv in ooo {
      DrainOne(slices, got, ooo, adv);
      DrainSettles(slices, got, ooo - {adv}, adv + |ooo[adv]|);
    }
  }

  lemma InsertSettles(slices: set<Slice>, got: set<Slice>, ooo: map<nat, seq<byte>>, next: nat, x: Slice,
                      data: seq<byte>)
    requires !Stalls(slices) && Settled(slices, got, ooo, next)
    requires x in slices && next < x.start < x.end == x.start + |data|
    ensures Settled(slices, got + {x}, ooo[x.start := data], next)
  {
    hide Reachable, Stalls;
    var more := ooo[x.start := data];
    forall t | t in got + {x} && next <= t.start && Reachable(slices, t.start)
      ensures t.start in more && t.end <= t.start + |more[t.start]|
    {
      if t.start == x.start && x.end < t.end {
        StallsIf(slices, x, t, x.start);
        assert false;
      }
    }
  }

  lemma BehindSettles(slices: set<Slice>, got: set<Slice>, ooo: map<nat, seq<byte>>, next: nat, x: Slice)
    requires Settled(slices, got, ooo, next) && x in slices && x.start < x.end <= next
    ensures Settled(slices, got + {x}, ooo, next)
  {
    hide Reachable;
  }

  lemma FeedSettles(slices: set<Slice>, got: set<Slice>, s: Ideal, x: Slice, data: seq<byte>)
    requires !Stalls(slices) && Settled(slices, got, s.ooo, s.next) && s.next !in s.ooo
    requires x in slices && x.start < x.end == x.start + |data|
    ensures var t := IdealFeed(s, x.start, data).state; Settled(slices, got + {x}, t.ooo, t.next)
  {
    hide Stalls, Settled;
    if x.start > s.next {
      InsertSettles(slices, got, s.ooo, s.next, x, data);
    } else if s.next < x.end {
      OverSettles(slices, got, s.ooo, s.next, x);
      assert s.ooo - {s.next} == s.ooo;
      DrainSettles(slices, got + {x}, s.ooo, x.end);
    } else {
      BehindSettles(slices, got, s.ooo, s.next, x);
    }
  }

  ghost predicate Covered(got: set<Slice>, p: nat) {
    exists t :: t in got && t.start <= p < t.end
  }

  /** What reassembly and its unbounded shadow hold after a run, and which
      slices the run brought. */
  ghost predicate Follows(stream: seq<byte>, isn: u32, slices: set<Slice>, run: seq<Segment>, s: Ideal,
                          got: set<Slice>) {
    && Mirrors(stream, isn, FeedAll(FRESH_RX, run), 0, s)
    && Settled(slices, got, s.ooo, s.next)
    && forall p: nat :: Received(isn, run, p) ==> Covered(got, p)
  }

  lemma CarrierIsTrueData(stream: seq<byte>, isn: u32, s: Slice)
    requires |stream| < HALF && Fits(stream, s)
    ensures var seg := Carrier(stream, isn, s); IsTrueData(stream, isn, seg) && Wrap(seg.seqno - isn - 1) == s.start
  {
    OffsetOfSeqno(isn, s.start);
  }

  lemma SynFollows(stream: seq<byte>, isn: u32, slices: set<Slice>)
    ensures Follows(stream, isn, slices, [Segment(isn, true, [])], Ideal(0, map[]), {})
  {
    SynRun(stream, isn);
    EmptyMirror(stream, isn, 0);
    ReachZero(slices);
    var run := [Segment(isn, true, [])];
    assert run[..0] == [];
  }

  lemma AckFollows(stream: seq<byte>, isn: u32, slices: set<Slice>, run: seq<Segment>, s: Ideal, got: set<Slice>)
    requires run != [] && IsAck(run[|run| - 1]) && Follows(stream, isn, slices, run[..|run| - 1], s, got)
    ensures Follows(stream, isn, slices, run, s, got)
  {
    hide Wrap, Settled, Covered;
    var before := FeedAll(FRESH_RX, run[..|run| - 1]);
    assert before.appended + [] == before.appended;
  }

  lemma NowCovered(isn: u32, run: seq<Segment>, got: set<Slice>, x: Slice)
    requires run != [] && forall p: nat :: Received(isn, run[..|run| - 1], p) ==> Covered(got, p)
    requires var last := run[|run| - 1]; Wrap(last.seqno - isn - 1) == x.start && x.end == x.start + |last.data|
    ensures forall p: nat :: Received(isn, run, p) ==> Covered(got + {x}, p)
  {
    hide Wrap;
    forall p: nat | Received(isn, run, p) ensures Covered(got + {x}, p) {
      if x.start <= p < x.end {
        assert x in got + {x};
      } else {
        assert Covered(got, p);
        var t :| t in got && t.start <= p < t.end;
        assert t in got + {x};
      }
    }
  }

  lemma SliceFollows(stream: seq<byte>, isn: u32, slices: set<Slice>, run: seq<Segment>, s: Ideal, got: set<Slice>,
                     x: Slice)
      returns (t: Ideal)
    requires |stream| < HALF && !Stalls(slices) && x in slices && Fits(stream, x) && x.start < x.end
    requires run != [] && run[|run| - 1] == Carrier(stream, isn, x)
        && Follows(stream, isn, slices, run[..|run| - 1], s, got)
    ensures Follows(stream, isn, slices, run, t, got + {x})
  {
    hide Wrap, Feed, Mirrors, Covered, Received, Settled, IsTrueData, Stalls;
    var last := run[|run| - 1];
    var before := FeedAll(FRESH_RX, run[..|run| - 1]);
    CarrierIsTrueData(stream, isn, x);
    t := DataStep(stream, isn, before, 0, s, last);
    MirrorsAhead(stream, isn, before, 0, s);
    FeedSettles(slices, got, s, x, last.data);
    NowCovered(isn, run, got, x);
  }

  lemma CarrierIsFull(stream: seq<byte>, isn: u32, s: Slice)
    requires Fits(stream, s)
    ensures IsAck(Carrier(stream, isn, s)) <==> s.start == s.end
  {
  }

  lemma FitsOne(stream: seq<byte>, slices: set<Slice>, slice: Slice)
    requires AllFit(stream, slices) && slice in slices
    ensures Fits(stream, slice)
  {
  }

  lemma MirrorsAhead(stream: seq<byte>, isn: u32, f: Fed, anchor: nat, s: Ideal)
    requires Mirrors(stream, isn, f, anchor, s)
    ensures s.next !in s.ooo && s.next == anchor + |f.appended|
  {
  }

  lemma {:induction false} CaptureFollows(stream: seq<byte>, isn: u32, slices: set<Slice>, run: seq<Segment>)
      returns (s: Ideal, got: set<Slice>)
    requires |stream| < HALF && AllFit(stream, slices) && !Stalls(slices)
    requires CaptureOf(stream, isn, slices, run)
    ensures Follows(stream, isn, slices, run, s, got)
    decreases |run|
  {
    hide Follows, Stalls, Carrier;
    if |run| == 1 {
      assert run == [Segment(isn, true, [])];
      SynFollows(stream, isn, slices);
      s, got := Ideal(0, map[]), {};
    } else {
      var last := run[|run| - 1];
      assert run[..|run| - 1][0] == run[0];
      s, got := CaptureFollows(stream, isn, slices, run[..|run| - 1]);
      if IsAck(last) {
        AckFollows(stream, isn, slices, run, s, got);
      } else {
        var x :| x in slices && last == Carrier(stream, isn, x);
        FitsOne(stream, slices, x);
        CarrierIsFull(stream, isn, x);
        s := SliceFollows(stream, isn, slices, run, s, got, x);
        got := got + {x};
      }
    }
  }

  /** The delivery point is never inside a slice that arrived. */
  lemma NothingWaits(slices: set<Slice>, got: set<Slice>, ooo: map<nat, seq<byte>>, next: nat)
    requires Settled(slices, got, ooo, next) && next !in ooo
    ensures !Covered(got, next)
  {
    hide Reachable;
  }

  lemma UnstalledIsComplete(stream: seq<byte>, isn: u32, slices: set<Slice>, run: seq<Segment>)
    requires |stream| < HALF && AllFit(stream, slices) && !Stalls(slices)
    requires CaptureOf(stream, isn, slices, run)
    ensures Complete(isn, run)
  {
    hide Stalls, Settled, AllFit, CaptureOf, Received, FeedAll, Mirrors;
    var s, got := CaptureFollows(stream, isn, slices, run);
    MirrorsAhead(stream, isn, FeedAll(FRESH_RX, run), 0, s);
    NothingWaits(slices, got, s.ooo, s.next);
  }

  // ----- the others stall -----

  /** A run continued by a slice, seen through the unbounded reassembler. */
  lemma Continue(stream: seq<byte>, isn: u32, run: seq<Segment>, s: Ideal, slice: Slice) returns (t: Ideal)
    requires |stream| < HALF && Fits(stream, slice) && Mirrors(stream, isn, FeedAll(FRESH_RX, run), 0, s)
    ensures Mirrors(stream, isn, FeedAll(FRESH_RX, run + [Carrier(stream, isn, slice)]), 0, t)
    ensures t == if slice.start == slice.end then s else IdealFeed(s, slice.start, stream[slice.start..slice.end]).state
  {
    hide Wrap, FeedAll, Mirrors, IsTrueData, Admissible, NeverShrinks, Received, IdealFeed;
    var seg := Carrier(stream, isn, slice);
    var f := FeedAll(FRESH_RX, run);
    RunSnoc(stream, isn, run, seg, 0);
    if slice.start == slice.end {
      t := s;
      assert f.appended + [] == f.appended;
    } else {
      CarrierIsTrueData(stream, isn, slice);
      hide Feed;
      t := DataStep(stream, isn, f, 0, s, seg);
    }
  }

  lemma ReceivedLater(stream: seq<byte>, isn: u32, run: seq<Segment>, last: Segment, p: nat)
    requires Received(isn, run, p)
    ensures Received(isn, run + [last], p)
  {
    hide Wrap, FeedAll, Admissible, NeverShrinks, Received;
    RunSnoc(stream, isn, run, last, p);
  }

  lemma ReceivedNow(stream: seq<byte>, isn: u32, run: seq<Segment>, slice: Slice, p: nat)
    requires |stream| < HALF && Fits(stream, slice) && slice.start <= p < slice.end
    ensures Received(isn, run + [Carrier(stream, isn, slice)], p)
  {
    CarrierIsTrueData(stream, isn, slice);
    hide Wrap, FeedAll, Admissible, NeverShrinks, Received;
    RunSnoc(stream, isn, run, Carrier(stream, isn, slice), p);
  }

  lemma FeedAtPoint(s: Ideal, off: nat, data: seq<byte>, adv: nat)
    requires off <= s.next < adv == off + |data|
    ensures var t := IdealFeed(s, off, data).state;
      && (adv !in s.ooo ==> t == Ideal(adv, s.ooo))
      && (adv in s.ooo ==>
            var after: nat := adv + |s.ooo[adv]|; after !in s.ooo - {adv} ==> t == Ideal(after, s.ooo - {adv}))
  {
    if adv in s.ooo {
      var rest := s.ooo - {adv};
      assert IdealDrain(s.ooo, adv).state == IdealDrain(rest, adv + |s.ooo[adv]|).state;
    }
  }

  predicate AllIn(slices: set<Slice>, chain: seq<Slice>) {
    forall i :: 0 <= i < |chain| ==> chain[i] in slices
  }

  lemma {:induction false} ChainIsIn(slices: set<Slice>, chain: seq<Slice>)
    requires IsChain(slices, chain)
    ensures AllIn(slices, chain)
    decreases |chain|
  {
    if chain != [] {
      ChainIsIn(slices, chain[..|chain| - 1]);
    }
  }

  function Carriers(stream: seq<byte>, isn: u32, slices: set<Slice>, chain: seq<Slice>): seq<Segment>
    requires AllFit(stream, slices) && AllIn(slices, chain)
  {
    seq(|chain|, i requires 0 <= i < |chain| => Carrier(stream, isn, chain[i]))
  }

  /** A chain that ends before the one buffered slice delivers up to its own end. */
  lemma {:induction false} ChainFeeds(stream: seq<byte>, isn: u32, slices: set<Slice>, run: seq<Segment>,
                                      chain: seq<Slice>, ooo: map<nat, seq<byte>>)
    requires |stream| < HALF && AllFit(stream, slices) && IsChain(slices, chain) && AllIn(slices, chain)
    requires forall o :: o in ooo ==> EndOf(chain) < o
    requires Mirrors(stream, isn, FeedAll(FRESH_RX, run), 0, Ideal(0, ooo))
    ensures Mirrors(stream, isn, FeedAll(FRESH_RX, run + Carriers(stream, isn, slices, chain)), 0,
                    Ideal(EndOf(chain), ooo))
    decreases |chain|
  {
    hide Mirrors, FeedAll, IdealFeed, Carrier;
    if chain == [] {
      assert run + Carriers(stream, isn, slices, chain) == run;
    } else {
      var before, last := chain[..|chain| - 1], chain[|chain| - 1];
      ChainFeeds(stream, isn, slices, run, before, ooo);
      var sofar := run + Carriers(stream, isn, slices, before);
      var s := Continue(stream, isn, sofar, Ideal(EndOf(before), ooo), last);
      FeedAtPoint(Ideal(EndOf(before), ooo), last.start, stream[last.start..last.end], last.end);
      assert run + Carriers(stream, isn, slices, chain) == sofar + [Carrier(stream, isn, last)];
    }
  }

  /** The crossing `b` first, then the chain and `a`; or, when both start where
      the chain ends, `b` and `a` first and then the chain. */
  function StallingRun(stream: seq<byte>, isn: u32, slices: set<Slice>, chain: seq<Slice>, a: Slice, b: Slice)
      : seq<Segment>
    requires AllFit(stream, slices) && AllIn(slices, chain) && a in slices && b in slices
  {
    var syn, first, second := Segment(isn, true, []), Carrier(stream, isn, a), Carrier(stream, isn, b);
    if a.start < b.start then [syn] + [second] + Carriers(stream, isn, slices, chain) + [first]
    else [syn] + [second] + [first] + Carriers(stream, isn, slices, chain)
  }

  lemma {:induction false} ReceivedThrough(stream: seq<byte>, isn: u32, run: seq<Segment>, more: seq<Segment>, p: nat)
    requires Received(isn, run, p)
    ensures Received(isn, run + more, p)
    decreases |more|
  {
    hide Received;
    if more == [] {
      assert run + more == run;
    } else {
      var before, last := more[..|more| - 1], more[|more| - 1];
      ReceivedThrough(stream, isn, run, before, p);
      ReceivedLater(stream, isn, run + before, last, p);
      assert run + more == run + before + [last];
    }
  }

  /** With nothing delivered yet a slice is buffered at its start, in place of
      any that was there. */
  lemma Ahead(stream: seq<byte>, isn: u32, run: seq<Segment>, ooo: map<nat, seq<byte>>, x: Slice)
    requires |stream| < HALF && Fits(stream, x) && 0 < x.start < x.end
    requires Mirrors(stream, isn, FeedAll(FRESH_RX, run), 0, Ideal(0, ooo)) && ooo.Keys <= {x.start}
    ensures Mirrors(stream, isn, FeedAll(FRESH_RX, run + [Carrier(stream, isn, x)]), 0,
                    Ideal(0, map[x.start := stream[x.start..x.end]]))
  {
    hide Mirrors, FeedAll, Carrier;
    var s := Continue(stream, isn, run, Ideal(0, ooo), x);
    assert ooo[x.start := stream[x.start..x.end]] == map[x.start := stream[x.start..x.end]];
  }

  lemma StallsShort(stream: seq<byte>, isn: u32, slices: set<Slice>, chain: seq<Slice>, a: Slice, b: Slice)
      returns (s: Ideal)
    requires |stream| < HALF && AllFit(stream, slices) && IsChain(slices, chain) && AllIn(slices, chain)
    requires a in slices && b in slices && Crosses(a, b) && a.start <= EndOf(chain) < b.start
    ensures Mirrors(stream, isn, FeedAll(FRESH_RX, StallingRun(stream, isn, slices, chain, a, b)), 0, s)
    ensures s.next == a.end
  {
    hide Mirrors, FeedAll, Carrier, AllIn, AllFit, IsChain, IdealFeed, Carriers;
    FitsOne(stream, slices, a);
    FitsOne(stream, slices, b);
    var ooo := map[b.start := stream[b.start..b.end]];
    var run := [Segment(isn, true, [])];
    SynMirrors(stream, isn);
    Ahead(stream, isn, run, map[], b);
    run := run + [Carrier(stream, isn, b)];
    ChainFeeds(stream, isn, slices, run, chain, ooo);
    s := Continue(stream, isn, run + Carriers(stream, isn, slices, chain), Ideal(EndOf(chain), ooo), a);
    FeedAtPoint(Ideal(EndOf(chain), ooo), a.start, stream[a.start..a.end], a.end);
  }

  lemma StallsShrunk(stream: seq<byte>, isn: u32, slices: set<Slice>, chain: seq<Slice>, a: Slice, b: Slice)
      returns (s: Ideal)
    requires |stream| < HALF && AllFit(stream, slices) && IsChain(slices, chain) && AllIn(slices, chain)
    requires a in slices && b in slices && Crosses(a, b) && a.start == EndOf(chain) == b.start
    ensures Mirrors(stream, isn, FeedAll(FRESH_RX, StallingRun(stream, isn, slices, chain, a, b)), 0, s)
    ensures s.next == a.end
  {
    hide Mirrors, FeedAll, Carrier, AllIn, AllFit, IdealFeed;
    FitsOne(stream, slices, a);
    FitsOne(stream, slices, b);
    var ooo := map[a.start := stream[a.start..a.end]];
    var run := [Segment(isn, true, [])];
    SynMirrors(stream, isn);
    Ahead(stream, isn, run, map[], b);
    run := run + [Carrier(stream, isn, b)];
    Ahead(stream, isn, run, map[b.start := stream[b.start..b.end]], a);
    run := run + [Carrier(stream, isn, a)];
    var before, last := chain[..|chain| - 1], chain[|chain| - 1];
    PrefixIn(slices, chain);
    FitsOne(stream, slices, last);
    ChainFeeds(stream, isn, slices, run, before, ooo);
    var sofar := run + Carriers(stream, isn, slices, before);
    s := Continue(stream, isn, sofar, Ideal(EndOf(before), ooo), last);
    FeedAtPoint(Ideal(EndOf(before), ooo), last.start, stream[last.start..last.end], last.end);
    assert run + Carriers(stream, isn, slices, chain) == sofar + [Carrier(stream, isn, last)];
  }

  lemma PrefixIn(slices: set<Slice>, chain: seq<Slice>)
    requires chain != [] && AllIn(slices, chain)
    ensures AllIn(slices, chain[..|chain| - 1]) && chain[|chain| - 1] in slices
  {
  }

  lemma SynMirrors(stream: seq<byte>, isn: u32)
    ensures Mirrors(stream, isn, FeedAll(FRESH_RX, [Segment(isn, true, [])]), 0, Ideal(0, map[]))
  {
    SynRun(stream, isn);
    EmptyMirror(stream, isn, 0);
  }

  lemma StallingRunReceives(stream: seq<byte>, isn: u32, slices: set<Slice>, chain: seq<Slice>, a: Slice, b: Slice)
    requires |stream| < HALF && AllFit(stream, slices) && AllIn(slices, chain)
    requires a in slices && b in slices && Crosses(a, b)
    ensures Received(isn, StallingRun(stream, isn, slices, chain, a, b), a.end)
  {
    hide Received, Carrier, Carriers, AllIn;
    var syn, links := Segment(isn, true, []), Carriers(stream, isn, slices, chain);
    var first, second := Carrier(stream, isn, a), Carrier(stream, isn, b);
    ReceivedNow(stream, isn, [syn], b, a.end);
    var more := if a.start < b.start then links + [first] else [first] + links;
    ReceivedThrough(stream, isn, [syn] + [second], more, a.end);
    assert StallingRun(stream, isn, slices, chain, a, b) == [syn] + [second] + more;
  }

  lemma StallingRunIsACapture(stream: seq<byte>, isn: u32, slices: set<Slice>, chain: seq<Slice>, a: Slice, b: Slice)
    requires AllFit(stream, slices) && AllIn(slices, chain) && a in slices && b in slices
    ensures CaptureOf(stream, isn, slices, StallingRun(stream, isn, slices, chain, a, b))
  {
    hide Carrier;
    var run := StallingRun(stream, isn, slices, chain, a, b);
    forall i | 0 < i < |run| ensures Carries(stream, isn, slices, run[i]) {
      assert run[i] in [Carrier(stream, isn, a), Carrier(stream, isn, b)] + Carriers(stream, isn, slices, chain);
    }
  }

  /** Any two slices that can stall do: this capture of the set stops at the end
      of the first, and the byte there was received. */
  lemma CrossingStalls(stream: seq<byte>, isn: u32, slices: set<Slice>, chain: seq<Slice>, a: Slice, b: Slice)
    requires |stream| < HALF && AllFit(stream, slices) && IsChain(slices, chain)
    requires StallsAt(slices, a, b, EndOf(chain))
    ensures AllIn(slices, chain)
    ensures var run := StallingRun(stream, isn, slices, chain, a, b);
      && CaptureOf(stream, isn, slices, run)
      && |FeedAll(FRESH_RX, run).appended| == a.end && Received(isn, run, a.end) && !Complete(isn, run)
  {
    hide Mirrors, FeedAll, Received, CaptureOf, AllFit, AllIn, StallingRun, IsChain, Reachable;
    ChainIsIn(slices, chain);
    StallingRunIsACapture(stream, isn, slices, chain, a, b);
    StallingRunReceives(stream, isn, slices, chain, a, b);
    var s;
    if a.start < b.start {
      s := StallsShort(stream, isn, slices, chain, a, b);
    } else {
      s := StallsShrunk(stream, isn, slices, chain, a, b);
    }
    MirrorsAhead(stream, isn, FeedAll(FRESH_RX, StallingRun(stream, isn, slices, chain, a, b)), 0, s);
  }

  // ----- the exact condition -----

  ghost predicate AlwaysComplete(stream: seq<byte>, isn: u32, slices: set<Slice>)
    requires AllFit(stream, slices)
  {
    forall run :: CaptureOf(stream, isn, slices, run) ==> Complete(isn, run)
  }

  /** Reassembly delivers a set of slices completely, in every order and with
      every duplication, if and only if delivery can never stand inside the first
      of two crossing slices with the second one still ahead, nor at the common
      start of two of different lengths. */
  lemma CompleteExactlyWhen(stream: seq<byte>, isn: u32, slices: set<Slice>)
    requires |stream| < HALF && AllFit(stream, slices)
    ensures AlwaysComplete(stream, isn, slices) <==> !Stalls(slices)
  {
    hide CaptureOf, Complete, AllFit, AllIn, IsChain, StallingRun;
    if Stalls(slices) {
      var a, b, d :| StallsAt(slices, a, b, d);
      var chain :| IsChain(slices, chain) && EndOf(chain) == d;
      CrossingStalls(stream, isn, slices, chain, a, b);
      assert !AlwaysComplete(stream, isn, slices);
    } else {
      forall run | CaptureOf(stream, isn, slices, run) ensures Complete(isn, run) {
        UnstalledIsComplete(stream, isn, slices, run);
      }
    }
  }

  /** Slices of which no two cross are delivered completely by every capture. */
  lemma UncrossedIsComplete(stream: seq<byte>, isn: u32, slices: set<Slice>)
    requires |stream| < HALF && AllFit(stream, slices) && Uncrossed(slices)
    ensures AlwaysComplete(stream, isn, slices)
  {
    hide AlwaysComplete;
    CompleteExactlyWhen(stream, isn, slices);
  }

  /** Crossing slices alone need not stall: here delivery only ever stands at 0
      and at the end, outside both of the slices that cross. */
  lemma CrossingMayBeComplete(stream: seq<byte>, isn: u32)
    requires |stream| == 4
    ensures var slices := {Slice(0, 4), Slice(1, 3), Slice(2, 4)};
      && AllFit(stream, slices) && !Uncrossed(slices) && AlwaysComplete(stream, isn, slices)
  {
    hide AlwaysComplete, Reachable, IsChain;
    var slices := {Slice(0, 4), Slice(1, 3), Slice(2, 4)};
    assert Crosses(Slice(1, 3), Slice(2, 4));
    forall d | Reachable(slices, d) ensures d in {0, 4} {
      ReachIsLeast(slices, {0, 4}, d);
    }
    CompleteExactlyWhen(stream, isn, slices);
  }

  /** The slices that start at or after `p`, with the first `p` bytes as one more. */
  function OpenedBy(slices: set<Slice>, p: nat): set<Slice> {
    (set s | s in slices && p <= s.start) + {Slice(0, p)}
  }

  lemma OpeningCrossesNothing(slices: set<Slice>, p: nat)
    requires Uncrossed(slices)
    ensures Uncrossed(OpenedBy(slices, p))
  {
    forall a, b | a in OpenedBy(slices, p) && b in OpenedBy(slices, p) ensures !Crosses(a, b) {
    }
  }

  lemma OpenedStalls(slices: set<Slice>, a: Slice, b: Slice)
    requires a in slices && b in slices && Crosses(a, b)
    ensures Stalls(OpenedBy(slices, a.start))
  {
    hide Reachable;
    var all := OpenedBy(slices, a.start);
    ReachZero(all);
    if a.start > 0 {
      ReachOver(all, 0, Slice(0, a.start));
    }
    assert StallsAt(all, a, b, a.start);
  }

  /** With the bytes before them in one slice, and from every such start, the
      slices of a set are delivered completely if and only if no two cross. */
  lemma CompleteExactlyWhenUncrossed(stream: seq<byte>, isn: u32, slices: set<Slice>)
    requires |stream| < HALF && AllFit(stream, slices)
    ensures forall p: nat :: p <= |stream| ==> AllFit(stream, OpenedBy(slices, p))
    ensures (forall p: nat :: p <= |stream| ==> AlwaysComplete(stream, isn, OpenedBy(slices, p))) <==> Uncrossed(slices)
  {
    hide AlwaysComplete, Stalls;
    if Uncrossed(slices) {
      forall p: nat | p <= |stream| ensures AlwaysComplete(stream, isn, OpenedBy(slices, p)) {
        OpeningCrossesNothing(slices, p);
        UncrossedIsComplete(stream, isn, OpenedBy(slices, p));
      }
    } else {
      var a, b :| a in slices && b in slices && Crosses(a, b);
      OpenedStalls(slices, a, b);
      CompleteExactlyWhen(stream, isn, OpenedBy(slices, a.start));
    }
  }
}
