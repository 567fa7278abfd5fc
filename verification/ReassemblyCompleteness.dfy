/** Completeness of reassembly for a stream of any length cut into fixed
    blocks: the state after a run depends only on which blocks have arrived. */
module ReassemblyCompleteness {
  import opened Options
  import opened Bytes
  import opened SequenceSpace
  import opened Reassembly

  type Blocks = seq<seq<byte>>

  predicate Proper(blocks: Blocks) {
    forall k :: 0 <= k < |blocks| ==> 0 < |blocks[k]| < HALF
  }

  function Concat(blocks: Blocks): seq<byte> {
    if blocks == [] then [] else Concat(blocks[..|blocks| - 1]) + blocks[|blocks| - 1]
  }

  /** Where block `k` starts in the stream. */
  function Offset(blocks: Blocks, k: nat): nat
    requires k <= |blocks|
  {
    if k == 0 then 0 else Offset(blocks, k - 1) + |blocks[k - 1]|
  }

  /** The first block at or after `k` that has not arrived. */
  function FrontFrom(blocks: Blocks, received: set<nat>, k: nat): (f: nat)
    requires k <= |blocks|
    ensures k <= f <= |blocks|
    ensures forall j :: k <= j < f ==> j in received
    ensures f < |blocks| ==> f !in received
    decreases |blocks| - k
  {
    if k < |blocks| && k in received then FrontFrom(blocks, received, k + 1) else k
  }

  function Front(blocks: Blocks, received: set<nat>): (f: nat)
    ensures f <= |blocks|
    ensures forall j :: 0 <= j < f ==> j in received
    ensures f < |blocks| ==> f !in received
  {
    FrontFrom(blocks, received, 0)
  }

  /** The received blocks from `from` on, keyed by stream offset. */
  function Ahead(blocks: Blocks, received: set<nat>, from: nat): map<nat, seq<byte>>
    decreases |blocks| - from
  {
    if from >= |blocks| then map[]
    else
      var rest := Ahead(blocks, received, from + 1);
      if from in received then rest[Offset(blocks, from) := blocks[from]] else rest
  }

  /** The one reassembler state that a set of received blocks determines. */
  function StateOf(blocks: Blocks, received: set<nat>): Ideal {
    var f := Front(blocks, received);
    Ideal(Offset(blocks, f), Ahead(blocks, received, f + 1))
  }

  lemma {:induction false} OffsetsGrow(blocks: Blocks, j: nat, k: nat)
    requires Proper(blocks) && j < k <= |blocks|
    ensures Offset(blocks, j) + |blocks[j]| <= Offset(blocks, k)
  {
    if j + 1 < k {
      OffsetsGrow(blocks, j, k - 1);
    }
  }

  lemma {:induction false} ConcatLength(blocks: Blocks, k: nat)
    requires k <= |blocks|
    ensures |Concat(blocks[..k])| == Offset(blocks, k)
  {
    if k > 0 {
      assert blocks[..k][..k - 1] == blocks[..k - 1];
      ConcatLength(blocks, k - 1);
    }
  }

  lemma {:induction false} AheadStartsAt(blocks: Blocks, received: set<nat>, from: nat, o: nat)
    requires Proper(blocks) && from <= |blocks| && o in Ahead(blocks, received, from)
    ensures Offset(blocks, from) <= o
    decreases |blocks| - from
  {
    if from < |blocks| && o in Ahead(blocks, received, from + 1) {
      AheadStartsAt(blocks, received, from + 1, o);
      OffsetsGrow(blocks, from, from + 1);
    }
  }

  lemma {:induction false} AheadInsert(blocks: Blocks, received: set<nat>, from: nat, k: nat)
    requires Proper(blocks) && k < |blocks|
    ensures Ahead(blocks, received + {k}, from) ==
            if from <= k then Ahead(blocks, received, from)[Offset(blocks, k) := blocks[k]]
            else Ahead(blocks, received, from)
    decreases |blocks| - from
  {
    if from < |blocks| {
      AheadInsert(blocks, received, from + 1, k);
      if from < k {
        OffsetsGrow(blocks, from, k);
      }
    }
  }

  lemma AheadAtFront(blocks: Blocks, received: set<nat>, from: nat)
    requires Proper(blocks) && from < |blocks|
    ensures Offset(blocks, from) in Ahead(blocks, received, from) <==> from in received
    ensures Ahead(blocks, received, from) - {Offset(blocks, from)} == Ahead(blocks, received, from + 1)
  {
    if Offset(blocks, from) in Ahead(blocks, received, from + 1) {
      AheadStartsAt(blocks, received, from + 1, Offset(blocks, from));
      assert false;
    }
  }

  lemma ConcatOneMore(blocks: Blocks, j: nat)
    requires j < |blocks|
    ensures Concat(blocks[..j + 1]) == Concat(blocks[..j]) + blocks[j]
  {
    assert blocks[..j + 1][..j] == blocks[..j];
  }

  /** One turn of the drain at a received block. */
  lemma DrainOneBlock(blocks: Blocks, received: set<nat>, j: nat)
    requires Proper(blocks) && j < |blocks| && j in received
    ensures var rest := IdealDrain(Ahead(blocks, received, j + 1), Offset(blocks, j + 1));
      IdealDrain(Ahead(blocks, received, j), Offset(blocks, j)) == IdealFed(rest.state, blocks[j] + rest.appended)
  {
    AheadAtFront(blocks, received, j);
    var ooo := Ahead(blocks, received, j);
    assert ooo[Offset(blocks, j)] == blocks[j];
    assert Offset(blocks, j + 1) == Offset(blocks, j) + |blocks[j]|;
    hide Ahead;
  }

  lemma {:induction false} DrainReachesFront(blocks: Blocks, received: set<nat>, j: nat)
    requires Proper(blocks) && j <= |blocks|
    ensures var d := IdealDrain(Ahead(blocks, received, j), Offset(blocks, j));
      var f := FrontFrom(blocks, received, j);
      && d.state == Ideal(Offset(blocks, f), Ahead(blocks, received, f + 1))
      && Concat(blocks[..j]) + d.appended == Concat(blocks[..f])
    decreases |blocks| - j
  {
    if j < |blocks| && j in received {
      hide Concat, IdealDrain, Ahead, Offset;
      DrainReachesFront(blocks, received, j + 1);
      DrainOneBlock(blocks, received, j);
      ConcatOneMore(blocks, j);
      var rest := IdealDrain(Ahead(blocks, received, j + 1), Offset(blocks, j + 1));
      assert Concat(blocks[..j]) + (blocks[j] + rest.appended) == Concat(blocks[..j]) + blocks[j] + rest.appended;
    } else if j < |blocks| {
      AheadAtFront(blocks, received, j);
      assert Ahead(blocks, received, j) == Ahead(blocks, received, j + 1);
    }
  }

  lemma {:induction false} FrontSkips(blocks: Blocks, received: set<nat>, j: nat, k: nat)
    requires j <= k <= |blocks| && forall i :: j <= i < k ==> i in received
    ensures FrontFrom(blocks, received, j) == FrontFrom(blocks, received, k)
    decreases k - j
  {
    if j < k {
      FrontSkips(blocks, received, j + 1, k);
    }
  }

  ghost predicate StepsTo(blocks: Blocks, received: set<nat>, k: nat)
    requires k < |blocks|
  {
    var i := IdealFeed(StateOf(blocks, received), Offset(blocks, k), blocks[k]);
    && i.state == StateOf(blocks, received + {k})
    && Concat(blocks[..Front(blocks, received)]) + i.appended == Concat(blocks[..Front(blocks, received + {k})])
  }

  lemma BlockBehind(blocks: Blocks, received: set<nat>, k: nat)
    requires Proper(blocks) && k < Front(blocks, received)
    ensures StepsTo(blocks, received, k)
  {
    hide Concat, Ahead, FrontFrom, Offset;
    var f := Front(blocks, received);
    assert received + {k} == received;
    OffsetsGrow(blocks, k, f);
    assert Concat(blocks[..f]) + [] == Concat(blocks[..f]);
  }

  lemma BlockAhead(blocks: Blocks, received: set<nat>, k: nat)
    requires Proper(blocks) && Front(blocks, received) < k < |blocks|
    ensures StepsTo(blocks, received, k)
  {
    hide Concat, Ahead, FrontFrom, Offset;
    var f, more := Front(blocks, received), received + {k};
    FrontSkips(blocks, more, 0, f);
    FrontStops(blocks, more, f);
    AheadInsert(blocks, received, f + 1, k);
    OffsetsGrow(blocks, f, k);
    assert Concat(blocks[..f]) + [] == Concat(blocks[..f]);
  }

  lemma FrontStops(blocks: Blocks, received: set<nat>, k: nat)
    requires k < |blocks| && k !in received
    ensures FrontFrom(blocks, received, k) == k
  {
  }

  lemma BlockAtFront(blocks: Blocks, received: set<nat>)
    requires Proper(blocks) && Front(blocks, received) < |blocks|
    ensures StepsTo(blocks, received, Front(blocks, received))
  {
    hide Concat, Ahead, FrontFrom, Offset, IdealDrain;
    var f := Front(blocks, received);
    var more := received + {f};
    FrontSkips(blocks, more, 0, f + 1);
    AheadInsert(blocks, received, f + 1, f);
    DrainReachesFront(blocks, more, f + 1);
    OffsetStep(blocks, f);
    var data := blocks[f];
    assert data[0..] == data;
    var d := IdealDrain(Ahead(blocks, more, f + 1), Offset(blocks, f + 1));
    assert Concat(blocks[..f]) + (data + d.appended) == Concat(blocks[..f]) + data + d.appended;
  }

  lemma OffsetStep(blocks: Blocks, k: nat)
    requires k < |blocks|
    ensures Offset(blocks, k + 1) == Offset(blocks, k) + |blocks[k]|
    ensures Concat(blocks[..k + 1]) == Concat(blocks[..k]) + blocks[k]
  {
    assert blocks[..k + 1][..k] == blocks[..k];
  }

  /** One block, new or repeated, moves the state of the received set to the
      state of the set with that block, and appends what lies between. */
  lemma BlockStep(blocks: Blocks, received: set<nat>, k: nat)
    requires Proper(blocks) && k < |blocks|
    ensures StepsTo(blocks, received, k)
  {
    var f := Front(blocks, received);
    if k < f {
      BlockBehind(blocks, received, k);
    } else if k == f {
      BlockAtFront(blocks, received);
    } else {
      BlockAhead(blocks, received, k);
    }
  }

  lemma {:induction false} AheadWithinTurn(blocks: Blocks, received: set<nat>, from: nat, lo: nat)
    requires Proper(blocks)
    requires from <= |blocks| ==> lo <= Offset(blocks, from)
    requires forall k :: k in received && k < |blocks| ==> Offset(blocks, k) < lo + HALF
    ensures WithinTurn(Ahead(blocks, received, from), lo)
    decreases |blocks| - from
  {
    if from < |blocks| {
      OffsetsGrow(blocks, from, from + 1);
      AheadWithinTurn(blocks, received, from + 1, lo);
    }
  }

  // ----- schedules -----

  /** What may arrive in one direction after its SYN. */
  datatype Arrival = Block(index: nat) | Ack(seqno: u32)

  function SegmentOf(blocks: Blocks, isn: u32, a: Arrival): Segment
    requires a.Block? ==> a.index < |blocks|
  {
    match a
    case Block(k) => Segment(Wrap(isn + 1 + Offset(blocks, k)), false, blocks[k])
    case Ack(seqno) => Segment(seqno, false, [])
  }

  function Received(schedule: seq<Arrival>): set<nat> {
    set a | a in schedule && a.Block? :: a.index
  }

  predicate Indexed(blocks: Blocks, schedule: seq<Arrival>) {
    forall a :: a in schedule && a.Block? ==> a.index < |blocks|
  }

  function Segments(blocks: Blocks, isn: u32, schedule: seq<Arrival>): (run: seq<Segment>)
    requires Indexed(blocks, schedule)
    ensures |run| == |schedule|
  {
    seq(|schedule|, i requires 0 <= i < |schedule| => SegmentOf(blocks, isn, schedule[i]))
  }

  /** Every block arrives less than half a turn from the delivery point. */
  predicate InWindow(blocks: Blocks, schedule: seq<Arrival>)
    requires Indexed(blocks, schedule)
  {
    forall i :: 0 <= i < |schedule| && schedule[i].Block? ==>
      -HALF < Offset(blocks, schedule[i].index) - Offset(blocks, Front(blocks, Received(schedule[..i]))) < HALF
  }

  /** A direction whose SYN has been seen. */
  function Opened(isn: u32): Rx {
    Feed(FRESH_RX, Segment(isn, true, [])).rx
  }

  /** The received blocks from `from` on, keyed by wrapping sequence number. */
  function Keyed(blocks: Blocks, isn: u32, received: set<nat>, from: nat): map<u32, seq<byte>>
    decreases |blocks| - from
  {
    if from >= |blocks| then map[]
    else
      var rest := Keyed(blocks, isn, received, from + 1);
      if from in received then rest[Wrap(isn + 1 + Offset(blocks, from)) := blocks[from]] else rest
  }

  lemma {:induction false} KeyedIsAhead(blocks: Blocks, isn: u32, received: set<nat>, from: nat, lo: nat)
    requires Proper(blocks)
    requires from <= |blocks| ==> lo <= Offset(blocks, from)
    requires forall k :: k in received && k < |blocks| ==> Offset(blocks, k) < lo + HALF
    ensures SameBuffer(Keyed(blocks, isn, received, from), Ahead(blocks, received, from), isn + 1)
    decreases |blocks| - from
  {
    hide Wrap;
    if from < |blocks| {
      OffsetsGrow(blocks, from, from + 1);
      KeyedIsAhead(blocks, isn, received, from + 1, lo);
      AheadWithinTurn(blocks, received, from + 1, lo);
      if from in received {
        SameBufferInsert(Keyed(blocks, isn, received, from + 1), Ahead(blocks, received, from + 1), isn + 1, lo,
                         Offset(blocks, from), blocks[from]);
      }
    }
  }

  lemma SameBufferUnique(a: map<u32, seq<byte>>, b: map<u32, seq<byte>>, ideal: map<nat, seq<byte>>, base: int)
    requires SameBuffer(a, ideal, base) && SameBuffer(b, ideal, base)
    ensures a == b
  {
    hide Wrap;
    forall k | k in a || k in b
      ensures k in a && k in b && a[k] == b[k]
    {
      assert IsKeyOf(ideal, base, k);
      var o :| o in ideal && Wrap(base + o) == k;
      assert ideal[o] == a[Wrap(base + o)];
    }
  }

  /** Everything received so far starts less than half a turn past the delivery point. */
  ghost predicate Near(blocks: Blocks, received: set<nat>) {
    forall k :: k in received && k < |blocks| ==> Offset(blocks, k) < Offset(blocks, Front(blocks, received)) + HALF
  }

  ghost predicate Tracks(blocks: Blocks, isn: u32, received: set<nat>, f: Fed) {
    && Near(blocks, received)
    && Refines(f.rx, StateOf(blocks, received), isn + 1)
    && f.appended == Concat(blocks[..Front(blocks, received)])
  }

  lemma FrontMonotone(blocks: Blocks, received: set<nat>, k: nat)
    requires Proper(blocks)
    ensures Offset(blocks, Front(blocks, received)) <= Offset(blocks, Front(blocks, received + {k}))
  {
    var f, g := Front(blocks, received), Front(blocks, received + {k});
    FrontSkips(blocks, received + {k}, 0, f);
    if f < g {
      OffsetsGrow(blocks, f, g);
    }
  }

  lemma TrackBlock(blocks: Blocks, isn: u32, received: set<nat>, f: Fed, k: nat)
    requires Proper(blocks) && k < |blocks| && Tracks(blocks, isn, received, f)
    requires -HALF < Offset(blocks, k) - Offset(blocks, Front(blocks, received)) < HALF
    ensures var g := Feed(f.rx, SegmentOf(blocks, isn, Block(k)));
      Tracks(blocks, isn, received + {k}, Fed(g.rx, f.appended + g.appended))
  {
    hide Wrap, Concat, Ahead, Front, FrontFrom, Offset, Feed, IdealFeed, SameBuffer, IdealDrain;
    var s := StateOf(blocks, received);
    if Front(blocks, received) < |blocks| {
      OffsetsGrow(blocks, Front(blocks, received), Front(blocks, received) + 1);
    }
    AheadWithinTurn(blocks, received, Front(blocks, received) + 1, s.next);
    FeedRefines(f.rx, s, isn + 1, s.next, Offset(blocks, k), blocks[k]);
    BlockStep(blocks, received, k);
    FrontMonotone(blocks, received, k);
  }

  lemma {:induction false} TrackSchedule(blocks: Blocks, isn: u32, schedule: seq<Arrival>)
    requires Proper(blocks) && Indexed(blocks, schedule) && InWindow(blocks, schedule)
    ensures Tracks(blocks, isn, Received(schedule), FeedAll(Opened(isn), Segments(blocks, isn, schedule)))
  {
    hide Wrap, Concat, Offset, FrontFrom, Ahead, Refines, Near;
    var run := Segments(blocks, isn, schedule);
    if schedule == [] {
      TrackNothing(blocks, isn);
      assert Received(schedule) == {};
    } else {
      var n := |schedule| - 1;
      var before, last := schedule[..n], schedule[n];
      assert InWindow(blocks, before) by {
        forall i | 0 <= i < n ensures before[..i] == schedule[..i] { }
      }
      TrackSchedule(blocks, isn, before);
      assert run[..n] == Segments(blocks, isn, before);
      var f := FeedAll(Opened(isn), run[..n]);
      assert schedule == before + [last];
      if last.Block? {
        assert Received(schedule) == Received(before) + {last.index};
        TrackBlock(blocks, isn, Received(before), f, last.index);
      } else {
        assert Received(schedule) == Received(before);
        assert f.appended + [] == f.appended;
      }
    }
  }

  lemma TrackNothing(blocks: Blocks, isn: u32)
    ensures Tracks(blocks, isn, {}, Fed(Opened(isn), []))
  {
    NothingAhead(blocks, 1);
  }

  lemma {:induction false} NothingAhead(blocks: Blocks, from: nat)
    ensures Ahead(blocks, {}, from) == map[]
    decreases |blocks| - from
  {
    if from < |blocks| {
      NothingAhead(blocks, from + 1);
    }
  }

  // ----- main results -----

  /** After the SYN, whatever the order and duplication of the blocks, and
      wherever sequence numbers wrap: delivered is the longest run of received
      blocks, the buffer holds exactly the received blocks beyond it. */
  lemma DeliversTheReceivedFront(blocks: Blocks, isn: u32, schedule: seq<Arrival>)
    requires Proper(blocks) && Indexed(blocks, schedule) && InWindow(blocks, schedule)
    ensures var f := FeedAll(Opened(isn), Segments(blocks, isn, schedule));
      var received := Received(schedule);
      var front := Front(blocks, received);
      && f.appended == Concat(blocks[..front])
      && f.rx == Rx(Some(Wrap(isn + 1 + |f.appended|)), Keyed(blocks, isn, received, front + 1))
  {
    hide Wrap, FeedAll, Concat, Offset, Front, InWindow, SameBuffer, Keyed, Ahead;
    var received := Received(schedule);
    var front := Front(blocks, received);
    var f := FeedAll(Opened(isn), Segments(blocks, isn, schedule));
    TrackSchedule(blocks, isn, schedule);
    ConcatLength(blocks, front);
    if front < |blocks| {
      OffsetsGrow(blocks, front, front + 1);
    }
    KeyedIsAhead(blocks, isn, received, front + 1, Offset(blocks, front));
    SameBufferUnique(f.rx.ooo, Keyed(blocks, isn, received, front + 1), StateOf(blocks, received).ooo, isn + 1);
  }

  /** Once every block has arrived the whole stream is delivered and nothing stays buffered. */
  lemma EverythingArrives(blocks: Blocks, isn: u32, schedule: seq<Arrival>)
    requires Proper(blocks) && Indexed(blocks, schedule) && InWindow(blocks, schedule)
    requires forall k :: 0 <= k < |blocks| ==> k in Received(schedule)
    ensures var f := FeedAll(Opened(isn), Segments(blocks, isn, schedule));
      f == Fed(Rx(Some(Wrap(isn + 1 + |Concat(blocks)|)), map[]), Concat(blocks))
  {
    hide Wrap, FeedAll, Concat, InWindow;
    DeliversTheReceivedFront(blocks, isn, schedule);
    assert Front(blocks, Received(schedule)) == |blocks|;
    assert blocks[..|blocks|] == blocks;
  }

  /** Two schedules that received the same blocks leave the same state. */
  lemma OrderDoesNotMatter(blocks: Blocks, isn: u32, one: seq<Arrival>, other: seq<Arrival>)
    requires Proper(blocks)
    requires Indexed(blocks, one) && InWindow(blocks, one)
    requires Indexed(blocks, other) && InWindow(blocks, other)
    requires Received(one) == Received(other)
    ensures FeedAll(Opened(isn), Segments(blocks, isn, one)) == FeedAll(Opened(isn), Segments(blocks, isn, other))
  {
    hide Wrap, FeedAll, Concat, InWindow;
    DeliversTheReceivedFront(blocks, isn, one);
    DeliversTheReceivedFront(blocks, isn, other);
  }

  lemma {:induction false} OffsetWithin(blocks: Blocks, k: nat)
    requires Proper(blocks) && k <= |blocks|
    ensures Offset(blocks, k) <= |Concat(blocks)|
  {
    ConcatLength(blocks, |blocks|);
    assert blocks[..|blocks|] == blocks;
    if k < |blocks| {
      OffsetsGrow(blocks, k, |blocks|);
    }
  }

  /** A stream shorter than half the sequence space meets the window condition
      under every schedule. */
  lemma ShortStreamsStayInWindow(blocks: Blocks, schedule: seq<Arrival>)
    requires Proper(blocks) && Indexed(blocks, schedule) && |Concat(blocks)| < HALF
    ensures InWindow(blocks, schedule)
  {
    forall i | 0 <= i < |schedule| && schedule[i].Block?
      ensures -HALF < Offset(blocks, schedule[i].index) - Offset(blocks, Front(blocks, Received(schedule[..i]))) < HALF
    {
      OffsetWithin(blocks, schedule[i].index);
      OffsetWithin(blocks, Front(blocks, Received(schedule[..i])));
    }
  }
}
