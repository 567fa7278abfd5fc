/** The connection registry under concurrency: opens and closes of any number
    of connections, interleaved at the granularity of their atomic operations
    and lock sections. */
module RegistrySteps {
  import opened Options
  import opened Endpoints
  import opened MetricsModel
  import FlowLifecycle

  /** How far the open, and then the close, of one connection has come. Its
      lifecycle reads open up to and including `Live`. */
  datatype Phase =
    | Allocated   // id taken, registry not yet locked
    | Inserted    // in the registry, lock held
    | Counted     // conns_opened counted, lock held
    | Live        // conns_live counted, lock released, handle returned
    | Marked      // lifecycle set to closed
    | Subtracted  // conns_live counted down
    | Queued      // pushed on the closed queue

  /** `phases[i - 1]` belongs to id `i`; `lock` is the registry lock's holder. */
  datatype Shared = Shared(
    phases: seq<Phase>,
    lock: Option<ConnId>,
    connsOpened: nat,
    connsLive: int,
    entries: set<ConnId>,
    closed: seq<ConnId>,
    queued: seq<ConnId>,
    cap: nat)

  datatype Step =
    | Allocate
    | Insert(id: ConnId)
    | CountOpened(id: ConnId)
    | CountLive(id: ConnId)
    | Mark(id: ConnId)
    | Subtract(id: ConnId)
    | Queue(id: ConnId)

  function Fresh(cap: nat): Shared {
    Shared([], None, 0, 0, {}, [], [], cap)
  }

  predicate PhaseAt(phases: seq<Phase>, id: ConnId, phase: Phase) {
    1 <= id <= |phases| && phases[id - 1] == phase
  }

  predicate At(s: Shared, id: ConnId, phase: Phase) {
    PhaseAt(s.phases, id, phase)
  }

  predicate Enabled(s: Shared, step: Step) {
    match step
    case Allocate => true
    case Insert(id) => At(s, id, Allocated) && s.lock.None?
    case CountOpened(id) => At(s, id, Inserted)
    case CountLive(id) => At(s, id, Counted)
    case Mark(id) => At(s, id, Live)
    case Subtract(id) => At(s, id, Marked)
    case Queue(id) => At(s, id, Subtracted) && s.lock.None?
  }

  function To(s: Shared, id: ConnId, phase: Phase): Shared
    requires 1 <= id <= |s.phases|
  {
    s.(phases := s.phases[id - 1 := phase])
  }

  function Next(s: Shared, step: Step): Shared
    requires Enabled(s, step)
  {
    match step
    case Allocate => s.(phases := s.phases + [Allocated])
    case Insert(id) => To(s, id, Inserted).(entries := s.entries + {id}, lock := Some(id))
    case CountOpened(id) => To(s, id, Counted).(connsOpened := s.connsOpened + 1)
    case CountLive(id) => To(s, id, Live).(connsLive := s.connsLive + 1, lock := None)
    case Mark(id) => To(s, id, Marked)
    case Subtract(id) => To(s, id, Subtracted).(connsLive := s.connsLive - 1)
    case Queue(id) =>
      var kept := Evict(s.entries, s.closed + [id], s.cap);
      To(s, id, Phase.Queued).(entries := kept.entries, closed := kept.closed, queued := s.queued + [id])
  }

  /** The state after a run, if every step was enabled where it was taken. */
  function After(cap: nat, run: seq<Step>): Option<Shared> {
    if run == [] then
      Some(Fresh(cap))
    else
      match After(cap, run[..|run| - 1])
      case None => None
      case Some(s) => if Enabled(s, run[|run| - 1]) then Some(Next(s, run[|run| - 1])) else None
  }

  // ----- the invariant -----

  function CountAt(phases: seq<Phase>, phase: Phase): nat {
    if phases == [] then 0
    else CountAt(phases[..|phases| - 1], phase) + if phases[|phases| - 1] == phase then 1 else 0
  }

  predicate HoldsLock(phase: Phase) {
    phase.Inserted? || phase.Counted?
  }

  /** Inserted and not yet on the closed queue. */
  predicate Registered(phase: Phase) {
    phase.Inserted? || phase.Counted? || phase.Live? || phase.Marked? || phase.Subtracted?
  }

  predicate IsRegistered(s: Shared, id: ConnId) {
    1 <= id <= |s.phases| && Registered(s.phases[id - 1])
  }

  function RegisteredIds(s: Shared): set<ConnId> {
    set id | 1 <= id <= |s.phases| && IsRegistered(s, id)
  }

  ghost predicate CountsRight(s: Shared) {
    && s.connsLive == CountAt(s.phases, Live) + CountAt(s.phases, Marked)
    && s.connsOpened + CountAt(s.phases, Allocated) + CountAt(s.phases, Inserted) == |s.phases|
  }

  ghost predicate LockHeldRight(s: Shared) {
    forall id :: s.lock == Some(id) <==> 1 <= id <= |s.phases| && HoldsLock(s.phases[id - 1])
  }

  ghost predicate HistoryRight(s: Shared) {
    && NoRepeat(s.queued)
    && (forall id :: id in s.queued <==> At(s, id, Phase.Queued))
  }

  ghost predicate RegistryRight(s: Shared) {
    && IsSuffix(s.closed, s.queued)
    && s.entries == RegisteredIds(s) + Ids(s.closed)
    && |s.closed| <= s.cap
  }

  ghost predicate Safe(s: Shared) {
    CountsRight(s) && LockHeldRight(s) && HistoryRight(s) && RegistryRight(s)
  }

  lemma {:induction false} CountMoves(phases: seq<Phase>, i: nat, to: Phase, phase: Phase)
    requires i < |phases|
    ensures CountAt(phases[i := to], phase) ==
            CountAt(phases, phase) - (if phases[i] == phase then 1 else 0) + (if to == phase then 1 else 0)
  {
    var n := |phases| - 1;
    if i == n {
      assert phases[i := to][..n] == phases[..n];
    } else {
      assert phases[i := to][..n] == phases[..n][i := to];
      CountMoves(phases[..n], i, to, phase);
    }
  }

  lemma CountsMove(s: Shared, id: ConnId, to: Phase)
    requires 1 <= id <= |s.phases|
    ensures forall phase :: CountAt(To(s, id, to).phases, phase) ==
              CountAt(s.phases, phase) - (if s.phases[id - 1] == phase then 1 else 0) + (if to == phase then 1 else 0)
  {
    forall phase {
      CountMoves(s.phases, id - 1, to, phase);
    }
  }

  lemma {:induction false} SomeAt(phases: seq<Phase>, i: nat)
    requires i < |phases|
    ensures CountAt(phases, phases[i]) > 0
  {
    var n := |phases| - 1;
    if i < n {
      SomeAt(phases[..n], i);
    }
  }

  lemma AllocateIsSafe(s: Shared)
    requires Safe(s)
    ensures Safe(Next(s, Allocate))
  {
    var t := Next(s, Allocate);
    assert t.phases[..|s.phases|] == s.phases;
    forall id ensures IsRegistered(t, id) <==> IsRegistered(s, id) { }
    assert RegisteredIds(t) == RegisteredIds(s);
    forall id ensures id in t.queued <==> At(t, id, Phase.Queued) {
      assert id in s.queued <==> At(s, id, Phase.Queued);
    }
  }

  /** Moving between phases that agree on registration and queueing. */
  lemma MoveKeepsSets(s: Shared, id: ConnId, to: Phase)
    requires 1 <= id <= |s.phases| && Safe(s)
    requires Registered(s.phases[id - 1]) && Registered(to)
    ensures var t := To(s, id, to);
      RegisteredIds(t) == RegisteredIds(s) && forall i :: i in s.queued <==> At(t, i, Phase.Queued)
  {
    hide CountAt;
    var t := To(s, id, to);
    forall i ensures IsRegistered(t, i) <==> IsRegistered(s, i) { }
    forall i ensures i in s.queued <==> At(t, i, Phase.Queued) {
      assert i in s.queued <==> At(s, i, Phase.Queued);
    }
  }

  lemma InsertIsSafe(s: Shared, id: ConnId)
    requires Safe(s) && Enabled(s, Insert(id))
    ensures Safe(Next(s, Insert(id)))
  {
    hide CountAt, Ids;
    var t := Next(s, Insert(id));
    CountsMove(s, id, Inserted);
    forall i ensures IsRegistered(t, i) <==> IsRegistered(s, i) || i == id { }
    assert RegisteredIds(t) == RegisteredIds(s) + {id};
    forall i ensures i in t.queued <==> At(t, i, Phase.Queued) {
      assert i in s.queued <==> At(s, i, Phase.Queued);
    }
  }

  lemma CountingKeepsLock(s: Shared, step: Step)
    requires LockHeldRight(s) && Enabled(s, step)
    requires step.CountOpened? || step.CountLive? || step.Mark? || step.Subtract?
    ensures LockHeldRight(Next(s, step))
  {
    var t := Next(s, step);
    assert step.CountLive? ==> s.lock == Some(step.id);
    forall id ensures t.lock == Some(id) <==> 1 <= id <= |t.phases| && HoldsLock(t.phases[id - 1]) {
      assert s.lock == Some(id) <==> 1 <= id <= |s.phases| && HoldsLock(s.phases[id - 1]);
    }
  }

  lemma CountingIsSafe(s: Shared, step: Step)
    requires Safe(s) && Enabled(s, step) && (step.CountOpened? || step.CountLive? || step.Mark? || step.Subtract?)
    ensures Safe(Next(s, step))
  {
    hide CountAt, Ids, RegisteredIds, NoRepeat, IsSuffix;
    var t := Next(s, step);
    var u := To(s, step.id, t.phases[step.id - 1]);
    CountsMove(s, step.id, t.phases[step.id - 1]);
    MoveKeepsSets(s, step.id, t.phases[step.id - 1]);
    SameRegistered(t, u);
    CountingKeepsLock(s, step);
    forall id ensures id in t.queued <==> At(t, id, Phase.Queued) {
      assert id in s.queued <==> At(u, id, Phase.Queued);
    }
  }

  lemma SameRegistered(s: Shared, t: Shared)
    requires s.phases == t.phases
    ensures RegisteredIds(s) == RegisteredIds(t)
  {
    forall i ensures IsRegistered(t, i) <==> IsRegistered(s, i) { }
  }

  lemma QueueMovesSets(s: Shared, id: ConnId)
    requires Safe(s) && At(s, id, Subtracted)
    ensures var t := To(s, id, Phase.Queued);
      && RegisteredIds(t) == RegisteredIds(s) - {id}
      && (forall i :: i in s.queued + [id] <==> At(t, i, Phase.Queued))
      && (LockHeldRight(s) ==> LockHeldRight(t))
  {
    hide CountAt;
    var t := To(s, id, Phase.Queued);
    forall i ensures IsRegistered(t, i) <==> IsRegistered(s, i) && i != id { }
    forall i: ConnId ensures i in s.queued + [id] <==> At(t, i, Phase.Queued) {
      assert i in s.queued <==> At(s, i, Phase.Queued);
    }
    forall i: ConnId ensures LockHeldRight(s) ==>
      (t.lock == Some(i) <==> 1 <= i <= |t.phases| && HoldsLock(t.phases[i - 1])) {
      assert LockHeldRight(s) ==> (s.lock == Some(i) <==> 1 <= i <= |s.phases| && HoldsLock(s.phases[i - 1]));
    }
  }

  lemma QueueKeepsRegistry(s: Shared, id: ConnId)
    requires Safe(s) && Enabled(s, Queue(id))
    ensures RegistryRight(Next(s, Queue(id)))
  {
    assert 1 <= id <= |s.phases|;
    hide CountsRight, LockHeldRight, HistoryRight, Evict, Ids, RegisteredIds, NoRepeat, IsSuffix, PhaseAt;
    var t, u := Next(s, Queue(id)), To(s, id, Phase.Queued);
    var queue := s.closed + [id];
    QueueMovesSets(s, id);
    SameRegistered(t, u);
    QueueFacts(s, id);
    EvictAfterPush(s.entries, RegisteredIds(u), queue, s.cap);
    SuffixAfterPush(s.closed, s.queued, id, t.closed);
  }

  lemma QueueIsSafe(s: Shared, id: ConnId)
    requires Safe(s) && Enabled(s, Queue(id))
    ensures Safe(Next(s, Queue(id)))
  {
    hide RegistryRight, CountAt, Evict, NoRepeat;
    QueueKeepsRegistry(s, id);
    CountsMove(s, id, Phase.Queued);
    QueueMovesSets(s, id);
    QueueFacts(s, id);
  }

  lemma QueueFacts(s: Shared, id: ConnId)
    requires Safe(s) && At(s, id, Subtracted)
    ensures var queue := s.closed + [id];
      var left := RegisteredIds(s) - {id};
      NoRepeat(queue) && NoRepeat(s.queued + [id]) && s.entries == left + Ids(queue) && left !! Ids(queue)
  {
    hide CountAt;
    assert id !in s.queued;
    assert id in RegisteredIds(s) by { assert IsRegistered(s, id); }
    forall i | i in s.closed ensures i in s.queued && i != id { }
    forall i | i in s.closed ensures i !in RegisteredIds(s) {
      assert At(s, i, Phase.Queued);
    }
  }

  /** Every reachable state, whatever the interleaving, is safe. */
  lemma {:induction false} AlwaysSafe(cap: nat, run: seq<Step>)
    ensures After(cap, run).Some? ==> Safe(After(cap, run).value) && After(cap, run).value.cap == cap
  {
    hide Safe, Next;
    if run == [] {
      FreshIsSafe(cap);
    } else {
      var before, step := After(cap, run[..|run| - 1]), run[|run| - 1];
      AlwaysSafe(cap, run[..|run| - 1]);
      if before.Some? && Enabled(before.value, step) {
        StepIsSafe(before.value, step);
      }
    }
  }

  lemma StepIsSafe(s: Shared, step: Step)
    requires Safe(s) && Enabled(s, step)
    ensures Safe(Next(s, step)) && Next(s, step).cap == s.cap
  {
    hide Safe;
    match step
    case Allocate => AllocateIsSafe(s);
    case Insert(id) => InsertIsSafe(s, id);
    case Queue(id) => QueueIsSafe(s, id);
    case CountOpened(_) => CountingIsSafe(s, step);
    case CountLive(_) => CountingIsSafe(s, step);
    case Mark(_) => CountingIsSafe(s, step);
    case Subtract(_) => CountingIsSafe(s, step);
  }

  lemma FreshIsSafe(cap: nat)
    ensures Safe(Fresh(cap))
  {
  }

  // ----- what safety means to a reader of the metrics -----

  /** The lifecycle flag of a connection whose id is taken. */
  predicate ReadsOpen(phase: Phase) {
    phase.Allocated? || phase.Inserted? || phase.Counted? || phase.Live?
  }

  function CountReadingOpen(phases: seq<Phase>): nat {
    if phases == [] then 0
    else CountReadingOpen(phases[..|phases| - 1]) + if ReadsOpen(phases[|phases| - 1]) then 1 else 0
  }

  lemma {:induction false} ReadingOpenSplits(phases: seq<Phase>)
    ensures CountReadingOpen(phases) ==
            CountAt(phases, Allocated) + CountAt(phases, Inserted) + CountAt(phases, Counted) + CountAt(phases, Live)
  {
    if phases != [] {
      ReadingOpenSplits(phases[..|phases| - 1]);
    }
  }

  /** An inserted connection that still reads open is never evicted, at any
      point of any interleaving. */
  lemma OpenIsNeverEvicted(cap: nat, run: seq<Step>, id: ConnId)
    requires After(cap, run).Some?
    requires var s := After(cap, run).value;
      1 <= id <= |s.phases| && ReadsOpen(s.phases[id - 1]) && !s.phases[id - 1].Allocated?
    ensures id in After(cap, run).value.entries
  {
    AlwaysSafe(cap, run);
    assert IsRegistered(After(cap, run).value, id);
  }

  /** The live count is the number of connections that read open, less those
      still being opened, plus those just marked closed; it never runs below
      zero when it is counted down. */
  lemma LiveCountUpToInFlight(cap: nat, run: seq<Step>)
    requires After(cap, run).Some?
    ensures var s := After(cap, run).value;
      && s.connsLive == CountReadingOpen(s.phases)
           - CountAt(s.phases, Allocated) - CountAt(s.phases, Inserted) - CountAt(s.phases, Counted)
           + CountAt(s.phases, Marked)
      && (forall id :: Enabled(s, Subtract(id)) ==> s.connsLive > 0)
  {
    AlwaysSafe(cap, run);
    var s := After(cap, run).value;
    ReadingOpenSplits(s.phases);
    forall id: ConnId | Enabled(s, Subtract(id))
      ensures s.connsLive > 0
    {
      SomeAt(s.phases, id - 1);
    }
  }

  /** Each id enters the closed queue at most once, and the queue holds the
      most recently queued ids in order, never more than the cap. */
  lemma ClosedQueueIsTheNewest(cap: nat, run: seq<Step>)
    requires After(cap, run).Some?
    ensures var s := After(cap, run).value;
      NoRepeat(s.queued) && IsSuffix(s.closed, s.queued) && |s.closed| <= cap
  {
    AlwaysSafe(cap, run);
  }

  predicate Quiescent(s: Shared) {
    forall id :: 1 <= id <= |s.phases| ==> At(s, id, Live) || At(s, id, Phase.Queued)
  }

  /** With no open or close in flight the registry holds exactly the open
      connections and the queued ones, opened is live plus closed, and the
      entries are at most the live ones and `cap` more. */
  lemma QuiescentRegistry(cap: nat, run: seq<Step>)
    requires After(cap, run).Some? && Quiescent(After(cap, run).value)
    ensures var s := After(cap, run).value;
      && (forall id :: id in s.entries <==> At(s, id, Live) || id in s.closed)
      && s.connsOpened == |s.phases| == s.connsLive + |s.queued|
      && |s.entries| <= s.connsLive + cap
  {
    AlwaysSafe(cap, run);
    var s := After(cap, run).value;
    forall id: ConnId ensures id in s.entries <==> At(s, id, Live) || id in s.closed {
      assert id in RegisteredIds(s) <==> IsRegistered(s, id);
      assert 1 <= id <= |s.phases| ==> At(s, id, Live) || At(s, id, Phase.Queued);
    }
    QuiescentCounts(s);
  }

  lemma QuiescentCounts(s: Shared)
    requires Safe(s) && Quiescent(s)
    ensures s.connsOpened == |s.phases| == s.connsLive + |s.queued|
    ensures |s.entries| <= s.connsLive + s.cap
  {
    hide CountAt, Ids;
    forall phase: Phase, id: ConnId | phase != Live && phase != Phase.Queued
      ensures !PhaseAt(s.phases, id, phase)
    {
      assert 1 <= id <= |s.phases| ==> At(s, id, Live) || At(s, id, Phase.Queued);
    }
    NoneAt(s.phases, Allocated);
    NoneAt(s.phases, Inserted);
    NoneAt(s.phases, Marked);
    LiveIds(s.phases);
    var live := IdsAt(s.phases, Live);
    var all := FlowLifecycle.FirstIds(|s.phases|);
    forall id: ConnId ensures id in all <==> id in live + Ids(s.queued) {
      InIds(s.queued, id);
      assert id in s.queued <==> At(s, id, Phase.Queued);
      assert 1 <= id <= |s.phases| ==> At(s, id, Live) || At(s, id, Phase.Queued);
    }
    assert all == live + Ids(s.queued);
    assert live !! Ids(s.queued) by {
      forall id | id in live ensures id !in Ids(s.queued) { InIds(s.queued, id); }
    }
    DistinctCount(s.queued);
    assert RegisteredIds(s) == live by {
      forall id: ConnId ensures IsRegistered(s, id) <==> id in live {
        assert 1 <= id <= |s.phases| ==> At(s, id, Live) || At(s, id, Phase.Queued);
      }
    }
    SuffixCount(s);
  }

  lemma InIds(ids: seq<ConnId>, id: ConnId)
    ensures id in Ids(ids) <==> id in ids
  {
  }

  lemma SuffixCount(s: Shared)
    requires NoRepeat(s.queued) && IsSuffix(s.closed, s.queued) && s.entries == RegisteredIds(s) + Ids(s.closed)
    ensures |s.entries| <= |RegisteredIds(s)| + |s.closed|
  {
    hide RegisteredIds, Ids;
    SplitIds(s.queued, |s.queued| - |s.closed|);
    DistinctCount(s.closed);
  }

  function IdsAt(phases: seq<Phase>, phase: Phase): set<ConnId> {
    set id | 1 <= id <= |phases| && PhaseAt(phases, id, phase)
  }

  lemma {:induction false} LiveIds(phases: seq<Phase>)
    ensures |IdsAt(phases, Live)| == CountAt(phases, Live)
  {
    if phases != [] {
      var n := |phases| - 1;
      LiveIds(phases[..n]);
      assert IdsAt(phases, Live) == IdsAt(phases[..n], Live) + if phases[n].Live? then {n + 1} else {};
    }
  }

  lemma {:induction false} NoneAt(phases: seq<Phase>, phase: Phase)
    requires forall id: ConnId :: !PhaseAt(phases, id, phase)
    ensures CountAt(phases, phase) == 0
  {
    if phases != [] {
      var n := |phases| - 1;
      assert !PhaseAt(phases, n + 1, phase);
      forall id: ConnId ensures !PhaseAt(phases[..n], id, phase) {
        assert !PhaseAt(phases, id, phase);
      }
      NoneAt(phases[..n], phase);
    }
  }

  // ----- the calls as their steps -----

  function PhaseOf(st: Stats): Phase {
    if st.open then Live else Phase.Queued
  }

  /** The shared state between calls, when none is in flight. */
  function Between(s: Store): Shared {
    Shared(seq(|s.stats|, i requires 0 <= i < |s.stats| => PhaseOf(s.stats[i])), None,
           s.connsOpened, s.connsLive, s.entries, s.closed, s.queued, s.cap)
  }

  /** An open call is its four steps run back to back. */
  lemma OpenIsItsSteps(s: Store, client: Endpoint, server: Endpoint, encrypted: bool)
    ensures var id := |s.stats| + 1;
      var a := Next(Between(s), Allocate);
      && Enabled(a, Insert(id))
      && Enabled(Next(a, Insert(id)), CountOpened(id))
      && Enabled(Next(Next(a, Insert(id)), CountOpened(id)), CountLive(id))
      && Next(Next(Next(a, Insert(id)), CountOpened(id)), CountLive(id)) ==
           Between(OpenConnection(s, client, server, encrypted))
  {
    var id := |s.stats| + 1;
    var t := Next(Next(Next(Next(Between(s), Allocate), Insert(id)), CountOpened(id)), CountLive(id));
    assert t.phases == Between(OpenConnection(s, client, server, encrypted)).phases;
  }

  /** A close call on an open connection is its three steps run back to back. */
  lemma CloseIsItsSteps(s: Store, id: ConnId)
    requires Known(s, id) && StatsOf(s, id).open
    ensures var a := Between(s);
      && Enabled(a, Mark(id))
      && Enabled(Next(a, Mark(id)), Subtract(id))
      && Enabled(Next(Next(a, Mark(id)), Subtract(id)), Queue(id))
      && Next(Next(Next(a, Mark(id)), Subtract(id)), Queue(id)) == Between(CloseConnection(s, id))
  {
    hide Evict;
    var t := Next(Next(Next(Between(s), Mark(id)), Subtract(id)), Queue(id));
    assert t.phases == Between(CloseConnection(s, id)).phases;
  }
}
