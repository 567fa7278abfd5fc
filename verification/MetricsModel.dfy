/** The metrics store as a value: what each call of `Metrics` does to it when
    calls do not overlap, and what every run of calls keeps. Connection ids
    count from 1, so id `i` is described by `stats[i - 1]`. */
module MetricsModel {
  import opened Endpoints

  type ConnId = nat

  datatype Traffic = In | Out

  datatype Totals = Totals(msgsIn: nat, msgsOut: nat, bytesIn: nat, bytesOut: nat)

  const ZERO := Totals(0, 0, 0, 0)

  function Plus(a: Totals, b: Totals): Totals {
    Totals(a.msgsIn + b.msgsIn, a.msgsOut + b.msgsOut, a.bytesIn + b.bytesIn, a.bytesOut + b.bytesOut)
  }

  lemma PlusNothing(a: Totals, b: Totals)
    requires b.msgsIn == b.msgsOut == b.bytesIn == b.bytesOut == 0
    ensures Plus(a, b) == a
  {
  }

  function Delta(direction: Traffic, count: nat, bytes: nat): Totals {
    match direction
    case In => Totals(count, 0, bytes, 0)
    case Out => Totals(0, count, 0, bytes)
  }

  datatype Stats = Stats(client: Endpoint, server: Endpoint, open: bool, encrypted: bool, counters: Totals)

  /** `queued` is the history of every id ever pushed on the closed queue. */
  datatype Store = Store(
    connsOpened: nat,
    connsLive: int,
    totals: Totals,
    stats: seq<Stats>,
    entries: set<ConnId>,
    closed: seq<ConnId>,
    queued: seq<ConnId>,
    cap: nat)

  function NewStore(cap: nat): Store {
    Store(0, 0, ZERO, [], {}, [], [], cap)
  }

  predicate Known(s: Store, id: ConnId) {
    1 <= id <= |s.stats|
  }

  function StatsOf(s: Store, id: ConnId): Stats
    requires Known(s, id)
  {
    s.stats[id - 1]
  }

  function WithStats(s: Store, id: ConnId, stats: Stats): Store
    requires Known(s, id)
  {
    s.(stats := s.stats[id - 1 := stats])
  }

  function OpenConnection(s: Store, client: Endpoint, server: Endpoint, encrypted: bool): Store {
    var id := |s.stats| + 1;
    s.(stats := s.stats + [Stats(client, server, true, encrypted, ZERO)],
       entries := s.entries + {id}, connsOpened := s.connsOpened + 1, connsLive := s.connsLive + 1)
  }

  function RecordMessages(s: Store, id: ConnId, direction: Traffic, count: nat, bytes: nat): Store
    requires Known(s, id)
  {
    var st := StatsOf(s, id);
    WithStats(s.(totals := Plus(s.totals, Delta(direction, count, bytes))), id,
              st.(counters := Plus(st.counters, Delta(direction, count, bytes))))
  }

  function SetEncrypted(s: Store, id: ConnId, encrypted: bool): Store
    requires Known(s, id)
  {
    WithStats(s, id, StatsOf(s, id).(encrypted := encrypted))
  }

  datatype Kept = Kept(entries: set<ConnId>, closed: seq<ConnId>)

  /** Drop the oldest queued ids until the cap is met or the queue is empty. */
  function Evict(entries: set<ConnId>, closed: seq<ConnId>, cap: nat): Kept
    decreases |closed|
  {
    if |entries| > cap && closed != [] then
      Evict(entries - {closed[0]}, closed[1..], cap)
    else
      Kept(entries, closed)
  }

  function CloseConnection(s: Store, id: ConnId): Store
    requires Known(s, id)
  {
    if !StatsOf(s, id).open then s
    else
      var t := WithStats(s, id, StatsOf(s, id).(open := false));
      var kept := Evict(t.entries, t.closed + [id], t.cap);
      t.(connsLive := t.connsLive - 1, entries := kept.entries, closed := kept.closed, queued := t.queued + [id])
  }

  // ----- what every run keeps -----

  function CountOpen(stats: seq<Stats>): nat {
    if stats == [] then 0 else CountOpen(stats[..|stats| - 1]) + if stats[|stats| - 1].open then 1 else 0
  }

  function Sum(stats: seq<Stats>): Totals {
    if stats == [] then ZERO else Plus(Sum(stats[..|stats| - 1]), stats[|stats| - 1].counters)
  }

  function OpenIds(stats: seq<Stats>): set<ConnId> {
    set i | 1 <= i <= |stats| && OpenAt(stats, i)
  }

  predicate OpenAt(stats: seq<Stats>, i: ConnId) {
    1 <= i <= |stats| && stats[i - 1].open
  }

  function Ids(ids: seq<ConnId>): set<ConnId> {
    set id | id in ids
  }

  predicate NoRepeat(ids: seq<ConnId>) {
    forall i, j :: 0 <= i < j < |ids| ==> ids[i] != ids[j]
  }

  predicate IsSuffix(tail: seq<ConnId>, whole: seq<ConnId>) {
    |tail| <= |whole| && tail == whole[|whole| - |tail|..]
  }

  /** Opened is live plus closed and totals are the sum over every connection
      ever opened; the queue history names each closed connection once; the
      closed queue is its newest part; the registry holds exactly the open
      connections and the queued ones, and at most `cap` of the latter. */
  ghost predicate Consistent(s: Store) {
    && s.connsOpened == |s.stats|
    && s.connsLive == CountOpen(s.stats)
    && s.totals == Sum(s.stats)
    && NoRepeat(s.queued)
    && (forall id :: id in s.queued <==> Known(s, id) && !StatsOf(s, id).open)
    && IsSuffix(s.closed, s.queued)
    && s.entries == OpenIds(s.stats) + Ids(s.closed)
    && |s.closed| <= s.cap
  }

  lemma {:induction false} UpdateCounts(stats: seq<Stats>, i: nat, st: Stats)
    requires i < |stats|
    ensures CountOpen(stats[i := st]) == CountOpen(stats) - (if stats[i].open then 1 else 0)
        + (if st.open then 1 else 0)
    ensures Plus(Sum(stats[i := st]), stats[i].counters) == Plus(Sum(stats), st.counters)
  {
    var n := |stats| - 1;
    if i == n {
      assert stats[i := st][..n] == stats[..n];
    } else {
      assert stats[i := st][..n] == stats[..n][i := st];
      UpdateCounts(stats[..n], i, st);
    }
  }

  lemma {:induction false} CountOpenIds(stats: seq<Stats>)
    ensures |OpenIds(stats)| == CountOpen(stats)
  {
    if stats != [] {
      var n := |stats| - 1;
      CountOpenIds(stats[..n]);
      assert OpenIds(stats) == OpenIds(stats[..n]) + if stats[n].open then {n + 1} else {};
    }
  }

  /** Eviction removes a front part of the queue from the queue and from the
      registry, and stops at the cap unless the queue runs out. */
  lemma {:induction false} EvictDropsOldest(entries: set<ConnId>, closed: seq<ConnId>, cap: nat) returns (n: nat)
    requires NoRepeat(closed) && forall id :: id in closed ==> id in entries
    ensures n <= |closed|
    ensures Evict(entries, closed, cap) == Kept(entries - Ids(closed[..n]), closed[n..])
    ensures |entries - Ids(closed[..n])| <= cap || n == |closed|
    decreases |closed|
  {
    hide Ids, NoRepeat;
    if |entries| > cap && closed != [] {
      var rest := closed[1..];
      NoRepeatTail(closed);
      var m := EvictDropsOldest(entries - {closed[0]}, rest, cap);
      n := m + 1;
      FirstIds(closed, n);
      assert closed[n..] == rest[m..];
      assert entries - Ids(closed[..n]) == entries - {closed[0]} - Ids(rest[..m]);
      if m == 0 {
        FirstIds(rest, 0);
        assert entries - {closed[0]} - {} == entries - {closed[0]};
      }
    } else {
      n := 0;
      assert entries - {} == entries;
      FirstIds(closed, 0);
    }
  }

  /** Eviction takes nothing once the cap is met. */
  lemma {:induction false} EvictStopsAtCap(entries: set<ConnId>, closed: seq<ConnId>, cap: nat)
    requires NoRepeat(closed) && forall id :: id in closed ==> id in entries
    ensures var kept := Evict(entries, closed, cap);
      kept == Kept(entries, closed) || (|closed| > |kept.closed| && |kept.entries| >= cap)
    decreases |closed|
  {
    hide NoRepeat;
    if |entries| > cap && closed != [] {
      NoRepeatTail(closed);
      assert |entries| == |entries - {closed[0]}| + 1;
      EvictStopsAtCap(entries - {closed[0]}, closed[1..], cap);
    }
  }

  lemma NoRepeatTail(ids: seq<ConnId>)
    requires NoRepeat(ids) && ids != []
    ensures NoRepeat(ids[1..]) && ids[0] !in ids[1..]
  {
  }

  lemma FirstIds(ids: seq<ConnId>, n: nat)
    requires n <= |ids|
    ensures Ids(ids[..n]) == if n == 0 then {} else {ids[0]} + Ids(ids[1..][..n - 1])
  {
    if n > 0 {
      assert ids[1..][..n - 1] == ids[1..n];
      assert ids[..n] == [ids[0]] + ids[1..n];
    }
  }

  lemma {:induction false} DistinctCount(ids: seq<ConnId>)
    requires NoRepeat(ids)
    ensures |Ids(ids)| == |ids|
  {
    if ids != [] {
      var n := |ids| - 1;
      DistinctCount(ids[..n]);
      assert ids[n] !in Ids(ids[..n]);
      assert Ids(ids) == Ids(ids[..n]) + {ids[n]};
    }
  }

  lemma SplitIds(ids: seq<ConnId>, n: nat)
    requires NoRepeat(ids) && n <= |ids|
    ensures Ids(ids) == Ids(ids[..n]) + Ids(ids[n..]) && Ids(ids[..n]) !! Ids(ids[n..])
    ensures NoRepeat(ids[n..])
  {
    assert ids == ids[..n] + ids[n..];
  }

  /** Closing pushes the id and leaves the registry holding what is open plus
      what is still queued, with the queue no longer than the cap. */
  lemma EvictAfterPush(entries: set<ConnId>, open: set<ConnId>, queue: seq<ConnId>, cap: nat)
    requires NoRepeat(queue) && entries == open + Ids(queue) && open !! Ids(queue)
    ensures var kept := Evict(entries, queue, cap);
      IsSuffix(kept.closed, queue) && kept.entries == open + Ids(kept.closed) && |kept.closed| <= cap
  {
    hide Evict, Ids;
    assert forall id :: id in queue ==> id in entries by {
      assert forall id :: id in queue ==> id in Ids(queue) by { QueueIds(queue); }
    }
    var n := EvictDropsOldest(entries, queue, cap);
    SplitIds(queue, n);
    DistinctCount(queue[n..]);
    SubsetSmaller(Ids(queue[n..]), entries - Ids(queue[..n]));
  }

  lemma QueueIds(queue: seq<ConnId>)
    ensures forall id :: id in queue <==> id in Ids(queue)
  {
  }

  lemma SuffixAfterPush(tail: seq<ConnId>, whole: seq<ConnId>, id: ConnId, kept: seq<ConnId>)
    requires IsSuffix(tail, whole) && IsSuffix(kept, tail + [id])
    ensures IsSuffix(kept, whole + [id])
  {
    var n := |whole| - |tail|;
    assert whole + [id] == whole[..n] + (tail + [id]);
  }

  lemma SubsetSmaller(a: set<ConnId>, b: set<ConnId>)
    requires a <= b
    ensures |a| <= |b|
  {
    assert b == a + (b - a);
  }

  lemma NewStoreConsistent(cap: nat)
    ensures Consistent(NewStore(cap))
  {
  }

  /** Membership in the queue history carries over when no connection closes. */
  lemma SameHistory(s: Store, t: Store)
    requires Consistent(s) && t.queued == s.queued && |s.stats| <= |t.stats|
    requires forall i :: 0 <= i < |t.stats| ==> t.stats[i].open == (|s.stats| <= i || s.stats[i].open)
    ensures forall id :: id in t.queued <==> Known(t, id) && !StatsOf(t, id).open
  {
    forall id ensures id in t.queued <==> Known(t, id) && !StatsOf(t, id).open {
      assert id in s.queued <==> Known(s, id) && !StatsOf(s, id).open;
    }
  }

  lemma CountsOfOpened(stats: seq<Stats>, st: Stats)
    requires st.open && st.counters == ZERO
    ensures CountOpen(stats + [st]) == CountOpen(stats) + 1 && Sum(stats + [st]) == Sum(stats)
  {
    assert (stats + [st])[..|stats|] == stats;
  }

  lemma IdsOfOpened(stats: seq<Stats>, st: Stats)
    requires st.open
    ensures OpenIds(stats + [st]) == OpenIds(stats) + {|stats| + 1}
  {
    forall i ensures OpenAt(stats + [st], i) <==> OpenAt(stats, i) || i == |stats| + 1 { }
  }

  lemma OpenKeepsConsistent(s: Store, client: Endpoint, server: Endpoint, encrypted: bool)
    requires Consistent(s)
    ensures Consistent(OpenConnection(s, client, server, encrypted))
  {
    hide CountOpen, Sum, OpenIds;
    var st := Stats(client, server, true, encrypted, ZERO);
    CountsOfOpened(s.stats, st);
    IdsOfOpened(s.stats, st);
    SameHistory(s, OpenConnection(s, client, server, encrypted));
  }

  lemma UpdateKeepsIds(s: Store, id: ConnId, st: Stats)
    requires Known(s, id) && st.open == StatsOf(s, id).open
    ensures OpenIds(WithStats(s, id, st).stats) == OpenIds(s.stats)
  {
    var t := WithStats(s, id, st);
    forall i ensures OpenAt(t.stats, i) == OpenAt(s.stats, i) { }
  }

  lemma RecordKeepsConsistent(s: Store, id: ConnId, direction: Traffic, count: nat, bytes: nat)
    requires Consistent(s) && Known(s, id)
    ensures Consistent(RecordMessages(s, id, direction, count, bytes))
  {
    hide CountOpen, Sum, OpenIds;
    var st := StatsOf(s, id).(counters := Plus(StatsOf(s, id).counters, Delta(direction, count, bytes)));
    UpdateCounts(s.stats, id - 1, st);
    UpdateKeepsIds(s, id, st);
    SameHistory(s, RecordMessages(s, id, direction, count, bytes));
  }

  lemma SetEncryptedKeepsConsistent(s: Store, id: ConnId, encrypted: bool)
    requires Consistent(s) && Known(s, id)
    ensures Consistent(SetEncrypted(s, id, encrypted))
  {
    hide CountOpen, Sum, OpenIds;
    var st := StatsOf(s, id).(encrypted := encrypted);
    UpdateCounts(s.stats, id - 1, st);
    UpdateKeepsIds(s, id, st);
    SameHistory(s, SetEncrypted(s, id, encrypted));
  }

  lemma CloseKeepsConsistent(s: Store, id: ConnId)
    requires Consistent(s) && Known(s, id)
    ensures Consistent(CloseConnection(s, id))
  {
    hide Evict, CountOpen, Sum;
    if StatsOf(s, id).open {
      var st := StatsOf(s, id).(open := false);
      var t := CloseConnection(s, id);
      var stats := WithStats(s, id, st).stats;
      UpdateCounts(s.stats, id - 1, st);
      CloseMovesId(s, id);
      QueueHistoryGrows(s, id);
      EvictAfterPush(s.entries, OpenIds(stats), s.closed + [id], s.cap);
      SuffixAfterPush(s.closed, s.queued, id, t.closed);
    }
  }

  lemma QueueHistoryGrows(s: Store, id: ConnId)
    requires Consistent(s) && Known(s, id) && StatsOf(s, id).open
    ensures var t := WithStats(s, id, StatsOf(s, id).(open := false));
      var queue := s.closed + [id];
      && NoRepeat(s.queued + [id])
      && (forall i :: i in s.queued + [id] <==> Known(t, i) && !StatsOf(t, i).open)
      && NoRepeat(queue)
      && s.entries == OpenIds(t.stats) + Ids(queue)
      && OpenIds(t.stats) !! Ids(queue)
  {
    hide CountOpen, Sum;
    var t := WithStats(s, id, StatsOf(s, id).(open := false));
    CloseMovesId(s, id);
    assert id !in s.queued;
    forall i ensures i in s.queued + [id] <==> Known(t, i) && !StatsOf(t, i).open {
      assert i in s.queued <==> Known(s, i) && !StatsOf(s, i).open;
    }
    assert OpenAt(s.stats, id) && id in OpenIds(s.stats);
    forall i | i in s.closed ensures i in s.queued && i != id {
    }
    forall i | i in s.closed + [id] ensures i !in OpenIds(t.stats) {
      assert i in s.queued + [id];
      assert !OpenAt(t.stats, i);
    }
  }

  lemma CloseMovesId(s: Store, id: ConnId)
    requires Known(s, id) && StatsOf(s, id).open
    ensures OpenIds(WithStats(s, id, StatsOf(s, id).(open := false)).stats) == OpenIds(s.stats) - {id}
  {
    var t := WithStats(s, id, StatsOf(s, id).(open := false));
    forall i ensures OpenAt(t.stats, i) <==> OpenAt(s.stats, i) && i != id { }
  }

  /** A close keeps the newest closed connections: one is dropped only when the
      registry is then still full, and none is kept beyond a full registry. */
  lemma CloseKeepsTheNewest(s: Store, id: ConnId)
    requires Consistent(s) && Known(s, id) && StatsOf(s, id).open
    ensures var t := CloseConnection(s, id);
      && IsSuffix(t.closed, s.closed + [id])
      && (|t.closed| <= |s.closed| ==> |t.entries| >= s.cap)
      && (t.closed != [] ==> |t.entries| <= s.cap)
  {
    hide Evict, CountOpen, Sum, Consistent;
    var queue := s.closed + [id];
    QueueHistoryGrows(s, id);
    assert forall i :: i in queue ==> i in s.entries by { QueueIds(queue); }
    var n := EvictDropsOldest(s.entries, queue, s.cap);
    EvictStopsAtCap(s.entries, queue, s.cap);
  }
}
