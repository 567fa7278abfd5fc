/** The metrics store as the shared objects that traffic sources update. */
module Metrics {
  import opened Endpoints
  import opened MetricsModel
  import RateSamples

  datatype MetricsSummary = MetricsSummary(connsOpened: nat, connsLive: nat, totals: Totals, rates: seq<Totals>)

  const DEFAULT_CONNECTION_CAP: nat := 10_000
  const DEFAULT_RATE_HISTORY: nat := 60

  class ConnStats {
    const id: ConnId
    const client: Endpoint
    const server: Endpoint
    var open: bool
    var encrypted: bool
    var counters: Totals

    constructor (id: ConnId, client: Endpoint, server: Endpoint, encrypted: bool)
      ensures this.id == id && this.client == client && this.server == server
      ensures Value() == Stats(client, server, true, encrypted, ZERO)
    {
      this.id, this.client, this.server := id, client, server;
      this.open, this.encrypted, this.counters := true, encrypted, ZERO;
    }

    function Value(): Stats
      reads this
    {
      Stats(client, server, open, encrypted, counters)
    }
  }

  ghost function Values(all: seq<ConnStats>): (stats: seq<Stats>)
    reads all
    ensures |stats| == |all| && forall i :: 0 <= i < |all| ==> stats[i] == all[i].Value()
  {
    seq(|all|, i requires 0 <= i < |all| reads all => all[i].Value())
  }

  class MetricsStore {
    var connsOpened: nat
    var connsLive: nat
    var nextConnId: ConnId
    var totals: Totals
    var entries: map<ConnId, ConnStats>
    var closed: seq<ConnId>
    var previous: Totals
    var samples: seq<Totals>
    const connectionCap: nat
    const rateHistory: nat
    /** Every connection ever opened, in id order, and every id ever queued. */
    ghost var all: seq<ConnStats>
    ghost var queued: seq<ConnId>

    ghost function State(): Store
      reads this, all
    {
      Store(connsOpened, connsLive, totals, Values(all), entries.Keys, closed, queued, connectionCap)
    }

    lemma StatsCount()
      ensures |State().stats| == |all|
    {
    }

    /** Ids number the opened connections from 1, and the registry maps ids to them. */
    ghost predicate Linked()
      reads this, all
    {
      && nextConnId == |all| + 1
      && (forall i :: 0 <= i < |all| ==> all[i].id == i + 1)
      && (forall id :: id in entries ==> 1 <= id <= |all| && entries[id] == all[id - 1])
    }

    ghost predicate Valid()
      reads this, all
    {
      Linked() && Consistent(State())
    }

    ghost predicate Holds(conn: ConnStats)
      reads this
    {
      1 <= conn.id <= |all| && all[conn.id - 1] == conn
    }

    constructor (connectionCap: nat, rateHistory: nat)
      ensures this.rateHistory == rateHistory && previous == ZERO && samples == []
      ensures Valid() && State() == NewStore(connectionCap) && all == []
    {
      this.connectionCap, this.rateHistory := connectionCap, rateHistory;
      previous, samples := ZERO, [];
      connsOpened, connsLive, nextConnId, totals := 0, 0, 1, ZERO;
      entries, closed, all, queued := map[], [], [], [];
      new;
      NewStoreConsistent(connectionCap);
      assert Values(all) == [];
      assert entries.Keys == {};
    }

    method OpenConnection(client: Endpoint, server: Endpoint, encrypted: bool) returns (stats: ConnStats)
      requires Valid()
      modifies this
      ensures Valid() && fresh(stats) && Holds(stats) && stats.id == old(|all|) + 1
      ensures all == old(all) + [stats] && stats.client == client && stats.server == server
      ensures State() == MetricsModel.OpenConnection(old(State()), client, server, encrypted)
    {
      hide Consistent;
      ghost var before := State();
      OpenKeepsConsistent(before, client, server, encrypted);
      var id := nextConnId;
      nextConnId := nextConnId + 1;
      stats := new ConnStats(id, client, server, encrypted);
      entries := entries[id := stats];
      connsOpened := connsOpened + 1;
      connsLive := connsLive + 1;
      all := all + [stats];
      assert Values(all) == before.stats + [stats.Value()];
      assert entries.Keys == before.entries + {id};
    }

    method RecordMessages(conn: ConnStats, direction: Traffic, count: nat, bytes: nat)
      requires Valid() && Holds(conn)
      modifies this, conn
      ensures Valid() && all == old(all)
      ensures State() == MetricsModel.RecordMessages(old(State()), conn.id, direction, count, bytes)
    {
      hide Consistent;
      ghost var before := State();
      RecordKeepsConsistent(before, conn.id, direction, count, bytes);
      totals := Plus(totals, Delta(direction, count, bytes));
      conn.counters := Plus(conn.counters, Delta(direction, count, bytes));
      assert State().stats == MetricsModel.RecordMessages(before, conn.id, direction, count, bytes).stats;
    }

    method SetEncrypted(conn: ConnStats, encrypted: bool)
      requires Valid() && Holds(conn)
      modifies this, conn
      ensures Valid() && all == old(all)
      ensures State() == MetricsModel.SetEncrypted(old(State()), conn.id, encrypted)
    {
      hide Consistent;
      ghost var before := State();
      SetEncryptedKeepsConsistent(before, conn.id, encrypted);
      conn.encrypted := encrypted;
      assert State().stats == MetricsModel.SetEncrypted(before, conn.id, encrypted).stats;
    }

    /** The eviction loop that runs while the registry is over its cap. */
    method EvictOldest()
      requires Linked()
      modifies `entries, `closed
      ensures Linked()
      ensures Kept(entries.Keys, closed) == Evict(old(entries.Keys), old(closed), connectionCap)
    {
      while |entries| > connectionCap
        invariant Evict(entries.Keys, closed, connectionCap) == Evict(old(entries.Keys), old(closed), connectionCap)
        invariant Linked()
        decreases |closed|
      {
        assert |entries| == |entries.Keys|;
        if closed == [] {
          break; // nothing closed is left to drop
        }
        var id := closed[0];
        closed := closed[1..];
        entries := entries - {id};
      }
      assert |entries| == |entries.Keys|;
    }

    method CloseConnection(conn: ConnStats)
      requires Valid() && Holds(conn)
      modifies this, conn
      ensures Valid() && all == old(all)
      ensures State() == MetricsModel.CloseConnection(old(State()), conn.id)
    {
      hide Consistent, Evict;
      ghost var before := State();
      CloseKeepsConsistent(before, conn.id);
      if !conn.open {
        return;
      }
      assert connsLive > 0 by { OpenIsCounted(before, conn.id); }
      conn.open := false;
      connsLive := connsLive - 1;
      closed := closed + [conn.id];
      queued := queued + [conn.id];
      EvictOldest();
      assert Values(all) == MetricsModel.CloseConnection(before, conn.id).stats;
    }

    /** The next rate sample: differences to the previous totals, kept in a
        history of the newest `rateHistory` samples. */
    method SampleRates() returns (sample: Totals)
      modifies `previous, `samples
      ensures Counters(sample) == RateSamples.Differences(Counters(totals), Counters(old(previous)))
      ensures previous == totals
      ensures History(samples) == RateSamples.PushSample(History(old(samples)), Counters(sample), rateHistory)
    {
      sample := Totals(
        RateSamples.SaturatingSub(totals.msgsIn, previous.msgsIn),
        RateSamples.SaturatingSub(totals.msgsOut, previous.msgsOut),
        RateSamples.SaturatingSub(totals.bytesIn, previous.bytesIn),
        RateSamples.SaturatingSub(totals.bytesOut, previous.bytesOut));
      previous := totals;
      if rateHistory != 0 {
        samples := samples + [sample];
        assert History(samples) == History(old(samples)) + [Counters(sample)];
        while |samples| > rateHistory
          modifies `samples
          invariant RateSamples.DropOldest(History(samples), rateHistory) ==
                    RateSamples.DropOldest(History(old(samples)) + [Counters(sample)], rateHistory)
        {
          assert History(samples[1..]) == History(samples)[1..];
          samples := samples[1..];
        }
      }
    }

    /** The aggregates, which are those of every connection ever opened, and the
        rate history. */
    method Summary() returns (s: MetricsSummary)
      requires Valid()
      ensures s == MetricsSummary(connsOpened, connsLive, totals, samples)
      ensures s.connsOpened == |State().stats| && s.connsLive == CountOpen(State().stats)
      ensures s.totals == Sum(State().stats)
    {
      s := MetricsSummary(connsOpened, connsLive, totals, samples);
    }

    /** The summary, with one record per registry entry in id order. */
    method Snapshot() returns (summary: MetricsSummary, ids: seq<ConnId>, conns: seq<Stats>)
      requires Valid()
      ensures summary == MetricsSummary(connsOpened, connsLive, totals, samples)
      ensures |ids| == |conns|
      ensures forall i :: 0 <= i < |ids| ==> Known(State(), ids[i]) && conns[i] == StatsOf(State(), ids[i])
      ensures forall id :: id in ids <==> id in entries
      ensures forall i, j :: 0 <= i < j < |ids| ==> ids[i] < ids[j]
    {
      hide Consistent, CountOpen, Sum;
      summary := Summary();
      ids := [];
      var left := entries.Keys;
      while left != {}
        invariant left <= entries.Keys
        invariant Ascending(ids) && forall id :: id in ids <==> id in entries && id !in left
        decreases left
      {
        var id :| id in left;
        ids := InsertId(ids, id);
        left := left - {id};
      }
      StatsCount();
      assert forall i :: 0 <= i < |ids| ==> ids[i] in entries;
      conns := [];
      for i := 0 to |ids|
        invariant |conns| == i
        invariant forall j :: 0 <= j < |ids| ==> Known(State(), ids[j])
        invariant forall j :: 0 <= j < i ==> conns[j] == StatsOf(State(), ids[j])
      {
        conns := conns + [entries[ids[i]].Value()];
      }
    }
  }

  predicate Ascending(ids: seq<ConnId>) {
    forall i, j :: 0 <= i < j < |ids| ==> ids[i] < ids[j]
  }

  method InsertId(ids: seq<ConnId>, id: ConnId) returns (r: seq<ConnId>)
    requires Ascending(ids) && id !in ids
    ensures Ascending(r) && forall i :: i in r <==> i == id || i in ids
  {
    var n := |ids|;
    while n > 0 && ids[n - 1] > id
      invariant 0 <= n <= |ids|
      invariant forall k :: n <= k < |ids| ==> ids[k] > id
      decreases n
    {
      n := n - 1;
    }
    r := ids[..n] + [id] + ids[n..];
    InsertedElements(ids, n, id);
    assert forall i :: 0 <= i < n ==> r[i] == ids[i] && r[i] < id;
    assert forall i :: n < i < |r| ==> r[i] == ids[i - 1] && r[i] > id;
  }

  lemma InsertedElements(ids: seq<ConnId>, n: nat, id: ConnId)
    requires n <= |ids|
    ensures forall i :: i in ids[..n] + [id] + ids[n..] <==> i == id || i in ids
  {
    assert ids == ids[..n] + ids[n..];
  }

  function Counters(t: Totals): seq<nat> {
    [t.msgsIn, t.msgsOut, t.bytesIn, t.bytesOut]
  }

  function History(samples: seq<Totals>): seq<seq<nat>> {
    seq(|samples|, i requires 0 <= i < |samples| => Counters(samples[i]))
  }

  lemma {:induction false} OpenIsCounted(s: Store, id: ConnId)
    requires Consistent(s) && Known(s, id) && StatsOf(s, id).open
    ensures s.connsLive > 0
  {
    CountOpenIds(s.stats);
    assert OpenAt(s.stats, id);
    assert id in OpenIds(s.stats);
  }
}
