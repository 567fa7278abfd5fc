/** The connection table and the metrics store agree on what is open, over any
    mix of SYN, FIN, RST and reuse of a 4-tuple. */
module FlowLifecycle {
  import opened Segments
  import opened Decode
  import opened MetricsModel
  import opened FlowModel

  /** Keys of the entries whose metrics are still open. */
  function OpenKeys(t: TableState): set<ConnKey> {
    set k | k in t.conns && !t.conns[k].metricsClosed
  }

  ghost predicate HasEntry(t: TableState, id: ConnId) {
    exists k :: k in t.conns && t.conns[k].stats == id
  }

  ghost predicate DistinctIds(t: TableState) {
    forall j, k :: j in t.conns && k in t.conns && t.conns[j].stats == t.conns[k].stats ==> j == k
  }

  /** An entry is marked closed exactly when its metrics are; every connection
      that is open in the metrics is in the table; the live count counts them. */
  ghost predicate Agrees(t: TableState) {
    && KnownConns(t)
    && Consistent(t.store)
    && DistinctIds(t)
    && (forall k :: k in t.conns ==> (t.conns[k].metricsClosed <==> !StatsOf(t.store, t.conns[k].stats).open))
    && (forall id :: Known(t.store, id) && StatsOf(t.store, id).open ==> HasEntry(t, id))
    && t.store.connsLive == |OpenKeys(t)|
  }

  /** Accounting touches one connection's counters and no lifecycle. */
  lemma AccountFacts(s: Store, id: ConnId, direction: Traffic, outcome: DrainOutcome)
    requires Known(s, id)
    ensures var u := Account(s, id, direction, outcome);
      && (Consistent(s) ==> Consistent(u))
      && u.connsLive == s.connsLive
      && (forall i :: Known(s, i) ==> StatsOf(u, i).open == StatsOf(s, i).open)
      && (forall i :: Known(s, i) && i != id ==> StatsOf(u, i) == StatsOf(s, i))
      && StatsOf(u, id).counters ==
           if outcome.msgs > 0 then Plus(StatsOf(s, id).counters, Delta(direction, outcome.msgs, outcome.bytes))
           else StatsOf(s, id).counters
  {
    hide Consistent;
    var s' := if outcome.encrypted then SetEncrypted(s, id, true) else s;
    if Consistent(s) {
      SetEncryptedKeepsConsistent(s, id, true);
      RecordKeepsConsistent(s', id, direction, outcome.msgs, outcome.bytes);
    }
  }

  lemma CloseFacts(s: Store, id: ConnId)
    requires Known(s, id)
    ensures var u := CloseConnection(s, id);
      && (Consistent(s) ==> Consistent(u))
      && |u.stats| == |s.stats|
      && u.connsLive == s.connsLive - (if StatsOf(s, id).open then 1 else 0)
      && !StatsOf(u, id).open
      && (forall i :: Known(s, i) && i != id ==> StatsOf(u, i) == StatsOf(s, i))
      && StatsOf(u, id).counters == StatsOf(s, id).counters
  {
    hide Consistent, Evict;
    if Consistent(s) {
      CloseKeepsConsistent(s, id);
    }
  }

  lemma OpenFacts(s: Store, key: ConnKey)
    ensures var u := OpenConnection(s, key.client, key.server, false);
      && (Consistent(s) ==> Consistent(u))
      && |u.stats| == |s.stats| + 1
      && u.connsLive == s.connsLive + 1
      && StatsOf(u, |u.stats|) == Stats(key.client, key.server, true, false, ZERO)
      && (forall i :: Known(s, i) ==> StatsOf(u, i) == StatsOf(s, i))
  {
    hide Consistent;
    if Consistent(s) {
      OpenKeepsConsistent(s, key.client, key.server, false);
    }
  }

  /** Replacing an entry keeps every id but its own reachable. */
  lemma EntryStays(t: TableState, key: ConnKey, c: ConnState, store: Store, id: ConnId)
    requires HasEntry(t, id) && (key in t.conns && t.conns[key].stats == id ==> c.stats == id)
    ensures HasEntry(TableState(t.conns[key := c], store), id)
  {
    var k :| k in t.conns && t.conns[k].stats == id;
    var u := TableState(t.conns[key := c], store);
    assert k in u.conns;
    assert k == key || u.conns[k].stats == id;
  }

  lemma NewEntry(t: TableState, key: ConnKey, c: ConnState, store: Store)
    ensures HasEntry(TableState(t.conns[key := c], store), c.stats)
  {
    assert key in t.conns[key := c];
  }

  /** One connection was added, open, under the next id. */
  ghost predicate OneOpened(s: Store, u: Store) {
    && |u.stats| == |s.stats| + 1
    && StatsOf(u, |u.stats|).open
    && (forall i :: Known(s, i) ==> StatsOf(u, i).open == StatsOf(s, i).open)
    && u.connsLive == s.connsLive + 1
  }

  lemma InsertDistinct(t: TableState, key: ConnKey, c: ConnState, store: Store)
    requires KnownConns(t) && DistinctIds(t) && c.stats > |t.store.stats|
    ensures DistinctIds(TableState(t.conns[key := c], store))
  {
    hide NewConn;
  }

  lemma InsertOpenKey(t: TableState, key: ConnKey, c: ConnState, store: Store)
    requires !c.metricsClosed && (key in t.conns ==> t.conns[key].metricsClosed)
    ensures |OpenKeys(TableState(t.conns[key := c], store))| == |OpenKeys(t)| + 1
  {
    assert OpenKeys(TableState(t.conns[key := c], store)) == OpenKeys(t) + {key};
  }

  lemma InsertAgrees(t: TableState, key: ConnKey, c: ConnState, store: Store)
    requires Agrees(t) && (key in t.conns ==> t.conns[key].metricsClosed)
    requires Consistent(store) && OneOpened(t.store, store)
    requires c.stats == |store.stats| && !c.metricsClosed
    ensures Agrees(TableState(t.conns[key := c], store))
  {
    hide Consistent, HasEntry, DistinctIds, OpenKeys;
    var u := TableState(t.conns[key := c], store);
    InsertDistinct(t, key, c, store);
    InsertOpenKey(t, key, c, store);
    forall id: ConnId | Known(store, id) && StatsOf(store, id).open
      ensures HasEntry(u, id)
    {
      if id <= |t.store.stats| {
        assert Known(t.store, id) && StatsOf(t.store, id).open;
        EntryStays(t, key, c, store, id);
      } else {
        NewEntry(t, key, c, store);
      }
    }
  }

  lemma OpenAgrees(t: TableState, key: ConnKey)
    requires Agrees(t) && (key in t.conns ==> t.conns[key].metricsClosed)
    ensures Agrees(OpenEntry(t, key))
  {
    hide Consistent, OpenConnection, HasEntry, OpenKeys;
    OpenFacts(t.store, key);
    InsertAgrees(t, key, NewConn(key.client, |t.store.stats| + 1),
      OpenConnection(t.store, key.client, key.server, false));
  }

  /** The lifecycle flag of every connection is unchanged. */
  ghost predicate SameLifecycles(s: Store, u: Store) {
    |s.stats| == |u.stats| && forall i :: Known(s, i) ==> StatsOf(u, i).open == StatsOf(s, i).open
  }

  lemma PassAgrees(t: TableState, key: ConnKey, seg: TcpSegment, pgPort: nat)
    requires Agrees(t) && key in t.conns
    ensures Agrees(PassAt(t, key, seg, pgPort))
  {
    hide Consistent, Account, HandleConn;
    var h := HandleConn(t.conns[key], seg, pgPort);
    HandleConnKeepsStats(t.conns[key], seg, pgPort);
    AccountFacts(t.store, h.conn.stats, DirectionOf(seg, pgPort), h.outcome);
    ReplaceAgrees(t, key, h.conn, PassAt(t, key, seg, pgPort).store);
  }

  lemma ReplaceAgrees(t: TableState, key: ConnKey, c: ConnState, store: Store)
    requires Agrees(t) && key in t.conns
    requires c.stats == t.conns[key].stats && c.metricsClosed == t.conns[key].metricsClosed
    requires Consistent(store) && SameLifecycles(t.store, store) && store.connsLive == t.store.connsLive
    ensures Agrees(TableState(t.conns[key := c], store))
  {
    hide Consistent, HasEntry;
    var u := TableState(t.conns[key := c], store);
    forall id: ConnId | Known(store, id) && StatsOf(store, id).open
      ensures HasEntry(u, id)
    {
      assert Known(t.store, id) && StatsOf(t.store, id).open;
      EntryStays(t, key, c, store, id);
    }
    assert OpenKeys(u) == OpenKeys(t);
  }

  /** One connection closed its metrics, everything else stayed. */
  ghost predicate OneClosed(s: Store, u: Store, id: ConnId)
    requires Known(s, id)
  {
    && |u.stats| == |s.stats|
    && !StatsOf(u, id).open
    && (forall i :: Known(s, i) && i != id ==> StatsOf(u, i).open == StatsOf(s, i).open)
    && u.connsLive == s.connsLive - (if StatsOf(s, id).open then 1 else 0)
  }

  lemma RemoveAgrees(t: TableState, key: ConnKey, store: Store)
    requires Agrees(t) && key in t.conns
    requires Consistent(store) && OneClosed(t.store, store, t.conns[key].stats)
    ensures Agrees(TableState(t.conns - {key}, store))
  {
    hide Consistent;
    var u := TableState(t.conns - {key}, store);
    forall id: ConnId | Known(store, id) && StatsOf(store, id).open
      ensures HasEntry(u, id)
    {
      assert Known(t.store, id) && StatsOf(t.store, id).open;
      var k :| k in t.conns && t.conns[k].stats == id;
      assert k in u.conns;
    }
    assert OpenKeys(u) == OpenKeys(t) - {key};
  }

  lemma MarkAgrees(t: TableState, key: ConnKey, store: Store)
    requires Agrees(t) && key in t.conns && !t.conns[key].metricsClosed
    requires Consistent(store) && OneClosed(t.store, store, t.conns[key].stats)
    ensures Agrees(TableState(t.conns[key := t.conns[key].(metricsClosed := true)], store))
  {
    hide Consistent, HasEntry;
    var c := t.conns[key].(metricsClosed := true);
    var u := TableState(t.conns[key := c], store);
    forall id: ConnId | Known(store, id) && StatsOf(store, id).open
      ensures HasEntry(u, id)
    {
      assert Known(t.store, id) && StatsOf(t.store, id).open;
      EntryStays(t, key, c, store, id);
    }
    assert OpenKeys(u) == OpenKeys(t) - {key};
  }

  lemma FinishAgrees(t: TableState, key: ConnKey, seg: TcpSegment)
    requires Agrees(t) && key in t.conns
    ensures Agrees(FinishAt(t, key, seg).table)
  {
    hide Consistent, CloseConnection, HasEntry, DistinctIds, OpenKeys;
    var c := t.conns[key];
    CloseFacts(t.store, c.stats);
    var store := CloseConnection(t.store, c.stats);
    if seg.rst {
      RemoveAgrees(t, key, store);
    } else if seg.fin && !c.metricsClosed {
      MarkAgrees(t, key, store);
    }
  }

  lemma HandleAgrees(t: TableState, seg: TcpSegment, pgPort: nat)
    requires Agrees(t)
    ensures Agrees(HandleSegment(t, seg, pgPort).table)
  {
    hide Agrees, PassAt, FinishAt, OpenEntry;
    assert KnownConns(t) by { AgreesFacts(t); }
    match KeyOf(seg, pgPort)
    case None =>
    case Some(key) =>
      var u := t;
      if ShouldOpen(t.conns, key, seg) {
        u := OpenEntry(t, key);
        OpenAgrees(t, key);
      }
      PassAgrees(u, key, seg, pgPort);
      FinishAgrees(PassAt(u, key, seg, pgPort), key, seg);
  }

  lemma AgreesFacts(t: TableState)
    requires Agrees(t)
    ensures KnownConns(t) && Consistent(t.store)
  {
  }

  /** In every reachable state table and metrics agree. */
  lemma {:induction false} LifecycleAgrees(cap: nat, pgPort: nat, run: seq<TcpSegment>)
    ensures Agrees(RunTable(cap, pgPort, run).table)
  {
    if run == [] {
      NewStoreConsistent(cap);
      assert OpenKeys(EmptyTable(cap)) == {};
    } else {
      hide Agrees, HandleSegment;
      var before := RunTable(cap, pgPort, run[..|run| - 1]);
      LifecycleAgrees(cap, pgPort, run[..|run| - 1]);
      HandleAgrees(before.table, run[|run| - 1], pgPort);
    }
  }

  function FirstIds(n: nat): (ids: set<ConnId>)
    ensures forall i :: i in ids <==> 1 <= i <= n
    ensures |ids| == n
  {
    if n == 0 then {} else FirstIds(n - 1) + {n}
  }

  /** Everything opened is live or was closed exactly once, and the registry
      never keeps more than the open connections and `cap` closed ones. */
  lemma OpenedIsLivePlusClosed(s: Store)
    requires Consistent(s)
    ensures s.connsOpened == s.connsLive + |s.queued|
    ensures |s.entries| <= s.connsLive + s.cap
  {
    hide CountOpen, Sum, FirstIds;
    var all := FirstIds(|s.stats|);
    CountOpenIds(s.stats);
    DistinctCount(s.queued);
    forall i ensures i in all <==> i in OpenIds(s.stats) + Ids(s.queued) {
      assert i in s.queued <==> Known(s, i) && !StatsOf(s, i).open;
    }
    assert all == OpenIds(s.stats) + Ids(s.queued);
    assert OpenIds(s.stats) !! Ids(s.queued);
    EntriesBound(s);
  }

  lemma EntriesBound(s: Store)
    requires NoRepeat(s.queued) && IsSuffix(s.closed, s.queued) && s.entries == OpenIds(s.stats) + Ids(s.closed)
    ensures |s.entries| <= |OpenIds(s.stats)| + |s.closed|
  {
    hide OpenIds, Ids;
    NoRepeatSuffix(s);
    DistinctCount(s.closed);
  }

  lemma NoRepeatSuffix(s: Store)
    requires NoRepeat(s.queued) && IsSuffix(s.closed, s.queued)
    ensures NoRepeat(s.closed)
  {
    forall i, j | 0 <= i < j < |s.closed| ensures s.closed[i] != s.closed[j] {
      var n := |s.queued| - |s.closed|;
      assert s.closed[i] == s.queued[n + i] && s.closed[j] == s.queued[n + j];
    }
  }
}
