/** Connections and their table as the objects that segments update in place. */
module Flow {
  import opened Endpoints
  import opened Segments
  import opened Decode
  import opened MetricsModel
  import opened Metrics
  import opened Directions
  import opened FlowModel
  import Reassembly

  class Connection {
    const client: Direction
    const server: Direction
    var encrypted: bool
    var metricsClosed: bool
    const stats: ConnStats

    ghost predicate Valid()
    {
      client != server
    }

    ghost predicate Within(owned: set<Connection>, sides: set<Direction>)
    {
      this in owned && client in sides && server in sides
    }

    ghost predicate Apart(other: Connection)
    {
      && this != other
      && client != other.client && client != other.server
      && server != other.client && server != other.server
    }

    ghost function State(): ConnState
      reads this, client, server
    {
      ConnState(Side(client.Rx(), client.Decoding()), Side(server.Rx(), server.Decoding()),
                encrypted, metricsClosed, stats.id)
    }

    constructor (stats: ConnStats)
      ensures Valid() && fresh(client) && fresh(server) && this.stats == stats
      ensures State() == NewConn(stats.client, stats.id)
    {
      client := new Direction(Client, stats.client);
      server := new Direction(Server, stats.client);
      encrypted, metricsClosed := false, false;
      this.stats := stats;
    }

    /** Feeds the segment to its direction, drains that direction, and after a
        client request arms the server direction for the one-byte answer. */
    method Exchange(seg: TcpSegment, isClientDir: bool) returns (outcome: DrainOutcome, out: seq<Output>)
      requires Valid()
      modifies client, server
      ensures var h := if isClientDir then HandleClient(old(State()), seg) else HandleServer(old(State()), seg);
        State() == h.conn.(encrypted := encrypted) && outcome == h.outcome && out == h.out
    {
      hide Drain, Reassembly.Feed;
      if isClientDir {
        client.Feed(seg.seqno, seg.syn, seg.payload);
        outcome, out := DrainDirection(client, NO_OUTCOME);
        match outcome.wait {
          case NoWait =>
          case SslWait => server.ctx := server.ctx.(awaitingBackendSsl := true);
          case GssWait => server.ctx := server.ctx.(awaitingBackendGss := true);
        }
      } else {
        server.Feed(seg.seqno, seg.syn, seg.payload);
        outcome, out := DrainDirection(server, NO_OUTCOME);
      }
    }

    lemma StateFields()
      ensures State().stats == stats.id && State().metricsClosed == metricsClosed
    {
    }

    method MarkClosed()
      modifies `metricsClosed
      ensures State() == old(State()).(metricsClosed := true)
    {
      metricsClosed := true;
    }

    /** Marks the connection and its metrics, and counts decoded messages. */
    method Count(metrics: MetricsStore, direction: Traffic, outcome: DrainOutcome)
      requires metrics.Valid() && metrics.Holds(stats)
      modifies `encrypted, metrics, stats
      ensures metrics.Valid() && metrics.all == old(metrics.all)
      ensures encrypted == (old(encrypted) || outcome.encrypted)
      ensures Known(old(metrics.State()), stats.id)
      ensures metrics.State() == Account(old(metrics.State()), stats.id, direction, outcome)
    {
      hide Consistent;
      if outcome.encrypted {
        encrypted := true;
        metrics.SetEncrypted(stats, true);
      }
      if outcome.msgs > 0 {
        metrics.RecordMessages(stats, direction, outcome.msgs, outcome.bytes);
      }
    }

    method Handle(seg: TcpSegment, pgPort: nat, metrics: MetricsStore) returns (out: seq<Output>)
      requires Valid() && metrics.Valid() && metrics.Holds(stats)
      modifies `encrypted, client, server, metrics, stats
      ensures metrics.Valid() && metrics.all == old(metrics.all)
      ensures var h := HandleConn(old(State()), seg, pgPort);
        && State() == h.conn && out == h.out
        && Known(old(metrics.State()), stats.id)
        && metrics.State() == Account(old(metrics.State()), stats.id, DirectionOf(seg, pgPort), h.outcome)
    {
      hide Drain, FeedSide, Consistent, Account;
      AccountNothing(metrics.State(), stats.id, DirectionOf(seg, pgPort));
      out := [];
      if encrypted {
        return;
      }
      var isClientDir := seg.dstPort == pgPort;
      var outcome;
      outcome, out := Exchange(seg, isClientDir);
      Count(metrics, if isClientDir then In else Out, outcome);
    }
  }

  lemma AccountNothing(s: Store, id: ConnId, direction: Traffic)
    requires Known(s, id)
    ensures Account(s, id, direction, NO_OUTCOME) == s
  {
  }

  class ConnTable {
    var conns: map<ConnKey, Connection>
    const metrics: MetricsStore
    /** Every connection and direction the table has ever owned. */
    ghost var owned: set<Connection>
    ghost var sides: set<Direction>

    /** The table owns its connections, no two of which share an object. */
    ghost predicate Owns()
      reads this
    {
      && (forall k :: k in conns ==> conns[k].Valid() && conns[k].Within(owned, sides))
      && (forall j, k :: j in conns && k in conns && j != k ==> conns[j].Apart(conns[k]))
    }

    ghost predicate Valid()
      reads this, metrics, metrics.all
    {
      && Owns()
      && metrics.Valid()
      && (forall k :: k in conns ==> metrics.Holds(conns[k].stats))
    }

    ghost function State(): TableState
      requires Owns()
      reads this, owned, sides, metrics, metrics.all
    {
      TableState(map k | k in conns :: conns[k].State(), metrics.State())
    }

    constructor (metrics: MetricsStore)
      requires metrics.Valid()
      ensures Valid() && owned == {} && sides == {} && this.metrics == metrics && conns == map[]
    {
      conns, owned, sides := map[], {}, {};
      this.metrics := metrics;
    }

    /** A connection outside the table enters it under `key`. */
    method Insert(key: ConnKey, conn: Connection)
      requires Valid() && conn.Valid() && metrics.Holds(conn.stats)
      requires conn !in owned && conn.client !in sides && conn.server !in sides
      modifies `conns, `owned, `sides
      ensures Valid() && conns == old(conns)[key := conn]
      ensures owned == old(owned) + {conn} && sides == old(sides) + {conn.client, conn.server}
      ensures State().conns == old(State()).conns[key := conn.State()]
    {
      hide Connection.State, MetricsStore.State, MetricsStore.Valid;
      ghost var before := State().conns;
      conns := conns[key := conn];
      owned := owned + {conn};
      sides := sides + {conn.client, conn.server};
      assert State().conns == before[key := conn.State()];
    }

    /** The metrics side of an open leaves every connection as it is. */
    method OpenMetrics(key: ConnKey) returns (stats: ConnStats)
      requires Valid()
      modifies metrics
      ensures Valid() && metrics.Holds(stats) && fresh(stats) && metrics.all == old(metrics.all) + [stats]
      ensures stats.client == key.client && stats.id == |old(metrics.State()).stats| + 1
      ensures State().conns == old(State()).conns
      ensures metrics.State() == OpenConnection(old(metrics.State()), key.client, key.server, false)
    {
      hide Connection.State, MetricsStore.State, MetricsStore.Valid;
      metrics.StatsCount();
      ghost var before := State().conns;
      stats := metrics.OpenConnection(key.client, key.server, false);
      assert State().conns == before;
    }

    /** A new connection for these stats enters under `key`. */
    method Enter(key: ConnKey, stats: ConnStats)
      requires Valid() && metrics.Holds(stats)
      modifies this
      ensures Valid() && fresh(owned - old(owned)) && fresh(sides - old(sides))
      ensures key in conns && conns[key].stats == stats
      ensures State().conns == old(State()).conns[key := NewConn(stats.client, stats.id)]
    {
      hide Connection.State, MetricsStore.State, MetricsStore.Valid, NewConn, State, Owns;
      var conn := new Connection(stats);
      Insert(key, conn);
    }

    /** The table and the metrics each take the new connection. */
    method OpenBoth(key: ConnKey)
      requires Valid()
      modifies this, metrics
      ensures Valid() && fresh(owned - old(owned)) && fresh(sides - old(sides))
      ensures key in conns && fresh(conns[key].stats) && metrics.all == old(metrics.all) + [conns[key].stats]
      ensures State().conns == old(State()).conns[key := NewConn(key.client, |old(metrics.State()).stats| + 1)]
      ensures metrics.State() == OpenConnection(old(metrics.State()), key.client, key.server, false)
    {
      hide Connection.State, MetricsStore.State, MetricsStore.Valid, Valid, State, NewConn, OpenConnection;
      var stats := OpenMetrics(key);
      Enter(key, stats);
    }

    method Open(key: ConnKey)
      requires Valid()
      modifies this, metrics
      ensures Valid() && fresh(owned - old(owned)) && fresh(sides - old(sides))
      ensures key in conns && fresh(conns[key].stats) && metrics.all == old(metrics.all) + [conns[key].stats]
      ensures KnownConns(old(State())) && State() == OpenEntry(old(State()), key)
    {
      StatsKnown();
      OwnsWhenValid();
      hide Valid, Connection.State, MetricsStore.State, MetricsStore.Valid, KnownConns, NewConn, OpenConnection;
      OpenBoth(key);
      OwnsWhenValid();
    }

    lemma OwnsWhenValid()
      requires Valid()
      ensures Owns() && metrics.Valid() && State().store == metrics.State()
    {
      hide MetricsStore.State, MetricsStore.Valid;
    }

    lemma StatsKnown()
      requires Valid()
      ensures KnownConns(State())
    {
      hide Consistent;
    }

    /** The segment goes through the connection under `key`; every other
        connection is untouched. */
    method PassConn(key: ConnKey, seg: TcpSegment, pgPort: nat) returns (emitted: seq<Output>)
      requires Valid() && key in conns
      modifies owned, sides, metrics, metrics.all
      ensures Valid() && metrics.all == old(metrics.all)
      ensures State().conns == old(State()).conns[key := HandleConn(old(conns[key].State()), seg, pgPort).conn]
      ensures emitted == HandleConn(old(conns[key].State()), seg, pgPort).out
      ensures Known(old(metrics.State()), conns[key].stats.id)
      ensures metrics.State() == Account(old(metrics.State()), conns[key].stats.id, DirectionOf(seg, pgPort),
                                         HandleConn(old(conns[key].State()), seg, pgPort).outcome)
    {
      hide Connection.State, MetricsStore.State, MetricsStore.Valid, HandleConn, Account;
      ghost var before := State().conns;
      var conn := conns[key];
      emitted := conn.Handle(seg, pgPort, metrics);
      assert State().conns == before[key := conn.State()];
    }

    method Pass(key: ConnKey, seg: TcpSegment, pgPort: nat) returns (emitted: seq<Output>)
      requires Valid() && key in conns
      modifies owned, sides, metrics, metrics.all
      ensures Valid() && metrics.all == old(metrics.all)
      ensures KnownConns(old(State())) && key in old(State()).conns
      ensures State() == PassAt(old(State()), key, seg, pgPort)
      ensures emitted == HandleConn(old(State()).conns[key], seg, pgPort).out
    {
      EntryFacts(key);
      hide Connection.State, MetricsStore.State, Valid, HandleConn, Account;
      HandleConnKeepsStats(conns[key].State(), seg, pgPort);
      emitted := PassConn(key, seg, pgPort);
    }

    method Remove(key: ConnKey)
      requires Valid()
      modifies `conns
      ensures Valid() && conns == old(conns) - {key}
      ensures State().conns == old(State()).conns - {key}
    {
      hide Connection.State, MetricsStore.State, MetricsStore.Valid;
      ghost var before := State().conns;
      conns := conns - {key};
      assert State().conns == before - {key};
    }

    method MarkClosed(key: ConnKey)
      requires Valid() && key in conns
      modifies owned, sides
      ensures Valid()
      ensures State().conns == old(State()).conns[key := old(conns[key].State()).(metricsClosed := true)]
    {
      hide Connection.State, MetricsStore.State, MetricsStore.Valid;
      ghost var before := State().conns;
      conns[key].MarkClosed();
      assert State().conns == before[key := conns[key].State()];
    }

    /** The metrics side of a close leaves every connection as it is. */
    method CloseMetrics(conn: Connection)
      requires Valid() && metrics.Holds(conn.stats)
      modifies metrics, metrics.all
      ensures Valid() && metrics.all == old(metrics.all)
      ensures State().conns == old(State()).conns
      ensures Known(old(metrics.State()), conn.stats.id)
      ensures metrics.State() == CloseConnection(old(metrics.State()), conn.stats.id)
    {
      hide Connection.State, MetricsStore.State, MetricsStore.Valid, CloseConnection;
      metrics.StatsCount();
      ghost var before := State().conns;
      metrics.CloseConnection(conn.stats);
      assert State().conns == before;
    }

    lemma EntryFacts(key: ConnKey)
      requires Valid() && key in conns
      ensures State().store == metrics.State() && KnownConns(State())
      ensures key in State().conns && State().conns[key] == conns[key].State()
      ensures metrics.Holds(conns[key].stats)
      ensures conns[key].State().stats == conns[key].stats.id
      ensures conns[key].State().metricsClosed == conns[key].metricsClosed
    {
      hide MetricsStore.State, MetricsStore.Valid;
      conns[key].StateFields();
      StatsKnown();
    }

    lemma LookupFacts(key: ConnKey)
      requires Valid()
      ensures KnownConns(State()) && (key in State().conns <==> key in conns)
      ensures key in conns ==> State().conns[key].metricsClosed == conns[key].metricsClosed
    {
      hide MetricsStore.State, MetricsStore.Valid;
      StatsKnown();
      if key in conns {
        EntryFacts(key);
      }
    }

    method Finish(key: ConnKey, seg: TcpSegment) returns (out: seq<Record>)
      requires Valid() && key in conns
      modifies this, owned, sides, metrics, metrics.all
      ensures Valid() && owned == old(owned) && sides == old(sides) && metrics.all == old(metrics.all)
      ensures KnownConns(old(State())) && key in old(State()).conns
      ensures var s := FinishAt(old(State()), key, seg); State() == s.table && out == s.out
    {
      hide Connection.State, MetricsStore.State, MetricsStore.Valid, CloseConnection;
      EntryFacts(key);
      var conn := conns[key];
      out := [];
      if seg.rst {
        out := [Reset];
        Remove(key);
        CloseMetrics(conn);
      } else if seg.fin && !conn.metricsClosed {
        MarkClosed(key);
        out := [Closed];
        CloseMetrics(conn);
      }
    }

    method HandleAt(key: ConnKey, seg: TcpSegment, pgPort: nat) returns (out: seq<Record>)
      requires Valid() && key in conns
      modifies this, owned, sides, metrics, metrics.all
      ensures Valid() && owned == old(owned) && sides == old(sides) && metrics.all == old(metrics.all)
      ensures KnownConns(old(State())) && key in old(State()).conns
      ensures var s := FlowModel.HandleAt(old(State()), key, seg, pgPort); State() == s.table && out == s.out
    {
      hide Valid, State, PassAt, FinishAt, HandleConn;
      var emitted := Pass(key, seg, pgPort);
      var tail := Finish(key, seg);
      out := Records(emitted) + tail;
    }

    method Handle(seg: TcpSegment, pgPort: nat) returns (out: seq<Record>)
      requires Valid()
      modifies this, owned, sides, metrics, metrics.all
      ensures Valid() && fresh(owned - old(owned)) && fresh(sides - old(sides)) && old(metrics.all) <= metrics.all
      ensures KnownConns(old(State()))
      ensures var s := HandleSegment(old(State()), seg, pgPort); State() == s.table && out == s.out
    {
      hide Valid, State, FlowModel.HandleAt, OpenEntry;
      out := [];
      var key;
      if seg.dstPort == pgPort {
        key := ConnKey(Endpoint(seg.src, seg.srcPort), Endpoint(seg.dst, seg.dstPort));
      } else if seg.srcPort == pgPort {
        key := ConnKey(Endpoint(seg.dst, seg.dstPort), Endpoint(seg.src, seg.srcPort));
      } else {
        StatsKnown();
        return;
      }
      LookupFacts(key);
      if key !in conns || (seg.syn && conns[key].metricsClosed) {
        Open(key);
        out := [NewConnection(key)];
      }
      var rest := HandleAt(key, seg, pgPort);
      out := out + rest;
    }
  }
}
