/** What holds of one key of the connection table, under any interleaving with
    other connections: its output, negotiation, silence once encrypted, and
    independence of how its segments were scheduled. */
module FlowTable {
  import opened Options
  import opened Segments
  import opened Decode
  import opened MetricsModel
  import opened FlowModel
  import opened FlowLifecycle
  import opened FlowDemux
  import opened FlowNegotiation
  import opened FlowConservation
  import opened FlowEndToEnd
  import opened FlowRefused
  import C = ReassemblyCompleteness

  // ----- what a life printed -----

  /** The decoded output among what the table printed. */
  function DecodedOf(out: seq<Record>): seq<Output> {
    if out == [] then []
    else
      var before, last := DecodedOf(out[..|out| - 1]), out[|out| - 1];
      if last.Decoded? then before + [last.output] else before
  }

  lemma {:induction false} DecodedConcat(a: seq<Record>, b: seq<Record>)
    ensures DecodedOf(a + b) == DecodedOf(a) + DecodedOf(b)
  {
    if b == [] {
      assert a + b == a;
    } else {
      assert (a + b)[..|a + b| - 1] == a + b[..|b| - 1];
      DecodedConcat(a, b[..|b| - 1]);
    }
  }

  lemma {:induction false} DecodedOfRecords(out: seq<Output>)
    ensures DecodedOf(Records(out)) == out
  {
    if out != [] {
      var n := |out| - 1;
      assert Records(out)[..n] == Records(out[..n]);
      DecodedOfRecords(out[..n]);
      assert out == out[..n] + [out[n]];
    }
  }

  lemma DecodedOfOthers(key: ConnKey)
    ensures DecodedOf([]) == DecodedOf([NewConnection(key)]) == DecodedOf([Reset]) == DecodedOf([Closed]) == []
  {
    assert forall r: Record :: [r][..0] == [];
  }

  /** What a segment through an entry prints decodes to what its connection emits. */
  lemma PassDecodes(c: ConnState, counters: Totals, seg: TcpSegment, pgPort: nat, key: ConnKey)
    ensures DecodedOf(PassEntry(c, counters, seg, pgPort).out) == HandleConn(c, seg, pgPort).out
  {
    hide HandleConn, Records, DecodedOf;
    var out := HandleConn(c, seg, pgPort).out;
    DecodedOfRecords(out);
    DecodedOfOthers(key);
    DecodedConcat(Records(out), [Reset]);
    DecodedConcat(Records(out), [Closed]);
    DecodedConcat(Records(out), []);
    assert out + [] == out;
  }

  predicate Opens(e: Entry, seg: TcpSegment) {
    e.Absent? || (seg.syn && e.conn.metricsClosed)
  }

  /** What was printed for a key since the entry it now has was opened. */
  function LifeOutput(key: ConnKey, run: seq<TcpSegment>, pgPort: nat): seq<Record> {
    if run == [] then []
    else
      var before, last := run[..|run| - 1], run[|run| - 1];
      var e := RunEntry(key, before, pgPort).entry;
      var out := StepEntry(e, key, last, pgPort).out;
      if Opens(e, last) then out else LifeOutput(key, before, pgPort) + out
  }

  lemma {:induction false} LifeOutputIsLast(key: ConnKey, run: seq<TcpSegment>, pgPort: nat)
      returns (earlier: seq<Record>)
    ensures RunEntry(key, run, pgPort).out == earlier + LifeOutput(key, run, pgPort)
  {
    hide StepEntry;
    if run == [] {
      earlier := [];
    } else {
      var before, last := run[..|run| - 1], run[|run| - 1];
      var r := RunEntry(key, before, pgPort);
      earlier := LifeOutputIsLast(key, before, pgPort);
      if Opens(r.entry, last) {
        earlier := r.out;
      } else {
        var out := StepEntry(r.entry, key, last, pgPort).out;
        assert earlier + LifeOutput(key, before, pgPort) + out == earlier + (LifeOutput(key, before, pgPort) + out);
      }
    }
  }

  lemma OpeningDecodes(key: ConnKey, e: Entry, seg: TcpSegment, pgPort: nat)
    requires Opens(e, seg)
    ensures DecodedOf(StepEntry(e, key, seg, pgPort).out) == HandleConn(NewConn(key.client, 0), seg, pgPort).out
  {
    hide HandleConn, PassEntry, NewConn, DecodedOf;
    var s := PassEntry(NewConn(key.client, 0), ZERO, seg, pgPort);
    PassDecodes(NewConn(key.client, 0), ZERO, seg, pgPort, key);
    DecodedOfOthers(key);
    DecodedConcat([NewConnection(key)], s.out);
    assert [] + DecodedOf(s.out) == DecodedOf(s.out);
  }

  /** What the current life printed decodes to what that one connection emits. */
  lemma {:induction false} LifeDecodes(key: ConnKey, run: seq<TcpSegment>, pgPort: nat)
    ensures DecodedOf(LifeOutput(key, run, pgPort)) ==
      RunConn(NewConn(key.client, 0), CurrentLife(key, run, pgPort), pgPort).out
  {
    hide HandleConn, PassEntry, NewConn, Counted;
    if run != [] {
      var before, last := run[..|run| - 1], run[|run| - 1];
      var e := RunEntry(key, before, pgPort).entry;
      if Opens(e, last) {
        OpeningDecodes(key, e, last, pgPort);
        assert [last][..0] == [];
        var out := HandleConn(NewConn(key.client, 0), last, pgPort).out;
        assert [] + out == out;
      } else {
        LifeDecodes(key, before, pgPort);
        EntryIsOneLife(key, before, pgPort);
        PassDecodes(e.conn, e.counters, last, pgPort, key);
        HandleIgnoresClosed(e.conn, last, pgPort);
        DecodedConcat(LifeOutput(key, before, pgPort), PassEntry(e.conn, e.counters, last, pgPort).out);
        var life := CurrentLife(key, before, pgPort);
        assert (life + [last])[..|life|] == life;
      }
    }
  }

  /** The entry of a key after any run of the table: its connection, counters
      and printed output are those of one connection fed the key's segments
      since it was opened. */
  lemma TableHoldsOneLife(cap: nat, pgPort: nat, run: seq<TcpSegment>, key: ConnKey) returns (earlier: seq<Record>)
    ensures var t := RunTable(cap, pgPort, run).table; var mine := OnlyKey(run, key, pgPort);
      var life := CurrentLife(key, mine, pgPort); var r := RunConn(NewConn(key.client, 0), life, pgPort);
      && PrintedFor(cap, pgPort, run, key) == earlier + LifeOutput(key, mine, pgPort)
      && DecodedOf(LifeOutput(key, mine, pgPort)) == r.out
      && (key in t.conns ==>
            && Alive(Anonymous(t.conns[key])) == r.conn
            && StatsOf(t.store, t.conns[key].stats).counters == CountedOver(NewConn(key.client, 0), life, pgPort))
  {
    hide RunEntry, LifeOutput, CurrentLife, RunTable, PrintedFor, OnlyKey, DecodedOf, RunConn, CountedOver, NewConn,
      KnownConns;
    var mine := OnlyKey(run, key, pgPort);
    Demultiplexes(cap, pgPort, run, key);
    LifeDecodes(key, mine, pgPort);
    EntryIsOneLife(key, mine, pgPort);
    earlier := LifeOutputIsLast(key, mine, pgPort);
  }

  // ----- negotiation -----

  lemma NegotiatedIgnoresLifecycle(c: ConnState, d: ConnState, out: seq<Output>)
    requires Alive(Anonymous(c)) == d && Negotiated(d, out)
    ensures Negotiated(c, out)
  {
    hide HasRequest, HasAccept, AcceptsFollowRequests, CountRequests, CountAnswers;
  }

  /** In every reachable table, an entry is encrypted exactly when an accept was
      printed for it since it was opened, and each printed accept comes after
      the printed request it answers. */
  lemma TableNegotiationSafe(cap: nat, pgPort: nat, run: seq<TcpSegment>, key: ConnKey) returns (earlier: seq<Record>)
    requires key in RunTable(cap, pgPort, run).table.conns
    ensures var printed := LifeOutput(key, OnlyKey(run, key, pgPort), pgPort);
      && PrintedFor(cap, pgPort, run, key) == earlier + printed
      && Negotiated(RunTable(cap, pgPort, run).table.conns[key], DecodedOf(printed))
  {
    hide Negotiated, LifeOutput, CurrentLife, RunTable, PrintedFor, OnlyKey, DecodedOf, RunConn, NewConn, KnownConns,
      CountedOver;
    earlier := TableHoldsOneLife(cap, pgPort, run, key);
    var life := CurrentLife(key, OnlyKey(run, key, pgPort), pgPort);
    NegotiationSafe(key.client, 0, life, pgPort);
    var r := RunConn(NewConn(key.client, 0), life, pgPort);
    NegotiatedIgnoresLifecycle(RunTable(cap, pgPort, run).table.conns[key], r.conn, r.out);
  }

  // ----- silence once encrypted -----

  /** No segment of `later` opens the key again. */
  predicate NeverReopens(cap: nat, pgPort: nat, run: seq<TcpSegment>, later: seq<TcpSegment>, key: ConnKey) {
    later != [] ==>
      var n := |later| - 1;
      && NeverReopens(cap, pgPort, run, later[..n], key)
      && (KeyOf(later[n], pgPort) == Some(key) ==>
            !ShouldOpen(RunTable(cap, pgPort, run + later[..n]).table.conns, key, later[n]))
  }

  /** The same connection with the same counters, lifecycle apart. */
  predicate SameTraffic(e: Entry, f: Entry) {
    f.Present? ==> e.Present? && Alive(f.conn) == Alive(e.conn) && f.counters == e.counters
  }

  /** A segment through an encrypted entry, FIN and RST included, emits nothing and counts nothing. */
  lemma EncryptedPassIsInert(c: ConnState, counters: Totals, seg: TcpSegment, pgPort: nat, key: ConnKey)
    requires c.encrypted
    ensures var s := PassEntry(c, counters, seg, pgPort);
      DecodedOf(s.out) == [] && SameTraffic(Present(c, counters), s.entry)
  {
    PassDecodes(c, counters, seg, pgPort, key);
    hide DecodedOf;
  }

  /** One segment of any connection, in any reachable table: an encrypted entry
      that it does not open again keeps its traffic, and nothing is decoded for it. */
  lemma EncryptedSegmentIsInert(t: TableState, seg: TcpSegment, pgPort: nat, key: ConnKey)
    requires Agrees(t) && key in t.conns && t.conns[key].encrypted
    requires KeyOf(seg, pgPort) == Some(key) ==> !ShouldOpen(t.conns, key, seg)
    ensures KnownConns(t)
    ensures var s := HandleSegment(t, seg, pgPort);
      && SameTraffic(EntryOf(t, key), EntryOf(s.table, key))
      && (KeyOf(seg, pgPort) == Some(key) ==> DecodedOf(s.out) == [])
  {
    hide Agrees, HandleSegment, PassEntry, DecodedOf, KeyOf;
    SegmentIsLocal(t, seg, pgPort, key);
    var e := EntryOf(t, key);
    EncryptedPassIsInert(e.conn, e.counters, seg, pgPort, key);
  }

  /** From the segment that encrypts a connection until its key is opened again,
      whatever else is captured: its buffers and counters stay as they are and
      nothing more is decoded for it. */
  lemma {:induction false} EncryptedStaysSilent(cap: nat, pgPort: nat, run: seq<TcpSegment>, later: seq<TcpSegment>,
                                                key: ConnKey)
    requires var t := RunTable(cap, pgPort, run).table; key in t.conns && t.conns[key].encrypted
    requires NeverReopens(cap, pgPort, run, later, key)
    ensures SameTraffic(EntryOf(RunTable(cap, pgPort, run).table, key),
        EntryOf(RunTable(cap, pgPort, run + later).table, key))
    ensures DecodedOf(PrintedFor(cap, pgPort, run + later, key)) == DecodedOf(PrintedFor(cap, pgPort, run, key))
  {
    hide HandleSegment, DecodedOf, KeyOf;
    if later == [] {
      assert run + later == run;
    } else {
      var n := |later| - 1;
      var before, last := run + later[..n], later[n];
      assert (run + later)[..|run + later| - 1] == before && (run + later)[|run + later| - 1] == last;
      EncryptedStaysSilent(cap, pgPort, run, later[..n], key);
      LifecycleAgrees(cap, pgPort, before);
      var t := RunTable(cap, pgPort, before).table;
      if key in t.conns {
        EncryptedSegmentIsInert(t, last, pgPort, key);
        DecodedConcat(PrintedFor(cap, pgPort, before, key), HandleSegment(t, last, pgPort).out);
        assert DecodedOf(PrintedFor(cap, pgPort, before, key)) + [] == DecodedOf(PrintedFor(cap, pgPort, before, key));
      } else {
        SegmentIsLocal(t, last, pgPort, key);
      }
    }
  }

  // ----- schedule independence -----

  /** For a key of the table, under any interleaving with other connections and
      any schedule of its own: what was printed for it, counted for it and left
      to decode is one drain of each direction's blocks that arrived without a gap. */
  lemma KeyScheduleDoesNotMatter(cap: nat, pgPort: nat, run: seq<TcpSegment>, key: ConnKey, sent: Capture,
                                 replied: Capture)
    requires key in RunTable(cap, pgPort, run).table.conns
    requires var life := CurrentLife(key, OnlyKey(run, key, pgPort), pgPort);
      Captures(life, pgPort, In, sent) && Captures(life, pgPort, Out, replied)
    requires Clean(Drain(Append(NewDecoder(Client, key.client), C.Concat(sent.blocks))))
    requires Clean(Drain(Append(NewDecoder(Server, key.client), C.Concat(replied.blocks))))
    ensures var t := RunTable(cap, pgPort, run).table;
      var printed := DecodedOf(LifeOutput(key, OnlyKey(run, key, pgPort), pgPort));
      var c := Drain(Append(NewDecoder(Client, key.client), Arrived(sent)));
      var s := Drain(Append(NewDecoder(Server, key.client), Arrived(replied)));
      && t.conns[key].client.dec == c.dir && t.conns[key].server.dec == s.dir
      && OutputOf(printed, Client) == c.out && OutputOf(printed, Server) == s.out
      && KnownConns(t)
      && StatsOf(t.store, t.conns[key].stats).counters ==
           Totals(c.outcome.msgs, s.outcome.msgs, c.outcome.bytes, s.outcome.bytes)
  {
    hide Drain, Append, C.Concat, NewConn, OutputOf, NewDecoder, Arrived, Captures, Clean, LifeOutput, CurrentLife,
      RunTable, PrintedFor, OnlyKey, DecodedOf, RunConn, CountedOver, KnownConns;
    var earlier := TableHoldsOneLife(cap, pgPort, run, key);
    ScheduleDoesNotMatter(key.client, CurrentLife(key, OnlyKey(run, key, pgPort), pgPort), pgPort, sent, replied);
  }

  /** The same for a key whose life began with a refused request: the request and
      the refusal, then one drain per direction. */
  lemma KeyRefusedScheduleDoesNotMatter(cap: nat, pgPort: nat, run: seq<TcpSegment>, key: ConnKey, gss: bool,
                                        opening: seq<TcpSegment>, later: seq<TcpSegment>,
                                        sent: Capture, replied: Capture)
    requires key in RunTable(cap, pgPort, run).table.conns
    requires CurrentLife(key, OnlyKey(run, key, pgPort), pgPort) == opening + later && Refused(gss, opening, pgPort)
    requires Captures(opening + later, pgPort, In, sent) && Captures(opening + later, pgPort, Out, replied)
    ensures 8 <= |Arrived(sent)| <= |C.Concat(sent.blocks)| && 1 <= |Arrived(replied)| <= |C.Concat(replied.blocks)|
    ensures
      Clean(Drain(Append(Asked(key.client), C.Concat(sent.blocks)[8..])))
      && Clean(Drain(Append(NewDecoder(Server, key.client), C.Concat(replied.blocks)[1..]))) ==>
        var t := RunTable(cap, pgPort, run).table;
        var printed := DecodedOf(LifeOutput(key, OnlyKey(run, key, pgPort), pgPort));
        var c := Drain(Append(Asked(key.client), Arrived(sent)[8..]));
        var s := Drain(Append(NewDecoder(Server, key.client), Arrived(replied)[1..]));
        && !t.conns[key].encrypted && t.conns[key].client.dec == c.dir && t.conns[key].server.dec == s.dir
        && OutputOf(printed, Client) == [RequestRecord(key.client, gss)] + c.out
        && OutputOf(printed, Server) == [RefusalRecord(key.client, gss)] + s.out
        && KnownConns(t)
        && StatsOf(t.store, t.conns[key].stats).counters ==
             Totals(1 + c.outcome.msgs, 1 + s.outcome.msgs, 8 + c.outcome.bytes, 1 + s.outcome.bytes)
  {
    hide Drain, Append, C.Concat, NewConn, OutputOf, NewDecoder, Asked, Arrived, Captures, Clean, LifeOutput,
      CurrentLife, RunTable, PrintedFor, OnlyKey, DecodedOf, RunConn, CountedOver, KnownConns, Refused, Request,
      RequestRecord, RefusalRecord;
    var earlier := TableHoldsOneLife(cap, pgPort, run, key);
    RefusedScheduleDoesNotMatter(key.client, gss, opening, later, pgPort, sent, replied);
  }

  /** Every block of the capture arrived. */
  predicate Whole(t: Capture) {
    forall k :: 0 <= k < |t.blocks| ==> k in C.Received(t.schedule)
  }

  /** Two tables, whatever their caps, that each captured the same two streams of a key completely
      printed the same for it and counted the same, whatever else they saw. */
  lemma CompleteKeysAgree(cap: nat, cap': nat, pgPort: nat, one: seq<TcpSegment>, other: seq<TcpSegment>, key: ConnKey,
                          sent: Capture, replied: Capture, sent': Capture, replied': Capture)
    requires key in RunTable(cap, pgPort, one).table.conns && key in RunTable(cap', pgPort, other).table.conns
    requires sent.blocks == sent'.blocks && replied.blocks == replied'.blocks
    requires Whole(sent) && Whole(sent') && Whole(replied) && Whole(replied')
    requires var life := CurrentLife(key, OnlyKey(one, key, pgPort), pgPort);
      Captures(life, pgPort, In, sent) && Captures(life, pgPort, Out, replied)
    requires var life := CurrentLife(key, OnlyKey(other, key, pgPort), pgPort);
      Captures(life, pgPort, In, sent') && Captures(life, pgPort, Out, replied')
    requires Clean(Drain(Append(NewDecoder(Client, key.client), C.Concat(sent.blocks))))
    requires Clean(Drain(Append(NewDecoder(Server, key.client), C.Concat(replied.blocks))))
    ensures var a, b := RunTable(cap, pgPort, one).table, RunTable(cap', pgPort, other).table;
      && KnownConns(a) && KnownConns(b)
      && StatsOf(a.store, a.conns[key].stats).counters == StatsOf(b.store, b.conns[key].stats).counters
    ensures var p := DecodedOf(LifeOutput(key, OnlyKey(one, key, pgPort), pgPort));
      var q := DecodedOf(LifeOutput(key, OnlyKey(other, key, pgPort), pgPort));
      OutputOf(p, Client) == OutputOf(q, Client) && OutputOf(p, Server) == OutputOf(q, Server)
  {
    hide Drain, Append, C.Concat, OutputOf, NewDecoder, Captures, Clean, LifeOutput, CurrentLife, RunTable, OnlyKey,
      DecodedOf, KnownConns;
    KeyScheduleDoesNotMatter(cap, pgPort, one, key, sent, replied);
    KeyScheduleDoesNotMatter(cap', pgPort, other, key, sent', replied');
    WholeFront(sent);
    WholeFront(sent');
    WholeFront(replied);
    WholeFront(replied');
  }

  lemma WholeFront(t: Capture)
    requires Whole(t)
    ensures Arrived(t) == C.Concat(t.blocks)
  {
    hide C.Concat;
    assert C.Front(t.blocks, C.Received(t.schedule)) == |t.blocks|;
    assert t.blocks[..|t.blocks|] == t.blocks;
  }
}
