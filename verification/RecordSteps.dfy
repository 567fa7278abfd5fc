/** Recording under concurrency: calls of `record_messages` for any connections,
    interleaved at their four separate atomic additions. */
module RecordSteps {
  import opened Options
  import opened MetricsModel

  /** How many of the four additions a call has made: the aggregate messages and
      bytes, then the connection's messages and bytes. */
  datatype Call = Call(conn: ConnId, direction: Traffic, count: nat, bytes: nat, made: nat)

  /** `conns[i - 1]` holds the counters of connection `i`; `calls` is every call
      ever started. */
  datatype Counters = Counters(totals: Totals, conns: seq<Totals>, calls: seq<Call>)

  datatype Step =
    | Open
    | Start(conn: ConnId, direction: Traffic, count: nat, bytes: nat)
    | Add(call: nat)

  const FRESH := Counters(ZERO, [], [])

  predicate Finished(c: Call) {
    c.made >= 4
  }

  predicate Enabled(s: Counters, step: Step) {
    match step
    case Open => true
    case Start(conn, _, _, _) => 1 <= conn <= |s.conns|
    case Add(i) => i < |s.calls| && !Finished(s.calls[i]) && 1 <= s.calls[i].conn <= |s.conns|
  }

  function Messages(c: Call): Totals {
    Delta(c.direction, c.count, 0)
  }

  function Bytes(c: Call): Totals {
    Delta(c.direction, 0, c.bytes)
  }

  function Bump(conns: seq<Totals>, conn: ConnId, part: Totals): seq<Totals>
    requires 1 <= conn <= |conns|
  {
    conns[conn - 1 := Plus(conns[conn - 1], part)]
  }

  function Next(s: Counters, step: Step): Counters
    requires Enabled(s, step)
  {
    match step
    case Open => s.(conns := s.conns + [ZERO])
    case Start(conn, direction, count, bytes) => s.(calls := s.calls + [Call(conn, direction, count, bytes, 0)])
    case Add(i) =>
      var c := s.calls[i];
      var t := s.(calls := s.calls[i := c.(made := c.made + 1)]);
      if c.made == 0 then t.(totals := Plus(s.totals, Messages(c)))
      else if c.made == 1 then t.(totals := Plus(s.totals, Bytes(c)))
      else if c.made == 2 then t.(conns := Bump(s.conns, c.conn, Messages(c)))
      else t.(conns := Bump(s.conns, c.conn, Bytes(c)))
  }

  function After(run: seq<Step>): Option<Counters> {
    if run == [] then
      Some(FRESH)
    else
      match After(run[..|run| - 1])
      case None => None
      case Some(s) => if Enabled(s, run[|run| - 1]) then Some(Next(s, run[|run| - 1])) else None
  }

  // ----- what the totals are ahead by -----

  function SumOf(parts: seq<Totals>): Totals {
    if parts == [] then ZERO else Plus(SumOf(parts[..|parts| - 1]), parts[|parts| - 1])
  }

  /** What a call has added to the totals and not yet to its connection. */
  function Ahead(c: Call): Totals {
    if c.made == 1 then Messages(c)
    else if c.made == 2 then Plus(Messages(c), Bytes(c))
    else if c.made == 3 then Bytes(c)
    else ZERO
  }

  function InFlight(calls: seq<Call>): seq<Totals> {
    seq(|calls|, i requires 0 <= i < |calls| => Ahead(calls[i]))
  }

  predicate AtLeast(a: Totals, b: Totals) {
    a.msgsIn >= b.msgsIn && a.msgsOut >= b.msgsOut && a.bytesIn >= b.bytesIn && a.bytesOut >= b.bytesOut
  }

  lemma SumOfMore(parts: seq<Totals>, part: Totals)
    ensures SumOf(parts + [part]) == Plus(SumOf(parts), part)
  {
    assert (parts + [part])[..|parts|] == parts;
  }

  lemma {:induction false} SumOfChanged(parts: seq<Totals>, i: nat, part: Totals)
    requires i < |parts|
    ensures Plus(SumOf(parts[i := part]), parts[i]) == Plus(SumOf(parts), part)
  {
    var n := |parts| - 1;
    if i == n {
      assert parts[i := part][..n] == parts[..n];
    } else {
      assert parts[i := part][..n] == parts[..n][i := part];
      SumOfChanged(parts[..n], i, part);
    }
  }

  predicate IsZero(t: Totals) {
    t.msgsIn == 0 && t.msgsOut == 0 && t.bytesIn == 0 && t.bytesOut == 0
  }

  predicate AllZero(parts: seq<Totals>) {
    forall i :: 0 <= i < |parts| ==> IsZero(parts[i])
  }

  predicate AllFinished(calls: seq<Call>) {
    forall i :: 0 <= i < |calls| ==> Finished(calls[i])
  }

  ghost predicate Accounted(s: Counters) {
    && s.totals == Plus(SumOf(s.conns), SumOf(InFlight(s.calls)))
    && forall i :: 0 <= i < |s.calls| ==> 1 <= s.calls[i].conn <= |s.conns|
  }

  lemma AddAccounts(s: Counters, i: nat)
    requires Accounted(s) && Enabled(s, Add(i))
    ensures Accounted(Next(s, Add(i)))
  {
    hide SumOf;
    var c, t := s.calls[i], Next(s, Add(i));
    assert t.calls == s.calls[i := c.(made := c.made + 1)];
    assert InFlight(t.calls) == InFlight(s.calls)[i := Ahead(t.calls[i])];
    SumOfChanged(InFlight(s.calls), i, Ahead(t.calls[i]));
    if c.made == 2 {
      SumOfChanged(s.conns, c.conn - 1, Plus(s.conns[c.conn - 1], Messages(c)));
    } else if c.made == 3 {
      SumOfChanged(s.conns, c.conn - 1, Plus(s.conns[c.conn - 1], Bytes(c)));
    }
  }

  lemma StepAccounts(s: Counters, step: Step)
    requires Accounted(s) && Enabled(s, step)
    ensures Accounted(Next(s, step))
  {
    hide SumOf;
    match step
    case Open => SumOfMore(s.conns, ZERO);
    case Start(conn, direction, count, bytes) =>
      SumOfMore(InFlight(s.calls), ZERO);
      assert InFlight(Next(s, step).calls) == InFlight(s.calls) + [ZERO];
    case Add(i) => AddAccounts(s, i);
  }

  // ----- main results -----

  /** In every state of every interleaving each total is the sum over all
      connections plus what the calls in flight have yet to add to theirs: never
      below that sum, equal to it if and only if those amounts are all zero, and
      so equal once every call has finished. */
  lemma {:induction false} TotalsLeadConnections(run: seq<Step>)
    ensures match After(run)
      case None => true
      case Some(s) =>
        && Accounted(s) && AtLeast(s.totals, SumOf(s.conns))
        && (s.totals == SumOf(s.conns) <==> AllZero(InFlight(s.calls)))
        && (AllFinished(s.calls) ==> s.totals == SumOf(s.conns))
  {
    hide After, SumOf, AllZero;
    AlwaysAccounted(run);
    match After(run)
    case None =>
    case Some(s) =>
      NothingInFlight(s.calls);
      ZeroOnlyIfNothing(InFlight(s.calls));
      LeadsBy(s.totals, SumOf(s.conns), SumOf(InFlight(s.calls)));
  }

  lemma LeadsBy(a: Totals, b: Totals, part: Totals)
    requires a == Plus(b, part)
    ensures AtLeast(a, b) && (a == b <==> IsZero(part))
  {
  }

  lemma PlusByField(a: Totals, b: Totals)
    ensures var sum := Plus(a, b);
      && sum.msgsIn == a.msgsIn + b.msgsIn && sum.msgsOut == a.msgsOut + b.msgsOut
      && sum.bytesIn == a.bytesIn + b.bytesIn && sum.bytesOut == a.bytesOut + b.bytesOut
  {
  }

  lemma ZeroSum(a: Totals, b: Totals)
    ensures IsZero(Plus(a, b)) <==> IsZero(a) && IsZero(b)
  {
    hide Plus;
    PlusByField(a, b);
  }

  lemma {:induction false} ZeroOnlyIfNothing(parts: seq<Totals>)
    ensures IsZero(SumOf(parts)) <==> AllZero(parts)
    decreases |parts|
  {
    if parts != [] {
      var before, last := parts[..|parts| - 1], parts[|parts| - 1];
      assert AllZero(parts) <==> AllZero(before) && IsZero(last) by { ZeroBefore(parts); }
      hide AllZero, Plus;
      ZeroOnlyIfNothing(before);
      ZeroSum(SumOf(before), last);
    }
  }

  lemma ZeroBefore(parts: seq<Totals>)
    requires parts != []
    ensures AllZero(parts) <==> AllZero(parts[..|parts| - 1]) && IsZero(parts[|parts| - 1])
  {
    var n := |parts| - 1;
    assert parts == parts[..n] + [parts[n]];
  }

  lemma {:induction false} AlwaysAccounted(run: seq<Step>)
    ensures After(run).Some? ==> Accounted(After(run).value)
  {
    hide Next, Enabled, Accounted;
    if run == [] {
      FreshIsAccounted(FRESH);
    } else {
      AlwaysAccounted(run[..|run| - 1]);
      match After(run[..|run| - 1])
      case None =>
      case Some(s) =>
        if Enabled(s, run[|run| - 1]) {
          StepAccounts(s, run[|run| - 1]);
        }
    }
  }

  lemma FreshIsAccounted(s: Counters)
    requires s.totals == ZERO && |s.conns| == |s.calls| == 0
    ensures Accounted(s)
  {
    hide Plus;
    assert InFlight(s.calls) == s.conns;
    PlusNothing(SumOf(s.conns), SumOf(s.conns));
  }

  lemma NothingInFlight(calls: seq<Call>)
    ensures AllFinished(calls) ==> AllZero(InFlight(calls))
  {
  }

  function Taken(s: Counters, steps: seq<Step>): Option<Counters>
    decreases |steps|
  {
    if steps == [] then Some(s) else if Enabled(s, steps[0]) then Taken(Next(s, steps[0]), steps[1..]) else None
  }

  ghost predicate Same(s: Store, u: Counters) {
    && u.totals == s.totals && |u.conns| == |s.stats|
    && forall i :: 0 <= i < |s.stats| ==> u.conns[i] == s.stats[i].counters
  }

  /** The state with call `n` after `made` of its additions. */
  function Partway(u: Counters, c: Call, made: nat): Counters
    requires 1 <= c.conn <= |u.conns|
  {
    Counters(
      if made == 0 then u.totals else Plus(u.totals, if made == 1 then Messages(c) else Plus(Messages(c), Bytes(c))),
      if made <= 2 then u.conns
      else Bump(u.conns, c.conn, if made == 3 then Messages(c) else Plus(Messages(c), Bytes(c))),
      u.calls + [c.(made := made)])
  }

  lemma AddsOnce(u: Counters, c: Call, made: nat)
    requires 1 <= c.conn <= |u.conns| && made < 4
    ensures Enabled(Partway(u, c, made), Add(|u.calls|))
    ensures Next(Partway(u, c, made), Add(|u.calls|)) == Partway(u, c, made + 1)
  {
    var n := |u.calls|;
    assert (u.calls + [c.(made := made)])[n := c.(made := made + 1)] == u.calls + [c.(made := made + 1)];
  }

  lemma {:induction false} AddsTaken(u: Counters, c: Call, made: nat, steps: seq<Step>)
    requires 1 <= c.conn <= |u.conns| && made + |steps| == 4
    requires forall i :: 0 <= i < |steps| ==> steps[i] == Add(|u.calls|)
    ensures Taken(Partway(u, c, made), steps) == Some(Partway(u, c, 4))
    decreases |steps|
  {
    hide Partway, Next, Enabled;
    if steps != [] {
      AddsOnce(u, c, made);
      AddsTaken(u, c, made + 1, steps[1..]);
    }
  }

  lemma CountsBoth(c: Call)
    ensures Plus(Messages(c), Bytes(c)) == Delta(c.direction, c.count, c.bytes)
  {
  }

  /** A call that nothing interrupts is its four additions in a row. */
  lemma RecordIsItsSteps(s: Store, u: Counters, id: ConnId, direction: Traffic, count: nat, bytes: nat)
    requires Known(s, id) && Same(s, u)
    ensures var n := |u.calls|;
      match Taken(u, [Start(id, direction, count, bytes), Add(n), Add(n), Add(n), Add(n)])
      case None => false
      case Some(v) =>
        && Same(RecordMessages(s, id, direction, count, bytes), v)
        && |v.calls| == n + 1 && v.calls[..n] == u.calls && Finished(v.calls[n])
  {
    var n, c := |u.calls|, Call(id, direction, count, bytes, 0);
    var adds := [Add(n), Add(n), Add(n), Add(n)];
    var steps := [Start(id, direction, count, bytes)] + adds;
    assert steps == [Start(id, direction, count, bytes), Add(n), Add(n), Add(n), Add(n)] && steps[1..] == adds;
    assert Next(u, steps[0]) == Partway(u, c, 0);
    AddsTaken(u, c, 0, adds);
    CountsBoth(c);
  }
}
