/** Rate samples under concurrency: recorders bump the four aggregate counters
    one atomic at a time while samplers read them one at a time and then take
    the difference to the previous reading. */
module RateSamples {
  import opened Bounded

  const COUNTERS: nat := 4

  type SamplerId = nat

  datatype Rates = Rates(
    counters: seq<nat>,
    reading: map<SamplerId, seq<nat>>,
    previous: seq<nat>,
    samples: seq<seq<nat>>,
    taken: seq<seq<nat>>,
    history: nat)

  datatype Step =
    | Add(counter: nat, amount: nat)
    | Load(who: SamplerId)
    | Commit(who: SamplerId)

  function Fresh(history: nat): Rates {
    Rates([0, 0, 0, 0], map[], [0, 0, 0, 0], [], [], history)
  }

  function Reading(r: Rates, who: SamplerId): seq<nat> {
    if who in r.reading then r.reading[who] else []
  }

  predicate Enabled(r: Rates, step: Step) {
    match step
    case Add(i, _) => i < |r.counters|
    case Load(who) => |Reading(r, who)| < |r.counters|
    case Commit(who) => |Reading(r, who)| == COUNTERS && |r.previous| == COUNTERS
  }

  function SaturatingSub(a: nat, b: nat): nat {
    if a >= b then a - b else 0
  }

  function Differences(totals: seq<nat>, previous: seq<nat>): (d: seq<nat>)
    requires |totals| == |previous|
    ensures |d| == |totals|
  {
    seq(|totals|, i requires 0 <= i < |totals| => SaturatingSub(totals[i], previous[i]))
  }

  function PushSample(samples: seq<seq<nat>>, sample: seq<nat>, history: nat): seq<seq<nat>> {
    if history == 0 then samples else DropOldest(samples + [sample], history)
  }

  function DropOldest(samples: seq<seq<nat>>, history: nat): seq<seq<nat>> {
    if |samples| > history then DropOldest(samples[1..], history) else samples
  }

  function Next(r: Rates, step: Step): Rates
    requires Enabled(r, step)
  {
    match step
    case Add(i, amount) => r.(counters := r.counters[i := r.counters[i] + amount])
    case Load(who) =>
      var read := Reading(r, who);
      r.(reading := r.reading[who := read + [r.counters[|read|]]])
    case Commit(who) =>
      var totals := Reading(r, who);
      var sample := Differences(totals, r.previous);
      r.(reading := r.reading[who := []], previous := totals,
         samples := PushSample(r.samples, sample, r.history), taken := r.taken + [sample])
  }

  datatype Outcome = Stuck | At(state: Rates)

  function After(history: nat, run: seq<Step>): Outcome {
    if run == [] then
      At(Fresh(history))
    else
      match After(history, run[..|run| - 1])
      case Stuck => Stuck
      case At(r) => if Enabled(r, run[|run| - 1]) then At(Next(r, run[|run| - 1])) else Stuck
  }

  function Total(taken: seq<seq<nat>>, i: nat): nat
    requires forall s :: s in taken ==> i < |s|
  {
    if taken == [] then 0 else Total(taken[..|taken| - 1], i) + taken[|taken| - 1][i]
  }

  // ----- one sampler -----

  ghost predicate Telescopes(r: Rates) {
    && |r.counters| == |r.previous| == COUNTERS
    && (forall s :: s in r.taken ==> |s| == COUNTERS)
    && (forall i :: 0 <= i < COUNTERS ==> Total(r.taken, i) == r.previous[i])
  }

  /** Every counter is at least what the sampler has read of it, which is at
      least what it read last time. */
  ghost predicate Ordered(r: Rates, who: SamplerId) {
    && |Reading(r, who)| <= COUNTERS == |r.counters| == |r.previous|
    && (forall i :: 0 <= i < COUNTERS ==> r.previous[i] <= r.counters[i])
    && (forall i :: 0 <= i < |Reading(r, who)| ==> r.previous[i] <= Reading(r, who)[i] <= r.counters[i])
  }

  predicate OneSampler(run: seq<Step>, who: SamplerId) {
    forall s :: s in run ==> s.Add? || s.who == who
  }

  lemma {:induction false} DropOldestKeepsTail(samples: seq<seq<nat>>, history: nat)
    ensures DropOldest(samples, history) == Tail(samples, history)
  {
    if |samples| > history {
      DropOldestKeepsTail(samples[1..], history);
    }
  }

  lemma PushKeepsTail(taken: seq<seq<nat>>, sample: seq<nat>, history: nat)
    ensures PushSample(Tail(taken, history), sample, history) == Tail(taken + [sample], history)
  {
    DropOldestKeepsTail(Tail(taken, history) + [sample], history);
    if history == 0 {
      assert taken + [sample] == (taken + [sample])[..|taken| + 1];
    }
  }

  lemma TotalGrows(taken: seq<seq<nat>>, sample: seq<nat>, i: nat)
    requires (forall s :: s in taken ==> i < |s|) && i < |sample|
    ensures Total(taken + [sample], i) == Total(taken, i) + sample[i]
  {
    assert (taken + [sample])[..|taken|] == taken;
  }

  /** A commit keeps the samples summing to the last totals if and only if no
      counter was read below its previous reading. */
  lemma CommitTelescopes(r: Rates, who: SamplerId)
    requires Telescopes(r) && Enabled(r, Commit(who))
    ensures Telescopes(Next(r, Commit(who))) <==>
            forall i :: 0 <= i < COUNTERS ==> r.previous[i] <= Reading(r, who)[i]
  {
    var sample := Differences(Reading(r, who), r.previous);
    var t := Next(r, Commit(who));
    forall i | 0 <= i < COUNTERS
      ensures Total(t.taken, i) == r.previous[i] + sample[i]
    {
      TotalGrows(r.taken, sample, i);
    }
    if exists i :: 0 <= i < COUNTERS && Reading(r, who)[i] < r.previous[i] {
      var i :| 0 <= i < COUNTERS && Reading(r, who)[i] < r.previous[i];
      assert Total(t.taken, i) != t.previous[i];
    }
  }

  lemma StepKeepsOrder(r: Rates, step: Step, who: SamplerId)
    requires Ordered(r, who) && Enabled(r, step) && (step.Add? || step.who == who)
    ensures Ordered(Next(r, step), who)
  {
  }

  lemma StepTelescopes(r: Rates, step: Step, who: SamplerId)
    requires Ordered(r, who) && Enabled(r, step) && (step.Add? || step.who == who)
    requires Telescopes(r) && r.samples == Tail(r.taken, r.history)
    ensures var t := Next(r, step); Telescopes(t) && t.samples == Tail(t.taken, t.history)
  {
    if step.Commit? {
      CommitTelescopes(r, who);
      PushKeepsTail(r.taken, Differences(Reading(r, who), r.previous), r.history);
    }
  }

  /** With one sampler and any interleaving of recorders, each counter's
      samples sum to the total it read last, and the retained samples are the
      newest `history` of those taken. */
  lemma {:induction false} SamplesSumToTotals(history: nat, run: seq<Step>, who: SamplerId)
    requires OneSampler(run, who)
    ensures match After(history, run)
      case Stuck => true
      case At(r) =>
        Ordered(r, who) && Telescopes(r) && r.history == history && r.samples == Tail(r.taken, history)
  {
    hide Telescopes, Ordered, Next, Enabled;
    if run == [] {
      FreshTelescopes(history, who);
    } else {
      var before, step := run[..|run| - 1], run[|run| - 1];
      SamplesSumToTotals(history, before, who);
      match After(history, before)
      case Stuck =>
      case At(r) =>
        if Enabled(r, step) {
          StepKeepsOrder(r, step, who);
          StepTelescopes(r, step, who);
          StepKeepsHistory(r, step);
        }
    }
  }

  lemma StepKeepsHistory(r: Rates, step: Step)
    requires Enabled(r, step)
    ensures Next(r, step).history == r.history
  {
  }

  lemma FreshTelescopes(history: nat, who: SamplerId)
    ensures Telescopes(Fresh(history)) && Ordered(Fresh(history), who)
    ensures Fresh(history).samples == Tail(Fresh(history).taken, history)
  {
  }

  lemma AfterSnoc(history: nat, run: seq<Step>, step: Step)
    ensures After(history, run + [step]) ==
      match After(history, run)
      case Stuck => Stuck
      case At(r) => if Enabled(r, step) then At(Next(r, step)) else Stuck
  {
    assert (run + [step])[..|run|] == run;
  }

  /** A sampler reads all four counters in a row. */
  lemma LoadAll(history: nat, run: seq<Step>, who: SamplerId) returns (run': seq<Step>)
    requires After(history, run).At? && |After(history, run).state.counters| == COUNTERS
    requires Reading(After(history, run).state, who) == []
    ensures var r := After(history, run).state;
      After(history, run') == At(r.(reading := r.reading[who := r.counters]))
  {
    var r := After(history, run).state;
    run' := run;
    for n := 0 to 4
      invariant After(history, run') == At(if n == 0 then r else r.(reading := r.reading[who := r.counters[..n]]))
    {
      AfterSnoc(history, run', Load(who));
      assert r.counters[..n] + [r.counters[n]] == r.counters[..n + 1];
      run' := run' + [Load(who)];
    }
    assert r.counters[..4] == r.counters;
  }

  /** The state with sampler 1 ready to commit an old reading. */
  function Overtaken(second: seq<nat>, previous: seq<nat>, taken: seq<seq<nat>>): Rates {
    Rates([5, 0, 0, 0], map[1 := [0, 0, 0, 0], 2 := second], previous, taken, taken, 60)
  }

  lemma OvertakingCommits()
    ensures var read, zero: seq<nat> := [5, 0, 0, 0], [0, 0, 0, 0];
      var r := Overtaken(read, zero, []);
      && Enabled(r, Commit(2)) && Next(r, Commit(2)) == Overtaken([], read, [read])
      && Enabled(Overtaken([], read, [read]), Commit(1))
      && Next(Overtaken([], read, [read]), Commit(1)).taken == [read] + [zero]
      && Next(Overtaken([], read, [read]), Commit(1)).previous == zero
  {
    assert Differences([5, 0, 0, 0], [0, 0, 0, 0]) == [5, 0, 0, 0];
    assert Differences([0, 0, 0, 0], [5, 0, 0, 0]) == [0, 0, 0, 0];
  }

  /** Two samplers can break it: one that read before a recorder and commits
      after the other leaves `previous` below what was already sampled. */
  lemma TwoSamplersCanOvercount() returns (run: seq<Step>)
    ensures After(60, run).At? && !Telescopes(After(60, run).state)
  {
    hide Telescopes;
    run := LoadAll(60, [], 1);
    AfterSnoc(60, run, Add(0, 5));
    assert Fresh(60).counters[0 := 5] == [5, 0, 0, 0];
    run := LoadAll(60, run + [Add(0, 5)], 2);
    hide Next, Enabled;
    assert After(60, run) == At(Overtaken([5, 0, 0, 0], [0, 0, 0, 0], []));
    OvertakingCommits();
    AfterSnoc(60, run, Commit(2));
    run := run + [Commit(2)];
    AfterSnoc(60, run, Commit(1));
    run := run + [Commit(1)];
    Overcounts(After(60, run).state);
  }

  lemma Overcounts(r: Rates)
    requires r.previous == [0, 0, 0, 0] && r.taken == [[5, 0, 0, 0]] + [[0, 0, 0, 0]]
    ensures !Telescopes(r)
  {
    TotalOfOne([5, 0, 0, 0]);
    TotalGrows([[5, 0, 0, 0]], [0, 0, 0, 0], 0);
  }

  lemma TotalOfOne(sample: seq<nat>)
    ensures forall i :: 0 <= i < |sample| ==> Total([sample], i) == sample[i]
  {
    assert [sample][..0] == [];
  }
}
