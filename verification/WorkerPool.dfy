/** The bounded probe pool (probeManagedClusters) as interleaved steps.

    The producer sends indices 0, 1, ... over an unbuffered channel, so a send and its receive are
    one step; at most eight workers receive an index, run the probe, and write the shared slice at
    that index. The main goroutine returns when every worker is done. */
module WorkerPool {
  import opened Sets
  import opened Types

  const MAX_CONCURRENT_CLUSTER_PROBES := 8

  datatype Worker = Receiving | Probing(index: nat) | Done

  /** `calls` is a history variable: the probe calls made and what each returned. */
  datatype Pool<R> = Pool(
    next: nat,
    closed: bool,
    workers: seq<Worker>,
    results: seq<R>,
    calls: seq<(nat, R)>)

  datatype Step<R> =
    | Handoff(worker: nat)             // the producer sends `next`, the worker receives it
    | Finish(worker: nat, outcome: R)  // the probe returns and the worker writes its slot
    | Close                            // the producer closes the channel after the last index
    | Exit(worker: nat)                // the worker's range loop ends on the closed channel

  function WorkerCount(n: nat): nat {
    if n < MAX_CONCURRENT_CLUSTER_PROBES then n else MAX_CONCURRENT_CLUSTER_PROBES
  }

  function Start<R>(n: nat, zero: R): Pool<R> {
    Pool(0, false, seq(WorkerCount(n), _ => Receiving), seq(n, _ => zero), [])
  }

  predicate Enabled<R>(n: nat, p: Pool<R>, step: Step<R>) {
    match step
    case Handoff(w) => w < |p.workers| && p.workers[w] == Receiving && p.next < n
    case Finish(w, _) => w < |p.workers| && p.workers[w].Probing? && p.workers[w].index < |p.results|
    case Close => p.next == n && !p.closed
    case Exit(w) => w < |p.workers| && p.workers[w] == Receiving && p.closed
  }

  function Apply<R>(n: nat, p: Pool<R>, step: Step<R>): Pool<R>
    requires Enabled(n, p, step)
  {
    match step
    case Handoff(w) => p.(next := p.next + 1, workers := p.workers[w := Probing(p.next)])
    case Finish(w, r) =>
      var i := p.workers[w].index;
      p.(workers := p.workers[w := Receiving], results := p.results[i := r], calls := p.calls + [(i, r)])
    case Close => p.(closed := true)
    case Exit(w) => p.(workers := p.workers[w := Done])
  }

  /** A schedule is any sequence of steps, each enabled where it is taken. */
  ghost predicate IsRun<R>(n: nat, zero: R, pools: seq<Pool<R>>, steps: seq<Step<R>>) {
    && |pools| == |steps| + 1
    && pools[0] == Start(n, zero)
    && forall k {:trigger steps[k]} :: 0 <= k < |steps| ==>
         Enabled(n, pools[k], steps[k]) && pools[k + 1] == Apply(n, pools[k], steps[k])
  }

  /** What workers.Wait() waits for. */
  predicate AllDone<R>(p: Pool<R>) {
    forall w :: 0 <= w < |p.workers| ==> p.workers[w] == Done
  }

  // ---------- the invariant ----------

  /** The call log mentions index i. */
  ghost predicate Called<R>(p: Pool<R>, i: nat) {
    exists c :: 0 <= c < |p.calls| && p.calls[c].0 == i
  }

  /** Worker w is at work on index i. */
  ghost predicate Holds<R>(p: Pool<R>, w: nat, i: nat) {
    w < |p.workers| && p.workers[w] == Probing(i)
  }

  ghost predicate Inv<R>(n: nat, zero: R, p: Pool<R>) {
    && p.next <= n && |p.results| == n && |p.workers| == WorkerCount(n)
    && (p.closed ==> p.next == n)
    && (forall w :: 0 <= w < |p.workers| && p.workers[w] == Done ==> p.closed)
    // an index handed out is held by exactly one worker or was called exactly once, never both
    && (forall w: nat, i: nat {:trigger Holds(p, w, i)} :: Holds(p, w, i) ==> i < p.next && !Called(p, i))
    && (forall v: nat, w: nat, i: nat {:trigger Holds(p, v, i), Holds(p, w, i)} ::
          Holds(p, v, i) && Holds(p, w, i) ==> v == w)
    && (forall i :: 0 <= i < p.next && !Called(p, i) ==> exists w :: Holds(p, w, i))
    && (forall c, d :: 0 <= c < d < |p.calls| ==> p.calls[c].0 != p.calls[d].0)
    // the shared slice holds what the calls returned, and zero values elsewhere
    && (forall c :: 0 <= c < |p.calls| ==> p.calls[c].0 < p.next && p.results[p.calls[c].0] == p.calls[c].1)
    && (forall i :: 0 <= i < n && !Called(p, i) ==> p.results[i] == zero)
  }

  lemma InvStep<R>(n: nat, zero: R, p: Pool<R>, step: Step<R>)
    requires Inv(n, zero, p) && Enabled(n, p, step)
    ensures Inv(n, zero, Apply(n, p, step))
  {
    var p' := Apply(n, p, step);
    match step
    case Handoff(w) =>
      assert forall i :: Called(p', i) <==> Called(p, i);
      assert forall v, i :: Holds(p', v, i) <==> (if v == w then i == p.next else Holds(p, v, i));
      assert Holds(p', w, p.next);
      assert !Called(p, p.next);
    case Finish(w, r) =>
      var i := p.workers[w].index;
      assert Holds(p, w, i);
      CalledAfter(p, p', i, r);
      assert forall v, k :: Holds(p', v, k) <==> v != w && Holds(p, v, k);
    case Close =>
      assert forall i :: Called(p', i) <==> Called(p, i);
      assert forall v, i :: Holds(p', v, i) <==> Holds(p, v, i);
    case Exit(w) =>
      assert forall i :: Called(p', i) <==> Called(p, i);
      assert forall v, i :: Holds(p', v, i) <==> Holds(p, v, i);
  }

  lemma CalledAfter<R>(p: Pool<R>, p': Pool<R>, i: nat, r: R)
    requires p'.calls == p.calls + [(i, r)]
    ensures forall k :: Called(p', k) <==> Called(p, k) || k == i
  {
    forall k ensures Called(p', k) <==> Called(p, k) || k == i {
      if Called(p, k) {
        var c :| 0 <= c < |p.calls| && p.calls[c].0 == k;
        assert p'.calls[c].0 == k;
      }
      assert p'.calls[|p.calls|].0 == i;
    }
  }

  lemma {:induction false} InvHolds<R>(n: nat, zero: R, pools: seq<Pool<R>>, steps: seq<Step<R>>, k: nat)
    requires IsRun(n, zero, pools, steps) && k <= |steps|
    ensures Inv(n, zero, pools[k])
  {
    if k > 0 {
      InvHolds(n, zero, pools, steps, k - 1);
      InvStep(n, zero, pools[k - 1], steps[k - 1]);
    }
  }

  // ---------- main results ----------

  /** Workers that are running a probe. */
  ghost function InFlight(workers: seq<Worker>): set<nat> {
    set w: nat | w < |workers| && workers[w].Probing?
  }

  /** At most eight probes run at once, and at most one per input; no two of them share a slot of the
      slice. */
  lemma BoundedConcurrency<R>(n: nat, zero: R, pools: seq<Pool<R>>, steps: seq<Step<R>>, k: nat)
    requires IsRun(n, zero, pools, steps) && k <= |steps|
    ensures |InFlight(pools[k].workers)| <= 8 && |InFlight(pools[k].workers)| <= n
    ensures forall v, w :: v in InFlight(pools[k].workers) && w in InFlight(pools[k].workers) && v != w
                           ==> pools[k].workers[v].index != pools[k].workers[w].index
  {
    InvHolds(n, zero, pools, steps, k);
    var p := pools[k];
    SubsetCardinality(InFlight(p.workers), Below(WorkerCount(n)));
    forall v, w | v in InFlight(p.workers) && w in InFlight(p.workers) && p.workers[v].index == p.workers[w].index
      ensures v == w
    {
      assert Holds(p, v, p.workers[v].index) && Holds(p, w, p.workers[v].index);
    }
  }

  /** Both bounds are reached: with eight inputs or more eight probes run at once, and with fewer all of
      them do. */
  lemma FullConcurrency<R>(n: nat, zero: R) returns (pools: seq<Pool<R>>, steps: seq<Step<R>>)
    ensures IsRun(n, zero, pools, steps)
    ensures |InFlight(pools[|steps|].workers)| == if n < 8 then n else 8
    ensures forall i: nat :: i < n && i < 8 ==> Probing(i) in pools[|steps|].workers
  {
    var k := if n < 8 then n else 8;
    pools, steps := HandOut(n, zero, k);
    AllBusy(pools[|steps|].workers);
  }

  lemma AllBusy(workers: seq<Worker>)
    requires forall w :: 0 <= w < |workers| ==> workers[w] == Probing(w)
    ensures |InFlight(workers)| == |workers|
    ensures forall i: nat :: i < |workers| ==> Probing(i) in workers
  {
    assert InFlight(workers) == Below(|workers|);
    forall i: nat | i < |workers| ensures Probing(i) in workers {
      assert workers[i] == Probing(i);
    }
  }

  /** The first k indices are handed to the first k workers. */
  lemma {:induction false} HandOut<R>(n: nat, zero: R, k: nat) returns (pools: seq<Pool<R>>, steps: seq<Step<R>>)
    requires k <= n && k <= 8
    ensures IsRun(n, zero, pools, steps)
    ensures var p := pools[|steps|];
            && |p.workers| == (if n < 8 then n else 8) && p.next == k
            && forall w :: 0 <= w < |p.workers| ==> p.workers[w] == if w < k then Probing(w) else Receiving
  {
    if k == 0 {
      pools, steps := [Start(n, zero)], [];
    } else {
      pools, steps := HandOut(n, zero, k - 1);
      var p := pools[|steps|];
      pools, steps := pools + [Apply(n, p, Handoff(k - 1))], steps + [Handoff(k - 1)];
    }
  }

  /** The indices below n. */
  function Below(n: nat): (s: set<nat>)
    ensures |s| == n && forall i: nat :: i in s <==> i < n
  {
    if n == 0 then {} else Below(n - 1) + {n - 1}
  }

  /** No deadlock: until every worker is done, some step can be taken. */
  lemma NoDeadlock<R>(n: nat, zero: R, pools: seq<Pool<R>>, steps: seq<Step<R>>, k: nat) returns (step: Step<R>)
    requires IsRun(n, zero, pools, steps) && k <= |steps| && !AllDone(pools[k])
    ensures Enabled(n, pools[k], step)
  {
    InvHolds(n, zero, pools, steps, k);
    var p := pools[k];
    var w :| 0 <= w < |p.workers| && p.workers[w] != Done;
    if p.workers[w].Probing? {
      assert Holds(p, w, p.workers[w].index);
      step := Finish(w, zero);
    } else if p.next < n {
      step := Handoff(w);
    } else if !p.closed {
      step := Close;
    } else {
      step := Exit(w);
    }
  }

  function Remaining(workers: seq<Worker>): nat {
    if workers == [] then 0
    else (match workers[0] case Receiving => 1 case Probing(_) => 2 case Done => 0) + Remaining(workers[1..])
  }

  /** Steps still to be taken. */
  function Measure<R>(n: nat, p: Pool<R>): int {
    2 * (n - p.next) + (if p.closed then 0 else 1) + Remaining(p.workers)
  }

  lemma {:induction false} RemainingUpdate(workers: seq<Worker>, w: nat, worker: Worker)
    requires w < |workers|
    ensures Remaining(workers[w := worker])
            == Remaining(workers) - Remaining([workers[w]]) + Remaining([worker])
  {
    if w == 0 {
      assert workers[0 := worker][1..] == workers[1..];
    } else {
      RemainingUpdate(workers[1..], w - 1, worker);
      assert workers[w := worker][1..] == workers[1..][w - 1 := worker];
    }
  }

  lemma MeasureStep<R>(n: nat, p: Pool<R>, step: Step<R>)
    requires Enabled(n, p, step)
    ensures Measure(n, Apply(n, p, step)) == Measure(n, p) - 1
  {
    match step
    case Handoff(w) => RemainingUpdate(p.workers, w, Probing(p.next));
    case Finish(w, _) => RemainingUpdate(p.workers, w, Receiving);
    case Close =>
    case Exit(w) => RemainingUpdate(p.workers, w, Done);
  }

  lemma {:induction false} RemainingOfIdle(k: nat)
    ensures Remaining(seq(k, _ => Receiving)) == k
  {
    if k > 0 {
      assert seq(k, _ => Receiving)[1..] == seq(k - 1, _ => Receiving);
      RemainingOfIdle(k - 1);
    }
  }

  lemma {:induction false} RemainingOfDone(workers: seq<Worker>)
    requires forall w :: 0 <= w < |workers| ==> workers[w] == Done
    ensures Remaining(workers) == 0
  {
    if workers != [] {
      RemainingOfDone(workers[1..]);
    }
  }

  lemma {:induction false} MeasureHolds<R>(n: nat, zero: R, pools: seq<Pool<R>>, steps: seq<Step<R>>, k: nat)
    requires IsRun(n, zero, pools, steps) && k <= |steps|
    ensures Measure(n, pools[k]) == 2 * n + 1 + WorkerCount(n) - k
  {
    if k == 0 {
      RemainingOfIdle(WorkerCount(n));
    } else {
      MeasureHolds(n, zero, pools, steps, k - 1);
      MeasureStep(n, pools[k - 1], steps[k - 1]);
    }
  }

  /** Every schedule terminates, and each one that runs to the end takes the same number of steps:
      a hand-off and a finish per input, one close, and one exit per worker. */
  lemma EveryScheduleHasTheSameLength<R>(n: nat, zero: R, pools: seq<Pool<R>>, steps: seq<Step<R>>)
    requires IsRun(n, zero, pools, steps)
    ensures |steps| <= 2 * n + 1 + (if n < 8 then n else 8)
    ensures n > 0 ==> (|steps| == 2 * n + 1 + (if n < 8 then n else 8) <==> AllDone(pools[|steps|]))
  {
    var p := pools[|steps|];
    MeasureHolds(n, zero, pools, steps, |steps|);
    InvHolds(n, zero, pools, steps, |steps|);
    if AllDone(p) {
      RemainingOfDone(p.workers);
      if n > 0 {
        assert p.workers[0] == Done;
      }
    } else {
      var step := NoDeadlock(n, zero, pools, steps, |steps|);
      MeasureStep(n, p, step);
      assert Measure(n, Apply(n, p, step)) >= 0 by {
        InvStep(n, zero, p, step);
      }
    }
    assert Measure(n, p) >= 0;
  }

  /** Refinement: when Wait() returns, each input was probed exactly once and slot i of the slice is
      what the probe of input i returned. */
  lemma PoolRefinesSequentialMap<R>(n: nat, zero: R, pools: seq<Pool<R>>, steps: seq<Step<R>>)
    requires IsRun(n, zero, pools, steps) && n > 0 && AllDone(pools[|steps|])
    ensures var p := pools[|steps|];
            && |p.results| == n && |p.calls| == n
            && (forall c, d :: 0 <= c < d < n ==> p.calls[c].0 != p.calls[d].0)
            && (forall i :: 0 <= i < n ==> Called(p, i))
            && (forall c :: 0 <= c < n ==> p.calls[c].0 < n && p.results[p.calls[c].0] == p.calls[c].1)
  {
    InvHolds(n, zero, pools, steps, |steps|);
    var p := pools[|steps|];
    assert p.workers[0] == Done;
    assert forall w, i :: !Holds(p, w, i);
    CoveringCalls(p, n);
  }

  /** Distinct indices that cover 0..n are n in number. */
  lemma CoveringCalls<R>(p: Pool<R>, n: nat)
    requires forall c, d :: 0 <= c < d < |p.calls| ==> p.calls[c].0 != p.calls[d].0
    requires forall c :: 0 <= c < |p.calls| ==> p.calls[c].0 < n
    requires forall i: nat :: i < n ==> Called(p, i)
    ensures |p.calls| == n
  {
    var seen := set c | 0 <= c < |p.calls| :: p.calls[c].0;
    DistinctCardinality(p.calls);
    forall i: nat | i < n ensures i in seen {
      assert Called(p, i);
    }
    assert seen == Below(n);
  }

  lemma {:induction false} DistinctCardinality<R>(calls: seq<(nat, R)>)
    requires forall c, d :: 0 <= c < d < |calls| ==> calls[c].0 != calls[d].0
    ensures |set c | 0 <= c < |calls| :: calls[c].0| == |calls|
  {
    if calls != [] {
      var init := calls[..|calls| - 1];
      DistinctCardinality(init);
      var s := set c | 0 <= c < |init| :: init[c].0;
      assert (set c | 0 <= c < |calls| :: calls[c].0) == s + {calls[|calls| - 1].0};
    }
  }

  // ---------- the pool itself ----------

  /** What an actor would do next: a worker by its number, the producer closing the channel by any
      larger one. */
  function StepOf<I, R>(inputs: seq<I>, probe: I -> R, p: Pool<R>, actor: nat): Option<Step<R>> {
    if actor >= |p.workers| then
      if p.next == |inputs| && !p.closed then Some(Close) else None
    else match p.workers[actor]
         case Receiving =>
           if p.next < |inputs| then Some(Handoff(actor)) else if p.closed then Some(Exit(actor)) else None
         case Probing(i) =>
           if i < |inputs| && i < |p.results| then Some(Finish(actor, probe(inputs[i]))) else None
         case Done => None
  }

  /** The steps an actor can choose are all the steps there are, as long as probes return what the
      probe function says: every schedule can be chosen. */
  lemma EveryStepCanBeChosen<I, R>(inputs: seq<I>, probe: I -> R, p: Pool<R>, step: Step<R>)
    requires |p.results| == |inputs| && (p.closed ==> p.next == |inputs|)
    ensures (exists actor: nat :: StepOf(inputs, probe, p, actor) == Some(step)) <==>
              Enabled(|inputs|, p, step)
              && (step.Finish? ==> step.outcome == probe(inputs[p.workers[step.worker].index]))
  {
    var actor := if step.Close? then |p.workers| else step.worker;
    if Enabled(|inputs|, p, step)
       && (step.Finish? ==> step.outcome == probe(inputs[p.workers[step.worker].index])) {
      assert StepOf(inputs, probe, p, actor) == Some(step);
    }
  }

  /** The pool under whatever schedule `choices` picks: each choice names the actor that moves next; one
      that cannot move, or the end of the choices, leaves it to the first actor that can. The probe is
      a function here, so the result is the plain sequential map. */
  method ProbeManagedClusters<I, R(0)>(inputs: seq<I>, probe: I -> R, zero: R, choices: seq<nat>)
    returns (results: seq<R>)
    ensures |results| == |inputs|
    ensures forall i :: 0 <= i < |inputs| ==> results[i] == probe(inputs[i])
  {
    var n := |inputs|;
    if n == 0 {
      return [];
    }
    var p := Start(n, zero);
    ghost var pools, steps := [p], [];
    var tick := 0;
    while !AllDone(p)
      invariant IsRun(n, zero, pools, steps) && pools[|steps|] == p
      invariant Inv(n, zero, p)
      invariant forall c :: 0 <= c < |p.calls| ==> p.calls[c].1 == probe(inputs[p.calls[c].0])
      decreases Measure(n, p)
    {
      var step := NextStep(inputs, probe, zero, p, if tick < |choices| then choices[tick] else 0);
      InvStep(n, zero, p, step);
      MeasureStep(n, p, step);
      p := Apply(n, p, step);
      pools, steps := pools + [p], steps + [step];
      tick := tick + 1;
    }
    PoolRefinesSequentialMap(n, zero, pools, steps);
    results := p.results;
    forall i | 0 <= i < n ensures results[i] == probe(inputs[i]) {
      assert Called(p, i);
    }
  }

  /** The step of the wanted actor if it can move, else of the first actor that can. */
  method NextStep<I, R(0)>(inputs: seq<I>, probe: I -> R, zero: R, p: Pool<R>, wanted: nat) returns (step: Step<R>)
    requires |inputs| > 0 && Inv(|inputs|, zero, p) && !AllDone(p)
    ensures Enabled(|inputs|, p, step)
    ensures step.Finish? ==> step.outcome == probe(inputs[p.workers[step.worker].index])
    ensures var choice := StepOf(inputs, probe, p, wanted); choice.Some? ==> step == choice.value
  {
    var choice := StepOf(inputs, probe, p, wanted);
    var actor := 0;
    while choice.None?
      invariant actor <= |p.workers| + 1
      invariant choice.None? ==> forall v: nat :: v < actor ==> StepOf(inputs, probe, p, v).None?
      invariant choice.Some? ==> exists v: nat :: choice == StepOf(inputs, probe, p, v)
      invariant StepOf(inputs, probe, p, wanted).Some? ==> choice == StepOf(inputs, probe, p, wanted)
      decreases |p.workers| + 1 - actor
    {
      if actor > |p.workers| {
        SomebodyMoves(inputs, probe, zero, p);
        assert false;
      }
      choice := StepOf(inputs, probe, p, actor);
      actor := actor + 1;
    }
    step := choice.value;
    EveryStepCanBeChosen(inputs, probe, p, step);
  }

  lemma SomebodyMoves<I, R>(inputs: seq<I>, probe: I -> R, zero: R, p: Pool<R>)
    requires Inv(|inputs|, zero, p) && !AllDone(p)
    ensures exists actor: nat :: actor <= |p.workers| && StepOf(inputs, probe, p, actor).Some?
  {
    var w: nat :| w < |p.workers| && p.workers[w] != Done;
    if p.workers[w].Probing? {
      assert Holds(p, w, p.workers[w].index);
      assert StepOf(inputs, probe, p, w).Some?;
    } else if p.next < |inputs| || p.closed {
      assert StepOf(inputs, probe, p, w).Some?;
    } else {
      assert StepOf(inputs, probe, p, |p.workers|) == Some(Close);
    }
  }
}
