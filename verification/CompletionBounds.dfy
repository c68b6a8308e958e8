/** The completion protocol goes quiet: bounds on the writes and conflicts of any run. */
module CompletionBounds {
  import opened Providers
  import opened Sets
  import opened Completion
  import opened CompletionSafety

  /** A retry reads at least the version that beat its last write. */
  ghost predicate FreshRetries(states: seq<State>, steps: seq<Step>) {
    |states| == |steps| + 1 &&
    forall i :: 0 <= i < |steps| && steps[i].Begin? && steps[i].op in states[i].operators
                ==> steps[i].version >= states[i].operators[steps[i].op].beaten
  }

  /** Steps that send the request to the API server. */
  function WriteAttempts(steps: seq<Step>): nat {
    if steps == [] then 0
    else WriteAttempts(steps[..|steps| - 1]) + if IsWrite(steps[|steps| - 1]) then 1 else 0
  }

  /** Versions made by somebody else. */
  function Edits(steps: seq<Step>): nat {
    if steps == [] then 0
    else Edits(steps[..|steps| - 1]) + if steps[|steps| - 1].Edit? then 1 else 0
  }

  /** Those that leave the request without its label, which then has to be written again. */
  function Unlabellings(steps: seq<Step>): nat {
    if steps == [] then 0
    else Unlabellings(steps[..|steps| - 1])
         + if steps[|steps| - 1].Edit? && !steps[|steps| - 1].labelled then 1 else 0
  }

  function Disturbances(steps: seq<Step>): nat {
    Edits(steps) + Unlabellings(steps)
  }

  // ---------- successful writes ----------

  lemma {:induction false} VersionsPayForProgress(states: seq<State>, steps: seq<Step>, i: nat)
    requires IsRun(states, steps) && i <= |steps|
    ensures states[i].requests != []
    ensures |states[i].requests| - 1 <= Progress(states[i].Current()) + Disturbances(steps[..i])
  {
    if i > 0 {
      assert steps[..i][..i - 1] == steps[..i - 1];
      VersionsPayForProgress(states, steps, i - 1);
      StructureHolds(states, steps, i - 1);
      NewVersion(states[i - 1], steps[i - 1]);
    }
  }

  /** At most n + 3 successful writes in any run of n operators, under any interleaving, any stale
      read and any change of the provider list: each further version is an edit by somebody else, or
      writes the label that such an edit removed. */
  lemma WritesBounded(states: seq<State>, steps: seq<Step>, i: nat)
    requires IsRun(states, steps) && i <= |steps|
    ensures |states[i].requests| - 1 <= |states[0].operators| + 3 + Disturbances(steps[..i])
  {
    VersionsPayForProgress(states, steps, i);
    StructureHolds(states, steps, i);
    var r, s := states[i].Current(), states[i];
    forall op | op in r.targetData ensures op in s.operators {
      ContributorsWereActive(states, steps, i, op);
    }
    SubsetCardinality(r.targetData.Keys, s.operators.Keys);
    assert |r.targetData| == |r.targetData.Keys|;
    assert |s.operators| == |s.operators.Keys| == |states[0].operators.Keys| == |states[0].operators|;
  }

  /** Progress without the milestone of being completed. */
  function Milestones(r: Request): nat {
    (if r.uuidLabel || r.phase != Unset then 1 else 0) + (if r.phase.Unset? then 0 else 1) + |r.targetData|
  }

  lemma {:induction false} VersionsPayForMilestones(states: seq<State>, steps: seq<Step>, i: nat)
    requires IsRun(states, steps) && i <= |steps|
    requires FixedProviders(steps) && UniqueNames(states[0].registries[0])
    ensures states[i].requests != []
    ensures |states[i].requests| - 1 <= Milestones(states[i].Current()) + Disturbances(steps[..i])
  {
    StructureHolds(states, steps, i);
    if i > 0 {
      assert steps[..i][..i - 1] == steps[..i - 1];
      VersionsPayForMilestones(states, steps, i - 1);
      StructureHolds(states, steps, i - 1);
      NeverStuckPending(states, steps, i - 1);
      MilestoneStep(states[i - 1], steps[i - 1], states[0].registries[0]);
    }
  }

  /** A step pays for its version with a milestone, or is an edit by somebody else. */
  lemma MilestoneStep(s: State, step: Step, list: seq<Provider>)
    requires Structure(s) && WellFormed(s) && Enabled(s, step)
    requires s.registries == [list] && UniqueNames(list) && Tracks(s.Current(), ActiveNames(list))
    ensures Apply(s, step).requests != []
    ensures |Apply(s, step).requests| - |s.requests|
            <= Milestones(Apply(s, step).Current()) - Milestones(s.Current())
               + (if step.Edit? then 1 else 0) + (if step.Edit? && !step.labelled then 1 else 0)
  {
    NewVersion(s, step);
    if IsWrite(step) && Wins(s, step.op) {
      MilestoneWrite(s, step, list);
    }
  }

  lemma MilestoneWrite(s: State, step: Step, list: seq<Provider>)
    requires Structure(s) && WellFormed(s) && Enabled(s, step) && IsWrite(step) && Wins(s, step.op)
    requires s.registries == [list] && UniqueNames(list) && Tracks(s.Current(), ActiveNames(list))
    ensures Milestones(s.Current()) < Milestones(Sent(s, step))
  {
    SentAdvances(s, step);
    SentTracks(s, step, list);
    if step.WriteContribution? {
      MapGrows(s.Current().targetData, step.op, s.operators[step.op].stage.snapshot.targets);
    } else {
      assert StageFits(s, step.op, s.operators[step.op].stage);
    }
  }

  /** With a fixed provider list the bound is one write per active provider and two more: there is
      no separate completion. */
  lemma WritesBoundedFixed(states: seq<State>, steps: seq<Step>, i: nat)
    requires IsRun(states, steps) && i <= |steps|
    requires FixedProviders(steps) && UniqueNames(states[0].registries[0])
    ensures |states[i].requests| - 1 <= ActiveCount(states[0].registries[0]) + 2 + Disturbances(steps[..i])
  {
    var list := states[0].registries[0];
    VersionsPayForMilestones(states, steps, i);
    NeverStuckPending(states, steps, i);
    var r := states[i].Current();
    assert r.phase.Unset? ==> r.targetData.Keys <= ActiveNames(list);
    SubsetCardinality(r.targetData.Keys, ActiveNames(list));
    ActiveCountIsCardinality(list);
    assert |r.targetData| == |r.targetData.Keys|;
  }

  // ---------- conflicts ----------

  /** Sum of the conflicts of the operators in `keys`. */
  ghost function TotalConflicts(ops: map<string, Operator>, keys: set<string>): nat
    requires keys <= ops.Keys
  {
    if keys == {} then 0
    else var k :| k in keys; ops[k].conflicts + TotalConflicts(ops, keys - {k})
  }

  lemma {:induction false} TotalSplit(ops: map<string, Operator>, keys: set<string>, k: string)
    requires keys <= ops.Keys && k in keys
    ensures TotalConflicts(ops, keys) == ops[k].conflicts + TotalConflicts(ops, keys - {k})
    decreases keys
  {
    var first :| first in keys
                 && TotalConflicts(ops, keys) == ops[first].conflicts + TotalConflicts(ops, keys - {first});
    if first != k {
      TotalSplit(ops, keys - {first}, k);
      TotalSplit(ops, keys - {k}, first);
      assert keys - {first} - {k} == keys - {k} - {first};
    }
  }

  lemma {:induction false} TotalFrame(ops: map<string, Operator>, ops': map<string, Operator>, keys: set<string>)
    requires keys <= ops.Keys && keys <= ops'.Keys
    requires forall k :: k in keys ==> ops[k].conflicts == ops'[k].conflicts
    ensures TotalConflicts(ops, keys) == TotalConflicts(ops', keys)
    decreases keys
  {
    if keys != {} {
      var k :| k in keys;
      TotalSplit(ops, keys, k);
      TotalSplit(ops', keys, k);
      TotalFrame(ops, ops', keys - {k});
    }
  }

  lemma {:induction false} TotalAtMost(ops: map<string, Operator>, keys: set<string>, bound: nat)
    requires keys <= ops.Keys
    requires forall k :: k in keys ==> ops[k].conflicts <= bound
    ensures TotalConflicts(ops, keys) <= |keys| * bound
    decreases keys
  {
    if keys != {} {
      var k :| k in keys;
      TotalSplit(ops, keys, k);
      TotalAtMost(ops, keys - {k}, bound);
      OneMore(|keys - {k}|, bound);
      assert |keys| == |keys - {k}| + 1;
    }
  }

  lemma OneMore(n: nat, bound: nat)
    ensures (n + 1) * bound == n * bound + bound
  {}

  /** Every attempt is either a version or a counted conflict, and every other version an edit. */
  lemma {:induction false} AttemptsAccounted(states: seq<State>, steps: seq<Step>, i: nat)
    requires IsRun(states, steps) && i <= |steps|
    ensures WriteAttempts(steps[..i]) + Edits(steps[..i])
            == |states[i].requests| - 1 + TotalConflicts(states[i].operators, states[i].operators.Keys)
  {
    if i == 0 {
      TotalAtMost(states[0].operators, states[0].operators.Keys, 0);
    } else {
      AttemptsAccounted(states, steps, i - 1);
      StructureHolds(states, steps, i - 1);
      assert steps[..i][..i - 1] == steps[..i - 1];
      var s, step := states[i - 1], steps[i - 1];
      NewVersion(s, step);
      TotalStep(s, step);
    }
  }

  /** A step adds to the total exactly when it is a lost race. */
  lemma TotalStep(s: State, step: Step)
    requires WellFormed(s) && Enabled(s, step)
    ensures TotalConflicts(Apply(s, step).operators, Apply(s, step).operators.Keys)
            == TotalConflicts(s.operators, s.operators.Keys) + if IsWrite(step) && !Wins(s, step.op) then 1 else 0
  {
    var keys, after := s.operators.Keys, Apply(s, step).operators;
    StepGrows(s, step);
    if !ByOperator(step) {
      TotalFrame(s.operators, after, keys);
    } else {
      ConflictStep(s, step);
      TotalSplit(s.operators, keys, step.op);
      TotalSplit(after, keys, step.op);
      TotalFrame(s.operators, after, keys - {step.op});
    }
  }

  /** What a step does to the bookkeeping of its operator. */
  lemma ConflictStep(s: State, step: Step)
    requires WellFormed(s) && Enabled(s, step) && ByOperator(step)
    ensures var me, me' := s.operators[step.op], Apply(s, step).operators[step.op];
            if IsWrite(step) && !Wins(s, step.op)
            then me'.conflicts == me.conflicts + 1 && me'.beaten == me.stage.base + 1 && me'.stage.Idle?
            else me'.conflicts == me.conflicts && me'.beaten == me.beaten
  {}

  ghost predicate ConflictsPaid(s: State) {
    forall op :: op in s.operators ==>
      var me := s.operators[op];
      && me.conflicts <= me.beaten < |s.requests|
      && (!me.stage.Idle? ==> me.beaten <= me.stage.base)
  }

  lemma ConflictsPaidStep(s: State, step: Step)
    requires Structure(s) && WellFormed(s) && Enabled(s, step) && ConflictsPaid(s)
    requires step.Begin? ==> step.version >= s.operators[step.op].beaten
    ensures ConflictsPaid(Apply(s, step))
  {
    var s' := Apply(s, step);
    StepGrows(s, step);
    if ByOperator(step) {
      ConflictStep(s, step);
      StageKeepsBase(s, step);
      forall op | op in s'.operators
        ensures var me := s'.operators[op];
                && me.conflicts <= me.beaten < |s'.requests|
                && (!me.stage.Idle? ==> me.beaten <= me.stage.base)
      {
        assert op != step.op ==> s'.operators[op] == s.operators[op];
      }
    }
  }

  /** Inside one reconcile the base never moves back. */
  lemma StageKeepsBase(s: State, step: Step)
    requires Structure(s) && WellFormed(s) && Enabled(s, step) && ByOperator(step)
    ensures var stage, stage' := s.operators[step.op].stage, Apply(s, step).operators[step.op].stage;
            && (!stage'.Idle? && !step.Begin? ==> !stage.Idle? && stage.base <= stage'.base)
            && (!stage'.Idle? && step.Begin? ==> stage'.base == step.version)
  {
    assert StageFits(s, step.op, s.operators[step.op].stage);
  }

  lemma {:induction false} ConflictsPaidHolds(states: seq<State>, steps: seq<Step>, i: nat)
    requires IsRun(states, steps) && FreshRetries(states, steps) && i <= |steps|
    ensures ConflictsPaid(states[i])
  {
    if i > 0 {
      ConflictsPaidHolds(states, steps, i - 1);
      StructureHolds(states, steps, i - 1);
      ConflictsPaidStep(states[i - 1], steps[i - 1]);
    }
  }

  /** No livelock: when retries see what beat them, n operators meet at most n * (n + 3) conflicts
      and send the request at most (n + 1) * (n + 3) times, however long the run is; an edit by
      somebody else costs each operator at most one conflict more, or two if it removes the label. */
  lemma NoLivelock(states: seq<State>, steps: seq<Step>, i: nat)
    requires IsRun(states, steps) && FreshRetries(states, steps) && i <= |steps|
    ensures var n := |states[0].operators|;
            && TotalConflicts(states[i].operators, states[i].operators.Keys) <= n * (n + 3 + Disturbances(steps[..i]))
            && WriteAttempts(steps[..i]) <= n + 3 + Unlabellings(steps[..i]) + n * (n + 3 + Disturbances(steps[..i]))
  {
    var s, n := states[i], |states[0].operators|;
    WritesBounded(states, steps, i);
    ConflictsPaidHolds(states, steps, i);
    StructureHolds(states, steps, i);
    TotalAtMost(s.operators, s.operators.Keys, n + 3 + Disturbances(steps[..i]));
    assert |s.operators.Keys| == |states[0].operators.Keys| == n;
    AttemptsAccounted(states, steps, i);
  }

  // ---------- in numbers ----------

  lemma {:induction false} DisturbancesCounted(steps: seq<Step>)
    ensures Unlabellings(steps) <= Edits(steps) <= |steps|
    ensures Edits(steps) == 0 <==> forall k :: 0 <= k < |steps| ==> !steps[k].Edit?
    ensures (forall k :: 0 <= k < |steps| && steps[k].Edit? ==> steps[k].labelled) ==> Unlabellings(steps) == 0
  {
    if steps != [] {
      DisturbancesCounted(steps[..|steps| - 1]);
    }
  }

  /** Left alone by everybody else, n operators store at most n + 3 versions in any run; if their retries
      also see what beat them, they meet at most n * (n + 3) conflicts in (n + 1) * (n + 3) attempts. */
  lemma UndisturbedBounds(states: seq<State>, steps: seq<Step>, i: nat)
    requires IsRun(states, steps) && i <= |steps|
    requires forall k :: 0 <= k < i ==> !steps[k].Edit?
    ensures var n := |states[0].operators|;
            && |states[i].requests| <= 1 + n + 3
            && (FreshRetries(states, steps) ==>
                  && TotalConflicts(states[i].operators, states[i].operators.Keys) <= n * (n + 3)
                  && WriteAttempts(steps[..i]) <= (n + 1) * (n + 3))
  {
    DisturbancesCounted(steps[..i]);
    WritesBounded(states, steps, i);
    if FreshRetries(states, steps) {
      NoLivelock(states, steps, i);
      OneMore(|states[0].operators|, |states[0].operators| + 3);
    }
  }
}
