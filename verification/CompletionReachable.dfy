/** No dead ends: every reachable state of the completion protocol can still be driven to a completed
    request, by letting operators reconcile in turn, whatever happened to the provider list before. */
module CompletionReachable {
  import opened Types
  import opened Providers
  import opened Sets
  import opened Completion
  import opened CompletionSafety
  import TargetSecret

  /** What completion needs from the environment: uniquely named providers, at least one of them
      active, every active one run by an operator, and a secret that can be merged into. */
  ghost predicate Viable(s: State) {
    && s.registries != [] && UniqueNames(s.Providers())
    && ActiveNames(s.Providers()) != {} && ActiveNames(s.Providers()) <= s.operators.Keys
    && TargetSecret.Readable(s.secrets)
  }

  /** A longer run, with the same providers and operators and a secret no worse than before. */
  ghost predicate Continues(states: seq<State>, steps: seq<Step>, states': seq<State>, steps': seq<Step>) {
    && IsRun(states, steps) && IsRun(states', steps') && states <= states' && steps <= steps'
    && var s, s' := states[|steps|], states'[|steps'|];
    && s'.registries == s.registries && s'.operators.Keys == s.operators.Keys
    && (TargetSecret.Readable(s.secrets) ==> TargetSecret.Readable(s'.secrets))
  }

  lemma ReadableStep(s: State, step: Step)
    requires WellFormed(s) && Enabled(s, step) && TargetSecret.Readable(s.secrets)
    ensures TargetSecret.Readable(Apply(s, step).secrets)
  {
    if step.WriteSecret? {
      var out := TargetSecret.Publish(s.secrets, step.op, step.snapshot.clusters, step.first, step.second, false);
      if out.Stored? {
        TargetSecret.PublishEffect(s.secrets, step.op, step.snapshot.clusters, step.first, step.second, false);
      }
    }
  }

  lemma Take(states: seq<State>, steps: seq<Step>, step: Step) returns (states': seq<State>, steps': seq<Step>)
    requires IsRun(states, steps) && !step.ChangeProviders?
    requires WellFormed(states[|steps|]) && Enabled(states[|steps|], step)
    ensures Continues(states, steps, states', steps')
    ensures states'[|steps'|] == Apply(states[|steps|], step) && steps' == steps + [step]
    ensures WellFormed(states'[|steps'|]) && Structure(states'[|steps'|])
  {
    states', steps' := Extend(states, steps, step);
    StructureHolds(states', steps', |steps'|);
    StepGrows(states[|steps|], step);
    if TargetSecret.Readable(states[|steps|].secrets) {
      ReadableStep(states[|steps|], step);
    }
  }

  // ---------- single steps of an undisturbed reconcile ----------

  lemma AfterAbort(s: State, op: string)
    requires WellFormed(s) && op in s.operators
    ensures Enabled(s, Abort(op))
    ensures var s' := Apply(s, Abort(op));
            s'.requests == s.requests && op in s'.operators && s'.operators[op].stage == Idle
  {}

  /** The stage a fresh reconcile of an idle operator enters. */
  lemma AfterBegin(s: State, op: string)
    requires WellFormed(s) && op in s.operators && s.operators[op].stage == Idle
    ensures Enabled(s, Begin(op, |s.requests| - 1, |s.registries| - 1))
    ensures var s' := Apply(s, Begin(op, |s.requests| - 1, |s.registries| - 1));
            && s'.requests == s.requests && op in s'.operators
            && s'.operators[op].stage == Decide(s.Current(), s.Providers(), op, |s.requests| - 1)
  {}

  lemma AfterWrite(s: State, step: Step)
    requires WellFormed(s) && Enabled(s, step) && IsWrite(step) && Wins(s, step.op)
    ensures var s' := Apply(s, step);
            && s'.requests == s.requests + [Sent(s, step)] && s'.Current() == Sent(s, step) && s'.secrets == s.secrets
            && step.op in s'.operators
            && s'.operators[step.op].stage == (if step.WriteLabel? then Initialising(|s.requests|) else Idle)
  {}

  lemma AfterSecret(s: State, op: string, snapshot: Snapshot) returns (step: Step)
    requires WellFormed(s) && op in s.operators && s.operators[op].stage.Collecting? && TargetSecret.Readable(s.secrets)
    ensures step.WriteSecret? && step.op == op && Enabled(s, step)
    ensures var s', stage := Apply(s, step), s.operators[op].stage;
            && s'.requests == s.requests && s'.secrets != [] && op in s'.operators
            && s'.operators[op].stage == Contributing(stage.base, stage.providers, snapshot)
  {
    var first := if s.secrets == [] then TargetSecret.Missing else TargetSecret.At(|s.secrets| - 1);
    TargetSecret.PublishSucceedsIff(s.secrets, op, snapshot.clusters, first, TargetSecret.Missing);
    step := WriteSecret(op, snapshot, first, TargetSecret.Missing);
  }

  // ---------- whole reconciles ----------

  /** The operator drops what it is doing and reconciles from the newest versions. */
  lemma Restart(states: seq<State>, steps: seq<Step>, op: string) returns (states': seq<State>, steps': seq<Step>)
    requires IsRun(states, steps) && op in states[|steps|].operators
    ensures Continues(states, steps, states', steps')
    ensures var s, s' := states[|steps|], states'[|steps'|];
            && WellFormed(s) && WellFormed(s') && s'.requests == s.requests && op in s'.operators
            && steps' == steps + [Abort(op), Begin(op, |s.requests| - 1, |s.registries| - 1)]
            && s'.operators[op].stage == Decide(s.Current(), s.Providers(), op, |s.requests| - 1)
  {
    StructureHolds(states, steps, |steps|);
    AfterAbort(states[|steps|], op);
    states', steps' := Take(states, steps, Abort(op));
    AfterBegin(states'[|steps'|], op);
    var s := states'[|steps'|];
    states', steps' := Take(states', steps', Begin(op, |s.requests| - 1, |s.registries| - 1));
  }

  /** An initial request, labelled or not: the operator is about to mark it pending ... */
  lemma MakeLabelled(states: seq<State>, steps: seq<Step>, op: string) returns (states': seq<State>, steps': seq<Step>)
    requires IsRun(states, steps) && op in states[|steps|].operators
    requires states[|steps|].requests != [] && states[|steps|].Current().phase == Unset
    ensures Continues(states, steps, states', steps')
    ensures var s' := states'[|steps'|];
            && WellFormed(s') && op in s'.operators && s'.operators[op].stage == Initialising(|s'.requests| - 1)
            && s'.Current() == states[|steps|].Current().(uuidLabel := true)
  {
    states', steps' := Restart(states, steps, op);
    if !states[|steps|].Current().uuidLabel {
      AfterWrite(states'[|steps'|], WriteLabel(op));
      states', steps' := Take(states', steps', WriteLabel(op));
    }
  }

  /** ... and does. */
  lemma MakePending(states: seq<State>, steps: seq<Step>, op: string) returns (states': seq<State>, steps': seq<Step>)
    requires IsRun(states, steps) && op in states[|steps|].operators
    requires states[|steps|].requests != [] && states[|steps|].Current().phase == Unset
    ensures Continues(states, steps, states', steps')
    ensures states'[|steps'|].requests != []
    ensures states'[|steps'|].Current() == states[|steps|].Current().(uuidLabel := true, phase := Pending)
  {
    states', steps' := MakeLabelled(states, steps, op);
    AfterWrite(states'[|steps'|], WritePending(op));
    states', steps' := Take(states', steps', WritePending(op));
  }

  predicate Publishes(step: Step, op: string, snapshot: Snapshot) {
    step.WriteSecret? && step.op == op && step.snapshot == snapshot
  }

  /** On a pending request a missing active operator gets as far as the secret ... */
  lemma PublishFresh(states: seq<State>, steps: seq<Step>, op: string, snapshot: Snapshot)
    returns (states': seq<State>, steps': seq<Step>)
    requires IsRun(states, steps) && op in states[|steps|].operators && TargetSecret.Readable(states[|steps|].secrets)
    requires states[|steps|].requests != [] && states[|steps|].registries != []
    requires states[|steps|].Current().phase == Pending
    requires SelfActive(states[|steps|].Providers(), op) && op !in states[|steps|].Current().targetData
    ensures Continues(states, steps, states', steps')
    ensures var s, s' := states[|steps|], states'[|steps'|];
            && WellFormed(s') && s'.requests == s.requests && s'.secrets != [] && op in s'.operators
            && s'.operators[op].stage == Contributing(|s.requests| - 1, s.Providers(), snapshot)
            && |steps'| == |steps| + 3
            && steps'[|steps|..|steps| + 2] == [Abort(op), Begin(op, |s.requests| - 1, |s.registries| - 1)]
            && Publishes(steps'[|steps| + 2], op, snapshot)
  {
    states', steps' := Restart(states, steps, op);
    var write := AfterSecret(states'[|steps'|], op, snapshot);
    states', steps' := Take(states', steps', write);
  }

  /** ... and then adds its contribution. */
  lemma AddContribution(states: seq<State>, steps: seq<Step>, op: string, snapshot: Snapshot, now: int)
    returns (states': seq<State>, steps': seq<Step>)
    requires IsRun(states, steps) && op in states[|steps|].operators && TargetSecret.Readable(states[|steps|].secrets)
    requires states[|steps|].requests != [] && states[|steps|].registries != []
    requires states[|steps|].Current().phase == Pending
    requires SelfActive(states[|steps|].Providers(), op) && op !in states[|steps|].Current().targetData
    ensures Continues(states, steps, states', steps')
    ensures var s, s' := states[|steps|], states'[|steps'|];
            && s'.requests != [] && s'.secrets != []
            && s'.Current() == Contribute(s.Current(), s.Providers(), op, snapshot.targets, now)
            && |steps'| == |steps| + 4
            && steps'[|steps|..|steps| + 2] == [Abort(op), Begin(op, |s.requests| - 1, |s.registries| - 1)]
            && Publishes(steps'[|steps| + 2], op, snapshot)
            && steps'[|steps| + 3] == WriteContribution(op, now)
  {
    states', steps' := PublishFresh(states, steps, op, snapshot);
    AfterWrite(states'[|steps'|], WriteContribution(op, now));
    states', steps' := Take(states', steps', WriteContribution(op, now));
  }

  /** An active operator that has contributed marks a request whose count is sufficient as completed. */
  lemma AddCompletion(states: seq<State>, steps: seq<Step>, op: string, now: int)
    returns (states': seq<State>, steps': seq<Step>)
    requires IsRun(states, steps) && op in states[|steps|].operators
    requires states[|steps|].requests != [] && states[|steps|].registries != []
    requires states[|steps|].Current().phase == Pending
    requires SelfActive(states[|steps|].Providers(), op) && op in states[|steps|].Current().targetData
    requires ShouldMarkAsCompleted(ActiveCount(states[|steps|].Providers()), |states[|steps|].Current().targetData|)
    ensures Continues(states, steps, states', steps')
    ensures states'[|steps'|].requests == states[|steps|].requests + [Complete(states[|steps|].Current(), now)]
    ensures var s := states[|steps|];
            steps' == steps + [Abort(op), Begin(op, |s.requests| - 1, |s.registries| - 1), WriteCompletion(op, now)]
  {
    states', steps' := Restart(states, steps, op);
    AfterWrite(states'[|steps'|], WriteCompletion(op, now));
    states', steps' := Take(states', steps', WriteCompletion(op, now));
  }

  /** What is left to do: to make the request pending, and the contributions of active operators. */
  ghost function Distance(list: seq<Provider>, r: Request): nat {
    (if r.phase == Unset then 1 else 0) + |ActiveNames(list) - r.targetData.Keys|
  }

  lemma ContributionCloser(list: seq<Provider>, r: Request, op: string, targets: seq<ClusterTarget>, now: int)
    requires r.phase == Pending && op in ActiveNames(list) && op !in r.targetData
    ensures Distance(list, Contribute(r, list, op, targets, now)) < Distance(list, r)
  {
    MapGrows(r.targetData, op, targets);
    OneFewer(ActiveNames(list), r.targetData.Keys, op);
  }

  lemma OneFewer(active: set<string>, contributors: set<string>, op: string)
    requires op in active && op !in contributors
    ensures |active - (contributors + {op})| == |active - contributors| - 1
  {
    assert active - (contributors + {op}) == active - contributors - {op};
  }

  lemma StillViable(states: seq<State>, steps: seq<Step>, states': seq<State>, steps': seq<Step>)
    requires Continues(states, steps, states', steps') && Viable(states[|steps|])
    ensures Viable(states'[|steps'|]) && states'[|steps'|].Providers() == states[|steps|].Providers()
  {}

  /** No reachable request has a foreign phase. */
  lemma KnownPhase(states: seq<State>, steps: seq<Step>)
    requires IsRun(states, steps)
    ensures WellFormed(states[|steps|]) && !states[|steps|].Current().phase.Foreign?
  {
    StructureHolds(states, steps, |steps|);
    MonotoneProtocol(states, steps, 0, |steps|);
  }

  /** With every active operator among the contributors, any of them can complete the request. */
  lemma FinishContributed(states: seq<State>, steps: seq<Step>) returns (states': seq<State>, steps': seq<Step>)
    requires IsRun(states, steps) && Viable(states[|steps|])
    requires states[|steps|].requests != [] && states[|steps|].Current().phase == Pending
    requires ActiveNames(states[|steps|].Providers()) <= states[|steps|].Current().targetData.Keys
    ensures Continues(states, steps, states', steps')
    ensures states'[|steps'|].requests != [] && states'[|steps'|].Current().phase == Completed
  {
    var list, keys := states[|steps|].Providers(), states[|steps|].Current().targetData.Keys;
    var op :| op in ActiveNames(list);
    SelfActiveIsMembership(list, op);
    CountSuffices(list, keys);
    assert op in keys;
    states', steps' := AddCompletion(states, steps, op, 0);
  }

  /** Otherwise one of those missing adds its contribution. */
  lemma ContributeMissing(states: seq<State>, steps: seq<Step>) returns (states': seq<State>, steps': seq<Step>)
    requires IsRun(states, steps) && Viable(states[|steps|])
    requires states[|steps|].requests != [] && states[|steps|].Current().phase == Pending
    requires !(ActiveNames(states[|steps|].Providers()) <= states[|steps|].Current().targetData.Keys)
    ensures Continues(states, steps, states', steps') && states'[|steps'|].requests != []
    ensures var list := states[|steps|].Providers();
            Distance(list, states'[|steps'|].Current()) < Distance(list, states[|steps|].Current())
  {
    var list, r := states[|steps|].Providers(), states[|steps|].Current();
    var op :| op in ActiveNames(list) && op !in r.targetData.Keys;
    SelfActiveIsMembership(list, op);
    ContributionCloser(list, r, op, [], 0);
    states', steps' := AddContribution(states, steps, op, Snapshot([], map[]), 0);
  }

  /** One reconcile of a well chosen operator brings completion closer. */
  lemma Approach(states: seq<State>, steps: seq<Step>) returns (states': seq<State>, steps': seq<Step>)
    requires IsRun(states, steps) && Viable(states[|steps|])
    requires states[|steps|].requests != [] && states[|steps|].Current().phase != Completed
    ensures Continues(states, steps, states', steps') && states'[|steps'|].requests != []
    ensures var list := states[|steps|].Providers();
            || states'[|steps'|].Current().phase == Completed
            || Distance(list, states'[|steps'|].Current()) < Distance(list, states[|steps|].Current())
  {
    KnownPhase(states, steps);
    var active := ActiveNames(states[|steps|].Providers());
    if states[|steps|].Current().phase == Unset {
      var op :| op in active;
      states', steps' := MakePending(states, steps, op);
    } else if active <= states[|steps|].Current().targetData.Keys {
      states', steps' := FinishContributed(states, steps);
    } else {
      states', steps' := ContributeMissing(states, steps);
    }
  }

  /** From every reachable state the request can still become Completed, without any further change of
      the provider list. */
  lemma {:induction false} CompletionAlwaysReachable(states: seq<State>, steps: seq<Step>)
    returns (states': seq<State>, steps': seq<Step>)
    requires IsRun(states, steps) && Viable(states[|steps|])
    ensures Continues(states, steps, states', steps')
    ensures states'[|steps'|].requests != [] && states'[|steps'|].Current().phase == Completed
    decreases if states[|steps|].requests == [] then 0
              else Distance(states[|steps|].Providers(), states[|steps|].Current())
  {
    KnownPhase(states, steps);
    states', steps' := states, steps;
    if states[|steps|].Current().phase != Completed {
      states', steps' := Approach(states, steps);
      StillViable(states, steps, states', steps');
      if states'[|steps'|].Current().phase != Completed {
        states', steps' := CompletionAlwaysReachable(states', steps');
      }
    }
  }

  lemma CountSuffices(list: seq<Provider>, contributors: set<string>)
    requires UniqueNames(list) && ActiveNames(list) != {} && ActiveNames(list) <= contributors
    ensures ShouldMarkAsCompleted(ActiveCount(list), |contributors|)
  {
    ActiveCountIsCardinality(list);
    SubsetCardinality(ActiveNames(list), contributors);
  }
}
