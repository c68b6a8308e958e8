/** Where the count test and the contributors part ways once provider registrations change: requests
    that stay pending although the test holds, and requests completed without an active operator. */
module CompletionStuck {
  import opened Types
  import opened Providers
  import opened Completion
  import opened CompletionSafety
  import CompletionReachable
  import TargetSecret

  ghost predicate PassesCount(list: seq<Provider>, r: Request) {
    ShouldMarkAsCompleted(ActiveCount(list), |r.targetData|)
  }

  /** Pending although the test holds for the newest provider list. */
  ghost predicate Stuck(s: State) {
    && s.requests != [] && s.registries != []
    && s.Current().phase == Pending && PassesCount(s.Providers(), s.Current())
  }

  /** Stuck because everybody has contributed and nobody has noticed. */
  ghost predicate Overdue(s: State) {
    && s.requests != [] && s.registries != []
    && s.Current().phase == Pending
    && ActiveNames(s.Providers()) != {} && ActiveNames(s.Providers()) <= s.Current().targetData.Keys
  }

  /** Active operators are missing, and departed contributors are counted in their place. */
  ghost predicate FalselyComplete(list: seq<Provider>, r: Request) {
    0 < |ActiveNames(list) - r.targetData.Keys| <= |r.targetData.Keys - ActiveNames(list)|
  }

  ghost predicate Miscounted(s: State) {
    && s.requests != [] && s.registries != []
    && s.Current().phase == Pending && FalselyComplete(s.Providers(), s.Current())
  }

  /** These are the two ways to be stuck. */
  lemma StuckSplit(s: State)
    requires s.registries != [] && UniqueActiveNames(s.Providers())
    ensures Stuck(s) <==> Overdue(s) || Miscounted(s)
    ensures !(Overdue(s) && Miscounted(s))
  {
    if s.requests != [] {
      CountTestExact(s.Providers(), s.Current().targetData.Keys);
      assert |s.Current().targetData| == |s.Current().targetData.Keys|;
      Missing(ActiveNames(s.Providers()), s.Current().targetData.Keys);
    }
  }

  lemma Missing(active: set<string>, contributors: set<string>)
    ensures active <= contributors <==> |active - contributors| == 0
  {
    if active <= contributors {
      assert active - contributors == {};
    } else {
      var op :| op in active && op !in contributors;
      assert op in active - contributors;
    }
  }

  // ---------- exactly when a request is stuck ----------

  /** The step makes the request stuck: a change of the list that the contributors of a pending request
      satisfy, or a contribution that fails the test on the list it was decided on, while it passes on
      the newest one. */
  ghost predicate Sticks(s: State, step: Step)
    requires WellFormed(s) && Enabled(s, step)
  {
    match step
    case ChangeProviders(list) => s.Current().phase == Pending && PassesCount(list, s.Current())
    case WriteContribution(op, _) =>
      && Wins(s, op)
      && !PassesCount(s.operators[op].stage.providers, Sent(s, step)) && PassesCount(s.Providers(), Sent(s, step))
    case _ => false
  }

  /** The step changes the provider list or stores a request. */
  ghost predicate Settles(s: State, step: Step)
    requires WellFormed(s) && Enabled(s, step)
  {
    step.ChangeProviders? || (IsWrite(step) && Wins(s, step.op))
  }

  lemma StuckStep(s: State, step: Step)
    requires Structure(s) && WellFormed(s) && Enabled(s, step)
    requires s.Current().phase == Unset ==> s.Current().targetData == map[]
    ensures Stuck(Apply(s, step)) <==> Sticks(s, step) || (Stuck(s) && !Settles(s, step))
  {
    NewVersion(s, step);
    if IsWrite(step) && Wins(s, step.op) {
      StuckWrite(s, step);
    }
  }

  lemma StuckWrite(s: State, step: Step)
    requires Structure(s) && WellFormed(s) && Enabled(s, step) && IsWrite(step) && Wins(s, step.op)
    requires s.Current().phase == Unset ==> s.Current().targetData == map[]
    ensures Apply(s, step).requests != [] && (Stuck(Apply(s, step)) <==> Sticks(s, step))
  {
    NewVersion(s, step);
    assert StageFits(s, step.op, s.operators[step.op].stage);
  }

  lemma {:induction false} InitialHasNoContribution(states: seq<State>, steps: seq<Step>, i: nat)
    requires IsRun(states, steps) && i <= |steps|
    ensures states[i].requests != []
    ensures states[i].Current().phase == Unset ==> states[i].Current().targetData == map[]
  {
    if i > 0 {
      InitialHasNoContribution(states, steps, i - 1);
      StructureHolds(states, steps, i - 1);
      InitialStep(states[i - 1], steps[i - 1]);
    }
  }

  lemma InitialStep(s: State, step: Step)
    requires Structure(s) && WellFormed(s) && Enabled(s, step)
    requires s.Current().phase == Unset ==> s.Current().targetData == map[]
    ensures Apply(s, step).requests != []
    ensures Apply(s, step).Current().phase == Unset ==> Apply(s, step).Current().targetData == map[]
  {
    NewVersion(s, step);
    if IsWrite(step) {
      assert StageFits(s, step.op, s.operators[step.op].stage);
    }
  }

  ghost predicate SticksAt(states: seq<State>, steps: seq<Step>, k: nat)
    requires k < |steps| < |states|
  {
    StepAt(states, steps, k) && Sticks(states[k], steps[k])
  }

  ghost predicate SettlesAt(states: seq<State>, steps: seq<Step>, k: nat)
    requires k < |steps| < |states|
  {
    StepAt(states, steps, k) && Settles(states[k], steps[k])
  }

  /** Step k made the request stuck and nothing before moment i settled that. */
  ghost predicate StuckSince(states: seq<State>, steps: seq<Step>, k: nat, i: nat) {
    && k < i <= |steps| < |states| && SticksAt(states, steps, k)
    && forall j :: k < j < i ==> !SettlesAt(states, steps, j)
  }

  lemma StuckAt(states: seq<State>, steps: seq<Step>, k: nat)
    requires IsRun(states, steps) && k < |steps|
    ensures Stuck(states[k + 1]) <==>
              SticksAt(states, steps, k) || (Stuck(states[k]) && !SettlesAt(states, steps, k))
  {
    StructureHolds(states, steps, k);
    InitialHasNoContribution(states, steps, k);
    StuckStep(states[k], steps[k]);
  }

  lemma NotStuckAtFirst(states: seq<State>, steps: seq<Step>)
    requires IsRun(states, steps)
    ensures !Stuck(states[0])
  {
    assert states[0].requests != [] ==> states[0].Current() == states[0].requests[0];
  }

  lemma StuckLonger(states: seq<State>, steps: seq<Step>, k: nat, i: nat)
    requires StuckSince(states, steps, k, i) && i < |steps| && !SettlesAt(states, steps, i)
    ensures StuckSince(states, steps, k, i + 1)
  {}

  lemma {:induction false} StuckHasCause(states: seq<State>, steps: seq<Step>, i: nat) returns (k: nat)
    requires IsRun(states, steps) && i <= |steps| && Stuck(states[i])
    ensures StuckSince(states, steps, k, i)
  {
    NotStuckAtFirst(states, steps);
    StuckAt(states, steps, i - 1);
    if SticksAt(states, steps, i - 1) {
      k := i - 1;
    } else {
      k := StuckHasCause(states, steps, i - 1);
      StuckLonger(states, steps, k, i - 1);
    }
  }

  lemma {:induction false} CauseSticks(states: seq<State>, steps: seq<Step>, k: nat, i: nat)
    requires IsRun(states, steps) && StuckSince(states, steps, k, i)
    ensures Stuck(states[i])
  {
    StuckAt(states, steps, i - 1);
    if k < i - 1 {
      CauseSticks(states, steps, k, i - 1);
    }
  }

  /** In every run, and without any assumption about the provider list: a request is stuck exactly when
      one of the two causes happened and neither the list nor the request has changed since. */
  lemma StuckExactly(states: seq<State>, steps: seq<Step>, i: nat)
    requires IsRun(states, steps) && i <= |steps|
    ensures Stuck(states[i]) <==> exists k: nat :: StuckSince(states, steps, k, i)
  {
    if Stuck(states[i]) {
      var k := StuckHasCause(states, steps, i);
    }
    forall k: nat | StuckSince(states, steps, k, i) ensures Stuck(states[i]) {
      CauseSticks(states, steps, k, i);
    }
  }

  /** Any active operator gets a stuck request completed by its next undisturbed reconcile: one that
      has contributed adds the completion alone, one that has not adds its contribution with it. Who is
      still missing then is missing for good. */
  lemma StuckRepaired(states: seq<State>, steps: seq<Step>, op: string, snapshot: Snapshot, now: int)
    returns (states': seq<State>, steps': seq<Step>)
    requires IsRun(states, steps) && Stuck(states[|steps|])
    requires op in states[|steps|].operators && SelfActive(states[|steps|].Providers(), op)
    requires op !in states[|steps|].Current().targetData ==> TargetSecret.Readable(states[|steps|].secrets)
    ensures CompletionReachable.Continues(states, steps, states', steps')
    ensures |steps'| <= |steps| + 4 && forall k :: |steps| <= k < |steps'| ==> ActsFor(steps'[k], op)
    ensures states'[|steps'|].requests != []
    ensures var r, r' := states[|steps|].Current(), states'[|steps'|].Current();
            && r'.phase == Completed && r'.completedAt == Some(now) && r'.uuidLabel == r.uuidLabel
            && r'.targetData == (if op in r.targetData then r.targetData else r.targetData[op := snapshot.targets])
            && var active := ActiveNames(states[|steps|].Providers());
               active - r'.targetData.Keys == active - r.targetData.Keys - {op}
  {
    var r, list := states[|steps|].Current(), states[|steps|].Providers();
    if op in r.targetData {
      states', steps' := CompletionReachable.AddCompletion(states, steps, op, now);
    } else {
      MapGrows(r.targetData, op, snapshot.targets);
      states', steps' := CompletionReachable.AddContribution(states, steps, op, snapshot, now);
      var two := steps'[|steps|..|steps| + 2];
      assert steps'[|steps|] == two[0] && steps'[|steps| + 1] == two[1];
    }
  }

  // ---------- exactly when a completion leaves an active operator out ----------

  /** How many contributions there are beyond the number of active operators. */
  ghost function Surplus(list: seq<Provider>, r: Request): int {
    |r.targetData| - ActiveCount(list)
  }

  /** Each missing operator is replaced by a departed contributor that is not surplus. */
  lemma MissingIsDepartedWithoutSurplus(list: seq<Provider>, r: Request)
    requires UniqueActiveNames(list)
    ensures |ActiveNames(list) - r.targetData.Keys| == |r.targetData.Keys - ActiveNames(list)| - Surplus(list, r)
    ensures ActiveNames(list) <= r.targetData.Keys <==> |r.targetData.Keys - ActiveNames(list)| == Surplus(list, r)
  {
    var active, keys := ActiveNames(list), r.targetData.Keys;
    ActiveCountIsCardinality(list);
    assert |r.targetData| == |keys|;
    assert active == (active * keys) + (active - keys);
    assert keys == (active * keys) + (keys - active);
    Missing(active, keys);
  }

  /** The completing write leaves out an operator that is active in the list its sender read exactly
      when more contributors have departed from that list than there are surplus contributions, and it
      leaves out as many operators as the difference; when the count is just reached, that is whenever
      some contributor has departed. Each departed contributor was once listed as active, and the
      contributions of the request are final. */
  lemma CompletionLeavesOutIff(states: seq<State>, steps: seq<Step>, i: nat, j: nat)
    requires IsRun(states, steps) && Completes(states, steps, i) && i < j <= |steps|
    ensures ByOperator(steps[i]) && steps[i].op in states[i].operators
    ensures var stage := states[i].operators[steps[i].op].stage;
            && (stage.Contributing? || stage.Completing?)
            && var list, r := stage.providers, states[i + 1].Current();
            && var active, departed := ActiveNames(list), r.targetData.Keys - ActiveNames(list);
            && active != {} && Surplus(list, r) >= 0
            && (UniqueActiveNames(list) ==>
                  && (!(active <= r.targetData.Keys) <==> |departed| > Surplus(list, r))
                  && |active - r.targetData.Keys| == |departed| - Surplus(list, r))
            && (forall gone :: gone in departed ==>
                  exists earlier :: earlier in states[i + 1].registries && SelfActive(earlier, gone))
    ensures states[j].requests != []
    ensures var r, r' := states[i + 1].Current(), states[j].Current();
            r'.phase == Completed && r'.targetData == r.targetData && r'.completedAt == r.completedAt
  {
    CompletionIsCounted(states, steps, i);
    MonotoneProtocol(states, steps, i + 1, j);
    var list, r := states[i].operators[steps[i].op].stage.providers, states[i + 1].Current();
    SelfActiveIsMembership(list, steps[i].op);
    if UniqueActiveNames(list) {
      MissingIsDepartedWithoutSurplus(list, r);
    }
    forall gone | gone in r.targetData.Keys - ActiveNames(list)
      ensures exists earlier :: earlier in states[i + 1].registries && SelfActive(earlier, gone)
    {
      ContributorsWereActive(states, steps, i + 1, gone);
    }
  }
}
