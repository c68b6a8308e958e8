/** What every run of the completion protocol keeps: monotone versions, frozen completion,
    honest contributors, and completion at the last contribution. No freshness is assumed: a
    reconcile may start from any version it has ever been possible to read. */
module CompletionSafety {
  import opened Types
  import opened Providers
  import opened Completion

  ghost predicate PhaseLeq(p: Phase, q: Phase) {
    p == q || (p.Unset? && (q.Pending? || q.Completed?)) || (p.Pending? && q.Completed?)
  }

  /** `b` may replace `a`: the phase moves forward, no contribution is removed or changed, and the
      status of a completed request is not touched at all. */
  ghost predicate Advances(a: Request, b: Request) {
    && PhaseLeq(a.phase, b.phase)
    && (forall op :: op in a.targetData ==> op in b.targetData && b.targetData[op] == a.targetData[op])
    && (a.phase == Completed ==> b.phase == Completed && b.completedAt == a.completedAt && b.targetData == a.targetData)
  }

  /** Counts the milestones a request has passed; the label matters until the status is set. */
  function Progress(r: Request): nat {
    (if r.uuidLabel || r.phase != Unset then 1 else 0)
    + (match r.phase case Pending => 1 case Completed => 2 case _ => 0)
    + |r.targetData|
  }

  lemma AdvancesTransitive(a: Request, b: Request, c: Request)
    requires Advances(a, b) && Advances(b, c)
    ensures Advances(a, c)
  {}

  /** What a winning write sends, compared with the version it replaces. */
  lemma SentAdvances(s: State, step: Step)
    requires Structure(s) && WellFormed(s) && Enabled(s, step) && IsWrite(step) && Wins(s, step.op)
    ensures var cur, r := s.Current(), Sent(s, step);
            && cur.phase != Completed && Advances(cur, r) && Progress(cur) < Progress(r)
            && (cur.uuidLabel ==> r.uuidLabel)
            && (step.WriteContribution? ==>
                  && step.op !in cur.targetData
                  && r.targetData == cur.targetData[step.op := s.operators[step.op].stage.snapshot.targets])
            && (!step.WriteContribution? ==> r.targetData == cur.targetData)
  {
    var stage := s.operators[step.op].stage;
    assert StageFits(s, step.op, stage);
    assert s.requests[stage.base] == s.Current();
    if step.WriteContribution? {
      MapGrows(s.Current().targetData, step.op, stage.snapshot.targets);
    }
  }

  lemma MapGrows<V>(m: map<string, V>, k: string, v: V)
    requires k !in m
    ensures |m[k := v]| == |m| + 1 && m[k := v].Keys == m.Keys + {k}
  {
    assert m[k := v].Keys == m.Keys + {k};
    assert |m[k := v]| == |m[k := v].Keys| && |m| == |m.Keys|;
  }

  /** Either the step leaves the request alone, or it appends one advance of it; only an edit by
      somebody else makes a version without progress. */
  lemma NewVersion(s: State, step: Step)
    requires Structure(s) && WellFormed(s) && Enabled(s, step)
    ensures var s' := Apply(s, step);
            if IsWrite(step) && Wins(s, step.op)
            then s'.requests == s.requests + [Sent(s, step)] && s'.Current() == Sent(s, step)
                 && Advances(s.Current(), s'.Current()) && Progress(s.Current()) < Progress(s'.Current())
            else if step.Edit? then s'.requests == s.requests + [s.Current().(uuidLabel := step.labelled)]
                 && s'.Current() == s.Current().(uuidLabel := step.labelled)
            else s'.requests == s.requests && s'.requests != [] && s'.Current() == s.Current()
  {
    RequestsAfter(s, step);
    if IsWrite(step) && Wins(s, step.op) {
      SentAdvances(s, step);
    }
  }

  lemma StepAdvances(s: State, step: Step)
    requires Structure(s) && WellFormed(s) && Enabled(s, step)
    ensures Apply(s, step).requests != [] && Advances(s.Current(), Apply(s, step).Current())
  {
    NewVersion(s, step);
  }

  /** Monotone protocol: whatever is interleaved and however stale the reads are, the stored
      request at any later point of the run is an advance of the stored request now. */
  lemma {:induction false} MonotoneProtocol(states: seq<State>, steps: seq<Step>, i: nat, j: nat)
    requires IsRun(states, steps) && i <= j <= |steps|
    ensures states[i].requests != [] && states[j].requests != []
    ensures Advances(states[i].Current(), states[j].Current())
    decreases j - i
  {
    StructureHolds(states, steps, i);
    if i < j {
      StepAdvances(states[i], steps[i]);
      MonotoneProtocol(states, steps, i + 1, j);
      AdvancesTransitive(states[i].Current(), states[i + 1].Current(), states[j].Current());
    }
  }

  /** The versions themselves form a chain, so a stale reader too sees a prefix of the story. */
  lemma {:induction false} VersionsAdvance(states: seq<State>, steps: seq<Step>, i: nat, v: nat, w: nat)
    requires IsRun(states, steps) && i <= |steps|
    requires v <= w < |states[i].requests|
    ensures Advances(states[i].requests[v], states[i].requests[w])
  {
    if i > 0 {
      StructureHolds(states, steps, i - 1);
      var s, step := states[i - 1], steps[i - 1];
      StepGrows(s, step);
      if w < |s.requests| {
        assert states[i].requests[v] == states[i].requests[..|s.requests|][v];
        assert states[i].requests[w] == states[i].requests[..|s.requests|][w];
        VersionsAdvance(states, steps, i - 1, v, w);
      } else {
        NewVersion(s, step);
        if v < w {
          assert states[i].requests[v] == states[i].requests[..|s.requests|][v];
          VersionsAdvance(states, steps, i - 1, v, |s.requests| - 1);
          AdvancesTransitive(s.requests[v], s.Current(), states[i].Current());
        }
      }
    }
  }

  /** Step i completes the request. */
  ghost predicate Completes(states: seq<State>, steps: seq<Step>, i: nat) {
    && i < |steps| < |states| && states[i].requests != [] && states[i + 1].requests != []
    && states[i].Current().phase != Completed && states[i + 1].Current().phase == Completed
  }

  /** A request becomes Completed only by a write whose sender was active in the list it read in
      that same reconcile, and whose contributors pass the count test against that list. */
  lemma CompletionIsCounted(states: seq<State>, steps: seq<Step>, i: nat)
    requires IsRun(states, steps) && Completes(states, steps, i)
    ensures (steps[i].WriteContribution? || steps[i].WriteCompletion?) && steps[i].op in states[i].operators
    ensures var stage := states[i].operators[steps[i].op].stage;
            && (stage.Contributing? || stage.Completing?)
            && SelfActive(stage.providers, steps[i].op)
            && ShouldMarkAsCompleted(ActiveCount(stage.providers), |states[i + 1].Current().targetData|)
  {
    StructureHolds(states, steps, i);
    var s, step := states[i], steps[i];
    NewVersion(s, step);
    SentAdvances(s, step);
    SentCompleted(s, step);
  }

  lemma SentCompleted(s: State, step: Step)
    requires Structure(s) && WellFormed(s) && Enabled(s, step) && IsWrite(step)
    requires Sent(s, step).phase == Completed
    ensures step.WriteContribution? || step.WriteCompletion?
    ensures var stage := s.operators[step.op].stage;
            && (stage.Contributing? || stage.Completing?)
            && stage.providers in s.registries && SelfActive(stage.providers, step.op)
            && ShouldMarkAsCompleted(ActiveCount(stage.providers), |Sent(s, step).targetData|)
    ensures Sent(s, step).completedAt == Some(step.now)
  {
    assert StageFits(s, step.op, s.operators[step.op].stage);
  }

  /** The write that completes a request stores the time of its reconcile. */
  lemma CompletionIsTimed(states: seq<State>, steps: seq<Step>, i: nat)
    requires IsRun(states, steps) && Completes(states, steps, i)
    ensures steps[i].WriteContribution? || steps[i].WriteCompletion?
    ensures states[i + 1].Current().completedAt == Some(steps[i].now)
  {
    CompletionIsCounted(states, steps, i);
    StructureHolds(states, steps, i);
    NewVersion(states[i], steps[i]);
    SentCompleted(states[i], steps[i]);
  }

  /** In every reachable state a request has a completion time exactly when it is completed. */
  lemma {:induction false} TimedIffCompleted(states: seq<State>, steps: seq<Step>, i: nat)
    requires IsRun(states, steps) && i <= |steps|
    ensures states[i].requests != []
    ensures states[i].Current().phase == Completed <==> states[i].Current().completedAt.Some?
  {
    if i > 0 {
      TimedIffCompleted(states, steps, i - 1);
      StructureHolds(states, steps, i - 1);
      TimedStep(states[i - 1], steps[i - 1]);
    }
  }

  lemma TimedStep(s: State, step: Step)
    requires Structure(s) && WellFormed(s) && Enabled(s, step)
    requires s.Current().phase == Completed <==> s.Current().completedAt.Some?
    ensures Apply(s, step).requests != []
    ensures Apply(s, step).Current().phase == Completed <==> Apply(s, step).Current().completedAt.Some?
  {
    NewVersion(s, step);
    if IsWrite(step) && Wins(s, step.op) {
      assert StageFits(s, step.op, s.operators[step.op].stage);
      assert s.requests[s.operators[step.op].stage.base] == s.Current();
    }
  }

  /** Nobody contributes who was never listed as active. */
  lemma {:induction false} ContributorsWereActive(states: seq<State>, steps: seq<Step>, i: nat, op: string)
    requires IsRun(states, steps) && i <= |steps|
    requires states[i].requests != [] && op in states[i].Current().targetData
    ensures op in states[i].operators
    ensures exists list :: list in states[i].registries && SelfActive(list, op)
  {
    if i > 0 {
      StructureHolds(states, steps, i - 1);
      var s, step := states[i - 1], steps[i - 1];
      StepGrows(s, step);
      if op in s.Current().targetData {
        ContributorsWereActive(states, steps, i - 1, op);
        var list :| list in s.registries && SelfActive(list, op);
        var k :| 0 <= k < |s.registries| && s.registries[k] == list;
        assert states[i].registries[..|s.registries|][k] == list;
        assert list in states[i].registries;
      } else {
        NewVersion(s, step);
        SentAdvances(s, step);
        assert StageFits(s, op, s.operators[op].stage);
      }
    }
  }

  // ---------- a fixed provider list: never stuck ----------

  ghost predicate FixedProviders(steps: seq<Step>) {
    forall i :: 0 <= i < |steps| ==> !steps[i].ChangeProviders?
  }

  /** With the list fixed: contributors are active operators; a pending request still misses one
      of them; a completed one has them all. */
  ghost predicate Tracks(r: Request, active: set<string>) {
    match r.phase
    case Unset => r.targetData == map[]
    case Pending => r.targetData.Keys <= active && (active != {} ==> r.targetData.Keys != active)
    case Completed => r.targetData.Keys == active && active != {}
    case Foreign(_) => false
  }

  lemma SentTracks(s: State, step: Step, list: seq<Provider>)
    requires Structure(s) && WellFormed(s) && Enabled(s, step) && IsWrite(step) && Wins(s, step.op)
    requires s.registries == [list] && UniqueNames(list)
    requires Tracks(s.Current(), ActiveNames(list))
    ensures Tracks(Sent(s, step), ActiveNames(list)) && !step.WriteCompletion?
  {
    var stage, cur, r := s.operators[step.op].stage, s.Current(), Sent(s, step);
    assert StageFits(s, step.op, stage) && s.requests[stage.base] == cur;
    SentAdvances(s, step);
    if step.WriteCompletion? {
      assert |cur.targetData| == |cur.targetData.Keys|;
      CountTestIsEveryoneContributed(list, cur.targetData.Keys);
      assert false;
    } else if step.WriteContribution? {
      assert stage.providers == list;
      SelfActiveIsMembership(list, step.op);
      MapGrows(cur.targetData, step.op, stage.snapshot.targets);
      CountTestIsEveryoneContributed(list, r.targetData.Keys);
      assert |r.targetData| == |r.targetData.Keys|;
    }
  }

  lemma TracksStep(s: State, step: Step, list: seq<Provider>)
    requires Structure(s) && WellFormed(s) && Enabled(s, step) && !step.ChangeProviders?
    requires s.registries == [list] && UniqueNames(list)
    requires Tracks(s.Current(), ActiveNames(list))
    ensures Apply(s, step).registries == [list]
    ensures Apply(s, step).requests != [] && Tracks(Apply(s, step).Current(), ActiveNames(list))
  {
    NewVersion(s, step);
    if IsWrite(step) && Wins(s, step.op) {
      SentTracks(s, step, list);
    }
  }

  /** Never stuck pending: with a fixed list of uniquely named providers, no reachable version is
      pending once all active operators have contributed, so the write that adds the last
      contribution is the one that completes. */
  lemma {:induction false} NeverStuckPending(states: seq<State>, steps: seq<Step>, i: nat)
    requires IsRun(states, steps) && i <= |steps|
    requires FixedProviders(steps) && UniqueNames(states[0].registries[0])
    ensures states[i].registries == [states[0].registries[0]] && states[i].requests != []
    ensures Tracks(states[i].Current(), ActiveNames(states[0].registries[0]))
  {
    StructureHolds(states, steps, i);
    if i > 0 {
      NeverStuckPending(states, steps, i - 1);
      StructureHolds(states, steps, i - 1);
      TracksStep(states[i - 1], steps[i - 1], states[0].registries[0]);
    }
  }

  /** The same, as an equivalence on every reachable request that left the initial phase. */
  lemma CompletedIffEveryoneContributed(states: seq<State>, steps: seq<Step>, i: nat)
    requires IsRun(states, steps) && i <= |steps|
    requires FixedProviders(steps) && UniqueNames(states[0].registries[0])
    ensures states[i].requests != []
    ensures var r, active := states[i].Current(), ActiveNames(states[0].registries[0]);
            r.phase == Completed <==> r.phase != Unset && active != {} && r.targetData.Keys == active
  {
    NeverStuckPending(states, steps, i);
  }
}
