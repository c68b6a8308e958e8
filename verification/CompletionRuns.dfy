/** Concrete runs that reach the corner cases named in the other modules. */
module CompletionRuns {
  import opened Types
  import opened Providers
  import opened Completion
  import opened CompletionSafety
  import opened CompletionReachable
  import opened CompletionStuck
  import opened Publication
  import TargetSecret

  const A := Provider("a", true)
  const B := Provider("b", true)
  const C := Provider("c", true)
  const ALL := [A, B, C]
  const BOTH := [A, B]
  const WITHOUT_B := [A, Provider("b", false)]
  const WITHOUT_A := [Provider("a", false), B, C]
  const NOTHING := Snapshot([], map[])

  /** Who counts in these lists. */
  lemma Lists()
    ensures SelfActive(ALL, "a") && SelfActive(ALL, "b") && SelfActive(BOTH, "a") && SelfActive(BOTH, "b")
    ensures SelfActive(WITHOUT_A, "b") && SelfActive(WITHOUT_A, "c")
    ensures ActiveCount(ALL) == 3 && ActiveCount(BOTH) == 2
    ensures ActiveCount(WITHOUT_B) == 1 && ActiveCount(WITHOUT_A) == 2
  {
    assert "a"[0] != "b"[0] && "b"[0] != "c"[0] && "a"[0] != "c"[0];
    assert ALL[0] == A && ALL[1] == B && BOTH[0] == A && BOTH[1] == B && WITHOUT_A[1] == B && WITHOUT_A[2] == C;
    CountOfTwo(A, B);
    CountOfTwo(A, Provider("b", false));
    CountOfThree(A, B, C);
    CountOfThree(Provider("a", false), B, C);
  }

  lemma CountOfTwo(p: Provider, q: Provider)
    ensures ActiveCount([p, q]) == (if p.active then 1 else 0) + (if q.active then 1 else 0)
  {
    var list := [p, q];
    assert list[..|list| - 1] == [p] && [p][..|[p]| - 1] == [];
    assert ActiveCount([p]) == ActiveCount([]) + if p.active then 1 else 0;
  }

  lemma CountOfThree(p: Provider, q: Provider, r: Provider)
    ensures ActiveCount([p, q, r])
            == (if p.active then 1 else 0) + (if q.active then 1 else 0) + (if r.active then 1 else 0)
  {
    var list := [p, q, r];
    assert list[..|list| - 1] == [p, q];
    CountOfTwo(p, q);
  }

  /** A new request, marked pending by "a". */
  lemma Started(list: seq<Provider>) returns (states: seq<State>, steps: seq<Step>)
    ensures IsRun(states, steps)
    ensures var s := states[|steps|];
            && s.requests != [] && s.Current() == Request(true, Pending, None, map[]) && s.registries == [list]
            && s.operators.Keys == {"a", "b", "c"} && TargetSecret.Readable(s.secrets)
  {
    var s0 := State([Request(true, Unset, None, map[])], [], [list],
                    map["a" := Operator(Idle, 0, 0, 0), "b" := Operator(Idle, 0, 0, 0), "c" := Operator(Idle, 0, 0, 0)],
                    map[], false);
    states, steps := MakePending([s0], [], "a");
  }

  /** ... to which "a" has contributed while at least two operators are active. */
  lemma FirstContributes(list: seq<Provider>) returns (states: seq<State>, steps: seq<Step>, pending: nat)
    requires SelfActive(list, "a") && ActiveCount(list) >= 2
    ensures IsRun(states, steps)
    ensures var s := states[|steps|];
            && s.requests != [] && s.Current() == Request(true, Pending, None, map["a" := []]) && s.registries == [list]
            && s.operators.Keys == {"a", "b", "c"} && TargetSecret.Readable(s.secrets) && s.secrets != []
            && pending < |s.requests| && s.requests[pending] == Request(true, Pending, None, map[])
  {
    states, steps := Started(list);
    var before, n := states, |steps|;
    pending := |states[n].requests| - 1;
    states, steps := AddContribution(states, steps, "a", NOTHING, 0);
    assert states[n] == before[n];
    HistoriesGrow(states, steps, n, |steps|);
    assert states[|steps|].requests[..|states[n].requests|][pending] == states[n].requests[pending];
    OneEntry("a");
  }

  lemma OneEntry(op: string)
    ensures var m: map<string, seq<ClusterTarget>> := map[]; m[op := []] == map[op := []] && |m[op := []]| == 1
  {
    var m: map<string, seq<ClusterTarget>> := map[];
    assert m[op := []].Keys == {op};
    assert |m[op := []]| == |m[op := []].Keys|;
  }

  /** Stuck, first cause: the missing "b" is deactivated after "a" contributed. */
  lemma DeactivationCanStick() returns (states: seq<State>, steps: seq<Step>)
    ensures IsRun(states, steps) && Stuck(states[|steps|])
  {
    Lists();
    var pending;
    states, steps, pending := FirstContributes(BOTH);
    StructureHolds(states, steps, |steps|);
    states, steps := Extend(states, steps, ChangeProviders(WITHOUT_B));
    OneEntry("a");
  }

  /** "b" is deactivated while "a" is collecting ... */
  lemma DeactivatedMeanwhile() returns (states: seq<State>, steps: seq<Step>)
    ensures IsRun(states, steps) && steps != [] && steps[|steps| - 1].ChangeProviders?
    ensures var s := states[|steps|];
            && WellFormed(s) && Structure(s)
            && s.Current() == Request(true, Pending, None, map[]) && s.Providers() == WITHOUT_B
            && "a" in s.operators && s.operators["a"].stage == Contributing(|s.requests| - 1, BOTH, NOTHING)
  {
    Lists();
    states, steps := Started(BOTH);
    states, steps := PublishFresh(states, steps, "a", NOTHING);
    states, steps := Next(states, steps, ChangeProviders(WITHOUT_B));
  }

  /** Stuck, second cause: ... and "a" judges its own contribution by the list it read before. */
  lemma StaleListCanStick() returns (states: seq<State>, steps: seq<Step>)
    ensures IsRun(states, steps) && |steps| >= 2 && steps[|steps| - 2].ChangeProviders?
    ensures !Stuck(states[|steps| - 1]) && Stuck(states[|steps|])
  {
    states, steps := DeactivatedMeanwhile();
    var s, contribute := states[|steps|], WriteContribution("a", 0);
    StaleContribution(s);
    states, steps := Next(states, steps, contribute);
    StuckStep(s, contribute);
  }

  lemma StaleContribution(s: State)
    requires WellFormed(s) && "a" in s.operators
    requires s.operators["a"].stage == Contributing(|s.requests| - 1, BOTH, NOTHING)
    requires s.Current() == Request(true, Pending, None, map[]) && s.registries != [] && s.Providers() == WITHOUT_B
    ensures !Stuck(s) && Enabled(s, WriteContribution("a", 0)) && Sticks(s, WriteContribution("a", 0))
  {
    Lists();
    OneEntry("a");
    assert Sent(s, WriteContribution("a", 0)).targetData == map["a" := []];
  }

  lemma Next(states: seq<State>, steps: seq<Step>, step: Step) returns (states': seq<State>, steps': seq<Step>)
    requires IsRun(states, steps)
    requires WellFormed(states[|steps|]) && Enabled(states[|steps|], step)
    ensures IsRun(states', steps') && states' == states + [Apply(states[|steps|], step)] && steps' == steps + [step]
    ensures WellFormed(states'[|steps'|]) && Structure(states'[|steps'|])
  {
    states', steps' := Extend(states, steps, step);
    StructureHolds(states', steps', |steps'|);
  }

  /** Of three operators, "a" and "b" contribute ... */
  lemma TwoOfThreeContribute() returns (states: seq<State>, steps: seq<Step>)
    ensures IsRun(states, steps)
    ensures var s := states[|steps|];
            && WellFormed(s) && Structure(s) && s.Current().phase == Pending
            && s.Current().targetData.Keys == {"a", "b"} && s.operators.Keys == {"a", "b", "c"}
  {
    Lists();
    var pending;
    states, steps, pending := FirstContributes(ALL);
    assert "a"[0] != "b"[0];
    OneEntry("a");
    MapGrows(states[|steps|].Current().targetData, "b", NOTHING.targets);
    states, steps := AddContribution(states, steps, "b", NOTHING, 0);
    StructureHolds(states, steps, |steps|);
  }

  /** Completed without an active operator: ... "a" is deactivated, and the next reconcile of "b" counts
      "a" in place of "c", which is active and never gets to contribute. */
  lemma DepartureCompletesWithout() returns (states: seq<State>, steps: seq<Step>)
    ensures IsRun(states, steps)
    ensures var s := states[|steps|];
            && s.requests != [] && s.registries != [] && s.Current().phase == Completed
            && s.Current().targetData.Keys == {"a", "b"}
            && s.Providers() == WITHOUT_A && "c" in ActiveNames(s.Providers()) && "c" !in s.Current().targetData
  {
    Lists();
    assert "a"[0] != "b"[0] && "a"[0] != "c"[0] && "b"[0] != "c"[0];
    SelfActiveIsMembership(WITHOUT_A, "c");
    states, steps := TwoOfThreeContribute();
    states, steps := Next(states, steps, ChangeProviders(WITHOUT_A));
    var r := states[|steps|].Current();
    assert "b" in r.targetData.Keys && |r.targetData| == |r.targetData.Keys| == 2;
    states, steps := AddCompletion(states, steps, "b", 0);
    assert states[|steps|].registries != [];
  }

  /** A stale read makes an operator collect again after it has contributed. */
  lemma StaleReaderCollectsAgain() returns (states: seq<State>, steps: seq<Step>)
    ensures IsRun(states, steps)
    ensures var s := states[|steps|];
            && s.requests != [] && "a" in s.Current().targetData
            && "a" in s.operators && s.operators["a"].stage.Collecting?
  {
    Lists();
    var pending;
    states, steps, pending := FirstContributes(BOTH);
    StructureHolds(states, steps, |steps|);
    states, steps := Next(states, steps, Abort("a"));
    states, steps := Next(states, steps, Begin("a", pending, 0));
  }

  /** "b" still collects on what it read before "a" contributed. */
  lemma LateCollector() returns (states: seq<State>, steps: seq<Step>)
    ensures IsRun(states, steps)
    ensures var s := states[|steps|];
            && WellFormed(s) && Structure(s) && s.secrets != []
            && s.Current().targetData.Keys == {"a"} && "b" in s.operators && s.operators["b"].stage.Collecting?
  {
    Lists();
    var pending;
    states, steps, pending := FirstContributes(BOTH);
    StructureHolds(states, steps, |steps|);
    states, steps := Next(states, steps, Abort("b"));
    states, steps := Next(states, steps, Begin("b", pending, 0));
  }

  /** The AlreadyExists branch can break publication: "b" read "no secret" before "a" created it. */
  lemma OverwriteCanUnpublish() returns (states: seq<State>, steps: seq<Step>)
    ensures IsRun(states, steps) && states[|steps|].requests != [] && !Published(states[|steps|])
  {
    states, steps := LateCollector();
    var s := states[|steps|];
    var write := WriteSecret("b", NOTHING, TargetSecret.Missing, TargetSecret.At(|s.secrets| - 1));
    TargetSecret.PublishSucceedsIff(s.secrets, "b", NOTHING.clusters, write.first, write.second);
    OverwriteExact(s, write);
    assert "a"[0] != "b"[0];
    assert "a" in s.Current().targetData.Keys;
    states, steps := Next(states, steps, write);
  }
}
