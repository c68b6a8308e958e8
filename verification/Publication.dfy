/** Two objects, one story: the secret is written before the status, so whatever TargetData
    announces, the secret already holds. */
module Publication {
  import opened Types
  import opened Completion
  import opened CompletionSafety
  import TargetSecret

  /** Every announced contribution is in the secret. */
  ghost predicate Published(s: State)
    requires s.requests != []
  {
    forall op :: op in s.Current().targetData ==> op in s.Secret()
  }

  ghost predicate SecretFirst(s: State)
    requires s.requests != []
  {
    && Published(s)
    && forall op :: op in s.operators && s.operators[op].stage.Contributing? ==> op in s.Secret()
  }

  /** What a step does to the secret. */
  lemma SecretAfter(s: State, step: Step)
    requires WellFormed(s) && Enabled(s, step)
    ensures var s' := Apply(s, step);
            || (s'.secrets == s.secrets && s'.overwrote == s.overwrote && s'.Secret() == s.Secret()
                && (step.WriteSecret? ==> s'.operators[step.op].stage.Idle?))
            || (step.WriteSecret? && s'.operators[step.op].stage.Contributing?
                && s'.operators[step.op].stage.snapshot == step.snapshot
                && var mine := TargetSecret.Entries(step.snapshot.clusters);
                   || (s'.overwrote && s'.Secret() == map[step.op := mine])
                   || (s'.overwrote == s.overwrote && s'.Secret() == s.Secret()[step.op := mine]))
  {
    if step.WriteSecret? {
      var out := TargetSecret.Publish(s.secrets, step.op, step.snapshot.clusters, step.first, step.second, false);
      if out.Stored? {
        TargetSecret.PublishEffect(s.secrets, step.op, step.snapshot.clusters, step.first, step.second, false);
      }
    }
  }

  lemma SecretFirstStep(s: State, step: Step)
    requires Structure(s) && WellFormed(s) && Enabled(s, step)
    requires SecretFirst(s)
    requires !Apply(s, step).overwrote
    ensures Apply(s, step).requests != [] && SecretFirst(Apply(s, step))
  {
    var s' := Apply(s, step);
    StepGrows(s, step);
    NewVersion(s, step);
    SecretAfter(s, step);
    if IsWrite(step) && Wins(s, step.op) {
      SentAdvances(s, step);
    }
    if ByOperator(step) && !step.WriteSecret? {
      BecomesContributing(s, step);
    }
  }

  /** Only the secret write leads to the contributing stage. */
  lemma BecomesContributing(s: State, step: Step)
    requires Structure(s) && WellFormed(s) && Enabled(s, step)
    requires ByOperator(step) && !step.WriteSecret?
    ensures !Apply(s, step).operators[step.op].stage.Contributing?
  {}

  /** Publication invariant: in every reachable state of a run that did not take the AlreadyExists
      branch, each operator in TargetData is in the secret. */
  lemma {:induction false} PublicationInvariant(states: seq<State>, steps: seq<Step>, i: nat)
    requires IsRun(states, steps) && i <= |steps| && !states[i].overwrote
    ensures states[i].requests != [] && SecretFirst(states[i])
  {
    if i > 0 {
      StructureHolds(states, steps, i - 1);
      OperatorsKept(states[i - 1], steps[i - 1]);
      PublicationInvariant(states, steps, i - 1);
      SecretFirstStep(states[i - 1], steps[i - 1]);
    }
  }

  /** The step writes the secret, and does so on the AlreadyExists branch. */
  ghost predicate Overwrites(s: State, step: Step)
    requires WellFormed(s) && Enabled(s, step)
  {
    && step.WriteSecret?
    && var out := TargetSecret.Publish(s.secrets, step.op, step.snapshot.clusters, step.first, step.second, false);
       out.Stored? && out.overwrote
  }

  /** The AlreadyExists branch keeps the invariant exactly when nobody else had contributed: each time
      it is taken, whatever was lost before. */
  lemma OverwriteExact(s: State, step: Step)
    requires Structure(s) && WellFormed(s) && Enabled(s, step) && Overwrites(s, step)
    ensures Apply(s, step).requests == s.requests
    ensures Published(Apply(s, step)) <==> s.Current().targetData.Keys <= {step.op}
  {
    TargetSecret.PublishEffect(s.secrets, step.op, step.snapshot.clusters, step.first, step.second, false);
    RequestsAfter(s, step);
    var s' := Apply(s, step);
    assert s'.Current() == s.Current();
    assert s'.Secret().Keys == {step.op};
  }

  // ---------- exactly when an announced contribution is missing ----------

  /** The step stores the operator's entry ... */
  ghost predicate Stores(s: State, step: Step, op: string)
    requires WellFormed(s) && Enabled(s, step)
  {
    && step.WriteSecret? && step.op == op
    && TargetSecret.Publish(s.secrets, op, step.snapshot.clusters, step.first, step.second, false).Stored?
  }

  /** ... and the step of another operator replaces it. */
  ghost predicate Evicts(s: State, step: Step, op: string)
    requires WellFormed(s) && Enabled(s, step)
  {
    Overwrites(s, step) && step.op != op
  }

  lemma EntryAfter(s: State, step: Step, op: string)
    requires WellFormed(s) && Enabled(s, step)
    ensures op in Apply(s, step).Secret() <==> Stores(s, step, op) || (op in s.Secret() && !Evicts(s, step, op))
  {
    if step.WriteSecret? {
      var out := TargetSecret.Publish(s.secrets, step.op, step.snapshot.clusters, step.first, step.second, false);
      if out.Stored? {
        TargetSecret.PublishEffect(s.secrets, step.op, step.snapshot.clusters, step.first, step.second, false);
      }
    }
  }

  ghost predicate StoresAt(states: seq<State>, steps: seq<Step>, k: nat, op: string)
    requires k < |steps| < |states|
  {
    StepAt(states, steps, k) && Stores(states[k], steps[k], op)
  }

  ghost predicate EvictsAt(states: seq<State>, steps: seq<Step>, k: nat, op: string)
    requires k < |steps| < |states|
  {
    StepAt(states, steps, k) && Evicts(states[k], steps[k], op)
  }

  /** Step j evicted the operator's entry, which was not stored again before moment i. */
  ghost predicate EvictedSince(states: seq<State>, steps: seq<Step>, j: nat, i: nat, op: string) {
    && j < i <= |steps| < |states| && EvictsAt(states, steps, j, op)
    && forall k :: j < k < i ==> !StoresAt(states, steps, k, op)
  }

  ghost predicate Announces(s: State, op: string) {
    && s.requests != [] && op in s.operators
    && (op in s.Current().targetData || s.operators[op].stage.Contributing?)
  }

  /** Who announces a contribution has stored its entry before. */
  lemma AnnouncedAfter(s: State, step: Step, op: string)
    requires Structure(s) && WellFormed(s) && Enabled(s, step) && op in s.operators
    ensures Announces(Apply(s, step), op) ==> Announces(s, op) || Stores(s, step, op)
  {
    NewVersion(s, step);
    SecretAfter(s, step);
    StepGrows(s, step);
    if IsWrite(step) && Wins(s, step.op) {
      SentAdvances(s, step);
    }
    if ActsFor(step, op) && !step.WriteSecret? {
      BecomesContributing(s, step);
    }
  }

  lemma EntryAt(states: seq<State>, steps: seq<Step>, k: nat, op: string)
    requires IsRun(states, steps) && k < |steps|
    ensures op in states[k + 1].Secret() <==>
              StoresAt(states, steps, k, op) || (op in states[k].Secret() && !EvictsAt(states, steps, k, op))
    ensures Announces(states[k + 1], op) ==> Announces(states[k], op) || StoresAt(states, steps, k, op)
  {
    StructureHolds(states, steps, k);
    EntryAfter(states[k], steps[k], op);
    OperatorsKept(states[k], steps[k]);
    if Announces(states[k + 1], op) {
      AnnouncedAfter(states[k], steps[k], op);
    }
  }

  lemma OneActor(states: seq<State>, steps: seq<Step>, k: nat, op: string)
    requires k < |steps| < |states| && EvictsAt(states, steps, k, op)
    ensures !StoresAt(states, steps, k, op)
  {}

  lemma NothingAnnouncedAtFirst(states: seq<State>, steps: seq<Step>, op: string)
    requires IsRun(states, steps)
    ensures !Announces(states[0], op)
  {
    assert states[0].requests != [] ==> states[0].Current() == states[0].requests[0];
  }

  lemma EvictedLonger(states: seq<State>, steps: seq<Step>, j: nat, i: nat, op: string)
    requires EvictedSince(states, steps, j, i, op) && i < |steps| && !StoresAt(states, steps, i, op)
    ensures EvictedSince(states, steps, j, i + 1, op)
  {}

  lemma {:induction false} EvictedStaysOut(states: seq<State>, steps: seq<Step>, j: nat, i: nat, op: string)
    requires IsRun(states, steps) && EvictedSince(states, steps, j, i, op)
    ensures op !in states[i].Secret()
  {
    EntryAt(states, steps, i - 1, op);
    if j == i - 1 {
      OneActor(states, steps, j, op);
    } else {
      EvictedStaysOut(states, steps, j, i - 1, op);
    }
  }

  lemma {:induction false} MissingWasEvicted(states: seq<State>, steps: seq<Step>, i: nat, op: string) returns (j: nat)
    requires IsRun(states, steps) && i <= |steps|
    requires Announces(states[i], op) && op !in states[i].Secret()
    ensures EvictedSince(states, steps, j, i, op)
  {
    NothingAnnouncedAtFirst(states, steps, op);
    EntryAt(states, steps, i - 1, op);
    if op in states[i - 1].Secret() {
      j := i - 1;
    } else {
      j := MissingWasEvicted(states, steps, i - 1, op);
      EvictedLonger(states, steps, j, i - 1, op);
    }
  }

  /** In every run, with or without the AlreadyExists branch: the secret lacks an announced contribution
      exactly when another operator took that branch and the operator has not stored its entry since. */
  lemma UnpublishedExactly(states: seq<State>, steps: seq<Step>, i: nat, op: string)
    requires IsRun(states, steps) && i <= |steps|
    requires states[i].requests != [] && op in states[i].Current().targetData
    ensures op !in states[i].Secret() <==> exists j: nat :: EvictedSince(states, steps, j, i, op)
  {
    ContributorsWereActive(states, steps, i, op);
    if op !in states[i].Secret() {
      var j := MissingWasEvicted(states, steps, i, op);
    }
    forall j: nat | EvictedSince(states, steps, j, i, op) ensures op !in states[i].Secret() {
      EvictedStaysOut(states, steps, j, i, op);
    }
  }

  // ---------- both objects come from the same pass over the clusters ----------

  /** Each reconcile of the operator reads at least the last version the operator wrote. */
  ghost predicate ReadsOwnWrites(states: seq<State>, steps: seq<Step>, op: string) {
    |states| == |steps| + 1 &&
    forall i :: 0 <= i < |steps| && steps[i].Begin? && steps[i].op == op && op in states[i].operators
                ==> steps[i].version >= states[i].operators[op].own
  }

  /** Every snapshot the operator publishes came out of a consistent pass over the clusters. */
  ghost predicate ConsistentSnapshots(steps: seq<Step>, op: string) {
    forall i :: 0 <= i < |steps| && steps[i].WriteSecret? && steps[i].op == op ==> steps[i].snapshot.Consistent()
  }

  /** The last version the operator wrote has its contribution, once there is one. */
  ghost predicate OwnRecorded(s: State, op: string)
    requires s.requests != [] && op in s.operators
  {
    && s.operators[op].own < |s.requests|
    && (op in s.Current().targetData ==> op in s.requests[s.operators[op].own].targetData)
  }

  lemma {:induction false} OwnRecordedHolds(states: seq<State>, steps: seq<Step>, i: nat, op: string)
    requires IsRun(states, steps) && i <= |steps| && op in states[i].operators
    ensures states[i].requests != [] && OwnRecorded(states[i], op)
  {
    if i == 0 {
      assert states[0].Current() == states[0].requests[0];
    } else {
      var s, step, s' := states[i - 1], steps[i - 1], states[i];
      StructureHolds(states, steps, i - 1);
      OperatorsKept(s, step);
      OwnRecordedHolds(states, steps, i - 1, op);
      StepGrows(s, step);
      NewVersion(s, step);
      assert s'.requests[s.operators[op].own] == s'.requests[..|s.requests|][s.operators[op].own];
      if IsWrite(step) && Wins(s, step.op) {
        SentAdvances(s, step);
      }
      OwnAfter(s, step, op);
    }
  }

  lemma OwnAfter(s: State, step: Step, op: string)
    requires WellFormed(s) && Enabled(s, step) && op in s.operators
    ensures op in Apply(s, step).operators
    ensures Apply(s, step).operators[op].own
            == if IsWrite(step) && step.op == op && Wins(s, op) then |s.requests| else s.operators[op].own
  {}

  /** A pass over the clusters made after the operator had contributed: in every run it rests on a
      read older than the operator's own last write, and its status write cannot win. */
  lemma SecondPassIsStale(states: seq<State>, steps: seq<Step>, i: nat, op: string)
    requires IsRun(states, steps) && i <= |steps| && op in states[i].operators
    requires states[i].requests != [] && op in states[i].Current().targetData
    requires states[i].operators[op].stage.Collecting? || states[i].operators[op].stage.Contributing?
    ensures states[i].operators[op].stage.base < states[i].operators[op].own
    ensures !Wins(states[i], op)
  {
    StructureHolds(states, steps, i);
    OwnRecordedHolds(states, steps, i, op);
    var s := states[i];
    var me := s.operators[op];
    assert StageFits(s, op, me.stage);
    if me.own <= me.stage.base {
      VersionsAdvance(states, steps, i, me.own, me.stage.base);
    }
  }

  lemma {:induction false} FreshBase(states: seq<State>, steps: seq<Step>, i: nat, op: string)
    requires IsRun(states, steps) && ReadsOwnWrites(states, steps, op) && i <= |steps| && op in states[i].operators
    ensures var me := states[i].operators[op]; !me.stage.Idle? ==> me.own <= me.stage.base
  {
    if i > 0 {
      StructureHolds(states, steps, i - 1);
      OperatorsKept(states[i - 1], steps[i - 1]);
      FreshBase(states, steps, i - 1, op);
      FreshBaseStep(states[i - 1], steps[i - 1], op);
    }
  }

  lemma FreshBaseStep(s: State, step: Step, op: string)
    requires WellFormed(s) && Enabled(s, step) && op in s.operators
    requires !s.operators[op].stage.Idle? ==> s.operators[op].own <= s.operators[op].stage.base
    requires step.Begin? && step.op == op ==> step.version >= s.operators[op].own
    ensures op in Apply(s, step).operators
    ensures var me := Apply(s, step).operators[op]; !me.stage.Idle? ==> me.own <= me.stage.base
  {}

  /** A contribution is final. In every run it stays, unchanged, in every later version, whatever its
      pass could not reach; and an operator that reads its own writes never makes a second pass. */
  lemma ContributionIsFinal(states: seq<State>, steps: seq<Step>, i: nat, j: nat, op: string)
    requires IsRun(states, steps) && i <= j <= |steps|
    requires states[i].requests != [] && op in states[i].Current().targetData
    ensures states[j].requests != [] && op in states[j].operators && op in states[j].Current().targetData
    ensures states[j].Current().targetData[op] == states[i].Current().targetData[op]
    ensures ReadsOwnWrites(states, steps, op) ==>
              !states[j].operators[op].stage.Collecting? && !states[j].operators[op].stage.Contributing?
  {
    MonotoneProtocol(states, steps, i, j);
    ContributorsWereActive(states, steps, j, op);
    var stage := states[j].operators[op].stage;
    if ReadsOwnWrites(states, steps, op) && (stage.Collecting? || stage.Contributing?) {
      SecondPassIsStale(states, steps, j, op);
      FreshBase(states, steps, j, op);
    }
  }

  /** An operator's entries in the two objects, and the snapshot they came from. */
  ghost predicate SameSnapshot(s: State, op: string)
    requires s.requests != [] && op in s.operators
  {
    && (op in s.Current().targetData ==>
          && op in s.published && s.published[op].Consistent()
          && s.Current().targetData[op] == s.published[op].targets
          && SecretHas(s, op, s.published[op]))
    && (s.operators[op].stage.Contributing? ==>
          && s.operators[op].stage.snapshot.Consistent()
          && SecretHas(s, op, s.operators[op].stage.snapshot))
  }

  /** The operator's entry in the secret, if it has one, is that of the snapshot. */
  ghost predicate SecretHas(s: State, op: string, snapshot: Snapshot) {
    op in s.Secret() ==> s.Secret()[op] == TargetSecret.Entries(snapshot.clusters)
  }

  lemma PublishedAfter(s: State, step: Step)
    requires WellFormed(s) && Enabled(s, step)
    ensures Apply(s, step).published
            == if step.WriteContribution? && Wins(s, step.op)
               then s.published[step.op := s.operators[step.op].stage.snapshot] else s.published
  {}

  lemma SameSnapshotStep(s: State, step: Step, op: string)
    requires Structure(s) && WellFormed(s) && Enabled(s, step)
    requires op in s.operators && SameSnapshot(s, op)
    requires op in s.Current().targetData ==> !s.operators[op].stage.Collecting? && !s.operators[op].stage.Contributing?
    requires step.WriteSecret? && step.op == op ==> step.snapshot.Consistent()
    ensures Apply(s, step).requests != [] && op in Apply(s, step).operators && SameSnapshot(Apply(s, step), op)
  {
    StepGrows(s, step);
    NewVersion(s, step);
    SecretAfter(s, step);
    PublishedAfter(s, step);
    if IsWrite(step) && Wins(s, step.op) {
      SentAdvances(s, step);
    }
    if ActsFor(step, op) {
      SameSnapshotActs(s, step);
    }
  }

  lemma SameSnapshotActs(s: State, step: Step)
    requires Structure(s) && WellFormed(s) && Enabled(s, step) && ByOperator(step)
    requires var me := s.operators[step.op];
             && SameSnapshot(s, step.op)
             && (step.op in s.Current().targetData ==> !me.stage.Collecting? && !me.stage.Contributing?)
    requires step.WriteSecret? ==> step.snapshot.Consistent()
    ensures Apply(s, step).requests != [] && SameSnapshot(Apply(s, step), step.op)
  {
    NewVersion(s, step);
    SecretAfter(s, step);
    PublishedAfter(s, step);
    if IsWrite(step) && Wins(s, step.op) {
      SentAdvances(s, step);
      assert StageFits(s, step.op, s.operators[step.op].stage);
    }
    if !step.WriteSecret? {
      BecomesContributing(s, step);
    }
  }

  /** If an operator reads its own writes, TargetData[op] and the secret's entry for op are the two
      halves of one pass over the clusters, and the entry is there unless it was evicted. */
  lemma {:induction false} OneSnapshot(states: seq<State>, steps: seq<Step>, i: nat, op: string)
    requires IsRun(states, steps) && i <= |steps|
    requires ReadsOwnWrites(states, steps, op) && ConsistentSnapshots(steps, op)
    requires op in states[i].operators
    ensures states[i].requests != [] && SameSnapshot(states[i], op)
    ensures op in states[i].Current().targetData && (forall j: nat :: !EvictedSince(states, steps, j, i, op)) ==>
              op in states[i].Secret()
  {
    if i == 0 {
      assert states[0].Current() == states[0].requests[0];
    } else {
      var s, step := states[i - 1], steps[i - 1];
      StructureHolds(states, steps, i - 1);
      OperatorsKept(s, step);
      OneSnapshot(states, steps, i - 1, op);
      if op in s.Current().targetData {
        ContributionIsFinal(states, steps, i - 1, i - 1, op);
      }
      SameSnapshotStep(s, step, op);
      if op in states[i].Current().targetData {
        UnpublishedExactly(states, steps, i, op);
      }
    }
  }

  /** An eviction is for good: an operator that reads its own writes makes no second pass, so nobody
      stores its entry again. */
  lemma {:induction false} EvictionIsPermanent(states: seq<State>, steps: seq<Step>, i: nat, j: nat, op: string)
    requires IsRun(states, steps) && ReadsOwnWrites(states, steps, op) && i <= j <= |steps|
    requires states[i].requests != [] && op in states[i].Current().targetData && op !in states[i].Secret()
    ensures op !in states[j].Secret()
  {
    if i < j {
      EvictionIsPermanent(states, steps, i, j - 1, op);
      ContributionIsFinal(states, steps, i, j - 1, op);
      StructureHolds(states, steps, j - 1);
      EntryAt(states, steps, j - 1, op);
    }
  }

  lemma OperatorsKept(s: State, step: Step)
    requires WellFormed(s) && Enabled(s, step)
    ensures Apply(s, step).operators.Keys == s.operators.Keys
    ensures s.overwrote ==> Apply(s, step).overwrote
  {}

  /** What a client of the two objects may rely on: unless the operator's entry was evicted, it is
      there, and every cluster in it is an announced target with the same API URL. */
  lemma AnnouncedTargetsAreReachable(states: seq<State>, steps: seq<Step>, i: nat, op: string, name: string)
    requires IsRun(states, steps) && i <= |steps|
    requires ReadsOwnWrites(states, steps, op) && ConsistentSnapshots(steps, op)
    requires forall j: nat :: !EvictedSince(states, steps, j, i, op)
    requires states[i].requests != [] && op in states[i].Current().targetData
    ensures op in states[i].Secret() && states[i].Secret()[op].Entries?
    ensures name in states[i].Secret()[op].entries ==>
              exists k :: 0 <= k < |states[i].Current().targetData[op]|
                          && states[i].Current().targetData[op][k].clusterName == name
                          && states[i].Current().targetData[op][k].clusterAPIURL
                             == states[i].Secret()[op].entries[name].clusterAPI
  {
    ContributorsWereActive(states, steps, i, op);
    OneSnapshot(states, steps, i, op);
  }
}
