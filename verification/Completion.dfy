/** The multi-operator completion protocol on one KrknTargetRequest, as interleaved steps.

    Several operators reconcile the same object. A reconcile reads some version of it (the
    informer cache may lag), decides what to do, and writes back under optimistic concurrency:
    a write based on anything but the newest version is a conflict. Every API call is one step,
    so steps of different operators interleave between any two calls of one reconcile. */
module Completion {
  import opened Types
  import opened Providers
  import TargetSecret

  datatype Phase = Unset | Pending | Completed | Foreign(text: string)

  datatype Request = Request(
    uuidLabel: bool,
    phase: Phase,
    completedAt: Option<int>,
    targetData: map<string, seq<ClusterTarget>>)

  /** Where an operator is inside Reconcile; `base` is the version its local copy was read at. */
  datatype Stage =
    | Idle
    | Labelling(base: nat)
    | Initialising(base: nat)
    | Collecting(base: nat, providers: seq<Provider>)
    | Contributing(base: nat, providers: seq<Provider>, snapshot: Snapshot)
    | Completing(base: nat, providers: seq<Provider>)

  /** An operator, with three history variables: the oldest version a retry may read after its
      last conflict, the last version it wrote itself, and its number of conflicts. */
  datatype Operator = Operator(stage: Stage, beaten: nat, own: nat, conflicts: nat)

  datatype State = State(
    requests: seq<Request>,                       // versions of the request
    secrets: seq<TargetSecret.Payload>,           // versions of its secret
    registries: seq<seq<Provider>>,               // versions of the provider list
    operators: map<string, Operator>,
    published: map<string, Snapshot>,             // history: what each contribution came from
    overwrote: bool)                              // history: an AlreadyExists update happened
  {
    function Current(): Request
      requires requests != []
    {
      requests[|requests| - 1]
    }

    function Providers(): seq<Provider>
      requires registries != []
    {
      registries[|registries| - 1]
    }

    function Secret(): map<string, TargetSecret.GoMap<ClusterData>> {
      TargetSecret.Contents(secrets)
    }
  }

  datatype Step =
    | Begin(op: string, version: nat, registry: nat)
    | WriteLabel(op: string)
    | WritePending(op: string)
    | WriteSecret(op: string, snapshot: Snapshot, first: TargetSecret.Lookup, second: TargetSecret.Lookup)
    | WriteContribution(op: string, now: int)
    | WriteCompletion(op: string, now: int)
    | Abort(op: string)                           // any error return, or a restart
    | ChangeProviders(list: seq<Provider>)
    | Edit(labelled: bool)                        // somebody else changes labels or annotations

  ghost predicate Init(s: State) {
    && |s.requests| == 1 && |s.registries| == 1 && |s.secrets| <= 1 && !s.overwrote
    && s.requests[0].phase == Unset && s.requests[0].completedAt == None && s.requests[0].targetData == map[]
    && s.published == map[]
    && forall op :: op in s.operators ==> s.operators[op] == Operator(Idle, 0, 0, 0)
  }

  /** The decisions Reconcile takes from its local copy and the provider list. */
  ghost function Decide(r: Request, list: seq<Provider>, op: string, version: nat): Stage {
    match r.phase
    case Unset => if r.uuidLabel then Initialising(version) else Labelling(version)
    case Pending =>
      if !SelfActive(list, op) then Idle
      else if op in r.targetData then
        if ShouldMarkAsCompleted(ActiveCount(list), |r.targetData|) then Completing(version, list) else Idle
      else Collecting(version, list)
    case _ => Idle
  }

  function Complete(r: Request, now: int): Request {
    r.(phase := Completed, completedAt := Some(now))
  }

  /** The request as it is sent with this operator's contribution. */
  function Contribute(r: Request, list: seq<Provider>, op: string, targets: seq<ClusterTarget>, now: int): Request {
    var r' := r.(targetData := r.targetData[op := targets]);
    if ShouldMarkAsCompleted(ActiveCount(list), |r'.targetData|) then Complete(r', now) else r'
  }

  predicate Wins(s: State, op: string)
    requires op in s.operators && !s.operators[op].stage.Idle?
  {
    s.operators[op].stage.base + 1 == |s.requests|
  }

  function SetStage(s: State, op: string, stage: Stage): State
    requires op in s.operators
  {
    s.(operators := s.operators[op := s.operators[op].(stage := stage)])
  }

  /** A write of the request: appended if the base is the newest version, else a conflict, after
      which the reconcile returns and is requeued. */
  function Write(s: State, op: string, r: Request, next: Stage): State
    requires op in s.operators && !s.operators[op].stage.Idle?
  {
    var me := s.operators[op];
    if Wins(s, op) then
      s.(requests := s.requests + [r], operators := s.operators[op := me.(stage := next, own := |s.requests|)])
    else
      s.(operators := s.operators[op := me.(stage := Idle, beaten := me.stage.base + 1, conflicts := me.conflicts + 1)])
  }

  ghost predicate WellFormed(s: State) {
    && s.requests != [] && s.registries != []
    && forall op :: op in s.operators && !s.operators[op].stage.Idle? ==> s.operators[op].stage.base < |s.requests|
  }

  ghost predicate Enabled(s: State, step: Step)
    requires WellFormed(s)
  {
    match step
    case ChangeProviders(_) => true
    case Edit(_) => true
    case _ =>
      && step.op in s.operators
      && var stage := s.operators[step.op].stage;
         match step
         case Begin(_, v, l) => stage.Idle? && v < |s.requests| && l < |s.registries|
         case WriteLabel(_) => stage.Labelling?
         case WritePending(_) => stage.Initialising?
         case WriteSecret(_, snapshot, first, second) =>
           stage.Collecting? && TargetSecret.Answerable(s.secrets, first) && TargetSecret.Answerable(s.secrets, second)
         case WriteContribution(_, _) => stage.Contributing?
         case WriteCompletion(_, _) => stage.Completing?
         case Abort(_) => true
         case ChangeProviders(_) => true
         case Edit(_) => true
  }

  /** The steps that write the request. */
  predicate IsWrite(step: Step) {
    step.WriteLabel? || step.WritePending? || step.WriteContribution? || step.WriteCompletion?
  }

  /** The request such a step sends: the local copy with this reconcile's change. */
  ghost function Sent(s: State, step: Step): Request
    requires WellFormed(s) && Enabled(s, step) && IsWrite(step)
  {
    var stage := s.operators[step.op].stage;
    var copy := s.requests[stage.base];
    match step
    case WriteLabel(_) => copy.(uuidLabel := true)
    case WritePending(_) => copy.(phase := Pending)
    case WriteContribution(op, now) => Contribute(copy, stage.providers, op, stage.snapshot.targets, now)
    case WriteCompletion(_, now) => Complete(copy, now)
  }

  ghost function Apply(s: State, step: Step): State
    requires WellFormed(s) && Enabled(s, step)
  {
    match step
    case ChangeProviders(list) => s.(registries := s.registries + [list])
    case Edit(labelled) => s.(requests := s.requests + [s.Current().(uuidLabel := labelled)])
    case Begin(op, v, l) => SetStage(s, op, Decide(s.requests[v], s.registries[l], op, v))
    case Abort(op) => SetStage(s, op, Idle)
    case WriteSecret(op, snapshot, first, second) =>
      var stage := s.operators[op].stage;
      (match TargetSecret.Publish(s.secrets, op, snapshot.clusters, first, second, false)
       case Failed(_) => SetStage(s, op, Idle)
       case Stored(versions, over) =>
         SetStage(s, op, Contributing(stage.base, stage.providers, snapshot))
           .(secrets := versions, overwrote := s.overwrote || over))
    case WriteLabel(op) => Write(s, op, Sent(s, step), Initialising(|s.requests|))
    case WritePending(op) => Write(s, op, Sent(s, step), Idle)
    case WriteCompletion(op, _) => Write(s, op, Sent(s, step), Idle)
    case WriteContribution(op, _) =>
      var s' := Write(s, op, Sent(s, step), Idle);
      if Wins(s, op) then s'.(published := s.published[op := s.operators[op].stage.snapshot]) else s'
  }

  /** Step i of a record leads from state i to the next. */
  ghost predicate StepAt(states: seq<State>, steps: seq<Step>, i: nat)
    requires i < |steps| < |states|
  {
    WellFormed(states[i]) && Enabled(states[i], steps[i]) && states[i + 1] == Apply(states[i], steps[i])
  }

  /** A run: the steps taken and the states passed through. */
  ghost predicate IsRun(states: seq<State>, steps: seq<Step>) {
    && |states| == |steps| + 1
    && Init(states[0])
    && forall i :: 0 <= i < |steps| ==> StepAt(states, steps, i)
  }

  /** The request changes only by a write that wins, and then by exactly what was sent; an edit by
      somebody else makes a new version with the same status. */
  lemma RequestsAfter(s: State, step: Step)
    requires WellFormed(s) && Enabled(s, step)
    ensures Apply(s, step).requests
            == if IsWrite(step) && Wins(s, step.op) then s.requests + [Sent(s, step)]
               else if step.Edit? then s.requests + [s.Current().(uuidLabel := step.labelled)]
               else s.requests
  {}

  /** What a write does to its sender. */
  lemma SenderAfter(s: State, step: Step)
    requires WellFormed(s) && Enabled(s, step) && IsWrite(step)
    ensures step.op in Apply(s, step).operators && Apply(s, step).registries == s.registries
    ensures Apply(s, step).secrets == s.secrets
    ensures var me, me' := s.operators[step.op], Apply(s, step).operators[step.op];
            && me'.stage == (if Wins(s, step.op) && step.WriteLabel? then Initialising(|s.requests|) else Idle)
            && me'.conflicts == me.conflicts + (if Wins(s, step.op) then 0 else 1)
            && me'.own == (if Wins(s, step.op) then |s.requests| else me.own)
  {}

  /** What a secret write does to its sender. */
  lemma PublisherAfter(s: State, step: Step)
    requires WellFormed(s) && Enabled(s, step) && step.WriteSecret?
    ensures step.op in Apply(s, step).operators
    ensures var me, s' := s.operators[step.op], Apply(s, step);
            var out := TargetSecret.Publish(s.secrets, step.op, step.snapshot.clusters, step.first, step.second, false);
            && s'.requests == s.requests && s'.registries == s.registries
            && s'.secrets == (if out.Stored? then out.versions else s.secrets)
            && s'.operators[step.op] == me.(stage := if out.Stored? then
                 Contributing(me.stage.base, me.stage.providers, step.snapshot) else Idle)
  {}

  // ---------- structural invariant ----------

  /** What an operator's stage says about the version it holds. */
  ghost predicate StageFits(s: State, op: string, stage: Stage)
    requires s.requests != []
  {
    !stage.Idle? ==>
      && stage.base < |s.requests|
      && var r := s.requests[stage.base];
         match stage
         case Labelling(_) => r.phase == Unset && !r.uuidLabel
         case Initialising(_) => r.phase == Unset && r.uuidLabel
         case Collecting(_, list) =>
           r.phase == Pending && list in s.registries && SelfActive(list, op) && op !in r.targetData
         case Contributing(_, list, _) =>
           r.phase == Pending && list in s.registries && SelfActive(list, op) && op !in r.targetData
         case Completing(_, list) =>
           && r.phase == Pending && list in s.registries && SelfActive(list, op) && op in r.targetData
           && ShouldMarkAsCompleted(ActiveCount(list), |r.targetData|)
         case Idle => true
  }

  ghost predicate Structure(s: State) {
    && s.requests != [] && s.registries != []
    && forall op :: op in s.operators ==> StageFits(s, op, s.operators[op].stage)
  }

  /** Histories only grow, and a step changes the stage of the acting operator alone. */
  ghost predicate Grows(s: State, s': State) {
    && |s.requests| <= |s'.requests| && s'.requests[..|s.requests|] == s.requests
    && |s.registries| <= |s'.registries| && s'.registries[..|s.registries|] == s.registries
    && s'.operators.Keys == s.operators.Keys
  }

  /** The steps an operator takes; the others belong to the environment. */
  predicate ByOperator(step: Step) {
    !step.ChangeProviders? && !step.Edit?
  }

  ghost predicate ActsFor(step: Step, op: string) {
    ByOperator(step) && step.op == op
  }

  lemma StepGrows(s: State, step: Step)
    requires WellFormed(s) && Enabled(s, step)
    ensures Grows(s, Apply(s, step))
    ensures forall op :: op in s.operators && !ActsFor(step, op) ==> Apply(s, step).operators[op] == s.operators[op]
  {}

  lemma StageFitsFrame(s: State, s': State, op: string, stage: Stage)
    requires s.requests != [] && Grows(s, s') && StageFits(s, op, stage)
    ensures s'.requests != [] && StageFits(s', op, stage)
  {
    if !stage.Idle? {
      assert s'.requests[stage.base] == s'.requests[..|s.requests|][stage.base];
      forall list | list in s.registries ensures list in s'.registries {
        var i :| 0 <= i < |s.registries| && s.registries[i] == list;
        assert s'.registries[..|s.registries|][i] == list;
      }
    }
  }

  lemma ActorFits(s: State, step: Step)
    requires Structure(s) && WellFormed(s) && Enabled(s, step) && ByOperator(step)
    ensures var s' := Apply(s, step); s'.requests != [] && StageFits(s', step.op, s'.operators[step.op].stage)
  {
    var stage := s.operators[step.op].stage;
    assert StageFits(s, step.op, stage);
    RequestsAfter(s, step);
  }

  lemma StructureStep(s: State, step: Step)
    requires Structure(s) && WellFormed(s) && Enabled(s, step)
    ensures Structure(Apply(s, step)) && Grows(s, Apply(s, step))
  {
    var s' := Apply(s, step);
    StepGrows(s, step);
    forall op | op in s'.operators
      ensures StageFits(s', op, s'.operators[op].stage)
    {
      if ActsFor(step, op) {
        ActorFits(s, step);
      } else {
        StageFitsFrame(s, s', op, s.operators[op].stage);
      }
    }
  }

  lemma {:induction false} StructureHolds(states: seq<State>, steps: seq<Step>, i: nat)
    requires IsRun(states, steps) && i <= |steps|
    ensures Structure(states[i]) && WellFormed(states[i])
    ensures states[i].operators.Keys == states[0].operators.Keys
    ensures i < |steps| ==> StepAt(states, steps, i)
  {
    if i > 0 {
      StructureHolds(states, steps, i - 1);
      StructureStep(states[i - 1], steps[i - 1]);
    }
  }

  /** No version is lost or replaced later in a run. */
  lemma {:induction false} HistoriesGrow(states: seq<State>, steps: seq<Step>, i: nat, j: nat)
    requires IsRun(states, steps) && i <= j <= |steps|
    ensures Grows(states[i], states[j])
  {
    if i < j {
      HistoriesGrow(states, steps, i, j - 1);
      StructureHolds(states, steps, j - 1);
      StructureStep(states[j - 1], steps[j - 1]);
      GrowsTransitive(states[i], states[j - 1], states[j]);
    }
  }

  lemma GrowsTransitive(a: State, b: State, c: State)
    requires Grows(a, b) && Grows(b, c)
    ensures Grows(a, c)
  {
    assert c.requests[..|a.requests|] == c.requests[..|b.requests|][..|a.requests|];
    assert c.registries[..|a.registries|] == c.registries[..|b.registries|][..|a.registries|];
  }

  /** A run may be continued by any enabled step. */
  lemma Extend(states: seq<State>, steps: seq<Step>, step: Step)
    returns (states': seq<State>, steps': seq<Step>)
    requires IsRun(states, steps)
    requires WellFormed(states[|steps|]) && Enabled(states[|steps|], step)
    ensures IsRun(states', steps') && states' == states + [Apply(states[|steps|], step)] && steps' == steps + [step]
  {
    states', steps' := states + [Apply(states[|steps|], step)], steps + [step];
    forall i | 0 <= i < |steps'| ensures StepAt(states', steps', i) {
      assert states'[i] == states[i];
      if i < |steps| {
        assert StepAt(states, steps, i);
        assert steps'[i] == steps[i] && states'[i + 1] == states[i + 1];
      }
    }
  }
}
