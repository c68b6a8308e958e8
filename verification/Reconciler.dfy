/** Reconcile as it is written, one call after the other on a mutable API server, with other
    operators acting between any two calls. Every execution is a run of the completion protocol, so
    what is proved about all runs holds for it. */
module Reconciler {
  import opened Types
  import opened Providers
  import opened Completion
  import opened CompletionSafety
  import opened Publication
  import ProxyMode
  import Pipeline
  import TargetSecret

  datatype UpdateResult = Updated | Conflict | OtherError

  datatype Outcome = Gone | Initialised | Ignored | Waiting | Contributed | MarkedCompleted | Requeued | Failed

  datatype ReadAnswer = Found | NotFound | ReadFailed

  /** How the API calls of one reconcile are answered: the first read, and which of the others fail
      for another reason than a conflict. */
  datatype Answers = Answers(
    get: ReadAnswer,
    listFails: bool,
    clustersFail: bool,
    labelFails: bool,
    secretFails: bool,
    statusFails: bool)

  /** The objects on the API server. The history fields record the run so far. */
  class ApiServer {
    var requests: seq<Request>
    var registries: seq<seq<Provider>>
    const secret: TargetSecret.SecretStore
    ghost var states: seq<State>
    ghost var steps: seq<Step>

    ghost function Model(): State
      requires states != []
      reads this
    {
      states[|states| - 1]
    }

    ghost predicate Valid()
      reads this, secret
    {
      && IsRun(states, steps) && Structure(Model()) && WellFormed(Model())
      && requests == Model().requests && registries == Model().registries
      && secret.versions == Model().secrets
    }

    constructor (labelled: bool, list: seq<Provider>, store: TargetSecret.SecretStore, operators: set<string>)
      requires |store.versions| <= 1
      ensures Valid() && secret == store && steps == []
      ensures Model().operators.Keys == operators
      ensures forall op :: op in operators ==> Model().operators[op].stage == Idle
    {
      var r := Request(labelled, Unset, None, map[]);
      requests, registries, secret := [r], [list], store;
      states := [State([r], store.versions, [list], map op | op in operators :: Operator(Idle, 0, 0, 0), map[], false)];
      steps := [];
    }

    /** Extends the record by a step that leaves the three objects as they are now. */
    ghost method Record(step: Step)
      requires IsRun(states, steps) && Structure(Model()) && WellFormed(Model()) && Enabled(Model(), step)
      requires requests == Apply(Model(), step).requests && registries == Apply(Model(), step).registries
      requires secret.versions == Apply(Model(), step).secrets
      modifies `states, `steps
      ensures Valid() && states == old(states) + [Apply(old(Model()), step)] && steps == old(steps) + [step]
      ensures forall op :: ConsistentSnapshots(old(steps), op)
                           && (step.WriteSecret? && step.op == op ==> step.snapshot.Consistent())
                ==> ConsistentSnapshots(steps, op)
    {
      StructureStep(Model(), step);
      states, steps := Extend(states, steps, step);
    }

    /** Anything the others do meanwhile: the contract leaves it open, this operator's stage apart. */
    method Interfere(op: string)
      requires Valid() && op in Model().operators
      modifies this, secret
      ensures Valid() && op in Model().operators && Model().operators[op] == old(Model().operators[op])
      ensures |old(requests)| <= |requests| && requests[..|old(requests)|] == old(requests)
      ensures |old(registries)| <= |registries| && registries[..|old(registries)|] == old(registries)
      ensures old(states) <= states && old(steps) <= steps
      ensures forall k :: |old(steps)| <= k < |steps| ==> !ActsFor(steps[k], op)
      ensures ConsistentSnapshots(old(steps), op) ==> ConsistentSnapshots(steps, op)
    {}

    /** r.Get: some version the cache may hold. */
    method Get() returns (version: nat)
      requires Valid()
      ensures version < |requests|
    {
      version := |requests| - 1;
    }

    /** c.List: some version of the provider list. */
    method List() returns (version: nat)
      requires Valid()
      ensures version < |registries|
    {
      version := |registries| - 1;
    }

    /** What a cached read of the secret answers. */
    method LookUpSecret() returns (answer: TargetSecret.Lookup)
      ensures TargetSecret.Answerable(secret.versions, answer)
    {
      answer := TargetSecret.Missing;
    }

    /** r.Update and r.Status().Update: optimistic concurrency on the version the copy was read at.
        `step` names the protocol step this call is, and the copy must be what that step sends. */
    method Update(op: string, base: nat, r: Request, fails: bool, ghost step: Step) returns (result: UpdateResult)
      requires Valid() && Enabled(Model(), step) && IsWrite(step) && step.op == op
      requires Model().operators[op].stage.base == base && Sent(Model(), step) == r
      modifies this
      ensures Valid() && op in Model().operators
      ensures result == if fails then OtherError else if base + 1 == |old(requests)| then Updated else Conflict
      ensures requests == old(requests) + if result == Updated then [r] else []
      ensures var me, me' := old(Model()).operators[op], Model().operators[op];
              && me'.stage == (if result == Updated && step.WriteLabel? then Initialising(|old(requests)|) else Idle)
              && me'.conflicts == me.conflicts + (if result == Conflict then 1 else 0)
              && me'.own == (if result == Updated then |old(requests)| else me.own)
      ensures registries == old(registries)
      ensures old(states) <= states && steps == old(steps) + [if fails then Abort(op) else step]
      ensures ConsistentSnapshots(old(steps), op) ==> ConsistentSnapshots(steps, op)
    {
      if fails {
        Record(Abort(op));
        return OtherError;
      }
      RequestsAfter(Model(), step);
      SenderAfter(Model(), step);
      if base + 1 == |requests| {
        requests := requests + [r];
        result := Updated;
      } else {
        result := Conflict;
      }
      Record(step);
    }
  }

  /** The operator is at that stage, and all it has published came out of consistent passes. */
  ghost predicate Ready(api: ApiServer, op: string, stage: Stage)
    reads api, api.secret
  {
    && api.Valid() && op in api.Model().operators && api.Model().operators[op].stage == stage
    && ConsistentSnapshots(api.steps, op)
  }

  /** The operator has neither written nor lost a race since. */
  twostate predicate Unanswered(api: ApiServer, op: string)
    requires old(api.states) != [] && op in old(api.Model()).operators
    requires api.states != [] && op in api.Model().operators
    reads api
  {
    && api.Model().operators[op].conflicts == old(api.Model()).operators[op].conflicts
    && api.Model().operators[op].own == old(api.Model()).operators[op].own
    && old(api.states) <= api.states && old(api.steps) <= api.steps
  }

  /** A Begin that decides on a copy read earlier. */
  ghost method Decided(api: ApiServer, op: string, base: nat, registry: nat)
    requires Ready(api, op, Idle) && base < |api.requests| && registry < |api.registries|
    modifies api`states, api`steps
    ensures Ready(api, op, Decide(api.requests[base], api.registries[registry], op, base))
    ensures Unanswered(api, op)
  {
    api.Record(Begin(op, base, registry));
  }

  /** The last step on record is a secret write of this operator that was refused: its lookups
      failed or what they found could not be used. */
  ghost predicate SecretRefused(api: ApiServer, op: string)
    reads api, api.secret
  {
    && api.Valid() && api.steps != []
    && var n := |api.steps| - 1; var step := api.steps[n];
    && step.WriteSecret? && step.op == op && StepAt(api.states, api.steps, n)
    && TargetSecret.Publish(api.states[n].secrets, op, step.snapshot.clusters, step.first, step.second, false).Failed?
  }

  /** The secret write as one protocol step, including its failure. */
  method PublishSecret(api: ApiServer, op: string, snapshot: Snapshot, fails: bool) returns (ok: bool)
    requires api.Valid() && op in api.Model().operators && api.Model().operators[op].stage.Collecting?
    requires ConsistentSnapshots(api.steps, op) && snapshot.Consistent()
    modifies api`states, api`steps, api.secret
    ensures Ready(api, op, if ok then Contributing(old(api.Model().operators[op].stage.base),
                                                   old(api.Model().operators[op].stage.providers), snapshot) else Idle)
    ensures Unanswered(api, op)
    ensures ok <==> !fails && !SecretRefused(api, op)
    ensures ok ==> TargetSecret.Carries(api.secret.versions, op, snapshot.clusters)
  {
    var first := api.LookUpSecret();
    var second := api.LookUpSecret();
    var error;
    ghost var overwrote;
    ghost var versions := api.secret.versions;
    error, overwrote := api.secret.CreateManagedClustersSecret(op, snapshot.clusters, first, second, fails);
    ok := error.None?;
    if fails {
      TargetSecret.FailedWriteStoresNothing(versions, op, snapshot.clusters, first, second);
      api.Record(Abort(op));
    } else {
      RecordPublication(api, versions, op, snapshot, first, second);
    }
  }

  /** The call that took the secret from `versions` to what it is now, as a step. */
  ghost method RecordPublication(api: ApiServer, versions: seq<TargetSecret.Payload>, op: string, snapshot: Snapshot,
                                 first: TargetSecret.Lookup, second: TargetSecret.Lookup)
    requires IsRun(api.states, api.steps) && Structure(api.Model()) && WellFormed(api.Model())
    requires api.requests == api.Model().requests && api.registries == api.Model().registries
    requires versions == api.Model().secrets && ConsistentSnapshots(api.steps, op) && snapshot.Consistent()
    requires Enabled(api.Model(), WriteSecret(op, snapshot, first, second))
    requires api.secret.versions == match TargetSecret.Publish(versions, op, snapshot.clusters, first, second, false)
                                    case Stored(vs, _) => vs
                                    case Failed(_) => versions
    modifies api`states, api`steps
    ensures api.Valid() && op in api.Model().operators && Unanswered(api, op)
    ensures var stage := old(api.Model().operators[op].stage);
            if TargetSecret.Publish(versions, op, snapshot.clusters, first, second, false).Stored?
            then Ready(api, op, Contributing(stage.base, stage.providers, snapshot)) && !SecretRefused(api, op)
            else Ready(api, op, Idle) && SecretRefused(api, op)
  {
    PublisherAfter(api.Model(), WriteSecret(op, snapshot, first, second));
    api.Record(WriteSecret(op, snapshot, first, second));
  }

  /** Outcomes that say this operator's version is the newest, and outcomes of a reconcile that
      leaves the request alone. */
  predicate Stored(outcome: Outcome) {
    outcome in {Initialised, Contributed, MarkedCompleted}
  }

  predicate Quiet(outcome: Outcome) {
    outcome in {Gone, Ignored, Waiting}
  }

  /** What a reconcile leaves behind: the record extended, this operator idle again, one more
      conflict exactly when it asks to be requeued, and the version it stored on top of all others
      when it says so. */
  twostate predicate Returned(api: ApiServer, op: string, outcome: Outcome)
    requires old(api.states) != [] && op in old(api.Model()).operators
    reads api, api.secret
  {
    && Ready(api, op, Idle)
    && old(api.states) <= api.states && old(api.steps) <= api.steps
    && var me, was := api.Model().operators[op], old(api.Model()).operators[op];
    && me.conflicts == was.conflicts + (if outcome == Requeued then 1 else 0)
    && (Stored(outcome) ==> me.own == |api.requests| - 1)
    && (Quiet(outcome) ==> me.own == was.own)
  }

  function ToOutcome(result: UpdateResult, success: Outcome): Outcome {
    match result case Updated => success case Conflict => Requeued case OtherError => Failed
  }

  /** The outcome a reconcile may have after reading `copy`, and the list if it gets that far: which
      branch it takes, and which failures explain an error. */
  ghost predicate Answered(outcome: Outcome, copy: Request, list: seq<Provider>, op: string, answers: Answers,
                           refused: bool)
  {
    match copy.phase
    case Unset =>
      var labelFails := !copy.uuidLabel && answers.labelFails;
      && outcome in {Initialised, Requeued, Failed}
      && (labelFails ==> outcome == Failed)
      && (outcome == Failed ==> labelFails || answers.statusFails)
      && (outcome == Initialised ==> !answers.statusFails)
    case Pending =>
      if answers.listFails then outcome == Failed
      else if !SelfActive(list, op) then outcome == Ignored
      else if op in copy.targetData then
        if !ShouldMarkAsCompleted(ActiveCount(list), |copy.targetData|) then outcome == Waiting
        else
          && outcome in {MarkedCompleted, Requeued, Failed}
          && (outcome == Failed <==> answers.statusFails)
      else
        && outcome in {Contributed, Requeued, Failed}
        && (outcome == Failed <==> answers.clustersFail || answers.secretFails || refused || answers.statusFails)
    case _ => outcome == Ignored
  }

  /** The request read with the operator's targets, completed at the given time exactly when the count
      suffices. */
  ghost predicate Adds(r: Request, copy: Request, list: seq<Provider>, op: string, targets: seq<ClusterTarget>,
                       now: int)
  {
    && r.uuidLabel == copy.uuidLabel && r.targetData == copy.targetData[op := targets]
    && if ShouldMarkAsCompleted(ActiveCount(list), |r.targetData|)
       then r.phase == Completed && r.completedAt == Some(now)
       else r.phase == Pending && r.completedAt == copy.completedAt
  }

  /** The request as it is stored by a reconcile that stores one. */
  ghost predicate StoredAs(r: Request, outcome: Outcome, copy: Request, list: seq<Provider>, op: string,
                           pass: Pipeline.PassInput, now: int)
  {
    match outcome
    case Initialised => r == copy.(uuidLabel := true, phase := Pending)
    case Contributed =>
      exists snapshot :: Pipeline.Yields(pass, snapshot) && Adds(r, copy, list, op, snapshot.targets, now)
    case MarkedCompleted =>
      && r.uuidLabel == copy.uuidLabel && r.targetData == copy.targetData
      && r.phase == Completed && r.completedAt == Some(now)
    case _ => true
  }

  /** The pass input has the hub as it is. */
  predicate Meets(pass: Pipeline.PassInput, hub: ProxyMode.Hub)
    reads hub
  {
    pass.Matches() && hub.works == pass.works && hub.user == pass.user
  }

  /** A request without a status: label it if needed, then mark it pending. */
  method InitializeStatus(api: ApiServer, op: string, version: nat, copy: Request, answers: Answers)
    returns (outcome: Outcome)
    requires Ready(api, op, Idle) && version < |api.requests| && api.requests[version] == copy && copy.phase == Unset
    modifies api, api.secret
    ensures Returned(api, op, outcome)
    ensures Answered(outcome, copy, [], op, answers, false)
    ensures outcome == Initialised ==> api.Model().Current() == copy.(uuidLabel := true, phase := Pending)
  {
    Decided(api, op, version, 0);
    var base, krknRequest := version, copy;
    if !krknRequest.uuidLabel {
      var labelled;
      krknRequest := krknRequest.(uuidLabel := true);
      labelled, base := WriteUUIDLabel(api, op, version, krknRequest, answers.labelFails);
      if labelled != Updated {
        return ToOutcome(labelled, Initialised);
      }
    }
    outcome := WritePendingStatus(api, op, base, krknRequest, answers.statusFails);
  }

  method WritePendingStatus(api: ApiServer, op: string, base: nat, copy: Request, fails: bool)
    returns (outcome: Outcome)
    requires Ready(api, op, Initialising(base)) && base < |api.requests| && copy == api.requests[base]
    modifies api, api.secret
    ensures Returned(api, op, outcome)
    ensures outcome in {Initialised, Requeued, Failed} && (outcome == Failed <==> fails)
    ensures outcome == Initialised ==> api.Model().Current() == copy.(phase := Pending)
  {
    var krknRequest := copy.(phase := Pending);
    api.Interfere(op);
    var initialised := api.Update(op, base, krknRequest, fails, WritePending(op));
    outcome := ToOutcome(initialised, Initialised);
  }

  /** On success the copy continues from the version it wrote. */
  method WriteUUIDLabel(api: ApiServer, op: string, version: nat, r: Request, fails: bool)
    returns (result: UpdateResult, base: nat)
    requires Ready(api, op, Labelling(version)) && version < |api.requests|
    requires r == api.requests[version].(uuidLabel := true)
    modifies api, api.secret
    ensures result == OtherError <==> fails
    ensures result != Updated ==> Returned(api, op, ToOutcome(result, Failed))
    ensures result == Updated ==>
              && Ready(api, op, Initialising(base)) && base < |api.requests| && api.requests[base] == r
              && api.Model().operators[op].conflicts == old(api.Model().operators[op].conflicts)
    ensures old(api.states) <= api.states && old(api.steps) <= api.steps
  {
    api.Interfere(op);
    result := api.Update(op, version, r, fails, WriteLabel(op));
    base := |api.requests| - 1;
  }

  /** This operator has contributed already: complete the request if nobody is missing any more. */
  method CompleteExisting(api: ApiServer, op: string, base: nat, copy: Request, registry: nat,
                          providerList: seq<Provider>, now: int, answers: Answers)
    returns (outcome: Outcome)
    requires Ready(api, op, Idle) && base < |api.requests| && api.requests[base] == copy && copy.phase == Pending
    requires registry < |api.registries| && api.registries[registry] == providerList
    requires SelfActive(providerList, op) && op in copy.targetData && !answers.listFails
    modifies api, api.secret
    ensures Returned(api, op, outcome)
    ensures Answered(outcome, copy, providerList, op, answers, false)
    ensures outcome == MarkedCompleted ==>
              && api.Model().Current().uuidLabel == copy.uuidLabel
              && api.Model().Current().targetData == copy.targetData
              && api.Model().Current().phase == Completed && api.Model().Current().completedAt == Some(now)
  {
    Decided(api, op, base, registry);
    var activeProviderCount := CountActiveProviders(providerList);
    if !ShouldMarkAsCompleted(activeProviderCount, |copy.targetData|) {
      return Waiting;
    }
    var krknRequest := copy.(phase := Completed, completedAt := Some(now));
    api.Interfere(op);
    var completed := api.Update(op, base, krknRequest, answers.statusFails, WriteCompletion(op, now));
    outcome := ToOutcome(completed, MarkedCompleted);
  }

  /** The first contribution: collect, publish the secret, then the status. */
  method ContributeTargets(api: ApiServer, hub: ProxyMode.Hub, op: string, base: nat, copy: Request, registry: nat,
                           providerList: seq<Provider>, pass: Pipeline.PassInput, now: int, answers: Answers)
    returns (outcome: Outcome)
    requires Ready(api, op, Idle) && base < |api.requests| && api.requests[base] == copy && copy.phase == Pending
    requires registry < |api.registries| && api.registries[registry] == providerList && Meets(pass, hub)
    requires SelfActive(providerList, op) && op !in copy.targetData && !answers.listFails
    modifies api, api.secret, hub
    ensures Returned(api, op, outcome)
    ensures Answered(outcome, copy, providerList, op, answers, SecretRefused(api, op))
    ensures StoredAs(api.Model().Current(), outcome, copy, providerList, op, pass, now)
  {
    var snapshot := CollectAndPublish(api, hub, op, base, registry, providerList, pass, answers);
    if snapshot.None? {
      return Failed;
    }
    outcome := WriteStatus(api, op, base, copy, providerList, snapshot.value, now, answers.statusFails);
  }

  /** Up to and including the secret. */
  method CollectAndPublish(api: ApiServer, hub: ProxyMode.Hub, op: string, base: nat, registry: nat,
                           providerList: seq<Provider>, pass: Pipeline.PassInput, answers: Answers)
    returns (snapshot: Option<Snapshot>)
    requires Ready(api, op, Idle) && base < |api.requests| && api.requests[base].phase == Pending
    requires registry < |api.registries| && api.registries[registry] == providerList && Meets(pass, hub)
    requires SelfActive(providerList, op) && op !in api.requests[base].targetData
    modifies api, api.secret, hub
    ensures snapshot.None? <==> answers.clustersFail || answers.secretFails || SecretRefused(api, op)
    ensures Ready(api, op, if snapshot.Some? then Contributing(base, providerList, snapshot.value) else Idle)
    ensures Unanswered(api, op)
    ensures snapshot.Some? ==>
              && Pipeline.Yields(pass, snapshot.value)
              && TargetSecret.Carries(api.secret.versions, op, snapshot.value.clusters)
    ensures |old(api.requests)| <= |api.requests| && api.requests[..|old(api.requests)|] == old(api.requests)
  {
    Decided(api, op, base, registry);
    assert api.Model().operators[op].stage == Collecting(base, providerList);
    if answers.clustersFail {
      api.Record(Abort(op));
      return None;
    }
    var targetData, clustersData, collected;
    ghost var traces;
    targetData, clustersData, collected, traces := Pipeline.RunPass(hub, pass);
    var published := PublishCollected(api, op, collected, answers.secretFails);
    snapshot := if published then Some(collected) else None;
  }

  /** The secret write, with others acting while the pass was running. */
  method PublishCollected(api: ApiServer, op: string, snapshot: Snapshot, fails: bool) returns (ok: bool)
    requires api.Valid() && op in api.Model().operators && api.Model().operators[op].stage.Collecting?
    requires ConsistentSnapshots(api.steps, op) && snapshot.Consistent()
    modifies api, api.secret
    ensures var stage := old(api.Model().operators[op].stage);
            Ready(api, op, if ok then Contributing(stage.base, stage.providers, snapshot) else Idle)
    ensures Unanswered(api, op)
    ensures ok <==> !fails && !SecretRefused(api, op)
    ensures ok ==> TargetSecret.Carries(api.secret.versions, op, snapshot.clusters)
    ensures |old(api.requests)| <= |api.requests| && api.requests[..|old(api.requests)|] == old(api.requests)
  {
    api.Interfere(op);
    ok := PublishSecret(api, op, snapshot, fails);
  }

  /** The status write that carries the contribution, and the completion if it is the last one. */
  method WriteStatus(api: ApiServer, op: string, base: nat, copy: Request, providerList: seq<Provider>,
                     snapshot: Snapshot, now: int, fails: bool)
    returns (outcome: Outcome)
    requires Ready(api, op, Contributing(base, providerList, snapshot))
    requires base < |api.requests| && api.requests[base] == copy && copy.phase == Pending
    modifies api, api.secret
    ensures Returned(api, op, outcome)
    ensures outcome in {Contributed, Requeued, Failed} && (outcome == Failed <==> fails)
    ensures !SecretRefused(api, op)
    ensures outcome == Contributed ==>
              Adds(api.Model().Current(), copy, providerList, op, snapshot.targets, now)
  {
    var krknRequest := copy.(targetData := copy.targetData[op := snapshot.targets]);
    var activeProviderCount := CountActiveProviders(providerList);
    api.Interfere(op);
    if ShouldMarkAsCompleted(activeProviderCount, |krknRequest.targetData|) {
      krknRequest := krknRequest.(phase := Completed, completedAt := Some(now));
    }
    assert krknRequest == Contribute(copy, providerList, op, snapshot.targets, now);
    var contributed := api.Update(op, base, krknRequest, fails, WriteContribution(op, now));
    outcome := ToOutcome(contributed, Contributed);
  }

  /** `pass` is what a pass over the managed clusters meets if one is made, and `now` the time of a
      completion. The versions read are `seen` and `listed`. */
  method Reconcile(api: ApiServer, hub: ProxyMode.Hub, op: string, pass: Pipeline.PassInput, now: int, answers: Answers)
    returns (outcome: Outcome, ghost seen: nat, ghost listed: nat)
    requires Ready(api, op, Idle) && Meets(pass, hub)
    modifies api, api.secret, hub
    ensures Returned(api, op, outcome)
    ensures answers.get == NotFound ==> outcome == Gone
    ensures answers.get == ReadFailed ==> outcome == Failed
    ensures answers.get == Found ==>
              && seen < |api.requests| && listed < |api.registries|
              && var copy, list := api.requests[seen], api.registries[listed];
              && Answered(outcome, copy, list, op, answers, SecretRefused(api, op))
              && StoredAs(api.Model().Current(), outcome, copy, list, op, pass, now)
  {
    seen, listed := 0, 0;
    if answers.get == NotFound {
      return Gone, seen, listed;
    }
    if answers.get == ReadFailed {
      return Failed, seen, listed;
    }
    var base := api.Get();
    seen := base;
    var krknRequest := api.requests[base];
    api.Interfere(op);
    label Read:
    outcome, listed := Proceed(api, hub, op, base, krknRequest, pass, now, answers);
    Remembered@Read(api);
  }

  /** Everything after the first read. */
  method Proceed(api: ApiServer, hub: ProxyMode.Hub, op: string, base: nat, krknRequest: Request,
                 pass: Pipeline.PassInput, now: int, answers: Answers)
    returns (outcome: Outcome, ghost listed: nat)
    requires Ready(api, op, Idle) && base < |api.requests| && api.requests[base] == krknRequest && Meets(pass, hub)
    modifies api, api.secret, hub
    ensures Returned(api, op, outcome) && listed < |api.registries|
    ensures Answered(outcome, krknRequest, api.registries[listed], op, answers, SecretRefused(api, op))
    ensures StoredAs(api.Model().Current(), outcome, krknRequest, api.registries[listed], op, pass, now)
  {
    listed := 0;
    if krknRequest.phase == Unset {
      outcome := InitializeStatus(api, op, base, krknRequest, answers);
      return;
    }
    if krknRequest.phase != Pending {
      return Ignored, listed;
    }
    outcome, listed := ProcessPending(api, hub, op, base, krknRequest, pass, now, answers);
  }

  /** A pending request. */
  method ProcessPending(api: ApiServer, hub: ProxyMode.Hub, op: string, base: nat, krknRequest: Request,
                        pass: Pipeline.PassInput, now: int, answers: Answers)
    returns (outcome: Outcome, ghost listed: nat)
    requires Ready(api, op, Idle) && base < |api.requests| && api.requests[base] == krknRequest && Meets(pass, hub)
    requires krknRequest.phase == Pending
    modifies api, api.secret, hub
    ensures Returned(api, op, outcome) && listed < |api.registries|
    ensures Answered(outcome, krknRequest, api.registries[listed], op, answers, SecretRefused(api, op))
    ensures StoredAs(api.Model().Current(), outcome, krknRequest, api.registries[listed], op, pass, now)
  {
    listed := 0;
    if answers.listFails {
      return Failed, listed;
    }
    var registry := api.List();
    listed := registry;
    var providerList := api.registries[registry];
    var activity := CheckProviderActive(Ok(providerList), op);
    if !activity.Proceed? {
      return Ignored, listed;
    }
    label Listed:
    if op in krknRequest.targetData {
      outcome := CompleteExisting(api, op, base, krknRequest, registry, providerList, now, answers);
    } else {
      outcome := ContributeTargets(api, hub, op, base, krknRequest, registry, providerList, pass, now, answers);
    }
    Remembered@Listed(api);
  }

  /** The versions on the server earlier are still there. */
  twostate lemma Remembered(api: ApiServer)
    requires old(api.Valid()) && api.Valid()
    requires old(api.states) <= api.states && old(api.steps) <= api.steps
    ensures |old(api.requests)| <= |api.requests| && api.requests[..|old(api.requests)|] == old(api.requests)
    ensures |old(api.registries)| <= |api.registries| && api.registries[..|old(api.registries)|] == old(api.registries)
  {
    HistoriesGrow(api.states, api.steps, old(|api.steps|), |api.steps|);
  }

  /** For an operator whose steps are all taken by such reconciles nothing need be assumed about what it
      publishes: unless its entry was evicted, its part of the secret is there and agrees with its part
      of the status. */
  lemma ReconciledTargetsAreReachable(api: ApiServer, op: string, name: string)
    requires Ready(api, op, Idle) && ReadsOwnWrites(api.states, api.steps, op)
    requires forall j: nat :: !EvictedSince(api.states, api.steps, j, |api.steps|, op)
    requires op in api.Model().Current().targetData
    ensures op in api.Model().Secret() && api.Model().Secret()[op].Entries?
    ensures name in api.Model().Secret()[op].entries ==>
              exists k :: 0 <= k < |api.Model().Current().targetData[op]|
                          && api.Model().Current().targetData[op][k].clusterName == name
                          && api.Model().Current().targetData[op][k].clusterAPIURL
                             == api.Model().Secret()[op].entries[name].clusterAPI
  {
    AnnouncedTargetsAreReachable(api.states, api.steps, |api.steps|, op, name);
  }

  /** What a reconcile and everything that interfered with it did to the request is an advance of it:
      the record of an execution is a run, so the theorems about runs apply between any two moments. */
  twostate lemma NeverUndone(api: ApiServer)
    requires old(api.Valid()) && api.Valid()
    requires old(api.states) <= api.states && old(api.steps) <= api.steps
    ensures Advances(old(api.Model().Current()), api.Model().Current())
  {
    MonotoneProtocol(api.states, api.steps, old(|api.steps|), |api.steps|);
  }
}
