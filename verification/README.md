# Verified model of krkn-operator-acm

krkn-operator-acm answers `KrknTargetRequest` objects: for every ACM/OCM managed cluster it decides
whether the cluster is reachable and healthy, stores a kubeconfig in a secret, and announces the
targets in the request's status. Several operators work on the same request, each contributing under
its own name; whoever adds the last contribution marks the request completed. This project models that
behaviour in Dafny and proves properties of it.

| file | what it models |
|---|---|
| `Types.dfy`, `Sets.dfy` | values and a set lemma shared by the other modules |
| `Providers.dfy` | provider registration and the completion count |
| `TargetSecret.dfy` | the secret: both JSON formats, migration, get / merge / create-or-update |
| `Completion.dfy` | the completion protocol as interleaved steps of any number of operators |
| `CompletionSafety.dfy`, `CompletionBounds.dfy`, `CompletionReachable.dfy`, `Publication.dfy` | what every run keeps, how long it can go on, that it can always complete, and how the two objects agree |
| `CompletionStuck.dfy` | what changes of the provider list do: exactly when a request is stuck, and when a completion leaves somebody out |
| `CompletionRuns.dfy` | concrete runs that reach the corner cases |
| `Reconciler.dfy` | `Reconcile` call by call on a mutable API server, as a run of the protocol |
| `WorkerPool.dfy` | the bounded probe pool, for every schedule |
| `ProxyMode.dfy`, `Pipeline.dfy` | proxy configuration and the two loops over the clusters |
| `ConfigKeys.dfy`, `Strings.dfy`, `ConfigSchema.dfy` | configuration keys and the generated schema |
| `CABundle.dfy`, `Liveness.dfy` | CA decoding and the endpoint fall-back loop |

`dafny verify dfyconfig.toml` checks everything.

## How to read it

*Protocol.* `Completion.State` holds the version history of the request, of its secret and of the
provider list, and a stage per operator. A reconcile starts from *any* version ever stored (a stale
cache) and writes under optimistic concurrency; every API call is a step, so other operators act
between any two of them, and any reconcile may end at any point with an error. `IsRun(states, steps)`
is one execution; the theorems quantify over all of them. Freshness is assumed only where it is named
(`FreshRetries`: a retry sees what beat it; `ReadsOwnWrites`). Anybody else may edit the request's
metadata at any time (`Edit`), the UUID label included; that makes a new version, so it costs a racing
operator a conflict, and it may cost another write of the label. The status is written by operators only.

*Provenance.* In `ProxyMode` and `Pipeline` each URL, CA and token carries where it came from, so that
"never mixed" is a statement about values and not about control flow.

Hypotheses that the theorems name: provider operator names are unique (DEPLOYMENT.md:260), nobody but
the operators writes the request's status, nobody but the operators writes or deletes the secret (the
state has no other step on it), one reconcile runs at a time per operator and request (one stage per
operator), and, for a single source of every kubeconfig, the configuration store answers the same in
both loops (it is read at krkntargetrequest_controller.go:265 and again at proxy_helpers.go:444).

## Properties that fail, and exactly when

- The count test does not mean "every active operator has contributed" once a contributor has been
  deactivated: it is wrong exactly when the missing operators are at least one and at most as many as
  the departed contributors (`CountTestExact`). In every run, a completing write leaves out an operator
  that is active in the list it was decided on exactly when more contributors have departed from that
  list than there are contributions beyond the active count, and it leaves out as many as the difference
  (`CompletionLeavesOutIff`); there is such a run (`DepartureCompletesWithout`).
- A request can stay pending although the test holds for the newest list. There are two causes, and it
  is stuck exactly while the effect of one lasts (`StuckExactly`): a provider change that the
  contributors of a pending request satisfy (`DeactivationCanStick`), and a contribution that fails the
  test on the list its reconcile read but passes on the newest one (`StaleListCanStick`). Either
  everybody has contributed, or departed contributors are counted for missing operators (`StuckSplit`);
  the next undisturbed reconcile of any active operator completes the request, without those who are
  still missing (`StuckRepaired`).
- The AlreadyExists branch of the secret write replaces what others stored. A use of it breaks the
  publication invariant exactly when somebody else had contributed (`OverwriteExact`,
  `OverwriteCanUnpublish`), and over a whole run an announced contribution is missing from the secret
  exactly when somebody else took the branch after the operator last stored its entry
  (`UnpublishedExactly`). For an operator that reads its own writes it is missing for good
  (`EvictionIsPermanent`).
- A stored JSON `null` decodes without error; a publication panics on a nil map exactly when that is
  what it read (`NullPayloadPanics`).
- A stored document with a malformed cluster entry is not refused: it is taken for the old format and
  every cluster of every operator is lost, exactly when some entry is malformed (`MalformedIsMisread`).
- `getProxyConfig` checks readiness only at its first read: exactly a work that the call created and on
  which anything at all is reported before the second read, or an unready one that the first read did
  not see, enables proxy mode without having been Applied and Available (`EnabledMeansReady`,
  `EnabledUnreadyIff`, `EnabledWithoutReady`).
- An empty service CA arrives as "no bundle" and selects the host's trust roots (`ProxyCARoundTrip`).
- The proxy toggle shown in the schema accepts spellings that the runtime reads as off
  (`ProxyDefaultAgrees`, `ProxyDefaultCanDisagree`).
- A cluster called "group" makes two schema variables collide (`VariablesDistinctIff`).
- A configuration store that changes between the loops can produce a kubeconfig with a token and no
  URL and CA (`OneSourceIff`). Probe, target and stored entry of a cluster do not stay on one side of the
  proxy exactly when the store changed for a cluster whose proxy lookup succeeded and that has client
  configs, so that the target shows the URL of the other side, or that gets an entry without having any,
  so that the token is direct (`IsolationExact`).
- A cluster with missing proxy prerequisites is not "retried in next reconcile", as the package comment
  (internal/controller/constants.go:55-58) and the messages in proxy_helpers.go promise: the code
  announces it as unusable, and a contribution is final. No later version of the request changes it,
  and an operator that reads its own writes makes no second pass (`ContributionIsFinal`). An operator
  with a stale read may make one (`StaleReaderCollectsAgain`), but it rests on a version older than the
  operator's own last write and can replace the secret's entry only, never the status
  (`SecondPassIsStale`). Only a pass whose contribution was not stored, or
  another request, tries the cluster again.

## Model

| member | source | states |
|---|---|---|
| Providers.CountActiveProviders | internal/controller/provider_helpers.go:77-85 | the loop counts the active entries of the list |
| Providers.CheckProviderActive | internal/controller/provider_helpers.go:36-74 | proceeds exactly when the list could be read and the first entry with the operator's name is active |
| Providers.ActiveCountIsCardinality | internal/controller/provider_helpers.go:77-85 | the count is at least the number of active operators and equals it exactly when no operator has two active entries |
| Providers.SelfActiveIsMembership | internal/controller/provider_helpers.go:51-70 | with unique names, looking at the first entry only is the same as being among the active operators |
| Providers.CountTestIsEveryoneContributed | internal/controller/provider_helpers.go:89-91 | when only active operators contributed, the count test holds exactly when the active set is non-empty and equals the contributors |
| Providers.CountTestExact | internal/controller/provider_helpers.go:89-91 | for arbitrary contributors, the exact condition under which the count test answers "everyone has contributed" correctly |
| TargetSecret.MultiRoundTrip | internal/controller/krkntargetrequest_controller.go:763-790 | decoding an encoded multi-operator map gives it back, nil entries included |
| TargetSecret.OldRoundTrip | internal/controller/krkntargetrequest_controller.go:766-767 | decoding an encoded single-operator map gives it back |
| TargetSecret.OldEncodingDetected | internal/controller/krkntargetrequest_controller.go:762-774 | an old-format encoding is accepted as multi-operator exactly when it holds no cluster |
| TargetSecret.MigrationKeepsEveryCluster | internal/controller/krkntargetrequest_controller.go:765-774 | a non-empty old payload is read as the default operator's entry with every cluster kept |
| TargetSecret.ClusterIsReadByKey | internal/controller/krkntargetrequest_controller.go:82-86 | each part of a cluster is read from its own JSON key, and an absent or null key as nothing |
| TargetSecret.DocumentIsReadByKey | internal/controller/krkntargetrequest_controller.go:762-774 | a document with one operator, one cluster and three texts is read as just that |
| TargetSecret.OtherShapesRefused | internal/controller/krkntargetrequest_controller.go:763-771 | a payload that is no object, or an object of such values, is refused; an empty one is an empty map |
| TargetSecret.MalformedIsMisread | internal/controller/krkntargetrequest_controller.go:762-774 | a multi-operator document with a malformed cluster, and no other, is read as an old one whose clusters are the operators, all empty |
| TargetSecret.PublishEffect | internal/controller/krkntargetrequest_controller.go:784-835 | a successful write appends one readable version; normally it changes this operator's entry only, on the AlreadyExists branch this operator's entry is all that is left |
| TargetSecret.PublishSucceedsIff | internal/controller/krkntargetrequest_controller.go:747-835 | the exact combinations of reads and stored versions on which the write succeeds |
| TargetSecret.ClientsFindPublication | internal/controller/krkntargetrequest_controller.go:784-801 | after every successful write the stored document has, under the operator's name, exactly its clusters, each with cluster-name, cluster-api and kubeconfig as given |
| TargetSecret.PublishErrors | internal/controller/krkntargetrequest_controller.go:747-835 | the exact condition of each error |
| TargetSecret.OverwriteLoses | internal/controller/krkntargetrequest_controller.go:821-830 | the AlreadyExists branch removes exactly the entries of the other operators |
| TargetSecret.NullPayloadPanics | internal/controller/krkntargetrequest_controller.go:763-785 | a write panics exactly when the version it read is a JSON null, for all stored versions and all outcomes of the reads |
| TargetSecret.SecretStore.CreateManagedClustersSecret | internal/controller/krkntargetrequest_controller.go:743-838 | the branches as written change the stored versions as specified, leave them alone on every error, and on success leave a secret that operators decode and clients find as given |
| Completion.StructureHolds | internal/controller/krkntargetrequest_controller.go:143-236 | in every reachable state the stage of an operator fits the version it read: phase, label, own contribution, registration |
| CompletionSafety.SentAdvances | internal/controller/krkntargetrequest_controller.go:172-463 | whatever a winning write sends moves the request forward, adds at most this operator's entry, and never touches a completed request |
| CompletionSafety.MonotoneProtocol | internal/controller/krkntargetrequest_controller.go:143-234 | over any run and any stale reads: phases only move forward, no contribution is removed or changed, the status of a completed request is frozen |
| CompletionSafety.VersionsAdvance | internal/controller/krkntargetrequest_controller.go:143-234 | all stored versions form one chain of advances |
| CompletionSafety.CompletionIsCounted | internal/controller/krkntargetrequest_controller.go:441-456 | each write that completes satisfied the count test against the list its sender read, in which the sender was active |
| CompletionSafety.CompletionIsTimed | internal/controller/krkntargetrequest_controller.go:452-456 | the write that completes a request stores the time of its reconcile |
| CompletionSafety.TimedIffCompleted | internal/controller/krkntargetrequest_controller.go:213-216 | in every reachable state a request has a completion time exactly when it is completed |
| CompletionSafety.ContributorsWereActive | internal/controller/provider_helpers.go:51-73 | every contributor was listed as active at some time |
| CompletionSafety.NeverStuckPending | internal/controller/krkntargetrequest_controller.go:441-463 | with a fixed list no reachable pending request has all its contributions, and contributors are active operators |
| CompletionSafety.CompletedIffEveryoneContributed | internal/controller/krkntargetrequest_controller.go:451-461 | with a fixed list a request is completed exactly when the active set is non-empty and equals the contributors |
| CompletionStuck.StuckRepaired | internal/controller/krkntargetrequest_controller.go:203-234 | any active operator, whether or not it has contributed, completes a stuck request by its next undisturbed reconcile; who is missing then stays missing |
| CompletionStuck.StuckExactly | internal/controller/krkntargetrequest_controller.go:207-234 | in every run a request is stuck exactly when one of two causes happened and neither the list nor the request has changed since |
| CompletionStuck.StuckSplit | internal/controller/krkntargetrequest_controller.go:441-456 | a stuck request either has every active operator among its contributors or counts departed ones for missing ones |
| CompletionStuck.CompletionLeavesOutIff | internal/controller/krkntargetrequest_controller.go:441-463 | in every run the completing write leaves out an operator active in the list it read exactly when the contributors departed from that list outnumber the contributions beyond its active count; the difference is how many are left out, and that is final |
| CompletionBounds.WritesBounded | internal/controller/krkntargetrequest_controller.go:143-471 | at most n + 3 successful writes of one request by its operators, under any interleaving and staleness, and one more for each time somebody else removes the label; every other version is an edit by somebody else |
| CompletionBounds.WritesBoundedFixed | internal/controller/krkntargetrequest_controller.go:441-463 | with a fixed list there is no separate completion: at most one write per active provider and two more, apart from edits and rewritten labels |
| CompletionBounds.AttemptsAccounted | internal/controller/krkntargetrequest_controller.go:463-468 | every attempt to write is either a stored version or a counted conflict; all other versions are edits |
| CompletionBounds.NoLivelock | internal/controller/krkntargetrequest_controller.go:463-468 | when retries see what beat them, at most n * (n + 3 + d) conflicts happen in any run, where d counts the edits by others, those that remove the label twice; attempts are bounded by that and the writes |
| CompletionBounds.UndisturbedBounds | internal/controller/krkntargetrequest_controller.go:143-471 | left alone by everybody else: n + 3 stored versions, and with fresh retries n * (n + 3) conflicts and (n + 1) * (n + 3) attempts |
| CompletionReachable.CompletionAlwaysReachable | internal/controller/krkntargetrequest_controller.go:143-471 | from every reachable state, whatever happened to the provider list before, some continuation with the newest list completes the request |
| Publication.PublicationInvariant | internal/controller/krkntargetrequest_controller.go:422-436 | the secret holds every announced contribution in all runs that avoid the AlreadyExists branch |
| Publication.OverwriteExact | internal/controller/krkntargetrequest_controller.go:821-830 | each use of that branch, the first or not, leaves the invariant intact exactly when nobody else had contributed |
| Publication.UnpublishedExactly | internal/controller/krkntargetrequest_controller.go:821-830 | in every run an announced contribution is missing from the secret exactly when another operator took that branch after the entry was last stored |
| Publication.EvictionIsPermanent | internal/controller/krkntargetrequest_controller.go:203-236 | an operator that reads its own writes never stores its entry again once it has contributed, so an evicted entry stays missing |
| Publication.ContributionIsFinal | internal/controller/krkntargetrequest_controller.go:203-236 | in every run a contribution stays unchanged in every later version, and an operator that reads its own writes never collects again |
| Publication.SecondPassIsStale | internal/controller/krkntargetrequest_controller.go:203-236 | a second pass rests on a read older than the operator's own last write, and its status write cannot win |
| Publication.OneSnapshot | internal/controller/krkntargetrequest_controller.go:422-463 | if an operator reads its own writes, its status entry and its secret entry come from the same pass over the clusters, and the secret entry is there unless it was evicted |
| Publication.AnnouncedTargetsAreReachable | internal/controller/krkntargetrequest_controller.go:412-436 | unless its entry was evicted, an announced operator is in the secret, and every cluster in its entry is one of its targets, with the same API URL |
| CompletionRuns.DeactivationCanStick | internal/controller/krkntargetrequest_controller.go:207-234 | a run that ends stuck because the missing operator is deactivated |
| CompletionRuns.StaleListCanStick | internal/controller/krkntargetrequest_controller.go:441-463 | a run that ends stuck because a contributor judged by the list it had read before |
| CompletionRuns.DepartureCompletesWithout | internal/controller/krkntargetrequest_controller.go:207-234 | a run of three operators that ends completed without an active one, because a departed contributor is counted |
| CompletionRuns.StaleReaderCollectsAgain | internal/controller/krkntargetrequest_controller.go:203-236 | a run in which a stale read makes a contributor collect again |
| CompletionRuns.OverwriteCanUnpublish | internal/controller/krkntargetrequest_controller.go:821-830 | a run in which an announced contribution disappears from the secret |
| Reconciler.Reconcile | internal/controller/krkntargetrequest_controller.go:128-480 | the calls as written, with others acting in between and the pass over the clusters as one of them, are a run of the protocol; what was read decides the branch, an error happens only for a named failure, a requeue is exactly one lost race, a success says exactly which request is stored |
| Reconciler.InitializeStatus | internal/controller/krkntargetrequest_controller.go:144-184 | label and status writes store the labelled, pending request, or end in a lost race or the failure of one of the two calls |
| Reconciler.WriteUUIDLabel | internal/controller/krkntargetrequest_controller.go:152-169 | after the label is written the copy continues from the new version |
| Reconciler.CompleteExisting | internal/controller/krkntargetrequest_controller.go:210-234 | waits exactly when the count test fails, and otherwise stores the read request as completed unless it loses a race or the call fails |
| Reconciler.CollectAndPublish | internal/controller/krkntargetrequest_controller.go:238-428 | the pass is made and the secret holds what it yields before the status is written; it gives up exactly when the list of clusters or the secret fails |
| Reconciler.ContributeTargets | internal/controller/krkntargetrequest_controller.go:236-480 | stores the read request plus this operator's targets, completed exactly when the test says so, or loses a race, or fails for a failure of pass, secret or status call |
| Reconciler.NeverUndone | internal/controller/krkntargetrequest_controller.go:128-480 | between any two moments of an execution the stored request only advances |
| Reconciler.ReconciledTargetsAreReachable | internal/controller/krkntargetrequest_controller.go:247-436 | an operator whose steps are such reconciles publishes only consistent passes, so its secret entry agrees with its status entry without an assumption about snapshots |
| WorkerPool.BoundedConcurrency | internal/controller/krkntargetrequest_controller.go:549-567 | for every schedule at most eight probes run at once, at most one per input, on pairwise different slots |
| WorkerPool.FullConcurrency | internal/controller/krkntargetrequest_controller.go:549-567 | a schedule in which min(8, n) probes do run at once |
| WorkerPool.NoDeadlock | internal/controller/krkntargetrequest_controller.go:553-572 | until all workers are done some step is enabled |
| WorkerPool.EveryScheduleHasTheSameLength | internal/controller/krkntargetrequest_controller.go:556-572 | every schedule ends, after exactly 2n + 1 + min(8, n) steps |
| WorkerPool.PoolRefinesSequentialMap | internal/controller/krkntargetrequest_controller.go:539-574 | at the end each input was probed exactly once and slot i holds what its probe returned |
| WorkerPool.ProbeManagedClusters | internal/controller/krkntargetrequest_controller.go:539-574 | the pool under chosen steps returns the sequential map of the probe over the inputs |
| WorkerPool.EveryStepCanBeChosen | internal/controller/krkntargetrequest_controller.go:549-572 | the choices reach every enabled step, the close of the channel included, so every schedule is covered |
| ConfigKeys.KeysInvertible | internal/controller/krknoperatortargetproviderconfig_controller.go:408-415 | on label names both key formatters have a computable inverse |
| ConfigKeys.KeysInjective | internal/controller/proxy_helpers.go:81-85 | on label names both key formatters are injective |
| ConfigKeys.KeyFamiliesDisjoint | internal/controller/proxy_helpers.go:81-85 | a secret key is never a proxy key |
| ConfigKeys.KeyText | internal/controller/krknoperatortargetproviderconfig_controller.go:408-415 | the prefix and the name of a key, character by character |
| ConfigKeys.ChoiceIsConfigured | internal/controller/krkntargetrequest_controller.go:664-684 | a configured, non-empty secret name is the one used and "application-manager" otherwise; proxy mode is on for three spellings only |
| ConfigKeys.ChoicesIndependent | internal/controller/krkntargetrequest_controller.go:664-684 | setting a key of one cluster changes no other cluster's secret or proxy choice, and the two kinds of key do not interfere |
| ConfigKeys.ProxyDefaultAgrees | internal/controller/krknoperatortargetproviderconfig_controller.go:446-467 | proxy mode on implies the toggle shows "true"; the two agree exactly when a truthy value is stored in normal form |
| ConfigKeys.ProxyDefaultCanDisagree | internal/controller/proxy_helpers.go:70 | the spelling "True" is on in the schema and off at run time |
| ConfigKeys.NormalizeIs | internal/controller/krknoperatortargetproviderconfig_controller.go:454 | blanks around a value do not matter and capitals read as small letters |
| ConfigKeys.ToggleText | internal/controller/krknoperatortargetproviderconfig_controller.go:446-467 | the shown toggle is "true" exactly for the three spellings after that, and "false" otherwise |
| ConfigKeys.GetDefaultSecret | internal/controller/krknoperatortargetproviderconfig_controller.go:474-506 | the default is a listed secret, the one the runtime uses exactly when that is listed, and otherwise "application-manager" if listed, else the first |
| ConfigSchema.ListSecretsInNamespace | internal/controller/krknoperatortargetproviderconfig_controller.go:419-442 | the names of exactly the secrets with the keys "ca.crt" and "token" |
| ConfigSchema.BuildConfigSchema | internal/controller/krknoperatortargetproviderconfig_controller.go:248-383 | the two loops build the specified list of fields |
| ConfigSchema.ReferencesResolve | internal/controller/krknoperatortargetproviderconfig_controller.go:326-379 | every group and every exclusion names a field of the right kind emitted earlier |
| ConfigSchema.SchemaLayout | internal/controller/krknoperatortargetproviderconfig_controller.go:346-383 | the number of fields, and a toggle excludes its cluster's selector exactly when that selector was emitted |
| ConfigSchema.GroupContents | internal/controller/krknoperatortargetproviderconfig_controller.go:263-292 | the schema starts with the two named groups |
| ConfigSchema.SelectorContents | internal/controller/krknoperatortargetproviderconfig_controller.go:296-344 | selectors come in cluster order, are required, and offer exactly the usable secrets, sorted, with the default explained by the runtime's choice |
| ConfigSchema.ToggleContents | internal/controller/krknoperatortargetproviderconfig_controller.go:347-383 | toggles come in cluster order, are optional, offer "true" and "false", and show "true" whenever proxy mode is on |
| ConfigSchema.DefaultsAllowed | internal/controller/krknoperatortargetproviderconfig_controller.go:321-368 | every default is one of the comma-separated allowed values of its field |
| ConfigSchema.VariablesDistinctIff | internal/controller/krknoperatortargetproviderconfig_controller.go:263-379 | variables are pairwise distinct exactly when no cluster is called "group" |
| ConfigSchema.OrderIndependent | internal/controller/krknoperatortargetproviderconfig_controller.go:312-313 | the schema does not depend on the order in which secrets are listed |
| ProxyMode.ProxyURLsDiffer | internal/controller/proxy_helpers.go:122-130 | different clusters have different proxy URLs |
| ProxyMode.ProxyURLText | internal/controller/proxy_helpers.go:89-203 | there is a proxy URL exactly when there is a service with a port, and it names the first service, its namespace, its first port and the cluster |
| ProxyMode.DecimalReads | internal/controller/proxy_helpers.go:122-124 | the port is written in decimal |
| ProxyMode.ProxyCredentials | internal/controller/proxy_helpers.go:208-245 | the CA decodes to the text under "service-ca.crt", and the token is the operator's own |
| ProxyMode.Hub.CreateManifestWork | internal/controller/proxy_helpers.go:351-432 | creates the work for the operator's proxy user; an existing one is kept and is not an error |
| ProxyMode.Hub.EnsureManifestWork | internal/controller/proxy_helpers.go:249-332 | creates only when absent, with the operator's proxy user; lets an existing work pass exactly when Applied and Available are both True |
| ProxyMode.Hub.GetProxyConfig | internal/controller/proxy_helpers.go:436-532 | disabled exactly when proxy mode is off, otherwise an error or a configuration filled from the proxy alone, under the stated exact condition |
| ProxyMode.EnabledMeansReady | internal/controller/proxy_helpers.go:453-490 | exactly when an enabled configuration rests on a work that was not Applied and Available at the first read |
| ProxyMode.EnabledUnreadyIff | internal/controller/proxy_helpers.go:453-490 | for every call that has a proxy to offer, the exact inputs on which it is enabled on an unready work |
| ProxyMode.EnabledReadyIff | internal/controller/proxy_helpers.go:453-520 | on a ready work, the exact inputs on which a call succeeds |
| ProxyMode.EnabledWithoutReady | internal/controller/proxy_helpers.go:276-282 | a call that enables proxy mode on a work that was reported as not applied |
| ProxyMode.CreationsBalance | internal/controller/proxy_helpers.go:249-283 | over any number of calls, whatever each one meets before and during it, works present and created balance with works deleted and left |
| ProxyMode.RetryProxyConfig | internal/controller/proxy_helpers.go:436-532 | in successive reconciles the answers are errors or filled configurations while proxy mode is on, undisturbed calls enable it only on a ready work, and works are created at most once more than they are deleted |
| Pipeline.ClusterHealthStatus | internal/controller/krkntargetrequest_controller.go:579-599 | the loop returns the health of the condition list |
| Pipeline.HealthyIff | internal/controller/krkntargetrequest_controller.go:579-599 | healthy exactly when the first Available condition is True |
| Pipeline.HealthIs | internal/controller/krkntargetrequest_controller.go:579-599 | what each status and reason of the first Available condition means |
| Pipeline.HealthWithoutCondition | internal/controller/krkntargetrequest_controller.go:579-599 | without such a condition the health is unknown |
| Pipeline.BuildProbeInputs | internal/controller/krkntargetrequest_controller.go:251-292 | one input per cluster in order; a proxied cluster is probed through the proxy with the proxy CA or none, or not at all |
| Pipeline.ProcessCluster | internal/controller/krkntargetrequest_controller.go:300-418 | the gates as written yield the specified target and secret entry; the proxy lookup succeeds exactly when the hub lets it, and changes the works accordingly |
| Pipeline.ProcessClusters | internal/controller/krkntargetrequest_controller.go:300-419 | one target per input in order, and the secret map collects the entries |
| Pipeline.RunPass | internal/controller/krkntargetrequest_controller.go:247-419 | for every cluster list and all outcomes: one target per cluster with the URL, on-line state and health it should show; the secret holds exactly the clusters that passed every gate, each with its own kubeconfig if names are unique; both as they are stored; exactly when something crosses the proxy boundary |
| Pipeline.CollectHolds | internal/controller/krkntargetrequest_controller.go:412-416 | the secret holds exactly the names that got an entry |
| Pipeline.EntryIff | internal/controller/krkntargetrequest_controller.go:315-418 | a cluster is stored exactly when it passed every gate, and then URL of entry, kubeconfig and target are the same |
| Pipeline.OneSource | internal/controller/krkntargetrequest_controller.go:703-716 | URL, CA and token of a kubeconfig come from one source, the one the configuration names |
| Pipeline.CandidateFills | internal/controller/krkntargetrequest_controller.go:703-716 | a kubeconfig names its cluster and has URL, CA and token of the proxy, or of the first client config and the configured secret |
| Pipeline.OneSourceIff | internal/controller/krkntargetrequest_controller.go:315-345 | without a stable store a single source is kept except in one named case |
| Pipeline.ProxyIsolation | internal/controller/krkntargetrequest_controller.go:263-291 | for a proxied cluster no probe, target or entry carries a direct value and no probe that goes out trusts the cluster's CA; the converse for direct clusters |
| Pipeline.IsolationExact | internal/controller/krkntargetrequest_controller.go:323-387 | the exact condition under which a store that changes between the loops breaks isolation of probe, target, stored entry and kubeconfig, on either side of the proxy |
| Pipeline.CredentialGate | internal/controller/krkntargetrequest_controller.go:396-408 | a stored kubeconfig of an online and healthy cluster was accepted by the credential probe; a rejected one is off line, unhealthy and not stored |
| Pipeline.HealthSound | internal/controller/krkntargetrequest_controller.go:605-628 | exactly when a target is healthy; healthy implies on line; off line implies unknown except after a rejection |
| Pipeline.SnapshotAgrees | internal/controller/krkntargetrequest_controller.go:412-418 | both outputs of a pass agree, whether or not cluster names repeat |
| Pipeline.SnapshotPosted | internal/controller/krkntargetrequest_controller.go:404-418 | the stored target is on line exactly when its probe was and its credentials were not rejected, and the stored entries carry the rendered kubeconfigs |
| Liveness.CheckClusterAPILiveness | internal/controller/cluster_liveness.go:66-127 | no error exactly when healthy; the endpoints are tried in order under the base path while they answer 404 or 405, and the last one tried decides, in numbers |
| Liveness.EndpointPathIs | internal/controller/cluster_liveness.go:95 | whatever slashes there are at the joint, a health path is appended to the base path after one slash |
| Liveness.ProxiedEndpoints | internal/controller/cluster_liveness.go:33 | a proxied cluster is asked under its own path |
| CABundle.RoundTrip | internal/controller/proxy_helpers.go:217 | base64 decoding gives back every encoded byte sequence |
| CABundle.Alphabet | internal/controller/proxy_helpers.go:217 | the digits are the standard alphabet |
| CABundle.TestVectors | internal/controller/proxy_helpers.go:217 | test vectors of section 10 of RFC 4648 |
| CABundle.BreaksIgnored | internal/controller/cluster_liveness.go:137 | line breaks do not matter to the decoder |
| CABundle.PaddingEnds | internal/controller/cluster_liveness.go:137 | nothing may follow the padding |
| CABundle.ForeignByteRejected | internal/controller/cluster_liveness.go:137-142 | text with a byte outside the alphabet never decodes |
| CABundle.ClusterAPITLSRoots | internal/controller/cluster_liveness.go:130-155 | no bundle selects the host's roots, an encoded CA is trusted as its original bytes, and text with a byte outside the base64 alphabet is trusted as it is |
| CABundle.ProxyCARoundTrip | internal/controller/proxy_helpers.go:208-224 | the proxy CA is trusted byte for byte, except that an empty one selects the host's roots |
| CABundle.RawPEMKept | internal/controller/cluster_liveness.go:137-142 | PEM text is used as it is, because its header cannot be base64 |

## Left out

- ConfigKeys.SecretKey: upper-casing and lower-casing are modelled for ASCII letters only; cluster names are labels of section 2.1 of RFC 1123.
- TargetSecret.Read: JSON is a value, not text; matching of field names without regard to case, repeated keys and replacement of invalid UTF-8 are not modelled.
- CABundle.ClusterAPITLSRoots: parsing of certificates, and the error when a bundle holds none, is not modelled.
- Pipeline.RunPass: the anonymous probe is an arbitrary function of the URL and CA it is given, the credential probe one of the kubeconfig; their error texts and check times are left out, and `getClusterSecret` failing for another reason than a missing secret counts as missing.
- Reconciler.Reconcile: what a pass over the clusters meets is a parameter, and creation of owner references and their errors are folded into a failed step.
- Completion.Enabled: a write whose reply is lost after it was stored is not modelled; every other error is an `Abort`.
- What triggers a reconcile: only request events do (internal/controller/krkntargetrequest_controller.go:877-882), so after a provider change the repairing reconcile may have to wait for the next event or resync.
- Deletion of old requests and of the secret owned by them: it ends a run; an error of that clean-up after a stored status is not an outcome of its own.
- The provider-config `Reconcile`: its result rests on `UpdateProviderConfig`, which belongs to another repository.
- Rendering of kubeconfig and ManifestWork YAML: only which values go where is kept; descriptions in the schema and its JSON marshalling are left out as well.
- HTTP transport, TLS handshakes, redirects, contexts and timeouts: an endpoint's outcome is a parameter.
- Config map syncing, command line, manager wiring, RBAC manifests, logging and release scripts.
