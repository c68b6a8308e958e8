/** The two loops of Reconcile that turn the managed clusters into probe inputs, and the probe
    results into Status.TargetData and the secret. */
module Pipeline {
  import opened Types
  import opened ConfigKeys
  import opened ProxyMode
  import opened Liveness
  import CABundle
  import WorkerPool

  datatype ClientConfig = ClientConfig(url: string, caBundle: CABundle.Bytes)

  datatype ClusterCondition = ClusterCondition(kind: string, status: string, reason: string)

  datatype ManagedCluster = ManagedCluster(name: string, configs: seq<ClientConfig>, conditions: seq<ClusterCondition>)

  const AVAILABLE := "ManagedClusterConditionAvailable"

  // ---------- health ----------

  method ClusterHealthStatus(cluster: ManagedCluster) returns (status: HealthStatus)
    ensures status == HealthOf(cluster.conditions)
  {
    for i := 0 to |cluster.conditions|
      invariant HealthOf(cluster.conditions) == HealthOf(cluster.conditions[i..])
    {
      var condition := cluster.conditions[i];
      assert cluster.conditions[i..][1..] == cluster.conditions[i + 1..];
      if condition.kind != AVAILABLE {
        continue;
      }
      match condition.status {
        case "True" => return Healthy;
        case "False" => return Unhealthy;
        case "Unknown" =>
          if condition.reason == "ManagedClusterLeaseUpdateStopped" {
            return Unhealthy;
          }
        case _ =>
      }
      return Unknown;
    }
    return Unknown;
  }

  function HealthOf(conditions: seq<ClusterCondition>): HealthStatus {
    if conditions == [] then Unknown
    else if conditions[0].kind != AVAILABLE then HealthOf(conditions[1..])
    else if conditions[0].status == "True" then Healthy
    else if conditions[0].status == "False" then Unhealthy
    else if conditions[0].status == "Unknown" && conditions[0].reason == "ManagedClusterLeaseUpdateStopped"
    then Unhealthy
    else Unknown
  }

  /** The first Available condition decides. */
  lemma {:induction false} HealthyIff(conditions: seq<ClusterCondition>)
    ensures HealthOf(conditions) == Healthy <==>
            exists i :: 0 <= i < |conditions| && conditions[i].kind == AVAILABLE && conditions[i].status == "True"
                        && forall j :: 0 <= j < i ==> conditions[j].kind != AVAILABLE
    ensures HealthOf(conditions) != NotSet
  {
    if conditions != [] && conditions[0].kind != AVAILABLE {
      var rest := conditions[1..];
      HealthyIff(rest);
      if i :| 0 <= i < |rest| && rest[i].kind == AVAILABLE && rest[i].status == "True"
              && forall j :: 0 <= j < i ==> rest[j].kind != AVAILABLE {
        assert conditions[i + 1] == rest[i];
        assert forall j :: 0 < j < i + 1 ==> conditions[j] == rest[j - 1];
      }
      if i :| 0 <= i < |conditions| && conditions[i].kind == AVAILABLE && conditions[i].status == "True"
              && forall j :: 0 <= j < i ==> conditions[j].kind != AVAILABLE {
        assert rest[i - 1] == conditions[i];
        assert forall j :: 0 <= j < i - 1 ==> rest[j] == conditions[j + 1];
      }
    }
  }

  /** Position i is that of the first condition about availability. */
  ghost predicate FirstAvailable(conditions: seq<ClusterCondition>, i: nat) {
    && i < |conditions| && conditions[i].kind == "ManagedClusterConditionAvailable"
    && forall j :: 0 <= j < i ==> conditions[j].kind != "ManagedClusterConditionAvailable"
  }

  /** What each status of that condition means; without one the health is unknown. */
  lemma {:induction false} HealthIs(conditions: seq<ClusterCondition>, i: nat)
    requires FirstAvailable(conditions, i)
    ensures var c := conditions[i];
            HealthOf(conditions)
            == if c.status == "True" then Healthy
               else if c.status == "False" then Unhealthy
               else if c.status == "Unknown" && c.reason == "ManagedClusterLeaseUpdateStopped" then Unhealthy
               else Unknown
  {
    if i > 0 {
      assert conditions[1..][i - 1] == conditions[i];
      HealthIs(conditions[1..], i - 1);
    }
  }

  lemma {:induction false} HealthWithoutCondition(conditions: seq<ClusterCondition>)
    requires forall i: nat :: !FirstAvailable(conditions, i)
    ensures HealthOf(conditions) == Unknown
  {
    if conditions != [] {
      assert !FirstAvailable(conditions, 0);
      forall i: nat ensures !FirstAvailable(conditions[1..], i) {
        if FirstAvailable(conditions[1..], i) {
          assert FirstAvailable(conditions, i + 1);
        }
      }
      HealthWithoutCondition(conditions[1..]);
    }
  }

  function HealthAfterLiveness(cluster: ManagedCluster, liveness: LivenessResult): HealthStatus {
    if !liveness.online then Unknown
    else if !liveness.healthy then Unhealthy
    else HealthOf(cluster.conditions)
  }

  function HealthAfterProxyFailure(liveness: LivenessResult): HealthStatus {
    if !liveness.online then Unknown else Unhealthy
  }

  // ---------- first loop ----------

  datatype ProbeInput = ProbeInput(
    cluster: ManagedCluster,
    clusterURL: Value<string>,
    clusterCA: Value<CABundle.Bytes>,
    probeURL: Value<string>,
    probeCA: Value<CABundle.Bytes>,
    proxyMode: bool)

  const NO_TEXT := Value(Empty, "")
  const NO_BYTES: Value<CABundle.Bytes> := Value(Empty, [])

  /** Builds the probe inputs; `envs[i]` is the hub as the iteration for cluster i sees it. */
  method BuildProbeInputs(clusters: seq<ManagedCluster>, envs: seq<Environment>) returns (inputs: seq<ProbeInput>)
    requires |envs| == |clusters|
    ensures |inputs| == |clusters|
    ensures forall i :: 0 <= i < |clusters| ==> inputs[i].cluster == clusters[i] && Sound(inputs[i], envs[i])
    ensures forall i :: 0 <= i < |clusters| && clusters[i].configs != [] ==>
              && inputs[i].clusterURL == Value(Direct(clusters[i].name), clusters[i].configs[0].url)
              && inputs[i].clusterCA == Value(Direct(clusters[i].name), clusters[i].configs[0].caBundle)
    ensures forall i :: 0 <= i < |clusters| && clusters[i].configs == [] ==>
              inputs[i].clusterURL == Value(Empty, "") && inputs[i].clusterCA == Value(Empty, [])
  {
    inputs := [];
    for i := 0 to |clusters|
      invariant |inputs| == i
      invariant forall k :: 0 <= k < i ==> inputs[k].cluster == clusters[k] && Sound(inputs[k], envs[k])
    {
      var cluster, env := clusters[i], envs[i];
      var clusterURL, clusterCA := NO_TEXT, NO_BYTES;
      if |cluster.configs| > 0 {
        clusterURL := Value(Direct(cluster.name), cluster.configs[0].url);
        clusterCA := Value(Direct(cluster.name), cluster.configs[0].caBundle);
      }
      var probeURL, probeCA := clusterURL, clusterCA;
      var proxyMode := IsProxyModeEnabled(env.store, cluster.name);
      if proxyMode {
        probeURL := NO_TEXT;
        var proxyURL := GetProxyURL(env, cluster.name);
        if proxyURL.Ok? {
          probeURL := proxyURL.value;
          var proxyCA := GetProxyCA(env, cluster.name);
          if proxyCA.Err? {
            probeCA := NO_BYTES;
          } else {
            probeCA := proxyCA.value;
          }
        }
      }
      inputs := inputs + [ProbeInput(cluster, clusterURL, clusterCA, probeURL, probeCA, proxyMode)];
    }
  }

  function ClusterURL(cluster: ManagedCluster): Value<string> {
    if cluster.configs == [] then NO_TEXT else Value(Direct(cluster.name), cluster.configs[0].url)
  }

  function ClusterCA(cluster: ManagedCluster): Value<CABundle.Bytes> {
    if cluster.configs == [] then NO_BYTES else Value(Direct(cluster.name), cluster.configs[0].caBundle)
  }

  /** What may be probed, and with which trust: without proxy mode the cluster's own endpoint and CA;
      with it the proxy's or nothing, and never the proxy's URL with the cluster's CA. */
  ghost predicate Sound(input: ProbeInput, env: Environment) {
    var name := input.cluster.name;
    && (input.proxyMode <==> IsProxyModeEnabled(env.store, name))
    && input.clusterURL == ClusterURL(input.cluster) && input.clusterCA == ClusterCA(input.cluster)
    && (!input.proxyMode ==> input.probeURL == input.clusterURL && input.probeCA == input.clusterCA)
    && (input.proxyMode && GetProxyURL(env, name).Err? ==> input.probeURL == NO_TEXT)
    && (input.proxyMode && GetProxyURL(env, name).Ok? ==>
          && input.probeURL == GetProxyURL(env, name).value
          && input.probeCA == (if GetProxyCA(env, name).Ok? then GetProxyCA(env, name).value else NO_BYTES))
  }

  // ---------- second loop ----------

  datatype Kubeconfig = Kubeconfig(name: string, server: Value<string>, ca: Value<CABundle.Bytes>, token: Value<string>)

  datatype Target = Target(clusterName: string, apiURL: Value<string>, online: bool, status: HealthStatus)

  datatype Entry = Entry(clusterName: string, api: Value<string>, kubeconfig: Kubeconfig)

  function GenerateKubeconfig(name: string, url: Value<string>, ca: Value<CABundle.Bytes>, token: Value<string>,
                              proxy: ProxyConfig): Kubeconfig
  {
    if proxy.enabled then Kubeconfig(name, proxy.url, proxy.ca, proxy.token)
    else Kubeconfig(name, url, ca, token)
  }

  /** The token key of the secret configured for the cluster, in the cluster's namespace. */
  function ClusterToken(env: Environment, name: string): Option<Value<string>> {
    var key := (name, GetConfiguredSecretName(env.store, name));
    if key in env.secrets && "token" in env.secrets[key]
    then Some(Value(Direct(name), env.secrets[key]["token"]))
    else None
  }

  /** What the proxy lookup of this iteration returned. */
  type Lookup = Result<ProxyConfig, ProxyError>

  /** The contract of GetProxyConfig that the loop relies on. */
  ghost predicate Genuine(lookup: Lookup, env: Environment, name: string) {
    if !IsProxyModeEnabled(env.store, name) then lookup == Ok(DISABLED)
    else lookup.Ok? ==>
           && GetProxyURL(env, name).Ok? && GetProxyCA(env, name).Ok? && GetOperatorToken(env, name).Ok?
           && lookup.value == ProxyConfig(true, GetProxyURL(env, name).value, GetProxyCA(env, name).value,
                                          GetOperatorToken(env, name).value)
  }

  /** The kubeconfig built for a cluster, if every gate before the credential check is passed. */
  function Candidate(input: ProbeInput, lookup: Lookup, env: Environment): Option<Kubeconfig> {
    var name := input.cluster.name;
    if (input.cluster.configs == [] && !input.proxyMode) || lookup.Err? then None
    else if lookup.value.enabled
    then Some(GenerateKubeconfig(name, input.clusterURL, input.clusterCA, NO_TEXT, lookup.value))
    else match ClusterToken(env, name)
         case Some(token) => Some(GenerateKubeconfig(name, input.clusterURL, input.clusterCA, token, lookup.value))
         case None => None
  }

  predicate Rejected(liveness: LivenessResult, candidate: Option<Kubeconfig>, accepts: Kubeconfig -> bool) {
    candidate.Some? && liveness.online && liveness.healthy && !accepts(candidate.value)
  }

  /** The cluster's entry in the secret. */
  function EntryOf(input: ProbeInput, liveness: LivenessResult, lookup: Lookup, env: Environment,
                   accepts: Kubeconfig -> bool): Option<Entry>
  {
    var candidate := Candidate(input, lookup, env);
    if candidate.None? || Rejected(liveness, candidate, accepts) then None
    else Some(Entry(input.cluster.name, candidate.value.server, candidate.value))
  }

  /** The cluster's target. */
  function TargetOf(input: ProbeInput, liveness: LivenessResult, lookup: Lookup, env: Environment,
                    accepts: Kubeconfig -> bool): Target
  {
    var rejected := Rejected(liveness, Candidate(input, lookup, env), accepts);
    var skipped := input.cluster.configs == [] && !input.proxyMode;
    Target(
      input.cluster.name,
      if skipped || lookup.Err? then input.probeURL
      else if lookup.value.enabled then lookup.value.url else input.clusterURL,
      liveness.online && !rejected,
      if rejected then Unhealthy
      else if !skipped && lookup.Err? then HealthAfterProxyFailure(liveness)
      else HealthAfterLiveness(input.cluster, liveness))
  }

  /** Entries by cluster name; of clusters with the same name the last one stays. */
  function Collect(entries: seq<Option<Entry>>): map<string, Entry> {
    if entries == [] then map[]
    else
      var before, last := Collect(entries[..|entries| - 1]), entries[|entries| - 1];
      if last.Some? then before[last.value.clusterName := last.value] else before
  }

  /** The cluster has nothing to connect to: neither client configs nor, as the first loop saw it, a proxy. */
  predicate Skipped(cluster: ManagedCluster, proxyMode: bool) {
    cluster.configs == [] && !proxyMode
  }

  /** The proxy lookup, if it is made, succeeds exactly when the hub lets it. */
  ghost predicate LookedUp(input: ProbeInput, lookup: Lookup, env: Environment, works: map<string, Work>, user: string,
                           weather: Weather)
  {
    !Skipped(input.cluster, input.proxyMode) ==>
      (lookup.Ok? && lookup.value.enabled <==> CanProxy(env, works, input.cluster.name, user, weather))
  }

  /** What one iteration of the second loop produces. */
  ghost predicate Processed(input: ProbeInput, liveness: LivenessResult, lookup: Lookup, env: Environment,
                            accepts: Kubeconfig -> bool, target: Target, entry: Option<Entry>)
  {
    && Genuine(lookup, env, input.cluster.name)
    && target == TargetOf(input, liveness, lookup, env, accepts)
    && entry == EntryOf(input, liveness, lookup, env, accepts)
  }

  /** Iteration i of the second loop, on the works it meets. */
  ghost predicate Iterated(pass: PassInput, i: nat, input: ProbeInput, liveness: LivenessResult, lookup: Lookup,
                           target: Target, entry: Option<Entry>)
    requires pass.Matches() && i < |pass.clusters|
  {
    && Processed(input, liveness, lookup, pass.envs2[i], pass.accepts, target, entry)
    && LookedUp(input, lookup, pass.envs2[i], pass.WorksMet(i), pass.user, pass.weathers[i])
  }

  /** The iterations so far. */
  ghost predicate Iterations(pass: PassInput, inputs: seq<ProbeInput>, results: seq<LivenessResult>,
                             lookups: seq<Lookup>, targets: seq<Target>, entries: seq<Option<Entry>>)
    requires pass.Matches() && |inputs| == |results| == |pass.clusters|
  {
    && |lookups| == |targets| == |entries| <= |inputs|
    && forall i :: 0 <= i < |entries| ==> Iterated(pass, i, inputs[i], results[i], lookups[i], targets[i], entries[i])
  }

  lemma OneMoreIteration(pass: PassInput, inputs: seq<ProbeInput>, results: seq<LivenessResult>, lookups: seq<Lookup>,
                         targets: seq<Target>, entries: seq<Option<Entry>>, lookup: Lookup, target: Target,
                         entry: Option<Entry>)
    requires pass.Matches() && |inputs| == |results| == |pass.clusters|
    requires Iterations(pass, inputs, results, lookups, targets, entries) && |entries| < |inputs|
    requires Iterated(pass, |entries|, inputs[|entries|], results[|entries|], lookup, target, entry)
    ensures Iterations(pass, inputs, results, lookups + [lookup], targets + [target], entries + [entry])
  {}

  lemma CollectNext(entries: seq<Option<Entry>>, entry: Option<Entry>)
    ensures Collect(entries + [entry])
            == if entry.Some? then Collect(entries)[entry.value.clusterName := entry.value] else Collect(entries)
  {
    assert (entries + [entry])[..|entries|] == entries;
  }

  /** The second loop. `lookups` and `entries` record what happened. */
  method ProcessClusters(hub: Hub, pass: PassInput, inputs: seq<ProbeInput>, results: seq<LivenessResult>)
    returns (targetData: seq<Target>, clustersData: map<string, Entry>,
             ghost lookups: seq<Lookup>, ghost entries: seq<Option<Entry>>)
    requires pass.Matches() && |inputs| == |results| == |pass.clusters|
    requires forall i :: 0 <= i < |inputs| ==> inputs[i].cluster == pass.clusters[i] && Sound(inputs[i], pass.envs1[i])
    requires hub.works == pass.works && hub.user == pass.user
    modifies hub
    ensures |entries| == |inputs| && Iterations(pass, inputs, results, lookups, targetData, entries)
    ensures clustersData == Collect(entries)
    ensures hub.works == pass.WorksMet(|inputs|)
  {
    targetData, clustersData, lookups, entries := [], map[], [], [];
    for i := 0 to |inputs|
      invariant |entries| == i && Iterations(pass, inputs, results, lookups, targetData, entries)
      invariant clustersData == Collect(entries)
      invariant hub.works == pass.WorksMet(i)
    {
      var target, entry;
      ghost var lookup;
      target, entry, lookup := ProcessNext(hub, pass, i, inputs[i], results[i]);
      CollectNext(entries, entry);
      OneMoreIteration(pass, inputs, results, lookups, targetData, entries, lookup, target, entry);
      if entry.Some? {
        clustersData := clustersData[entry.value.clusterName := entry.value];
      }
      targetData := targetData + [target];
      lookups := lookups + [lookup];
      entries := entries + [entry];
    }
  }

  method ProcessNext(hub: Hub, pass: PassInput, i: nat, input: ProbeInput, liveness: LivenessResult)
    returns (target: Target, entry: Option<Entry>, ghost lookup: Lookup)
    requires pass.Matches() && i < |pass.clusters|
    requires input.cluster == pass.clusters[i] && Sound(input, pass.envs1[i])
    requires hub.works == pass.WorksMet(i) && hub.user == pass.user
    modifies hub
    ensures Iterated(pass, i, input, liveness, lookup, target, entry)
    ensures hub.works == pass.WorksMet(i + 1)
  {
    target, entry, lookup := ProcessCluster(hub, input, liveness, pass.envs2[i], pass.weathers[i], pass.accepts);
  }

  /** One iteration; each return is a `continue`, or the end, of the loop body. */
  method ProcessCluster(hub: Hub, input: ProbeInput, liveness: LivenessResult, env: Environment, weather: Weather,
                        accepts: Kubeconfig -> bool)
    returns (target: Target, entry: Option<Entry>, ghost lookup: Lookup)
    modifies hub
    ensures Processed(input, liveness, lookup, env, accepts, target, entry)
    ensures LookedUp(input, lookup, env, old(hub.works), hub.user, weather)
    ensures hub.works == if Skipped(input.cluster, input.proxyMode) then old(hub.works)
                         else AfterCall(env, old(hub.works), input.cluster.name, hub.user, weather)
  {
    var name := input.cluster.name;
    target := Target(name, input.probeURL, liveness.online, NotSet);
    entry, lookup := None, if IsProxyModeEnabled(env.store, name) then Err(NoProxyService) else Ok(DISABLED);
    var health := ClusterHealthStatus(input.cluster);
    var clusterStatus := if !liveness.online then Unknown else if !liveness.healthy then Unhealthy else health;
    if |input.cluster.configs| == 0 && !input.proxyMode {
      target := target.(status := clusterStatus);
      return;
    }
    var proxyConfig := hub.GetProxyConfig(env, name, weather);
    lookup := proxyConfig;
    if proxyConfig.Err? {
      target := target.(apiURL := input.probeURL, status := HealthAfterProxyFailure(liveness));
      return;
    }
    var actualURL := input.clusterURL;
    if proxyConfig.value.enabled {
      actualURL := proxyConfig.value.url;
    }
    target := target.(apiURL := actualURL);
    var token := NO_TEXT;
    if proxyConfig.value.enabled {
      token := proxyConfig.value.token;
    } else {
      var key := (name, GetConfiguredSecretName(env.store, name));
      if key !in env.secrets || "token" !in env.secrets[key] {
        target := target.(status := clusterStatus);
        return;
      }
      token := Value(Direct(name), env.secrets[key]["token"]);
    }
    var kubeconfig := GenerateKubeconfig(name, input.clusterURL, input.clusterCA, token, proxyConfig.value);
    if liveness.online && liveness.healthy {
      if !accepts(kubeconfig) {
        target := target.(online := false, status := Unhealthy);
        return;
      }
    }
    target := target.(status := clusterStatus);
    entry := Some(Entry(name, actualURL, kubeconfig));
  }

  // ---------- completeness and agreement ----------

  /** The secret holds exactly the clusters with an entry, each under its own name. */
  lemma {:induction false} CollectHolds(entries: seq<Option<Entry>>, name: string)
    ensures name in Collect(entries) <==>
              exists i :: 0 <= i < |entries| && entries[i].Some? && entries[i].value.clusterName == name
    ensures name in Collect(entries) ==>
              exists i :: 0 <= i < |entries| && entries[i] == Some(Collect(entries)[name])
                          && entries[i].value.clusterName == name
  {
    if entries != [] {
      var n := |entries| - 1;
      CollectHolds(entries[..n], name);
      assert forall i :: 0 <= i < n ==> entries[..n][i] == entries[i];
      if entries[n].Some? && entries[n].value.clusterName == name {
        assert entries[n] == Some(Collect(entries)[name]);
      }
    }
  }

  /** With unique names nothing is overwritten. */
  lemma CollectKeeps(entries: seq<Option<Entry>>, i: nat)
    requires i < |entries| && entries[i].Some?
    requires forall j, k :: 0 <= j < k < |entries| && entries[j].Some? && entries[k].Some?
                            ==> entries[j].value.clusterName != entries[k].value.clusterName
    ensures entries[i].value.clusterName in Collect(entries)
    ensures Collect(entries)[entries[i].value.clusterName] == entries[i].value
  {
    CollectHolds(entries, entries[i].value.clusterName);
  }

  /** One cluster, completely: it has an entry exactly when it passed every gate; the entry is for
      the cluster itself; and its API URL is that of the target and of the kubeconfig. */
  lemma EntryIff(input: ProbeInput, liveness: LivenessResult, lookup: Lookup, env: Environment,
                 accepts: Kubeconfig -> bool)
    ensures var entry := EntryOf(input, liveness, lookup, env, accepts);
            var target := TargetOf(input, liveness, lookup, env, accepts);
            && (entry.Some? <==>
                  && (input.cluster.configs != [] || input.proxyMode)
                  && lookup.Ok?
                  && (lookup.value.enabled || ClusterToken(env, input.cluster.name).Some?)
                  && (liveness.online && liveness.healthy ==> accepts(Candidate(input, lookup, env).value)))
            && target.clusterName == input.cluster.name
            && (entry.Some? ==> entry.value.clusterName == target.clusterName && entry.value.api == target.apiURL
                                && entry.value.kubeconfig.server == target.apiURL)
  {}

  // ---------- where values come from ----------

  /** All three parts of the kubeconfig have the given origin. */
  ghost predicate From(k: Kubeconfig, origin: Origin) {
    k.server.origin == origin && k.ca.origin == origin && k.token.origin == origin
  }

  /** The configuration answered the same in both loops. */
  ghost predicate StableStore(env1: Environment, env2: Environment, name: string) {
    IsProxyModeEnabled(env1.store, name) <==> IsProxyModeEnabled(env2.store, name)
  }

  /** Every kubeconfig takes URL, CA and token from one source, and that is the cluster itself or the
      proxy for that same cluster, as the configuration says. */
  lemma OneSource(input: ProbeInput, liveness: LivenessResult, lookup: Lookup, env1: Environment, env2: Environment,
                  accepts: Kubeconfig -> bool)
    requires Sound(input, env1) && Genuine(lookup, env2, input.cluster.name)
    requires StableStore(env1, env2, input.cluster.name)
    requires EntryOf(input, liveness, lookup, env2, accepts).Some?
    ensures var name := input.cluster.name;
            From(EntryOf(input, liveness, lookup, env2, accepts).value.kubeconfig,
                 if IsProxyModeEnabled(env2.store, name) then Proxy(name) else Direct(name))
  {}

  /** A store that changes between the loops breaks that in one way only: proxy mode was switched off
      for a cluster without client configs, whose kubeconfig then has a token but no URL and no CA. */
  lemma OneSourceIff(input: ProbeInput, liveness: LivenessResult, lookup: Lookup, env1: Environment, env2: Environment,
                     accepts: Kubeconfig -> bool)
    requires Sound(input, env1) && Genuine(lookup, env2, input.cluster.name)
    requires EntryOf(input, liveness, lookup, env2, accepts).Some?
    ensures (exists origin :: From(EntryOf(input, liveness, lookup, env2, accepts).value.kubeconfig, origin))
            <==> !(input.cluster.configs == [] && input.proxyMode && !lookup.value.enabled)
  {
    var k := EntryOf(input, liveness, lookup, env2, accepts).value.kubeconfig;
    if !(input.cluster.configs == [] && input.proxyMode && !lookup.value.enabled) {
      assert From(k, k.token.origin);
    }
  }

  /** Not a value of the cluster's own registration or secret. */
  ghost predicate ProxySide<T>(v: Value<T>, name: string) {
    v.origin == Empty || v.origin == Proxy(name)
  }

  /** Proxy isolation: for a proxy-enabled cluster neither the probe, nor the target, nor the secret
      carries anything of the direct connection, and a probe that goes out never trusts the cluster's
      own CA. For other clusters nothing comes from the proxy. */
  lemma ProxyIsolation(input: ProbeInput, liveness: LivenessResult, lookup: Lookup, env1: Environment,
                       env2: Environment, accepts: Kubeconfig -> bool)
    requires Sound(input, env1) && Genuine(lookup, env2, input.cluster.name)
    requires StableStore(env1, env2, input.cluster.name)
    ensures var name := input.cluster.name;
            var target := TargetOf(input, liveness, lookup, env2, accepts);
            var entry := EntryOf(input, liveness, lookup, env2, accepts);
            if IsProxyModeEnabled(env1.store, name) then
              && ProxySide(input.probeURL, name) && ProxySide(target.apiURL, name)
              && (input.probeURL != NO_TEXT ==> ProxySide(input.probeCA, name))
              && (entry.Some? ==> ProxySide(entry.value.api, name) && From(entry.value.kubeconfig, Proxy(name)))
            else
              && input.probeURL == ClusterURL(input.cluster) && input.probeCA == ClusterCA(input.cluster)
              && target.apiURL == ClusterURL(input.cluster)
              && (entry.Some? ==>
                    entry.value.api == ClusterURL(input.cluster) && From(entry.value.kubeconfig, Direct(name)))
  {}

  // ---------- credentials and health ----------

  /** Every kubeconfig in the secret belongs to a cluster whose anonymous probe was not online and
      healthy, or is the very one the credential probe accepted. A rejected one is taken off line,
      is unhealthy and is not stored. */
  lemma CredentialGate(input: ProbeInput, liveness: LivenessResult, lookup: Lookup, env: Environment,
                       accepts: Kubeconfig -> bool)
    ensures var entry := EntryOf(input, liveness, lookup, env, accepts);
            var target := TargetOf(input, liveness, lookup, env, accepts);
            && (entry.Some? ==> !(liveness.online && liveness.healthy) || accepts(entry.value.kubeconfig))
            && (Rejected(liveness, Candidate(input, lookup, env), accepts) ==>
                  entry == None && !target.online && target.status == Unhealthy)
            && (target.online <==> liveness.online && !Rejected(liveness, Candidate(input, lookup, env), accepts))
  {}

  /** Healthy says exactly: the probe was online and healthy, the first Available condition is True,
      the proxy prerequisites were met and the credentials were not rejected. Off line means unknown
      except after a rejection, and a status is always set. */
  lemma HealthSound(input: ProbeInput, liveness: LivenessResult, lookup: Lookup, env: Environment,
                    accepts: Kubeconfig -> bool)
    ensures var target := TargetOf(input, liveness, lookup, env, accepts);
            var rejected := Rejected(liveness, Candidate(input, lookup, env), accepts);
            && (target.status == Healthy <==>
                  && liveness.online && liveness.healthy && HealthOf(input.cluster.conditions) == Healthy && !rejected
                  && (lookup.Ok? || (input.cluster.configs == [] && !input.proxyMode)))
            && (target.status == Healthy ==> target.online)
            && (!target.online && !rejected ==> target.status == Unknown)
            && target.status != NotSet
  {
    HealthyIff(input.cluster.conditions);
  }

  // ---------- both outputs, as published ----------

  function Publish(t: Target): ClusterTarget {
    ClusterTarget(t.clusterName, t.apiURL.content, t.online, t.status)
  }

  /** What the second loop hands to the secret and to the status, with kubeconfigs rendered to text. */
  function ToSnapshot(targets: seq<Target>, clusters: map<string, Entry>, render: Kubeconfig -> string): Snapshot {
    Snapshot(
      seq(|targets|, i requires 0 <= i < |targets| => Publish(targets[i])),
      map name | name in clusters ::
        ClusterData(clusters[name].clusterName, clusters[name].api.content, render(clusters[name].kubeconfig)))
  }

  // ---------- the whole pass ----------

  /** What one pass meets: the clusters, the hub as the two loops see it (one value per cluster), the
      answers of the probes, the schedule of the probe pool, and the rendering of kubeconfigs. The
      anonymous probe gets a URL and a CA bundle, the credential probe a kubeconfig. */
  datatype PassInput = PassInput(
    clusters: seq<ManagedCluster>,
    envs1: seq<Environment>,
    envs2: seq<Environment>,
    weathers: seq<Weather>,
    works: map<string, Work>,
    user: string,
    probe: (string, CABundle.Bytes) -> LivenessResult,
    schedule: seq<nat>,
    accepts: Kubeconfig -> bool,
    render: Kubeconfig -> string)
  {
    predicate Matches() {
      |envs1| == |envs2| == |weathers| == |clusters|
    }

    /** The ManifestWorks that iteration i of the second loop meets: each call before it may have
        created one, and others may have changed some meanwhile. */
    function WorksMet(i: nat): map<string, Work>
      requires Matches() && i <= |clusters|
    {
      if i == 0 then works
      else if Skipped(clusters[i - 1], IsProxyModeEnabled(envs1[i - 1].store, clusters[i - 1].name))
      then WorksMet(i - 1)
      else AfterCall(envs2[i - 1], WorksMet(i - 1), clusters[i - 1].name, user, weathers[i - 1])
    }

    ghost predicate UniqueNames() {
      forall i, j :: 0 <= i < j < |clusters| ==> clusters[i].name != clusters[j].name
    }
  }

  /** What was read for a cluster, and what came of it. */
  datatype Trace = Trace(
    input: ProbeInput,
    liveness: LivenessResult,
    lookup: Lookup,
    env1: Environment,
    env2: Environment,
    target: Target,
    entry: Option<Entry>)

  /** The two loops, cluster by cluster. */
  ghost predicate Traced(t: Trace, accepts: Kubeconfig -> bool) {
    Sound(t.input, t.env1) && Processed(t.input, t.liveness, t.lookup, t.env2, accepts, t.target, t.entry)
  }

  /** The cluster gets past every early `continue`. */
  ghost predicate Passed(t: Trace, accepts: Kubeconfig -> bool) {
    && (t.input.cluster.configs != [] || t.input.proxyMode)
    && t.lookup.Ok?
    && (t.lookup.value.enabled || ClusterToken(t.env2, t.input.cluster.name).Some?)
    && (t.liveness.online && t.liveness.healthy ==> accepts(Candidate(t.input, t.lookup, t.env2).value))
  }

  /** The kubeconfig is for this cluster and has every part from where it belongs: from the proxy as the
      second loop found it, or from the first client config and the configured secret. */
  ghost predicate Fills(t: Trace, k: Kubeconfig) {
    var cluster := t.input.cluster;
    && k.name == cluster.name
    && if IsProxyModeEnabled(t.env2.store, cluster.name) then
         && GetProxyURL(t.env2, cluster.name).Ok? && k.server == GetProxyURL(t.env2, cluster.name).value
         && GetProxyCA(t.env2, cluster.name).Ok? && k.ca == GetProxyCA(t.env2, cluster.name).value
         && t.env2.tokenFile.Some? && k.token == Value(Proxy(cluster.name), t.env2.tokenFile.value)
       else
         && k.server.content == (if cluster.configs == [] then "" else cluster.configs[0].url)
         && k.ca.content == (if cluster.configs == [] then [] else cluster.configs[0].caBundle)
         && var key := (cluster.name, GetConfiguredSecretName(t.env2.store, cluster.name));
            && key in t.env2.secrets && "token" in t.env2.secrets[key]
            && k.token == Value(Direct(cluster.name), t.env2.secrets[key]["token"])
  }

  lemma CandidateFills(t: Trace, accepts: Kubeconfig -> bool)
    requires Traced(t, accepts) && Candidate(t.input, t.lookup, t.env2).Some?
    ensures Fills(t, Candidate(t.input, t.lookup, t.env2).value)
  {}

  /** The entry is for this cluster, agrees with its target, and was accepted. */
  ghost predicate Agrees(t: Trace, entry: Entry, accepts: Kubeconfig -> bool) {
    && entry.clusterName == t.input.cluster.name
    && entry.api == t.target.apiURL && entry.kubeconfig.server == t.target.apiURL
    && Fills(t, entry.kubeconfig)
    && (t.liveness.online && t.liveness.healthy ==> accepts(entry.kubeconfig))
  }

  /** Probe, target and entry stay on their side of the proxy, and the kubeconfig is all from there. */
  ghost predicate Isolated(t: Trace) {
    var name := t.input.cluster.name;
    if IsProxyModeEnabled(t.env1.store, name) then
      && ProxySide(t.input.probeURL, name) && ProxySide(t.target.apiURL, name)
      && (t.input.probeURL != NO_TEXT ==> ProxySide(t.input.probeCA, name))
      && (t.entry.Some? ==> ProxySide(t.entry.value.api, name) && From(t.entry.value.kubeconfig, Proxy(name)))
    else
      && t.input.probeURL == ClusterURL(t.input.cluster) && t.input.probeCA == ClusterCA(t.input.cluster)
      && t.target.apiURL == ClusterURL(t.input.cluster)
      && (t.entry.Some? ==>
            t.entry.value.api == ClusterURL(t.input.cluster) && From(t.entry.value.kubeconfig, Direct(name)))
  }

  /** The second loop uses what the first one configured, or nothing of the cluster. */
  ghost predicate Undivided(t: Trace, accepts: Kubeconfig -> bool) {
    || t.lookup.Err?
    || StableStore(t.env1, t.env2, t.input.cluster.name)
    || (t.input.cluster.configs == [] && !Passed(t, accepts))
  }

  /** Isolation fails exactly when the proxy lookup succeeds, proxy mode was switched between the loops,
      in either direction, and the cluster has client configs, whose URL the target then shows on the
      wrong side, or gets an entry without them, whose token is then direct. */
  lemma IsolationExact(t: Trace, accepts: Kubeconfig -> bool)
    requires Traced(t, accepts)
    ensures Isolated(t) <==> Undivided(t, accepts)
  {
    EntryIff(t.input, t.liveness, t.lookup, t.env2, accepts);
    if !Undivided(t, accepts) && t.input.cluster.configs != [] {
      assert ClusterURL(t.input.cluster).origin == Direct(t.input.cluster.name);
    }
  }

  /** Health and credentials of a target: healthy says exactly that the probe was online and healthy, the
      first Available condition is True, the proxy prerequisites were met and the credentials were not
      rejected; a rejected cluster is off line and unhealthy; any other off-line cluster is unknown; and
      of the others that are on line exactly those with a failing endpoint, missing prerequisites or an
      unhealthy condition are unhealthy. */
  ghost predicate Weighed(t: Trace, accepts: Kubeconfig -> bool) {
    var rejected := Rejected(t.liveness, Candidate(t.input, t.lookup, t.env2), accepts);
    && (t.target.online <==> t.liveness.online && !rejected)
    && (t.target.status == Healthy <==>
          && t.liveness.online && t.liveness.healthy && HealthOf(t.input.cluster.conditions) == Healthy && !rejected
          && (t.lookup.Ok? || (t.input.cluster.configs == [] && !t.input.proxyMode)))
    && (t.target.status == Unhealthy <==>
          || rejected
          || (t.liveness.online && (!t.liveness.healthy || HealthOf(t.input.cluster.conditions) == Unhealthy
                                    || (t.lookup.Err? && !Skipped(t.input.cluster, t.input.proxyMode)))))
    && (rejected ==> !t.target.online && t.target.status == Unhealthy && t.entry.None?)
    && (!t.target.online && !rejected ==> t.target.status == Unknown)
    && t.target.status != NotSet
  }

  /** The URL a target shows: the one that was probed while nothing better is known, otherwise that of
      the proxy or of the first client config. */
  ghost predicate Shows(t: Trace) {
    t.target.apiURL
    == if t.lookup.Err? || Skipped(t.input.cluster, t.input.proxyMode) then t.input.probeURL
       else if IsProxyModeEnabled(t.env2.store, t.input.cluster.name)
       then Value(Proxy(t.input.cluster.name), t.lookup.value.url.content)
       else if t.input.cluster.configs == [] then Value(Empty, "")
       else Value(Direct(t.input.cluster.name), t.input.cluster.configs[0].url)
  }

  /** One cluster, completely. */
  ghost predicate Settled(t: Trace, accepts: Kubeconfig -> bool) {
    && t.target.clusterName == t.input.cluster.name && Shows(t)
    && (t.entry.Some? <==> Passed(t, accepts))
    && (t.entry.Some? ==> Agrees(t, t.entry.value, accepts))
    && (Isolated(t) <==> Undivided(t, accepts))
    && Weighed(t, accepts)
  }

  lemma TraceSettled(t: Trace, accepts: Kubeconfig -> bool)
    requires Traced(t, accepts)
    ensures Settled(t, accepts)
  {
    EntryIff(t.input, t.liveness, t.lookup, t.env2, accepts);
    CredentialGate(t.input, t.liveness, t.lookup, t.env2, accepts);
    HealthSound(t.input, t.liveness, t.lookup, t.env2, accepts);
    IsolationExact(t, accepts);
    if t.entry.Some? {
      CandidateFills(t, accepts);
    }
  }

  /** The trace of cluster i starts from what the pass met. */
  ghost predicate Observed(pass: PassInput, t: Trace, i: nat)
    requires pass.Matches() && i < |pass.clusters|
  {
    && t.input.cluster == pass.clusters[i] && t.env1 == pass.envs1[i] && t.env2 == pass.envs2[i]
    && t.liveness == pass.probe(t.input.probeURL.content, t.input.probeCA.content)
    && Genuine(t.lookup, t.env2, t.input.cluster.name)
    && LookedUp(t.input, t.lookup, t.env2, pass.WorksMet(i), pass.user, pass.weathers[i])
  }

  /** The secret holds exactly the clusters that passed every gate, each with the entry of a cluster of
      that name; if names are unique, every cluster that passed has its own entry. */
  ghost predicate Holds(pass: PassInput, traces: seq<Trace>, clustersData: map<string, Entry>)
    requires |traces| == |pass.clusters|
  {
    && (forall name :: name in clustersData <==>
          exists i :: 0 <= i < |traces| && pass.clusters[i].name == name && Passed(traces[i], pass.accepts))
    && (forall name :: name in clustersData ==>
          exists i :: 0 <= i < |traces| && pass.clusters[i].name == name
                      && traces[i].entry == Some(clustersData[name]))
    && (pass.UniqueNames() ==>
          forall i :: 0 <= i < |traces| && Passed(traces[i], pass.accepts) ==>
            && pass.clusters[i].name in clustersData
            && Agrees(traces[i], clustersData[pass.clusters[i].name], pass.accepts))
  }

  /** The target as it is stored in the status: on line exactly when the probe found the cluster on line and
      its credentials were not rejected, healthy only when on line, with the URL and status of the pass. */
  ghost predicate Posted(pass: PassInput, t: Trace, p: ClusterTarget) {
    && p.clusterName == t.input.cluster.name && p.clusterAPIURL == t.target.apiURL.content
    && (p.online <==> pass.probe(t.input.probeURL.content, t.input.probeCA.content).online
                      && !Rejected(t.liveness, Candidate(t.input, t.lookup, t.env2), pass.accepts))
    && p.status == t.target.status && (p.status == Healthy ==> p.online)
  }

  /** Both outputs as they are stored: every target posted, every entry with its kubeconfig rendered. */
  ghost predicate PostedAll(pass: PassInput, traces: seq<Trace>, clustersData: map<string, Entry>, snapshot: Snapshot) {
    && |snapshot.targets| == |traces|
    && (forall i :: 0 <= i < |traces| ==> Posted(pass, traces[i], snapshot.targets[i]))
    && snapshot.clusters.Keys == clustersData.Keys
    && forall name :: name in clustersData ==>
         && snapshot.clusters[name].clusterName == name
         && snapshot.clusters[name].clusterAPI == clustersData[name].api.content
         && snapshot.clusters[name].kubeconfig == pass.render(clustersData[name].kubeconfig)
  }

  /** Everything a pass promises: one target per cluster in input order, made from the probe of that
      cluster; every cluster settled; the secret; and agreement of both outputs as they are published. */
  ghost predicate Delivered(pass: PassInput, traces: seq<Trace>, targetData: seq<Target>,
                            clustersData: map<string, Entry>, snapshot: Snapshot)
  {
    && pass.Matches() && |targetData| == |traces| == |pass.clusters|
    && (forall i :: 0 <= i < |traces| ==>
          Observed(pass, traces[i], i) && Settled(traces[i], pass.accepts) && targetData[i] == traces[i].target)
    && Holds(pass, traces, clustersData)
    && PostedAll(pass, traces, clustersData, snapshot) && snapshot.Consistent()
  }

  /** What a pass hands over for publication. */
  ghost predicate Yields(pass: PassInput, snapshot: Snapshot) {
    exists traces, targetData, clustersData :: Delivered(pass, traces, targetData, clustersData, snapshot)
  }

  /** From the managed clusters to both outputs: the first loop, the probe pool, the second loop. */
  method RunPass(hub: Hub, pass: PassInput)
    returns (targetData: seq<Target>, clustersData: map<string, Entry>, snapshot: Snapshot, ghost traces: seq<Trace>)
    requires pass.Matches() && hub.works == pass.works && hub.user == pass.user
    modifies hub
    ensures Delivered(pass, traces, targetData, clustersData, snapshot)
    ensures hub.works == pass.WorksMet(|pass.clusters|)
  {
    var inputs := BuildProbeInputs(pass.clusters, pass.envs1);
    var probe := (input: ProbeInput) => pass.probe(input.probeURL.content, input.probeCA.content);
    var results := WorkerPool.ProbeManagedClusters(inputs, probe, LivenessResult(false, false), pass.schedule);
    ghost var lookups, entries;
    targetData, clustersData, lookups, entries := ProcessClusters(hub, pass, inputs, results);
    snapshot := ToSnapshot(targetData, clustersData, pass.render);
    traces := Assembled(pass, inputs, results, lookups, targetData, entries);
  }

  /** What the two loops and the pool in between have left behind for cluster i. */
  ghost predicate Looped(pass: PassInput, t: Trace, i: nat)
    requires pass.Matches() && i < |pass.clusters|
  {
    && t.input.cluster == pass.clusters[i] && t.env1 == pass.envs1[i] && t.env2 == pass.envs2[i]
    && t.liveness == pass.probe(t.input.probeURL.content, t.input.probeCA.content)
    && Traced(t, pass.accepts)
    && LookedUp(t.input, t.lookup, t.env2, pass.WorksMet(i), pass.user, pass.weathers[i])
  }

  lemma LoopedSettles(pass: PassInput, t: Trace, i: nat)
    requires pass.Matches() && i < |pass.clusters| && Looped(pass, t, i)
    ensures Observed(pass, t, i) && Settled(t, pass.accepts)
  {
    TraceSettled(t, pass.accepts);
  }

  lemma Assembled(pass: PassInput, inputs: seq<ProbeInput>, results: seq<LivenessResult>, lookups: seq<Lookup>,
                  targetData: seq<Target>, entries: seq<Option<Entry>>)
    returns (traces: seq<Trace>)
    requires pass.Matches()
    requires |inputs| == |results| == |lookups| == |targetData| == |entries| == |pass.clusters|
    requires forall i :: 0 <= i < |inputs| ==>
               Looped(pass, Trace(inputs[i], results[i], lookups[i], pass.envs1[i], pass.envs2[i], targetData[i],
                                  entries[i]), i)
    ensures Delivered(pass, traces, targetData, Collect(entries), ToSnapshot(targetData, Collect(entries), pass.render))
  {
    traces := seq(|inputs|, i requires 0 <= i < |inputs| =>
      Trace(inputs[i], results[i], lookups[i], pass.envs1[i], pass.envs2[i], targetData[i], entries[i]));
    forall i | 0 <= i < |traces|
      ensures Observed(pass, traces[i], i) && Settled(traces[i], pass.accepts)
      ensures targetData[i] == traces[i].target && entries[i] == traces[i].entry
    {
      LoopedSettles(pass, traces[i], i);
    }
    StoredExactly(pass, traces, entries);
    forall name | name in Collect(entries) ensures Collect(entries)[name].clusterName == name {
      CollectHolds(entries, name);
    }
    SnapshotPosted(pass, traces, targetData, Collect(entries));
    SnapshotAgrees(pass, traces, Collect(entries), ToSnapshot(targetData, Collect(entries), pass.render));
  }

  /** The two outputs of a pass agree: every cluster in the secret is a target with the same API URL,
      whether or not names repeat. */
  lemma SnapshotAgrees(pass: PassInput, traces: seq<Trace>, clustersData: map<string, Entry>, snapshot: Snapshot)
    requires pass.Matches() && |traces| == |pass.clusters|
    requires forall i :: 0 <= i < |traces| ==> Observed(pass, traces[i], i) && Settled(traces[i], pass.accepts)
    requires Holds(pass, traces, clustersData) && PostedAll(pass, traces, clustersData, snapshot)
    ensures snapshot.Consistent()
  {
    forall name | name in snapshot.clusters
      ensures exists i :: 0 <= i < |snapshot.targets| && snapshot.targets[i].clusterName == name
                          && snapshot.targets[i].clusterAPIURL == snapshot.clusters[name].clusterAPI
    {
      var i :| 0 <= i < |traces| && pass.clusters[i].name == name && traces[i].entry == Some(clustersData[name]);
      assert Observed(pass, traces[i], i) && Settled(traces[i], pass.accepts);
      assert Posted(pass, traces[i], snapshot.targets[i]);
      assert snapshot.targets[i].clusterName == name;
    }
  }

  lemma SnapshotPosted(pass: PassInput, traces: seq<Trace>, targetData: seq<Target>, clustersData: map<string, Entry>)
    requires pass.Matches() && |targetData| == |traces| == |pass.clusters|
    requires forall i :: 0 <= i < |traces| ==>
               Observed(pass, traces[i], i) && Settled(traces[i], pass.accepts) && targetData[i] == traces[i].target
    requires forall name :: name in clustersData ==> clustersData[name].clusterName == name
    ensures PostedAll(pass, traces, clustersData, ToSnapshot(targetData, clustersData, pass.render))
  {
    var snapshot := ToSnapshot(targetData, clustersData, pass.render);
    forall i | 0 <= i < |traces| ensures Posted(pass, traces[i], snapshot.targets[i]) {
      assert Observed(pass, traces[i], i) && Settled(traces[i], pass.accepts);
      assert snapshot.targets[i] == Publish(targetData[i]);
    }
  }

  /** The entries are those of the traces, which are settled. */
  ghost predicate Records(pass: PassInput, traces: seq<Trace>, entries: seq<Option<Entry>>) {
    && |pass.clusters| == |traces| == |entries|
    && forall i :: 0 <= i < |traces| ==>
         && traces[i].input.cluster == pass.clusters[i] && Settled(traces[i], pass.accepts)
         && entries[i] == traces[i].entry
  }

  lemma EntryIsPassed(pass: PassInput, traces: seq<Trace>, entries: seq<Option<Entry>>, i: nat)
    requires Records(pass, traces, entries) && i < |traces|
    ensures entries[i] == traces[i].entry
    ensures entries[i].Some? <==> Passed(traces[i], pass.accepts)
    ensures entries[i].Some? ==>
              && entries[i].value.clusterName == pass.clusters[i].name
              && Agrees(traces[i], entries[i].value, pass.accepts)
  {
    assert Settled(traces[i], pass.accepts);
  }

  /** From single clusters to the whole secret. */
  lemma StoredExactly(pass: PassInput, traces: seq<Trace>, entries: seq<Option<Entry>>)
    requires Records(pass, traces, entries)
    ensures Holds(pass, traces, Collect(entries))
  {
    var clustersData := Collect(entries);
    forall name ensures name in clustersData <==>
      exists i :: 0 <= i < |traces| && pass.clusters[i].name == name && Passed(traces[i], pass.accepts)
    {
      StoredIff(pass, traces, entries, name);
    }
    forall name | name in clustersData
      ensures exists i :: 0 <= i < |traces| && pass.clusters[i].name == name
                          && traces[i].entry == Some(clustersData[name])
    {
      StoredFrom(pass, traces, entries, name);
    }
    if pass.UniqueNames() {
      StoredOnce(pass, traces, entries);
    }
  }

  lemma StoredIff(pass: PassInput, traces: seq<Trace>, entries: seq<Option<Entry>>, name: string)
    requires Records(pass, traces, entries)
    ensures name in Collect(entries) <==>
              exists i :: 0 <= i < |traces| && pass.clusters[i].name == name && Passed(traces[i], pass.accepts)
  {
    CollectHolds(entries, name);
    if name in Collect(entries) {
      var i :| 0 <= i < |entries| && entries[i].Some? && entries[i].value.clusterName == name;
      EntryIsPassed(pass, traces, entries, i);
      assert pass.clusters[i].name == name && Passed(traces[i], pass.accepts);
    }
    if i :| 0 <= i < |traces| && pass.clusters[i].name == name && Passed(traces[i], pass.accepts) {
      EntryIsPassed(pass, traces, entries, i);
    }
  }

  lemma StoredFrom(pass: PassInput, traces: seq<Trace>, entries: seq<Option<Entry>>, name: string)
    requires Records(pass, traces, entries) && name in Collect(entries)
    ensures exists i :: 0 <= i < |traces| && pass.clusters[i].name == name
                        && traces[i].entry == Some(Collect(entries)[name])
  {
    CollectHolds(entries, name);
    var i :| 0 <= i < |entries| && entries[i] == Some(Collect(entries)[name]) && entries[i].value.clusterName == name;
    EntryIsPassed(pass, traces, entries, i);
    assert pass.clusters[i].name == name && traces[i].entry == Some(Collect(entries)[name]);
  }

  lemma StoredOnce(pass: PassInput, traces: seq<Trace>, entries: seq<Option<Entry>>)
    requires Records(pass, traces, entries) && pass.UniqueNames()
    ensures forall i :: 0 <= i < |traces| && Passed(traces[i], pass.accepts) ==>
              && pass.clusters[i].name in Collect(entries)
              && Agrees(traces[i], Collect(entries)[pass.clusters[i].name], pass.accepts)
  {
    forall j, k | 0 <= j < k < |entries| && entries[j].Some? && entries[k].Some?
      ensures entries[j].value.clusterName != entries[k].value.clusterName
    {
      EntryIsPassed(pass, traces, entries, j);
      EntryIsPassed(pass, traces, entries, k);
    }
    forall i | 0 <= i < |traces| && Passed(traces[i], pass.accepts)
      ensures pass.clusters[i].name in Collect(entries)
      ensures Agrees(traces[i], Collect(entries)[pass.clusters[i].name], pass.accepts)
    {
      EntryIsPassed(pass, traces, entries, i);
      CollectKeeps(entries, i);
    }
  }
}
