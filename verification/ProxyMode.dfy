/** Proxy mode for a managed cluster (proxy_helpers.go): resolving the proxy URL and CA, keeping the
    RBAC ManifestWork in place, and assembling the proxy configuration. Every value that can end up
    in a kubeconfig carries where it came from. */
module ProxyMode {
  import opened Types
  import opened ConfigKeys
  import CABundle

  // ---------- values with provenance ----------

  /** The source of a URL, CA or token: nowhere, the cluster's own registration or secret, or the
      cluster proxy on behalf of that cluster. */
  datatype Origin = Empty | Direct(cluster: string) | Proxy(cluster: string)

  datatype Value<T> = Value(origin: Origin, content: T)

  datatype ProxyConfig = ProxyConfig(
    enabled: bool,
    url: Value<string>,
    ca: Value<CABundle.Bytes>,
    token: Value<string>)

  const DISABLED := ProxyConfig(false, Value(Empty, ""), Value(Empty, []), Value(Empty, ""))

  datatype ProxyError =
    | NoProxyConfiguration | NoProxyService | NoServicePorts | NoServiceCA | NoToken
    | WorkUnreadable | WorkNotCreated | WorkWithoutStatus | WorkNotReady | WorkNotApplied

  // ---------- what the hub answers ----------

  datatype Service = Service(name: string, namespace: string, ports: seq<int>)

  /** The hub as one read sees it. Reads made at different moments may see different ones. */
  datatype Environment = Environment(
    store: Store,
    proxyNamespace: Option<string>,                  // from the ManagedProxyConfiguration
    services: map<string, seq<Service>>,             // labelled services per namespace
    serviceCA: Option<map<string, CABundle.Bytes>>,  // data of the service CA ConfigMap
    tokenFile: Option<string>,
    secrets: map<(string, string), map<string, string>>)

  function Decimal(n: nat): string {
    if n < 10 then [('0' as int + n) as char] else Decimal(n / 10) + [('0' as int + n % 10) as char]
  }

  function PortText(port: int): string {
    if port < 0 then "-" + Decimal(-port) else Decimal(port)
  }

  function FindProxyService(env: Environment, namespace: string): Result<(Service, int), ProxyError> {
    if namespace !in env.services || env.services[namespace] == [] then Err(NoProxyService)
    else
      var service := env.services[namespace][0];
      if service.ports == [] then Err(NoServicePorts) else Ok((service, service.ports[0]))
  }

  function GetProxyURL(env: Environment, cluster: string): Result<Value<string>, ProxyError> {
    if env.proxyNamespace.None? then Err(NoProxyConfiguration)
    else match FindProxyService(env, env.proxyNamespace.value)
         case Err(e) => Err(e)
         case Ok((service, port)) =>
           Ok(Value(Proxy(cluster),
                    "https://" + service.name + "." + service.namespace + ".svc:" + PortText(port) + "/" + cluster))
  }

  /** The number that decimal digits stand for. */
  function Reading(text: string): int {
    if text == "" then 0 else Reading(text[..|text| - 1]) * 10 + (text[|text| - 1] as int - '0' as int)
  }

  /** A port is written in decimal digits without a leading zero. */
  lemma {:induction false} DecimalReads(n: nat)
    ensures Reading(Decimal(n)) == n && Decimal(n) != "" && (n > 0 ==> Decimal(n)[0] != '0')
    ensures forall i :: 0 <= i < |Decimal(n)| ==> '0' <= Decimal(n)[i] <= '9'
  {
    if n >= 10 {
      DecimalReads(n / 10);
      assert Decimal(n)[..|Decimal(n)| - 1] == Decimal(n / 10);
    } else {
      assert Decimal(n)[..0] == "";
    }
  }

  /** The URL of a cluster leads to the first proxy service, its first port, and the cluster's own path;
      there is one exactly when there are such a service and port. */
  lemma ProxyURLText(env: Environment, cluster: string)
    ensures GetProxyURL(env, cluster).Ok? <==>
              && env.proxyNamespace.Some? && env.proxyNamespace.value in env.services
              && env.services[env.proxyNamespace.value] != [] && env.services[env.proxyNamespace.value][0].ports != []
    ensures GetProxyURL(env, cluster).Ok? ==>
              var service := env.services[env.proxyNamespace.value][0];
              && GetProxyURL(env, cluster).value.origin == Proxy(cluster)
              && (service.ports[0] >= 0 ==>
                    GetProxyURL(env, cluster).value.content
                    == "https://" + service.name + "." + service.namespace + ".svc:" + Decimal(service.ports[0])
                       + "/" + cluster)
  {}

  /** The proxy CA is the text of the key "service-ca.crt", in base64; the token is the operator's own. */
  lemma ProxyCredentials(env: Environment, cluster: string)
    ensures GetProxyCA(env, cluster).Ok? <==> env.serviceCA.Some? && "service-ca.crt" in env.serviceCA.value
    ensures GetProxyCA(env, cluster).Ok? ==>
              && GetProxyCA(env, cluster).value.origin == Proxy(cluster)
              && CABundle.Decode(GetProxyCA(env, cluster).value.content) == Some(env.serviceCA.value["service-ca.crt"])
    ensures GetOperatorToken(env, cluster).Ok? <==> env.tokenFile.Some?
    ensures GetOperatorToken(env, cluster).Ok? ==>
              GetOperatorToken(env, cluster).value == Value(Proxy(cluster), env.tokenFile.value)
  {
    if GetProxyCA(env, cluster).Ok? {
      CABundle.RoundTrip(env.serviceCA.value["service-ca.crt"]);
    }
  }

  /** Two clusters never share a proxy URL. */
  lemma ProxyURLsDiffer(env: Environment, a: string, b: string)
    requires GetProxyURL(env, a).Ok? && GetProxyURL(env, b).Ok?
    ensures GetProxyURL(env, a).value.content == GetProxyURL(env, b).value.content <==> a == b
  {
    var (service, port) := FindProxyService(env, env.proxyNamespace.value).value;
    var prefix := "https://" + service.name + "." + service.namespace + ".svc:" + PortText(port) + "/";
    assert (prefix + a)[|prefix|..] == a && (prefix + b)[|prefix|..] == b;
  }

  function GetProxyCA(env: Environment, cluster: string): Result<Value<CABundle.Bytes>, ProxyError> {
    if env.serviceCA.Some? && "service-ca.crt" in env.serviceCA.value
    then Ok(Value(Proxy(cluster), CABundle.ProxyCA(env.serviceCA.value["service-ca.crt"])))
    else Err(NoServiceCA)
  }

  function GetOperatorToken(env: Environment, cluster: string): Result<Value<string>, ProxyError> {
    match env.tokenFile
    case Some(token) => Ok(Value(Proxy(cluster), token))
    case None => Err(NoToken)
  }

  // ---------- the ManifestWork ----------

  datatype Condition = NotAMap | Condition(kind: string, status: string)

  /** The list at status.conditions: missing, malformed, or present. */
  datatype Conditions = Absent | Malformed | Present(items: seq<Condition>)

  datatype Work = Work(user: string, conditions: Conditions)

  /** Applied and Available have both been reported True. */
  predicate Ready(c: Conditions) {
    c.Present? && Condition("Applied", "True") in c.items && Condition("Available", "True") in c.items
  }

  predicate Reported(c: Conditions) {
    c.Present? && c.items != []
  }

  /** What the agent or anybody else does to the work between two reads of one call. */
  datatype Meanwhile = Quiet | Reports(conditions: Conditions) | Deletes

  /** Outcomes the API server decides. `missed`: the first read does not see the work that is there when
      the creation is attempted, because it appeared in between or the client reads through a cache. */
  datatype Weather = Weather(getFails: bool, missed: bool, createFails: bool, meanwhile: Meanwhile, regetFails: bool)

  const CALM := Weather(false, false, false, Quiet, false)

  function ProxyUser(namespace: string, serviceAccount: string): string {
    "cluster:hub:system:serviceaccount:" + namespace + ":" + serviceAccount
  }

  /** ensureManifestWork lets the caller continue. */
  predicate Passes(works: map<string, Work>, cluster: string, weather: Weather) {
    && !weather.getFails
    && if cluster in works && !weather.missed then Ready(works[cluster].conditions)
       else !weather.createFails
  }

  function AfterEnsure(works: map<string, Work>, cluster: string, user: string, weather: Weather): map<string, Work> {
    if cluster in works || weather.getFails || weather.createFails then works
    else works[cluster := Work(user, Absent)]
  }

  function AfterMeanwhile(works: map<string, Work>, cluster: string, meanwhile: Meanwhile): map<string, Work> {
    match meanwhile
    case Quiet => works
    case Deletes => works - {cluster}
    case Reports(c) => if cluster in works then works[cluster := works[cluster].(conditions := c)] else works
  }

  /** The works after a whole getProxyConfig, with what happened to them while it ran. */
  function AfterCall(env: Environment, works: map<string, Work>, cluster: string, user: string, weather: Weather)
    : map<string, Work>
  {
    if !IsProxyModeEnabled(env.store, cluster) then works
    else
      var ensured := AfterEnsure(works, cluster, user, weather);
      if Passes(works, cluster, weather) then AfterMeanwhile(ensured, cluster, weather.meanwhile) else ensured
  }

  /** The ManifestWorks on the hub, by namespace. */
  class Hub {
    var works: map<string, Work>
    const user: string

    constructor (works: map<string, Work>, namespace: string, serviceAccount: string)
      ensures this.works == works
      ensures user == "cluster:hub:system:serviceaccount:" + namespace + ":" + serviceAccount
    {
      this.works := works;
      this.user := ProxyUser(namespace, serviceAccount);
    }

    /** A work that exists already is left alone, and that is not an error. */
    method CreateManifestWork(cluster: string, fails: bool) returns (error: Option<ProxyError>)
      modifies this
      ensures works == if fails || cluster in old(works) then old(works) else old(works)[cluster := Work(user, Absent)]
      ensures error == if fails then Some(WorkNotCreated) else None
    {
      if fails {
        return Some(WorkNotCreated);
      }
      if cluster !in works {
        works := works[cluster := Work(user, Absent)];
      }
      return None;
    }

    /** Creates the work only when it is absent; an existing work must be Applied and Available. */
    method EnsureManifestWork(cluster: string, weather: Weather) returns (error: Option<ProxyError>)
      modifies this
      ensures error.None? <==> Passes(old(works), cluster, weather)
      ensures works == AfterEnsure(old(works), cluster, user, weather)
      ensures weather.getFails ==> error == Some(WorkUnreadable) && works == old(works)
      ensures !weather.getFails && cluster !in old(works) ==>
                if weather.createFails then error == Some(WorkNotCreated) && works == old(works)
                else error == None && works == old(works)[cluster := Work(user, Absent)]
      ensures !weather.getFails && cluster in old(works) && !weather.missed ==>
                && works == old(works)
                && (error == None <==>
                      && old(works)[cluster].conditions.Present?
                      && Condition("Applied", "True") in old(works)[cluster].conditions.items
                      && Condition("Available", "True") in old(works)[cluster].conditions.items)
    {
      if weather.getFails {
        return Some(WorkUnreadable);
      }
      if cluster !in works || weather.missed {
        error := CreateManifestWork(cluster, weather.createFails);
        return;
      }
      var conditions := works[cluster].conditions;
      if !conditions.Present? {
        return Some(WorkWithoutStatus);
      }
      var applied, available := false, false;
      for i := 0 to |conditions.items|
        invariant applied <==> Condition("Applied", "True") in conditions.items[..i]
        invariant available <==> Condition("Available", "True") in conditions.items[..i]
      {
        assert conditions.items[..i + 1] == conditions.items[..i] + [conditions.items[i]];
        var condition := conditions.items[i];
        if condition.NotAMap? {
          continue;
        }
        if condition.kind == "Applied" && condition.status == "True" {
          applied := true;
        }
        if condition.kind == "Available" && condition.status == "True" {
          available := true;
        }
      }
      assert conditions.items[..|conditions.items|] == conditions.items;
      if !applied || !available {
        return Some(WorkNotReady);
      }
      return None;
    }

    /** A disabled configuration exactly when proxy mode is off; otherwise an error, or a
        configuration filled from the proxy alone. The stated condition for the latter is exact. */
    method GetProxyConfig(env: Environment, cluster: string, weather: Weather)
      returns (config: Result<ProxyConfig, ProxyError>)
      modifies this
      ensures config == Ok(DISABLED) <==> !IsProxyModeEnabled(env.store, cluster)
      ensures config.Ok? && config != Ok(DISABLED) ==>
                && GetProxyURL(env, cluster).Ok? && GetProxyCA(env, cluster).Ok? && GetOperatorToken(env, cluster).Ok?
                && config.value == ProxyConfig(true, GetProxyURL(env, cluster).value, GetProxyCA(env, cluster).value,
                                               GetOperatorToken(env, cluster).value)
      ensures config.Ok? && config.value.enabled <==> CanProxy(env, old(works), cluster, user, weather)
      ensures works == AfterCall(env, old(works), cluster, user, weather)
    {
      var filled := DISABLED;
      if !IsProxyModeEnabled(env.store, cluster) {
        return Ok(filled);
      }
      var ensureError := EnsureManifestWork(cluster, weather);
      if ensureError.Some? {
        return Err(ensureError.value);
      }
      works := AfterMeanwhile(works, cluster, weather.meanwhile);
      if weather.regetFails || cluster !in works {
        return Err(WorkUnreadable);
      }
      var conditions := works[cluster].conditions;
      if conditions.Malformed? {
        return Err(WorkWithoutStatus);
      }
      if conditions.Absent? || |conditions.items| == 0 {
        return Err(WorkNotApplied);
      }
      filled := filled.(enabled := true);
      var proxyURL := GetProxyURL(env, cluster);
      if proxyURL.Err? {
        return Err(proxyURL.error);
      }
      filled := filled.(url := proxyURL.value);
      var proxyCA := GetProxyCA(env, cluster);
      if proxyCA.Err? {
        return Err(proxyCA.error);
      }
      filled := filled.(ca := proxyCA.value);
      var token := GetOperatorToken(env, cluster);
      if token.Err? {
        return Err(token.error);
      }
      filled := filled.(token := token.value);
      return Ok(filled);
    }
  }

  /** Exactly when getProxyConfig hands out an enabled configuration. */
  predicate CanProxy(env: Environment, works: map<string, Work>, cluster: string, user: string, weather: Weather) {
    && IsProxyModeEnabled(env.store, cluster)
    && Passes(works, cluster, weather)
    && !weather.regetFails
    && (var later := AfterMeanwhile(AfterEnsure(works, cluster, user, weather), cluster, weather.meanwhile);
        cluster in later && Reported(later[cluster].conditions))
    && GetProxyURL(env, cluster).Ok? && GetProxyCA(env, cluster).Ok? && GetOperatorToken(env, cluster).Ok?
  }

  ghost predicate WasReady(works: map<string, Work>, cluster: string) {
    cluster in works && Ready(works[cluster].conditions)
  }

  /** An enabled configuration means that the work was there, Applied and Available, when the call
      began, except exactly for a work this call created, on which something was reported before the
      second read, and an unready work that the first read did not see. */
  lemma EnabledMeansReady(env: Environment, works: map<string, Work>, cluster: string, user: string, weather: Weather)
    requires CanProxy(env, works, cluster, user, weather)
    ensures !WasReady(works, cluster) <==>
              cluster !in works || (weather.missed && !Ready(works[cluster].conditions))
    ensures cluster !in works ==> weather.meanwhile.Reports? && Reported(weather.meanwhile.conditions)
  {}

  /** When a call enables proxy mode on a work that was not ready, in terms of what it meets. */
  lemma EnabledUnreadyIff(env: Environment, works: map<string, Work>, cluster: string, user: string, weather: Weather)
    requires IsProxyModeEnabled(env.store, cluster)
    requires GetProxyURL(env, cluster).Ok? && GetProxyCA(env, cluster).Ok? && GetOperatorToken(env, cluster).Ok?
    ensures CanProxy(env, works, cluster, user, weather) && !WasReady(works, cluster) <==>
              && !weather.getFails && !weather.createFails && !weather.regetFails
              && (cluster in works ==> weather.missed && !Ready(works[cluster].conditions))
              && match weather.meanwhile
                 case Reports(c) => c.Present? && c.items != []
                 case Quiet =>
                   cluster in works && works[cluster].conditions.Present? && works[cluster].conditions.items != []
                 case Deletes => false
  {}

  /** And a ready work that nobody disturbs is enough: when a call enables proxy mode on a work that was
      ready, in terms of what it meets. */
  lemma EnabledReadyIff(env: Environment, works: map<string, Work>, cluster: string, user: string, weather: Weather)
    requires IsProxyModeEnabled(env.store, cluster) && cluster in works && works[cluster].conditions.Present?
    requires Condition("Applied", "True") in works[cluster].conditions.items
    requires Condition("Available", "True") in works[cluster].conditions.items
    ensures CanProxy(env, works, cluster, user, weather) <==>
              && GetProxyURL(env, cluster).Ok? && GetProxyCA(env, cluster).Ok? && GetOperatorToken(env, cluster).Ok?
              && !weather.getFails && !weather.regetFails && !(weather.missed && weather.createFails)
              && match weather.meanwhile
                 case Quiet => true
                 case Reports(c) => c.Present? && c.items != []
                 case Deletes => false
  {}

  /** Such a call exists: the work is created, the agent reports that it could not apply it, and the
      configuration is handed out all the same. */
  lemma EnabledWithoutReady(env: Environment, cluster: string, user: string)
    requires IsProxyModeEnabled(env.store, cluster)
    requires GetProxyURL(env, cluster).Ok? && GetProxyCA(env, cluster).Ok? && GetOperatorToken(env, cluster).Ok?
    ensures var failed := Present([Condition("Applied", "False")]);
            CanProxy(env, map[], cluster, user, CALM.(meanwhile := Reports(failed))) && !Ready(failed)
  {
    var failed := Present([Condition("Applied", "False")]);
    assert "True"[0] != "False"[0];
    assert failed.items[0] == Condition("Applied", "False");
  }

  // ---------- retries ----------

  /** One call, and what happened to the work since the call before. */
  datatype Call = Call(before: Meanwhile, env: Environment, weather: Weather)

  /** The works the k-th call of a series starts from, and those it leaves. */
  function Met(works: map<string, Work>, cluster: string, user: string, calls: seq<Call>, k: nat): map<string, Work>
    requires k < |calls|
    decreases k, 1
  {
    AfterMeanwhile(WorksAt(works, cluster, user, calls, k), cluster, calls[k].before)
  }

  function WorksAt(works: map<string, Work>, cluster: string, user: string, calls: seq<Call>, k: nat): map<string, Work>
    requires k <= |calls|
    decreases k, 0
  {
    if k == 0 then works
    else AfterCall(calls[k - 1].env, Met(works, cluster, user, calls, k - 1), cluster, user, calls[k - 1].weather)
  }

  /** The call creates the work: there is none, and the creation goes through. */
  predicate Creates(env: Environment, works: map<string, Work>, cluster: string, weather: Weather) {
    IsProxyModeEnabled(env.store, cluster) && cluster !in works && !weather.getFails && !weather.createFails
  }

  function Creations(works: map<string, Work>, cluster: string, user: string, calls: seq<Call>, k: nat): nat
    requires k <= |calls|
  {
    if k == 0 then 0
    else Creations(works, cluster, user, calls, k - 1)
         + (var call, met := calls[k - 1], Met(works, cluster, user, calls, k - 1);
            if Creates(call.env, met, cluster, call.weather) then 1 else 0)
  }

  /** Deletions of an existing work by others: before a call, and in the middle of it. */
  function Deletions(works: map<string, Work>, cluster: string, user: string, calls: seq<Call>, k: nat): nat
    requires k <= |calls|
  {
    if k == 0 then 0
    else
      var call, met := calls[k - 1], Met(works, cluster, user, calls, k - 1);
      Deletions(works, cluster, user, calls, k - 1)
      + (if call.before.Deletes? && cluster in WorksAt(works, cluster, user, calls, k - 1) then 1 else 0)
      + (if call.weather.meanwhile.Deletes? && IsProxyModeEnabled(call.env.store, cluster)
            && Passes(met, cluster, call.weather) then 1 else 0)
  }

  /** Conservation over any number of calls, whatever each of them meets: the works there at first and
      those created are the ones deleted and the one that is left. */
  lemma {:induction false} CreationsBalance(works: map<string, Work>, cluster: string, user: string, calls: seq<Call>,
                                            k: nat)
    requires k <= |calls|
    ensures (if cluster in works then 1 else 0) + Creations(works, cluster, user, calls, k)
            == Deletions(works, cluster, user, calls, k)
               + (if cluster in WorksAt(works, cluster, user, calls, k) then 1 else 0)
  {
    if k > 0 {
      CreationsBalance(works, cluster, user, calls, k - 1);
    }
  }

  /** An error, or a configuration filled from the proxy of that cluster. */
  predicate FailedOrFilled(config: Result<ProxyConfig, ProxyError>, cluster: string) {
    config.Ok? ==>
      && config.value.enabled && config.value.url.origin == Proxy(cluster) && config.value.ca.origin == Proxy(cluster)
      && config.value.token.origin == Proxy(cluster)
  }

  /** The answers of getProxyConfig in successive reconciles. While proxy mode is on, none of them is a
      disabled configuration; a call that is not disturbed enables proxy mode only on a ready work; and
      the work is created at most once, unless somebody deletes it. */
  method RetryProxyConfig(hub: Hub, cluster: string, calls: seq<Call>)
    returns (configs: seq<Result<ProxyConfig, ProxyError>>)
    modifies hub
    ensures |configs| == |calls|
    ensures hub.works == WorksAt(old(hub.works), cluster, hub.user, calls, |calls|)
    ensures forall k :: 0 <= k < |calls| ==>
              && (configs[k] == Ok(DISABLED) <==> !IsProxyModeEnabled(calls[k].env.store, cluster))
              && (configs[k] != Ok(DISABLED) ==> FailedOrFilled(configs[k], cluster))
              && (configs[k].Ok? && configs[k].value.enabled <==>
                    CanProxy(calls[k].env, Met(old(hub.works), cluster, hub.user, calls, k), cluster, hub.user,
                             calls[k].weather))
    ensures forall k :: 0 <= k < |calls| && configs[k].Ok? && configs[k].value.enabled
                        && calls[k].weather.meanwhile.Quiet? && !calls[k].weather.missed
              ==> WasReady(Met(old(hub.works), cluster, hub.user, calls, k), cluster)
    ensures Creations(old(hub.works), cluster, hub.user, calls, |calls|)
            <= Deletions(old(hub.works), cluster, hub.user, calls, |calls|) + if cluster in old(hub.works) then 0 else 1
  {
    configs := [];
    for i := 0 to |calls|
      invariant |configs| == i
      invariant hub.works == WorksAt(old(hub.works), cluster, hub.user, calls, i)
      invariant forall k :: 0 <= k < i ==>
                  && (configs[k] == Ok(DISABLED) <==> !IsProxyModeEnabled(calls[k].env.store, cluster))
                  && (configs[k] != Ok(DISABLED) ==> FailedOrFilled(configs[k], cluster))
                  && (configs[k].Ok? && configs[k].value.enabled <==>
                        CanProxy(calls[k].env, Met(old(hub.works), cluster, hub.user, calls, k), cluster, hub.user,
                                 calls[k].weather))
    {
      hub.works := AfterMeanwhile(hub.works, cluster, calls[i].before);
      var config := hub.GetProxyConfig(calls[i].env, cluster, calls[i].weather);
      configs := configs + [config];
    }
    CreationsBalance(old(hub.works), cluster, hub.user, calls, |calls|);
    forall k | 0 <= k < |calls| && configs[k].Ok? && configs[k].value.enabled
               && calls[k].weather.meanwhile.Quiet? && !calls[k].weather.missed
      ensures WasReady(Met(old(hub.works), cluster, hub.user, calls, k), cluster)
    {
      var met := Met(old(hub.works), cluster, hub.user, calls, k);
      EnabledMeansReady(calls[k].env, met, cluster, hub.user, calls[k].weather);
    }
  }
}
