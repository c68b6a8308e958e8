/** The provider configuration schema (buildConfigSchema): two group fields, one secret selector per
    cluster with usable secrets, one proxy toggle per cluster. */
module ConfigSchema {
  import opened Types
  import opened ConfigKeys
  import opened Strings

  const SECRET_GROUP := "ACM_SECRET_GROUP"
  const PROXY_GROUP := "ACM_USE_PROXY_GROUP"

  datatype Kind = Group | Enum

  /** The name of a field always equals its variable. */
  datatype Field = Field(
    variable: string,
    kind: Kind,
    default: Option<string>,
    allowedValues: Option<string>,
    required: bool,
    group: Option<string>,
    mutuallyExcludes: Option<string>)

  /** A secret of the cluster's namespace: its name and the keys of its data. */
  datatype SecretObject = SecretObject(name: string, keys: set<string>)

  /** A managed cluster and the outcome of listing the secrets of its namespace. */
  datatype Cluster = Cluster(name: string, listing: Result<seq<SecretObject>, string>)

  predicate HasRequiredKeys(keys: set<string>) {
    "ca.crt" in keys && "token" in keys
  }

  function UsableNames(secrets: seq<SecretObject>): seq<string> {
    if secrets == [] then []
    else UsableNames(secrets[..|secrets| - 1])
         + if HasRequiredKeys(secrets[|secrets| - 1].keys) then [secrets[|secrets| - 1].name] else []
  }

  /** Names of the cluster's usable secrets; none when the listing failed. */
  function Usable(c: Cluster): seq<string> {
    match c.listing case Ok(secrets) => UsableNames(secrets) case Err(_) => []
  }

  method ListSecretsInNamespace(secrets: seq<SecretObject>) returns (names: seq<string>)
    ensures names == UsableNames(secrets)
    ensures forall n :: n in names <==>
              exists k :: 0 <= k < |secrets| && secrets[k].name == n
                          && "ca.crt" in secrets[k].keys && "token" in secrets[k].keys
  {
    names := [];
    for i := 0 to |secrets|
      invariant names == UsableNames(secrets[..i])
      invariant forall n :: n in names <==>
                  exists k :: 0 <= k < i && secrets[k].name == n
                              && "ca.crt" in secrets[k].keys && "token" in secrets[k].keys
    {
      assert secrets[..i + 1][..i] == secrets[..i];
      if HasRequiredKeys(secrets[i].keys) {
        names := names + [secrets[i].name];
      }
    }
    assert secrets[..|secrets|] == secrets;
  }

  function GroupField(name: string): Field {
    Field(name, Group, None, None, false, None, None)
  }

  function SecretField(store: Store, c: Cluster): Field {
    var secrets := Sort(Usable(c));
    Field(SecretKey(c.name), Enum, Some(DefaultSecret(store, c.name, secrets)), Some(Join(secrets)), true,
          Some(SECRET_GROUP), None)
  }

  function ProxyField(store: Store, c: Cluster, secretEmitted: bool): Field {
    Field(ProxyKey(c.name), Enum, Some(GetDefaultProxyMode(store, c.name)), Some("true,false"), false,
          Some(PROXY_GROUP), if secretEmitted then Some(SecretKey(c.name)) else None)
  }

  function SecretFields(store: Store, clusters: seq<Cluster>): seq<Field> {
    if clusters == [] then []
    else SecretFields(store, clusters[..|clusters| - 1])
         + var c := clusters[|clusters| - 1]; if Usable(c) == [] then [] else [SecretField(store, c)]
  }

  /** Names of the clusters that got a secret selector. */
  function Emitted(clusters: seq<Cluster>): set<string> {
    set c | c in clusters && Usable(c) != [] :: c.name
  }

  function ProxyFields(store: Store, clusters: seq<Cluster>, emitted: set<string>): seq<Field> {
    seq(|clusters|, i requires 0 <= i < |clusters| => ProxyField(store, clusters[i], clusters[i].name in emitted))
  }

  function Schema(store: Store, clusters: seq<Cluster>): seq<Field> {
    [GroupField(SECRET_GROUP), GroupField(PROXY_GROUP)] + SecretFields(store, clusters)
    + ProxyFields(store, clusters, Emitted(clusters))
  }

  method BuildConfigSchema(store: Store, clusters: seq<Cluster>) returns (fields: seq<Field>)
    ensures fields == Schema(store, clusters)
  {
    fields := [GroupField(SECRET_GROUP)];
    fields := fields + [GroupField(PROXY_GROUP)];
    var clustersWithSecrets;
    fields, clustersWithSecrets := AppendSelectors(store, clusters, fields);
    fields := AppendToggles(store, clusters, clustersWithSecrets, fields);
  }

  /** The first loop. */
  method AppendSelectors(store: Store, clusters: seq<Cluster>, groups: seq<Field>)
    returns (fields: seq<Field>, clustersWithSecrets: set<string>)
    ensures fields == groups + SecretFields(store, clusters)
    ensures clustersWithSecrets == Emitted(clusters)
  {
    fields, clustersWithSecrets := groups, {};
    for i := 0 to |clusters|
      invariant fields == groups + SecretFields(store, clusters[..i])
      invariant clustersWithSecrets == Emitted(clusters[..i])
    {
      var cluster := clusters[i];
      SecretFieldsStep(store, clusters, i);
      if cluster.listing.Err? {
        continue;
      }
      var secrets := ListSecretsInNamespace(cluster.listing.value);
      if |secrets| == 0 {
        continue;
      }
      var field := BuildSecretField(store, cluster, secrets);
      fields := fields + [field];
      clustersWithSecrets := clustersWithSecrets + {cluster.name};
    }
    assert clusters[..|clusters|] == clusters;
  }

  /** The second loop. */
  method AppendToggles(store: Store, clusters: seq<Cluster>, clustersWithSecrets: set<string>, before: seq<Field>)
    returns (fields: seq<Field>)
    ensures fields == before + ProxyFields(store, clusters, clustersWithSecrets)
  {
    fields := before;
    ghost var toggles := ProxyFields(store, clusters, clustersWithSecrets);
    for i := 0 to |clusters|
      invariant fields == before + toggles[..i]
    {
      var field := BuildProxyField(store, clusters[i], clusters[i].name in clustersWithSecrets);
      assert toggles[..i + 1] == toggles[..i] + [toggles[i]];
      fields := fields + [field];
    }
    assert toggles[..|clusters|] == toggles;
  }

  /** The body of the first loop for a cluster with usable secrets. */
  method BuildSecretField(store: Store, cluster: Cluster, usable: seq<string>) returns (field: Field)
    requires usable == Usable(cluster) != []
    ensures field == SecretField(store, cluster)
  {
    var secrets := Sort(usable);
    var varName := SecretKey(cluster.name);
    var defaultSecret := GetDefaultSecret(store, cluster.name, secrets);
    var allowedValues := Join(secrets);
    field := Field(varName, Enum, Some(defaultSecret), Some(allowedValues), true, Some(SECRET_GROUP), None);
  }

  /** The body of the second loop. */
  method BuildProxyField(store: Store, cluster: Cluster, secretEmitted: bool) returns (field: Field)
    ensures field == ProxyField(store, cluster, secretEmitted)
  {
    var proxyVarName := ProxyKey(cluster.name);
    var secretVarName := SecretKey(cluster.name);
    var proxyDefaultValue := GetDefaultProxyMode(store, cluster.name);
    field := Field(proxyVarName, Enum, Some(proxyDefaultValue), Some("true,false"), false, Some(PROXY_GROUP), None);
    if secretEmitted {
      field := field.(mutuallyExcludes := Some(secretVarName));
    }
  }

  lemma SecretFieldsStep(store: Store, clusters: seq<Cluster>, i: nat)
    requires i < |clusters|
    ensures SecretFields(store, clusters[..i + 1])
            == SecretFields(store, clusters[..i])
               + (if Usable(clusters[i]) == [] then [] else [SecretField(store, clusters[i])])
    ensures Emitted(clusters[..i + 1])
            == Emitted(clusters[..i]) + (if Usable(clusters[i]) == [] then {} else {clusters[i].name})
  {
    assert clusters[..i + 1][..i] == clusters[..i];
    EmittedStep(clusters, i);
  }

  lemma EmittedStep(clusters: seq<Cluster>, i: nat)
    requires i < |clusters|
    ensures Emitted(clusters[..i + 1])
            == Emitted(clusters[..i]) + (if Usable(clusters[i]) == [] then {} else {clusters[i].name})
  {
    assert clusters[..i + 1] == clusters[..i] + [clusters[i]];
  }

  // ---------- referential integrity ----------

  /** The parts of a selector that other fields refer to, or that it refers to. */
  ghost predicate Selects(f: Field, name: string) {
    f.variable == SecretKey(name) && f.kind == Enum && f.group == Some(SECRET_GROUP) && f.mutuallyExcludes == None
  }

  lemma {:induction false} SecretFieldsAre(store: Store, clusters: seq<Cluster>)
    ensures forall f :: f in SecretFields(store, clusters)
                        <==> exists c :: c in clusters && Usable(c) != [] && f == SecretField(store, c)
    ensures |SecretFields(store, clusters)| == UsableCount(clusters)
  {
    if clusters != [] {
      var init, last := clusters[..|clusters| - 1], clusters[|clusters| - 1];
      SecretFieldsAre(store, init);
      assert clusters == init + [last];
    }
  }

  /** Every selector is that of an emitted name ... */
  lemma SelectorsAre(store: Store, clusters: seq<Cluster>)
    ensures forall f :: f in SecretFields(store, clusters) ==>
              exists name :: name in Emitted(clusters) && Selects(f, name)
  {
    SecretFieldsAre(store, clusters);
    forall f | f in SecretFields(store, clusters)
      ensures exists name :: name in Emitted(clusters) && Selects(f, name)
    {
      var c :| c in clusters && Usable(c) != [] && f == SecretField(store, c);
      assert c.name in Emitted(clusters) && Selects(f, c.name);
    }
  }

  /** ... and every emitted name has one. */
  lemma SelectorOf(store: Store, clusters: seq<Cluster>, name: string)
    requires name in Emitted(clusters)
    ensures var secrets := SecretFields(store, clusters);
            EmittedBefore(secrets, |secrets|, SecretKey(name), Enum)
  {
    SecretFieldsAre(store, clusters);
    var c :| c in clusters && Usable(c) != [] && c.name == name;
    var f, secrets := SecretField(store, c), SecretFields(store, clusters);
    assert f in secrets;
    var j :| 0 <= j < |secrets| && secrets[j] == f;
  }

  function UsableCount(clusters: seq<Cluster>): nat {
    if clusters == [] then 0
    else UsableCount(clusters[..|clusters| - 1]) + if Usable(clusters[|clusters| - 1]) == [] then 0 else 1
  }

  /** The variable is that of a field emitted before position k. */
  ghost predicate EmittedBefore(fields: seq<Field>, k: nat, variable: string, kind: Kind)
    requires k <= |fields|
  {
    exists j :: 0 <= j < k && fields[j].variable == variable && fields[j].kind == kind
  }

  /** Every group and every exclusion refers to a field of the right kind emitted earlier. */
  lemma ReferencesResolve(store: Store, clusters: seq<Cluster>)
    ensures Resolved(Schema(store, clusters))
  {
    SelectorsAre(store, clusters);
    var secrets, emitted := SecretFields(store, clusters), Emitted(clusters);
    var toggles := ProxyFields(store, clusters, emitted);
    forall f | f in toggles ensures Toggles(f, secrets) {
      var i :| 0 <= i < |toggles| && toggles[i] == f;
      if clusters[i].name in emitted {
        SelectorOf(store, clusters, clusters[i].name);
      }
    }
    ResolvedFrom(secrets, toggles);
  }

  /** The number of fields is two groups, the clusters with usable secrets, and the clusters; the last
      are the toggles in cluster order, and a toggle excludes its own cluster's selector exactly when
      that selector was emitted. */
  lemma SchemaLayout(store: Store, clusters: seq<Cluster>)
    ensures |Schema(store, clusters)| == 2 + UsableCount(clusters) + |clusters|
    ensures TogglesFit(Schema(store, clusters)[2 + UsableCount(clusters)..], clusters, Emitted(clusters))
  {
    SecretFieldsAre(store, clusters);
    var toggles := ProxyFields(store, clusters, Emitted(clusters));
    Suffix([GroupField(SECRET_GROUP), GroupField(PROXY_GROUP)], SecretFields(store, clusters), toggles);
    ProxyFieldsFit(store, clusters, Emitted(clusters));
  }

  ghost predicate TogglesFit(toggles: seq<Field>, clusters: seq<Cluster>, emitted: set<string>) {
    && |toggles| == |clusters|
    && forall i :: 0 <= i < |clusters| ==>
         && toggles[i].variable == ProxyKey(clusters[i].name)
         && toggles[i].mutuallyExcludes
            == if clusters[i].name in emitted then Some(SecretKey(clusters[i].name)) else None
  }

  lemma ProxyFieldsFit(store: Store, clusters: seq<Cluster>, emitted: set<string>)
    ensures TogglesFit(ProxyFields(store, clusters, emitted), clusters, emitted)
  {}

  lemma Suffix(groups: seq<Field>, secrets: seq<Field>, toggles: seq<Field>)
    ensures |groups + secrets + toggles| == |groups| + |secrets| + |toggles|
    ensures (groups + secrets + toggles)[|groups| + |secrets|..] == toggles
  {}

  ghost predicate ResolvedAt(fields: seq<Field>, k: nat)
    requires k < |fields|
  {
    && (fields[k].group.Some? ==> EmittedBefore(fields, k, fields[k].group.value, Group))
    && (fields[k].mutuallyExcludes.Some? ==> EmittedBefore(fields, k, fields[k].mutuallyExcludes.value, Enum))
  }

  ghost predicate Resolved(fields: seq<Field>) {
    forall k :: 0 <= k < |fields| ==> ResolvedAt(fields, k)
  }

  /** A toggle excludes at most a selector. */
  ghost predicate Toggles(f: Field, secrets: seq<Field>) {
    && f.group == Some(PROXY_GROUP)
    && (f.mutuallyExcludes.Some? ==> EmittedBefore(secrets, |secrets|, f.mutuallyExcludes.value, Enum))
  }

  /** Integrity needs only what each kind of field refers to. */
  lemma ResolvedFrom(secrets: seq<Field>, toggles: seq<Field>)
    requires forall f :: f in secrets ==> f.group == Some(SECRET_GROUP) && f.mutuallyExcludes == None
    requires forall f :: f in toggles ==> Toggles(f, secrets)
    ensures Resolved([GroupField(SECRET_GROUP), GroupField(PROXY_GROUP)] + secrets + toggles)
  {
    var fields := [GroupField(SECRET_GROUP), GroupField(PROXY_GROUP)] + secrets + toggles;
    assert fields[0] == GroupField(SECRET_GROUP) && fields[1] == GroupField(PROXY_GROUP);
    forall k | 0 <= k < |fields| ensures ResolvedAt(fields, k) {
      if 2 <= k < 2 + |secrets| {
        assert fields[k] == secrets[k - 2] && secrets[k - 2] in secrets;
        assert EmittedBefore(fields, k, SECRET_GROUP, Group);
      } else if 2 + |secrets| <= k {
        assert fields[k] == toggles[k - 2 - |secrets|] && Toggles(fields[k], secrets);
        assert EmittedBefore(fields, k, PROXY_GROUP, Group);
        if fields[k].mutuallyExcludes.Some? {
          var j :| 0 <= j < |secrets| && secrets[j].kind == Enum
                   && secrets[j].variable == fields[k].mutuallyExcludes.value;
          assert fields[2 + j] == secrets[j];
        }
      }
    }
  }

  // ---------- what the fields say ----------

  lemma GroupContents(store: Store, clusters: seq<Cluster>)
    ensures Schema(store, clusters)[..2] == [Field("ACM_SECRET_GROUP", Group, None, None, false, None, None),
                                             Field("ACM_USE_PROXY_GROUP", Group, None, None, false, None, None)]
  {}

  lemma CountOfSelectors(store: Store, clusters: seq<Cluster>)
    ensures |SecretFields(store, clusters)| == UsableCount(clusters)
  {
    SecretFieldsAre(store, clusters);
  }

  /** Further clusters leave the selectors before them where they are. */
  lemma {:induction false} SelectorsKept(store: Store, clusters: seq<Cluster>, l: nat, m: nat, k: nat)
    requires l <= m <= |clusters| && k < |SecretFields(store, clusters[..l])|
    ensures k < |SecretFields(store, clusters[..m])|
    ensures SecretFields(store, clusters[..m])[k] == SecretFields(store, clusters[..l])[k]
    decreases m
  {
    if l < m {
      SelectorsKept(store, clusters, l, m - 1, k);
      SelectorsExtend(store, clusters, m - 1, k);
    }
  }

  lemma SelectorsExtend(store: Store, clusters: seq<Cluster>, m: nat, k: nat)
    requires m < |clusters| && k < |SecretFields(store, clusters[..m])|
    ensures k < |SecretFields(store, clusters[..m + 1])|
    ensures SecretFields(store, clusters[..m + 1])[k] == SecretFields(store, clusters[..m])[k]
  {
    SecretFieldsStep(store, clusters, m);
  }

  /** A cluster adds its own, if it has one, at the end. */
  lemma SelectorAppended(store: Store, clusters: seq<Cluster>, i: nat)
    requires i < |clusters| && Usable(clusters[i]) != []
    ensures UsableCount(clusters[..i]) < |SecretFields(store, clusters[..i + 1])|
    ensures SecretFields(store, clusters[..i + 1])[UsableCount(clusters[..i])] == SecretField(store, clusters[i])
  {
    SecretFieldsStep(store, clusters, i);
    CountOfSelectors(store, clusters[..i]);
  }

  /** The value is a usable secret: the one the runtime would use if that is usable, otherwise
      "application-manager" if that is, otherwise the first of them in dictionary order. */
  ghost predicate IsDefaultOf(value: string, store: Store, c: Cluster) {
    var choice := GetConfiguredSecretName(store, c.name);
    && value in Usable(c)
    && (choice in Usable(c) ==> value == choice)
    && (choice !in Usable(c) && "application-manager" in Usable(c) ==> value == "application-manager")
    && (choice !in Usable(c) && "application-manager" !in Usable(c) ==>
          forall s :: s in Usable(c) ==> LexLeq(value, s))
  }

  /** The selector of a cluster must be filled, and offers exactly the usable secrets, sorted. */
  ghost predicate SelectorOffers(f: Field, store: Store, c: Cluster) {
    && f.variable == "ACM_SECRET_" + Format(c.name) && f.kind == Enum && f.required
    && f.group == Some("ACM_SECRET_GROUP") && f.mutuallyExcludes == None
    && f.default.Some? && IsDefaultOf(f.default.value, store, c)
    && f.allowedValues.Some?
    && ((forall s :: s in Usable(c) ==> ',' !in s) ==>
          && Sorted(Split(f.allowedValues.value))
          && multiset(Split(f.allowedValues.value)) == multiset(Usable(c)))
  }

  lemma SelectorPosition(store: Store, clusters: seq<Cluster>, i: nat)
    requires i < |clusters| && Usable(clusters[i]) != []
    ensures UsableCount(clusters[..i]) < |SecretFields(store, clusters)|
    ensures SecretFields(store, clusters)[UsableCount(clusters[..i])] == SecretField(store, clusters[i])
  {
    SelectorAppended(store, clusters, i);
    SelectorsKept(store, clusters, i + 1, |clusters|, UsableCount(clusters[..i]));
    assert clusters[..|clusters|] == clusters;
  }

  /** Selectors come in cluster order after the groups. */
  lemma SelectorContents(store: Store, clusters: seq<Cluster>, i: nat) returns (f: Field)
    requires i < |clusters| && Usable(clusters[i]) != []
    ensures 2 + UsableCount(clusters[..i]) < |Schema(store, clusters)|
    ensures f == Schema(store, clusters)[2 + UsableCount(clusters[..i])]
    ensures SelectorOffers(f, store, clusters[i])
  {
    f := SelectorAt(store, clusters, i);
    SecretFieldIs(store, clusters[i], f);
  }

  lemma SelectorAt(store: Store, clusters: seq<Cluster>, i: nat) returns (f: Field)
    requires i < |clusters| && Usable(clusters[i]) != []
    ensures 2 + UsableCount(clusters[..i]) < |Schema(store, clusters)|
    ensures Schema(store, clusters)[2 + UsableCount(clusters[..i])] == f == SecretField(store, clusters[i])
  {
    SelectorPosition(store, clusters, i);
    SelectorInSchema(store, clusters, UsableCount(clusters[..i]));
    f := SecretField(store, clusters[i]);
  }

  lemma SelectorInSchema(store: Store, clusters: seq<Cluster>, k: nat)
    requires k < |SecretFields(store, clusters)|
    ensures 2 + k < |Schema(store, clusters)| && Schema(store, clusters)[2 + k] == SecretFields(store, clusters)[k]
  {
    var groups := [GroupField(SECRET_GROUP), GroupField(PROXY_GROUP)];
    Middle(groups, SecretFields(store, clusters), ProxyFields(store, clusters, Emitted(clusters)), k);
  }

  lemma Middle<T>(a: seq<T>, b: seq<T>, c: seq<T>, k: nat)
    requires k < |b|
    ensures (a + b + c)[|a| + k] == b[k]
  {}

  lemma SecretFieldIs(store: Store, c: Cluster, f: Field)
    requires Usable(c) != [] && f == SecretField(store, c)
    ensures SelectorOffers(f, store, c)
  {
    var secrets := Sort(Usable(c));
    SortSorts(Usable(c));
    forall s ensures s in secrets <==> s in Usable(c) {
      SortMembers(Usable(c), s);
    }
    SortMembers(Usable(c), "");
    forall s | s in Usable(c) ensures LexLeq(secrets[0], s) {
      assert s in multiset(Usable(c));
      HeadIsLeast(secrets, s);
    }
    if forall s :: s in Usable(c) ==> ',' !in s {
      SplitJoin(secrets);
    }
  }

  /** The toggle of a cluster is optional, offers "true" and "false", and shows "true" whenever proxy mode
      is on; it excludes the selector of a cluster of that name if there is one. */
  ghost predicate ToggleOffers(f: Field, store: Store, clusters: seq<Cluster>, c: Cluster) {
    && f.variable == "ACM_USE_PROXY_" + Format(c.name) && f.kind == Enum && !f.required
    && f.group == Some("ACM_USE_PROXY_GROUP")
    && f.allowedValues == Some("true,false") && Split("true,false") == ["true", "false"]
    && f.default.Some? && f.default.value in {"true", "false"}
    && (IsProxyModeEnabled(store, c.name) ==> f.default.value == "true")
    && f.mutuallyExcludes
       == if exists d :: d in clusters && d.name == c.name && Usable(d) != []
          then Some("ACM_SECRET_" + Format(c.name)) else None
  }

  /** Toggles come in cluster order after all selectors. */
  lemma ToggleContents(store: Store, clusters: seq<Cluster>, i: nat)
    requires i < |clusters|
    ensures 2 + UsableCount(clusters) + i < |Schema(store, clusters)|
    ensures ToggleOffers(Schema(store, clusters)[2 + UsableCount(clusters) + i], store, clusters, clusters[i])
  {
    CountOfSelectors(store, clusters);
    var secrets, toggles := SecretFields(store, clusters), ProxyFields(store, clusters, Emitted(clusters));
    After(secrets, toggles, i);
    ProxyFieldIs(store, clusters, clusters[i]);
  }

  lemma After(secrets: seq<Field>, toggles: seq<Field>, i: nat)
    requires i < |toggles|
    ensures ([GroupField(SECRET_GROUP), GroupField(PROXY_GROUP)] + secrets + toggles)[2 + |secrets| + i] == toggles[i]
  {}

  lemma ProxyFieldIs(store: Store, clusters: seq<Cluster>, c: Cluster)
    ensures ToggleOffers(ProxyField(store, c, c.name in Emitted(clusters)), store, clusters, c)
  {
    ProxyDefaultAgrees(store, c.name);
    ToggleValues();
    assert c.name in Emitted(clusters) <==> exists d :: d in clusters && d.name == c.name && Usable(d) != [];
  }

  /** Every default is one of the values its field allows. */
  lemma DefaultsAllowed(store: Store, clusters: seq<Cluster>, f: Field)
    requires f in Schema(store, clusters) && f.kind == Enum
    requires forall c, s :: c in clusters && s in Usable(c) ==> ',' !in s
    ensures f.default.Some? && f.allowedValues.Some? && f.default.value in Split(f.allowedValues.value)
  {
    if f in SecretFields(store, clusters) {
      SecretFieldsAre(store, clusters);
      var c :| c in clusters && Usable(c) != [] && f == SecretField(store, c);
      SecretDefaultAllowed(store, c);
    } else {
      var toggles := ProxyFields(store, clusters, Emitted(clusters));
      assert f in toggles;
      ToggleValues();
    }
  }

  lemma SecretDefaultAllowed(store: Store, c: Cluster)
    requires Usable(c) != [] && forall s :: s in Usable(c) ==> ',' !in s
    ensures SecretField(store, c).default.value in Split(SecretField(store, c).allowedValues.value)
  {
    var secrets := Sort(Usable(c));
    forall s | s in secrets ensures ',' !in s {
      SortMembers(Usable(c), s);
    }
    SortMembers(Usable(c), "");
    SplitJoin(secrets);
  }

  lemma ToggleValues()
    ensures Split("true,false") == ["true", "false"]
  {
    SplitFirst("true", "false");
    SplitPlain("false");
    assert "true" + "," + "false" == "true,false";
  }

  // ---------- distinct variables ----------

  ghost predicate Distinct(fields: seq<Field>) {
    forall i, j :: 0 <= i < j < |fields| ==> fields[i].variable != fields[j].variable
  }

  ghost predicate DistinctLabels(clusters: seq<Cluster>) {
    && (forall c :: c in clusters ==> IsLabel(c.name))
    && forall i, j :: 0 <= i < j < |clusters| ==> clusters[i].name != clusters[j].name
  }

  lemma GroupKeys()
    ensures SecretKey("group") == SECRET_GROUP && ProxyKey("group") == PROXY_GROUP
    ensures IsLabel("group") && SECRET_GROUP != PROXY_GROUP
  {
    assert Format("group") == "GROUP";
    KeyFamiliesDisjoint("group", "group");
  }

  lemma {:induction false} SecretFieldsDistinct(store: Store, clusters: seq<Cluster>)
    requires DistinctLabels(clusters)
    ensures Distinct(SecretFields(store, clusters))
  {
    if clusters != [] {
      var n := |clusters| - 1;
      var init, last := clusters[..n], clusters[n];
      SecretFieldsDistinct(store, init);
      SelectorsAre(store, init);
      SecretFieldsStep(store, clusters, n);
      assert clusters[..n + 1] == clusters;
      forall f | f in SecretFields(store, init) ensures f.variable != SecretKey(last.name) {
        var name :| name in Emitted(init) && Selects(f, name);
        KeysInjective(name, last.name);
      }
      if Usable(last) != [] {
        ConcatDistinct(SecretFields(store, init), [SecretField(store, last)]);
      }
    }
  }

  lemma ProxyFieldsDistinct(store: Store, clusters: seq<Cluster>, emitted: set<string>)
    requires DistinctLabels(clusters)
    ensures Distinct(ProxyFields(store, clusters, emitted))
  {
    forall i, j | 0 <= i < j < |clusters| ensures ProxyKey(clusters[i].name) != ProxyKey(clusters[j].name) {
      KeysInjective(clusters[i].name, clusters[j].name);
    }
  }

  /** With distinct label names, the schema's variables are pairwise distinct exactly when no cluster
      is called "group". */
  lemma VariablesDistinctIff(store: Store, clusters: seq<Cluster>)
    requires DistinctLabels(clusters)
    ensures Distinct(Schema(store, clusters)) <==> forall c :: c in clusters ==> c.name != "group"
  {
    if i :| 0 <= i < |clusters| && clusters[i].name == "group" {
      GroupRepeats(store, clusters, i);
    } else {
      SelectorsAre(store, clusters);
      SecretFieldsDistinct(store, clusters);
      ProxyFieldsDistinct(store, clusters, Emitted(clusters));
      var names := set c | c in clusters :: c.name;
      var toggles := ProxyFields(store, clusters, Emitted(clusters));
      forall f | f in toggles ensures exists name :: name in names && f.variable == ProxyKey(name) {
        var i :| 0 <= i < |toggles| && toggles[i] == f;
        assert clusters[i] in clusters && clusters[i].name in names;
      }
      assert Emitted(clusters) <= names;
      FamiliesDistinct(SecretFields(store, clusters), toggles, names);
    }
  }

  lemma GroupRepeats(store: Store, clusters: seq<Cluster>, i: nat)
    requires i < |clusters| && clusters[i].name == "group"
    ensures !Distinct(Schema(store, clusters)) && clusters[i] in clusters
  {
    var secrets, toggles := SecretFields(store, clusters), ProxyFields(store, clusters, Emitted(clusters));
    GroupKeys();
    assert toggles[i].variable == PROXY_GROUP;
    RepeatedVariable([GroupField(SECRET_GROUP)], GroupField(PROXY_GROUP), secrets, toggles, i);
    assert Schema(store, clusters) == [GroupField(SECRET_GROUP)] + [GroupField(PROXY_GROUP)] + secrets + toggles;
  }

  lemma RepeatedVariable(a: seq<Field>, f: Field, b: seq<Field>, c: seq<Field>, i: nat)
    requires i < |c| && c[i].variable == f.variable
    ensures !Distinct(a + [f] + b + c)
  {
    var fields := a + [f] + b + c;
    assert fields[|a|] == f && fields[|a| + 1 + |b| + i] == c[i];
  }

  /** Groups, selectors and toggles never share a variable. */
  lemma FamiliesDistinct(secrets: seq<Field>, toggles: seq<Field>, names: set<string>)
    requires Distinct(secrets) && Distinct(toggles)
    requires "group" !in names && forall name :: name in names ==> IsLabel(name)
    requires forall f :: f in secrets ==> exists name :: name in names && Selects(f, name)
    requires forall f :: f in toggles ==> exists name :: name in names && f.variable == ProxyKey(name)
    ensures Distinct([GroupField(SECRET_GROUP), GroupField(PROXY_GROUP)] + secrets + toggles)
  {
    var groups := [GroupField(SECRET_GROUP), GroupField(PROXY_GROUP)];
    GroupKeys();
    forall f, g | f in groups && g in secrets ensures f.variable != g.variable {
      var name :| name in names && Selects(g, name);
      KeysInjective(name, "group");
      KeyFamiliesDisjoint(name, "group");
    }
    ConcatDistinct(groups, secrets);
    forall f, g | f in groups + secrets && g in toggles ensures f.variable != g.variable {
      var name :| name in names && g.variable == ProxyKey(name);
      if f in groups {
        KeysInjective(name, "group");
        KeyFamiliesDisjoint("group", name);
      } else {
        var other :| other in names && Selects(f, other);
        KeyFamiliesDisjoint(other, name);
      }
    }
    ConcatDistinct(groups + secrets, toggles);
  }

  lemma ConcatDistinct(a: seq<Field>, b: seq<Field>)
    requires Distinct(a) && Distinct(b)
    requires forall f, g :: f in a && g in b ==> f.variable != g.variable
    ensures Distinct(a + b)
  {
    forall i, j | 0 <= i < j < |a + b| ensures (a + b)[i].variable != (a + b)[j].variable {
      if i < |a| && j >= |a| {
        assert a[i] in a && b[j - |a|] in b;
      }
    }
  }

  // ---------- independence of listing order ----------

  /** The same secrets listed in another order. */
  ghost predicate SameListings(c: Cluster, d: Cluster) {
    && c.name == d.name
    && match (c.listing, d.listing)
       case (Ok(s), Ok(t)) => multiset(UsableNames(s)) == multiset(UsableNames(t))
       case (Err(_), Err(_)) => true
       case _ => false
  }

  /** The schema does not depend on the order in which the API returns a namespace's secrets. */
  lemma OrderIndependent(store: Store, clusters: seq<Cluster>, others: seq<Cluster>)
    requires |clusters| == |others| && forall i :: 0 <= i < |clusters| ==> SameListings(clusters[i], others[i])
    ensures Schema(store, clusters) == Schema(store, others)
  {
    SecretFieldsOrder(store, clusters, others);
    ProxyFieldsOrder(store, clusters, others, Emitted(clusters));
  }

  lemma ProxyFieldsOrder(store: Store, clusters: seq<Cluster>, others: seq<Cluster>, emitted: set<string>)
    requires |clusters| == |others| && forall i :: 0 <= i < |clusters| ==> clusters[i].name == others[i].name
    ensures ProxyFields(store, clusters, emitted) == ProxyFields(store, others, emitted)
  {}

  lemma {:induction false} SecretFieldsOrder(store: Store, clusters: seq<Cluster>, others: seq<Cluster>)
    requires |clusters| == |others| && forall i :: 0 <= i < |clusters| ==> SameListings(clusters[i], others[i])
    ensures SecretFields(store, clusters) == SecretFields(store, others) && Emitted(clusters) == Emitted(others)
  {
    if clusters != [] {
      var n := |clusters| - 1;
      SecretFieldsOrder(store, clusters[..n], others[..n]);
      SortCanonical(Usable(clusters[n]), Usable(others[n]));
      SortMembers(Usable(clusters[n]), "");
      SortMembers(Usable(others[n]), "");
      EmittedStep(clusters, n);
      EmittedStep(others, n);
      assert clusters[..n + 1] == clusters && others[..n + 1] == others;
    }
  }
}
