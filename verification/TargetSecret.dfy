/** The secret that accompanies a KrknTargetRequest: its JSON payload in the multi-operator
    format, the older single-operator format, and the get / decode / merge / write sequence of
    createManagedClustersSecret. */
module TargetSecret {
  import opened Types

  const DEFAULT_OPERATOR := "krkn-operator-acm"

  /** JSON values, as far as decoding into the two formats can tell them apart. */
  datatype Json = Null | Str(text: string) | Scalar | Array | Object(fields: map<string, Json>)

  /** A Go map value: nil and empty are different, and writing to nil panics. */
  datatype GoMap<T> = Nil | Entries(entries: map<string, T>)

  type OldFormat = GoMap<ClusterData>
  type MultiFormat = GoMap<GoMap<ClusterData>>

  datatype DecodeError = NotJson | WrongShape

  /** What the key "managed-clusters" holds: nothing, text that is not JSON, or a document. */
  datatype Payload = NoData | Garbage | Document(doc: Json)

  // ---------- decoding ----------

  predicate IsStringField(fields: map<string, Json>, key: string) {
    key !in fields || fields[key].Null? || fields[key].Str?
  }

  function StringField(fields: map<string, Json>, key: string): string {
    if key in fields && fields[key].Str? then fields[key].text else ""
  }

  predicate IsClusterJson(j: Json) {
    || j.Null?
    || (j.Object? && IsStringField(j.fields, "cluster-name") && IsStringField(j.fields, "cluster-api")
        && IsStringField(j.fields, "kubeconfig"))
  }

  function ToCluster(j: Json): ClusterData
    requires IsClusterJson(j)
  {
    if j.Null? then ClusterData("", "", "")
    else ClusterData(StringField(j.fields, "cluster-name"), StringField(j.fields, "cluster-api"),
                     StringField(j.fields, "kubeconfig"))
  }

  predicate IsOldJson(j: Json) {
    j.Null? || (j.Object? && forall k | k in j.fields :: IsClusterJson(j.fields[k]))
  }

  function ToOld(j: Json): OldFormat
    requires IsOldJson(j)
  {
    if j.Null? then Nil else Entries(map k | k in j.fields :: ToCluster(j.fields[k]))
  }

  predicate IsMultiJson(j: Json) {
    j.Null? || (j.Object? && forall op | op in j.fields :: IsOldJson(j.fields[op]))
  }

  function ToMulti(j: Json): MultiFormat
    requires IsMultiJson(j)
  {
    if j.Null? then Nil else Entries(map op | op in j.fields :: ToOld(j.fields[op]))
  }

  /** The reading of stored bytes: the multi-operator format when it decodes, otherwise the old
      format migrated under the default operator name. */
  function Read(p: Payload): Result<MultiFormat, DecodeError> {
    match p
    case NoData => Ok(Entries(map[]))
    case Garbage => Err(NotJson)
    case Document(doc) =>
      if IsMultiJson(doc) then Ok(ToMulti(doc))
      else if IsOldJson(doc) then Ok(Entries(map[DEFAULT_OPERATOR := ToOld(doc)]))
      else Err(WrongShape)
  }

  // ---------- encoding ----------

  function EncodeCluster(c: ClusterData): Json {
    Object(map["cluster-name" := Str(c.clusterName),
               "cluster-api" := Str(c.clusterAPI),
               "kubeconfig" := Str(c.kubeconfig)])
  }

  function EncodeOld(m: OldFormat): Json {
    match m
    case Nil => Null
    case Entries(es) => Object(map k | k in es :: EncodeCluster(es[k]))
  }

  function EncodeMulti(m: MultiFormat): Json {
    match m
    case Nil => Null
    case Entries(es) => Object(map op | op in es :: EncodeOld(es[op]))
  }

  // ---------- round trips and format detection ----------

  lemma FieldNamesDiffer()
    ensures "cluster-name" != "cluster-api" && "cluster-name" != "kubeconfig" && "cluster-api" != "kubeconfig"
  {
    assert "cluster-name"[8] == 'n' && "cluster-api"[8] == 'a' && "kubeconfig"[0] == 'k';
  }

  lemma ClusterRoundTrip(c: ClusterData)
    ensures IsClusterJson(EncodeCluster(c)) && ToCluster(EncodeCluster(c)) == c
  {
    FieldNamesDiffer();
  }

  lemma OldRoundTrip(m: OldFormat)
    ensures IsOldJson(EncodeOld(m)) && ToOld(EncodeOld(m)) == m
  {
    if m.Entries? {
      forall k | k in m.entries
        ensures IsClusterJson(EncodeOld(m).fields[k]) && ToCluster(EncodeOld(m).fields[k]) == m.entries[k]
      {
        ClusterRoundTrip(m.entries[k]);
      }
    }
  }

  lemma MultiRoundTrip(m: MultiFormat)
    ensures IsMultiJson(EncodeMulti(m)) && ToMulti(EncodeMulti(m)) == m
    ensures Read(Document(EncodeMulti(m))) == Ok(m)
  {
    if m.Entries? {
      forall op | op in m.entries
        ensures IsOldJson(EncodeMulti(m).fields[op]) && ToOld(EncodeMulti(m).fields[op]) == m.entries[op]
      {
        OldRoundTrip(m.entries[op]);
      }
    }
  }

  /** An encoding in the old format is taken for the new one exactly when it has no cluster in it. */
  lemma OldEncodingDetected(m: OldFormat)
    ensures IsMultiJson(EncodeOld(m)) <==> m.Nil? || m.entries == map[]
  {
    FieldNamesDiffer();
    if m.Entries? && m.entries != map[] {
      var k :| k in m.entries;
      var cluster := EncodeOld(m).fields[k];
      assert cluster.fields["cluster-name"] == Str(m.entries[k].clusterName);
      assert !IsClusterJson(cluster.fields["cluster-name"]);
      assert !IsOldJson(cluster);
    }
  }

  /** The value a key is read as: its text, or nothing when it is absent or null. */
  predicate ReadsAs(fields: map<string, Json>, key: string, value: string) {
    && (key in fields && fields[key].Str? ==> value == fields[key].text)
    && (key !in fields || fields[key].Null? ==> value == "")
  }

  /** Each part of a cluster is read from the key that clients know it by. */
  lemma ClusterIsReadByKey(j: Json)
    requires IsClusterJson(j) && j.Object?
    ensures ReadsAs(j.fields, "cluster-name", ToCluster(j).clusterName)
    ensures ReadsAs(j.fields, "cluster-api", ToCluster(j).clusterAPI)
    ensures ReadsAs(j.fields, "kubeconfig", ToCluster(j).kubeconfig)
  {}

  /** A document as any operator writes it: one operator, one cluster, three texts. */
  lemma DocumentIsReadByKey(op: string, cluster: string, name: string, api: string, kubeconfig: string)
    ensures var entry :=
              Object(map["cluster-name" := Str(name), "cluster-api" := Str(api), "kubeconfig" := Str(kubeconfig)]);
            Read(Document(Object(map[op := Object(map[cluster := entry])])))
            == Ok(Entries(map[op := Entries(map[cluster := ClusterData(name, api, kubeconfig)])]))
  {
    FieldNamesDiffer();
    var entry := Object(map["cluster-name" := Str(name), "cluster-api" := Str(api), "kubeconfig" := Str(kubeconfig)]);
    assert ToCluster(entry) == ClusterData(name, api, kubeconfig);
    var mine := Object(map[cluster := entry]);
    var doc := Object(map[op := mine]);
    assert IsOldJson(mine) && ToOld(mine) == Entries(map[cluster := ClusterData(name, api, kubeconfig)]);
    assert doc.fields[op] == mine;
    assert IsMultiJson(doc) && ToMulti(doc) == Entries(map[op := ToOld(mine)]);
  }

  /** Anything but an object or null is in neither format, and so is an object of such values. */
  lemma OtherShapesRefused(j: Json, key: string)
    requires j.Scalar? || j.Array? || j.Str?
    ensures Read(Document(j)) == Err(WrongShape)
    ensures Read(Document(Object(map[key := j]))) == Err(WrongShape)
    ensures Read(Garbage) == Err(NotJson) && Read(NoData) == Ok(Entries(map[]))
  {
    var outer := Object(map[key := j]);
    assert key in outer.fields && !IsOldJson(outer.fields[key]) && !IsClusterJson(outer.fields[key]);
  }

  /** A cluster entry that does not decode: neither null nor an object whose three keys hold texts. */
  predicate Malformed(j: Json) {
    && !j.Null?
    && (j.Object? ==> exists key | key in {"cluster-name", "cluster-api", "kubeconfig"} ::
          key in j.fields && !j.fields[key].Str? && !j.fields[key].Null?)
  }

  /** A multi-operator document with a single malformed cluster is not refused. It is taken for the old
      format, in which the operators are the clusters: every cluster of every operator is lost, and what
      remains is one empty entry per operator under the default operator's name. */
  lemma MalformedIsMisread(doc: Json)
    requires doc.Object?
    requires forall op :: op in doc.fields ==>
               && doc.fields[op].Object? && "cluster-name" !in doc.fields[op].fields
               && "cluster-api" !in doc.fields[op].fields && "kubeconfig" !in doc.fields[op].fields
    ensures (exists op, c :: op in doc.fields && c in doc.fields[op].fields && Malformed(doc.fields[op].fields[c])) ==>
              Read(Document(doc))
              == Ok(Entries(map["krkn-operator-acm" := Entries(map op | op in doc.fields :: ClusterData("", "", ""))]))
    ensures !(exists op, c :: op in doc.fields && c in doc.fields[op].fields && Malformed(doc.fields[op].fields[c])) ==>
              Read(Document(doc)) == Ok(ToMulti(doc))
  {
    forall j: Json ensures Malformed(j) <==> !IsClusterJson(j) {}
    assert IsOldJson(doc);
    assert ToOld(doc) == Entries(map op | op in doc.fields :: ClusterData("", "", ""));
    if op, c :| op in doc.fields && c in doc.fields[op].fields && Malformed(doc.fields[op].fields[c]) {
      assert !IsOldJson(doc.fields[op]);
    }
  }

  /** Migration keeps every cluster of a non-empty old payload, under the default operator. */
  lemma MigrationKeepsEveryCluster(clusters: map<string, ClusterData>)
    requires clusters != map[]
    ensures Read(Document(EncodeOld(Entries(clusters)))) == Ok(Entries(map["krkn-operator-acm" := Entries(clusters)]))
  {
    OldEncodingDetected(Entries(clusters));
    OldRoundTrip(Entries(clusters));
  }

  // ---------- createManagedClustersSecret ----------

  /** What a (possibly stale) cached Get returns: no object, some stored version, or a failure. */
  datatype Lookup = Missing | At(version: nat) | LookupFailed

  predicate Answerable(versions: seq<Payload>, l: Lookup) {
    l.At? ==> l.version < |versions|
  }

  datatype SecretError =
    | ReadFailed | Undecodable(reason: DecodeError) | NilMapAssignment | StaleUpdate | WriteFailed

  /** Stored versions afterwards; `overwrote` when the AlreadyExists branch replaced them. */
  datatype Outcome =
    | Stored(versions: seq<Payload>, overwrote: bool)
    | Failed(error: SecretError)

  /** The document built from what was read: this operator's entry replaced, the others kept. */
  function Merge(p: Payload, op: string, clusters: map<string, ClusterData>): Result<Payload, SecretError> {
    match Read(p)
    case Err(e) => Err(Undecodable(e))
    case Ok(Nil) => Err(NilMapAssignment)
    case Ok(Entries(es)) => Ok(Document(EncodeMulti(Entries(es[op := Entries(clusters)]))))
  }

  /** The whole operation on the version history of the secret (empty while it does not exist).
      An update succeeds only on the newest version. */
  function Publish(versions: seq<Payload>, op: string, clusters: map<string, ClusterData>,
                   first: Lookup, second: Lookup, writeFails: bool): Outcome
    requires Answerable(versions, first) && Answerable(versions, second)
  {
    match first
    case LookupFailed => Failed(ReadFailed)
    case At(v) =>
      (match Merge(versions[v], op, clusters)
       case Err(e) => Failed(e)
       case Ok(p) => Update(versions, v, p, false, writeFails))
    case Missing =>
      match Merge(NoData, op, clusters)
      case Err(e) => Failed(e)
      case Ok(p) =>
        if writeFails then Failed(WriteFailed)
        else if versions == [] then Stored([p], false)
        else match second
             case At(v) => Update(versions, v, p, true, writeFails)
             case _ => Failed(ReadFailed)
  }

  function Update(versions: seq<Payload>, base: nat, p: Payload, overwrites: bool, writeFails: bool): Outcome {
    if writeFails then Failed(WriteFailed)
    else if base + 1 != |versions| then Failed(StaleUpdate)
    else Stored(versions + [p], overwrites)
  }

  /** The clusters each operator has in the secret; nothing while there is no readable secret. */
  function Contents(versions: seq<Payload>): map<string, GoMap<ClusterData>> {
    if versions == [] then map[]
    else match Read(versions[|versions| - 1])
         case Ok(Entries(es)) => es
         case _ => map[]
  }

  /** There is no secret yet, or what it holds can be merged into. */
  predicate Readable(versions: seq<Payload>) {
    versions == [] || (Read(versions[|versions| - 1]).Ok? && Read(versions[|versions| - 1]).value.Entries?)
  }

  /** A successful publication appends one version. Off the AlreadyExists branch it changes this
      operator's entry and no other; on that branch this operator's entry is all that is left. */
  lemma PublishEffect(versions: seq<Payload>, op: string, clusters: map<string, ClusterData>,
                      first: Lookup, second: Lookup, writeFails: bool)
    requires Answerable(versions, first) && Answerable(versions, second)
    requires Publish(versions, op, clusters, first, second, writeFails).Stored?
    ensures var out := Publish(versions, op, clusters, first, second, writeFails);
            && |out.versions| == |versions| + 1 && out.versions[..|versions|] == versions && Readable(out.versions)
            && Contents(out.versions) == (if out.overwrote then map[op := Entries(clusters)]
                                          else Contents(versions)[op := Entries(clusters)])
  {
    var base := if first.At? then versions[first.version] else NoData;
    var es := Read(base).value.entries;
    MultiRoundTrip(Entries(es[op := Entries(clusters)]));
  }

  /** What a client finds in the document under the operator's name: for every cluster an object with
      exactly these three texts. */
  predicate ClientFinds(p: Payload, op: string, clusters: map<string, ClusterData>) {
    && p.Document? && p.doc.Object? && op in p.doc.fields && p.doc.fields[op].Object?
    && var mine := p.doc.fields[op].fields;
    && mine.Keys == clusters.Keys
    && forall name | name in clusters ::
         mine[name].Object? && ClusterShown(mine[name].fields, clusters[name])
  }

  /** Exactly the three texts, each under its key. */
  predicate ClusterShown(fields: map<string, Json>, c: ClusterData) {
    && fields.Keys == {"cluster-name", "cluster-api", "kubeconfig"}
    && fields["cluster-name"] == Str(c.clusterName)
    && fields["cluster-api"] == Str(c.clusterAPI)
    && fields["kubeconfig"] == Str(c.kubeconfig)
  }

  /** The secret now carries the operator's clusters: for the operators that decode it and for clients. */
  predicate Carries(versions: seq<Payload>, op: string, clusters: map<string, ClusterData>) {
    && op in Contents(versions) && Contents(versions)[op] == Entries(clusters)
    && versions != [] && ClientFinds(versions[|versions| - 1], op, clusters)
  }

  /** The document stored last holds this operator's clusters in the form clients read. */
  lemma ClientsFindPublication(versions: seq<Payload>, op: string, clusters: map<string, ClusterData>,
                               first: Lookup, second: Lookup, writeFails: bool)
    requires Answerable(versions, first) && Answerable(versions, second)
    requires Publish(versions, op, clusters, first, second, writeFails).Stored?
    ensures var after := Publish(versions, op, clusters, first, second, writeFails).versions;
            after != [] && ClientFinds(after[|after| - 1], op, clusters)
  {
    var es := Read(if first.At? then versions[first.version] else NoData).value.entries;
    EncodingIsFound(es, op, clusters);
  }

  lemma EncodingIsFound(es: map<string, GoMap<ClusterData>>, op: string, clusters: map<string, ClusterData>)
    ensures ClientFinds(Document(EncodeMulti(Entries(es[op := Entries(clusters)]))), op, clusters)
  {
    var doc := EncodeMulti(Entries(es[op := Entries(clusters)]));
    assert doc.fields[op] == EncodeOld(Entries(clusters));
    assert doc.fields[op].fields.Keys == clusters.Keys;
    forall name | name in clusters
      ensures doc.fields[op].fields[name].Object? && ClusterShown(doc.fields[op].fields[name].fields, clusters[name])
    {
      EncodingIsShown(clusters[name]);
    }
  }

  lemma EncodingIsShown(c: ClusterData)
    ensures EncodeCluster(c).Object? && ClusterShown(EncodeCluster(c).fields, c)
  {
    FieldNamesDiffer();
  }

  /** Which error a publication ends with, in terms of what was read and of the write. */
  lemma PublishErrors(versions: seq<Payload>, op: string, clusters: map<string, ClusterData>,
                      first: Lookup, second: Lookup, writeFails: bool)
    requires Answerable(versions, first) && Answerable(versions, second)
    ensures var out := Publish(versions, op, clusters, first, second, writeFails);
            var merged := first.Missing? || (first.At? && Read(versions[first.version]).Ok?
                                             && versions[first.version] != Document(Null));
            && (out == Failed(ReadFailed) <==>
                  first.LookupFailed? || (first.Missing? && !writeFails && versions != [] && !second.At?))
            && (out == Failed(Undecodable(NotJson)) <==> first.At? && versions[first.version] == Garbage)
            && (out == Failed(WriteFailed) <==> merged && writeFails)
            && (out == Failed(StaleUpdate) <==>
                  && merged && !writeFails
                  && ((first.At? && first.version + 1 != |versions|)
                      || (first.Missing? && versions != [] && second.At? && second.version + 1 != |versions|)))
  {}

  /** When the publication fails: exact conditions in terms of what was read. */
  lemma PublishSucceedsIff(versions: seq<Payload>, op: string, clusters: map<string, ClusterData>,
                           first: Lookup, second: Lookup)
    requires Answerable(versions, first) && Answerable(versions, second)
    ensures Publish(versions, op, clusters, first, second, false).Stored? <==>
            || (first.Missing? && versions == [])
            || (first.Missing? && versions != [] && second == At(|versions| - 1))
            || (versions != [] && first == At(|versions| - 1) && Readable(versions))
  {}

  lemma FailedWriteStoresNothing(versions: seq<Payload>, op: string, clusters: map<string, ClusterData>,
                                 first: Lookup, second: Lookup)
    requires Answerable(versions, first) && Answerable(versions, second)
    ensures Publish(versions, op, clusters, first, second, true).Failed?
  {}

  /** The AlreadyExists branch loses data exactly when somebody else's data was there. */
  lemma OverwriteLoses(versions: seq<Payload>, op: string, clusters: map<string, ClusterData>,
                       first: Lookup, second: Lookup, other: string)
    requires Answerable(versions, first) && Answerable(versions, second)
    requires var out := Publish(versions, op, clusters, first, second, false); out.Stored? && out.overwrote
    ensures && other in Contents(versions)
            && other !in Contents(Publish(versions, op, clusters, first, second, false).versions)
            <==> other in Contents(versions).Keys - {op}
  {
    PublishEffect(versions, op, clusters, first, second, false);
  }

  /** A publication panics, on an assignment to a nil map, exactly when the version it read is a JSON
      null, which decodes without an error. A secret that holds only that makes it panic every time. */
  lemma NullPayloadPanics(versions: seq<Payload>, op: string, clusters: map<string, ClusterData>,
                          first: Lookup, second: Lookup, writeFails: bool)
    requires Answerable(versions, first) && Answerable(versions, second)
    ensures Publish(versions, op, clusters, first, second, writeFails) == Failed(NilMapAssignment)
            <==> first.At? && versions[first.version] == Document(Null)
    ensures Publish([Document(Null)], op, clusters, At(0), Missing, writeFails) == Failed(NilMapAssignment)
  {}

  /** The secret in the API server, with its version history. */
  class SecretStore {
    var versions: seq<Payload>

    constructor (initial: seq<Payload>)
      ensures versions == initial
    {
      versions := initial;
    }

    method Create(p: Payload, fails: bool) returns (error: Option<SecretError>, alreadyExists: bool)
      modifies this
      ensures alreadyExists <==> !fails && old(versions) != []
      ensures error == if fails then Some(WriteFailed) else None
      ensures versions == if fails || alreadyExists then old(versions) else [p]
    {
      if fails {
        return Some(WriteFailed), false;
      }
      if versions != [] {
        return None, true;
      }
      versions := [p];
      return None, false;
    }

    method UpdateAt(base: nat, p: Payload, fails: bool) returns (error: Option<SecretError>)
      modifies this
      ensures error == if fails then Some(WriteFailed)
                       else if base + 1 != |old(versions)| then Some(StaleUpdate) else None
      ensures versions == if error.None? then old(versions) + [p] else old(versions)
    {
      if fails {
        return Some(WriteFailed);
      }
      if base + 1 != |versions| {
        return Some(StaleUpdate);
      }
      versions := versions + [p];
      return None;
    }

    /** createManagedClustersSecret: `first` and `second` are the answers of its two Gets. */
    method CreateManagedClustersSecret(op: string, clusters: map<string, ClusterData>,
                                       first: Lookup, second: Lookup, writeFails: bool)
      returns (error: Option<SecretError>, ghost overwrote: bool)
      requires Answerable(versions, first) && Answerable(versions, second)
      modifies this
      ensures var out := Publish(old(versions), op, clusters, first, second, writeFails);
              match out
              case Stored(vs, over) => error.None? && versions == vs && overwrote == over
              case Failed(e) => error == Some(e) && versions == old(versions)
      ensures error.None? ==> Carries(versions, op, clusters)
    {
      error, overwrote := MergeAndWrite(op, clusters, first, second, writeFails);
      if error.None? {
        ClientsFindPublication(old(versions), op, clusters, first, second, writeFails);
        PublishEffect(old(versions), op, clusters, first, second, writeFails);
      }
    }

    method MergeAndWrite(op: string, clusters: map<string, ClusterData>, first: Lookup, second: Lookup,
                         writeFails: bool)
      returns (error: Option<SecretError>, ghost overwrote: bool)
      requires Answerable(versions, first) && Answerable(versions, second)
      modifies this
      ensures var out := Publish(old(versions), op, clusters, first, second, writeFails);
              match out
              case Stored(vs, over) => error.None? && versions == vs && overwrote == over
              case Failed(e) => error == Some(e) && versions == old(versions)
    {
      overwrote := false;
      if first.LookupFailed? {
        return Some(ReadFailed), false;
      }
      var secretExists := first.At?;
      var allOperatorData: MultiFormat;
      if secretExists && versions[first.version] != NoData {
        var existing := versions[first.version];
        if existing.Garbage? {
          return Some(Undecodable(NotJson)), false;
        }
        if IsMultiJson(existing.doc) {
          allOperatorData := ToMulti(existing.doc);
        } else {
          if !IsOldJson(existing.doc) {
            return Some(Undecodable(WrongShape)), false;
          }
          allOperatorData := Entries(map[DEFAULT_OPERATOR := ToOld(existing.doc)]);
        }
      } else {
        allOperatorData := Entries(map[]);
      }

      if allOperatorData.Nil? {
        return Some(NilMapAssignment), false;
      }
      allOperatorData := Entries(allOperatorData.entries[op := Entries(clusters)]);
      var data := Document(EncodeMulti(allOperatorData));

      if secretExists {
        error := UpdateAt(first.version, data, writeFails);
      } else {
        var alreadyExists;
        error, alreadyExists := Create(data, writeFails);
        if alreadyExists {
          if !second.At? {
            return Some(ReadFailed), false;
          }
          error := UpdateAt(second.version, data, writeFails);
          overwrote := error.None?;
        }
      }
    }
  }
}
