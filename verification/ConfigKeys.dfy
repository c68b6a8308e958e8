/** Per-cluster configuration keys and the lookups that use them: the two key formatters, the
    runtime choices (proxy mode, secret name) and the defaults shown in the schema. */
module ConfigKeys {

  const SECRET_PREFIX := "ACM_SECRET_"
  const PROXY_PREFIX := "ACM_USE_PROXY_"
  const ACM_DEFAULT_SECRET := "application-manager"

  type Store = map<string, string>

  // ---------- key formatting ----------

  /** Replaces '-' by '_' and upper-cases ASCII letters. */
  function FormatChar(c: char): char {
    if c == '-' then '_'
    else if 'a' <= c <= 'z' then 'A' + (c - 'a')
    else c
  }

  function Format(name: string): (key: string)
    ensures |key| == |name| && forall i :: 0 <= i < |name| ==> key[i] == FormatChar(name[i])
  {
    seq(|name|, i requires 0 <= i < |name| => FormatChar(name[i]))
  }

  function SecretKey(cluster: string): string { SECRET_PREFIX + Format(cluster) }

  function ProxyKey(cluster: string): string { PROXY_PREFIX + Format(cluster) }

  /** The characters of a label in section 2.1 of RFC 1123, lower case only. */
  predicate IsLabelChar(c: char) {
    'a' <= c <= 'z' || '0' <= c <= '9' || c == '-'
  }

  predicate IsLabel(name: string) {
    name != "" && name[0] != '-' && name[|name| - 1] != '-' && forall c :: c in name ==> IsLabelChar(c)
  }

  function UnformatChar(c: char): char {
    if c == '_' then '-'
    else if 'A' <= c <= 'Z' then 'a' + (c - 'A')
    else c
  }

  /** The cluster a formatted name came from. */
  function Unformat(key: string): string {
    seq(|key|, i requires 0 <= i < |key| => UnformatChar(key[i]))
  }

  lemma FormatInverts(name: string)
    requires forall c :: c in name ==> IsLabelChar(c)
    ensures Unformat(Format(name)) == name
  {
    forall i | 0 <= i < |name| ensures UnformatChar(FormatChar(name[i])) == name[i] {
      assert IsLabelChar(name[i]);
    }
  }

  /** Both key families have a computable inverse on label names. */
  lemma KeysInvertible(cluster: string)
    requires IsLabel(cluster)
    ensures |SECRET_PREFIX| <= |SecretKey(cluster)| && Unformat(SecretKey(cluster)[|SECRET_PREFIX|..]) == cluster
    ensures |PROXY_PREFIX| <= |ProxyKey(cluster)| && Unformat(ProxyKey(cluster)[|PROXY_PREFIX|..]) == cluster
  {
    FormatInverts(cluster);
    assert SecretKey(cluster)[|SECRET_PREFIX|..] == Format(cluster);
    assert ProxyKey(cluster)[|PROXY_PREFIX|..] == Format(cluster);
  }

  lemma KeysInjective(a: string, b: string)
    requires IsLabel(a) && IsLabel(b)
    ensures SecretKey(a) == SecretKey(b) <==> a == b
    ensures ProxyKey(a) == ProxyKey(b) <==> a == b
  {
    KeysInvertible(a);
    KeysInvertible(b);
  }

  /** What a key looks like: the prefix and the name, a hyphen as an underscore, a lower-case letter as
      its capital (32 positions before it in ASCII), anything else in a label unchanged. */
  lemma KeyText(cluster: string, i: nat)
    requires i < |cluster|
    ensures |SecretKey(cluster)| == 11 + |cluster| && SecretKey(cluster)[..11] == "ACM_SECRET_"
    ensures |ProxyKey(cluster)| == 14 + |cluster| && ProxyKey(cluster)[..14] == "ACM_USE_PROXY_"
    ensures SecretKey(cluster)[11 + i] == ProxyKey(cluster)[14 + i]
    ensures cluster[i] == '-' ==> SecretKey(cluster)[11 + i] == '_'
    ensures 'a' <= cluster[i] <= 'z' ==> SecretKey(cluster)[11 + i] as int == cluster[i] as int - 32
    ensures '0' <= cluster[i] <= '9' ==> SecretKey(cluster)[11 + i] == cluster[i]
  {}

  lemma KeyExample()
    ensures SecretKey("prod-east1") == "ACM_SECRET_PROD_EAST1"
    ensures ProxyKey("prod-east1") == "ACM_USE_PROXY_PROD_EAST1"
  {
    assert Format("prod-east1") == "PROD_EAST1";
  }

  /** A secret key is never a proxy key, whatever the names. */
  lemma KeyFamiliesDisjoint(a: string, b: string)
    ensures SecretKey(a) != ProxyKey(b)
  {
    assert SecretKey(a)[4] == 'S' && ProxyKey(b)[4] == 'U';
  }

  // ---------- runtime choices ----------

  predicate IsProxyModeEnabled(store: Store, cluster: string) {
    var key := ProxyKey(cluster);
    key in store && (store[key] == "true" || store[key] == "yes" || store[key] == "1")
  }

  function GetConfiguredSecretName(store: Store, cluster: string): string {
    var key := SecretKey(cluster);
    if key in store && store[key] != "" then store[key] else ACM_DEFAULT_SECRET
  }

  /** A configured name that is not empty is the one in use, and "application-manager" otherwise; proxy
      mode is on for three spellings and nothing else. */
  lemma ChoiceIsConfigured(store: Store, cluster: string, value: string)
    ensures value != "" ==> GetConfiguredSecretName(store[SecretKey(cluster) := value], cluster) == value
    ensures GetConfiguredSecretName(store[SecretKey(cluster) := ""], cluster) == "application-manager"
    ensures GetConfiguredSecretName(store - {SecretKey(cluster)}, cluster) == "application-manager"
    ensures IsProxyModeEnabled(store[ProxyKey(cluster) := value], cluster) <==> value in {"true", "yes", "1"}
    ensures !IsProxyModeEnabled(store - {ProxyKey(cluster)}, cluster)
  {}

  /** Writing one cluster's keys never changes another cluster's choices, and writing a secret key
      never changes anybody's proxy mode (nor the other way round). */
  lemma ChoicesIndependent(store: Store, a: string, b: string, value: string)
    requires IsLabel(a) && IsLabel(b)
    ensures a != b ==> GetConfiguredSecretName(store[SecretKey(a) := value], b) == GetConfiguredSecretName(store, b)
    ensures a != b ==> (IsProxyModeEnabled(store[ProxyKey(a) := value], b) <==> IsProxyModeEnabled(store, b))
    ensures IsProxyModeEnabled(store[SecretKey(a) := value], b) <==> IsProxyModeEnabled(store, b)
    ensures GetConfiguredSecretName(store[ProxyKey(a) := value], b) == GetConfiguredSecretName(store, b)
  {
    KeysInjective(a, b);
    KeyFamiliesDisjoint(a, b);
    KeyFamiliesDisjoint(b, a);
  }

  // ---------- schema defaults ----------

  /** The white space that strings.TrimSpace removes. */
  predicate IsSpace(c: char) {
    || '\t' <= c <= '\r' || c == ' ' || c == 0x85 as char || c == 0xA0 as char || c == 0x1680 as char
    || 0x2000 as char <= c <= 0x200A as char || c == 0x2028 as char || c == 0x2029 as char
    || c == 0x202F as char || c == 0x205F as char || c == 0x3000 as char
  }

  function TrimLeft(s: string): string {
    if s != "" && IsSpace(s[0]) then TrimLeft(s[1..]) else s
  }

  function TrimRight(s: string): string {
    if s != "" && IsSpace(s[|s| - 1]) then TrimRight(s[..|s| - 1]) else s
  }

  function LowerChar(c: char): char {
    if 'A' <= c <= 'Z' then 'a' + (c - 'A') else c
  }

  function Normalize(s: string): string {
    var trimmed := TrimRight(TrimLeft(s));
    seq(|trimmed|, i requires 0 <= i < |trimmed| => LowerChar(trimmed[i]))
  }

  /** Blanks around a text do not matter, and capitals read as small letters. */
  lemma NormalizeIs(before: string, s: string, after: string, i: nat)
    requires s != "" && !IsSpace(s[0]) && !IsSpace(s[|s| - 1]) && i < |s|
    requires forall k :: 0 <= k < |before| ==> before[k] in {' ', '\t', '\n', '\r'}
    requires forall k :: 0 <= k < |after| ==> after[k] in {' ', '\t', '\n', '\r'}
    ensures |Normalize(before + s + after)| == |s|
    ensures 'A' <= s[i] <= 'Z' ==> Normalize(before + s + after)[i] as int == s[i] as int + 32
    ensures !('A' <= s[i] <= 'Z') ==> Normalize(before + s + after)[i] == s[i]
  {
    assert before + s + after == before + (s + after);
    TrimLeftPrepended(before, s + after);
    TrimRightAppended(s, after);
  }

  lemma {:induction false} TrimLeftPrepended(before: string, s: string)
    requires forall k :: 0 <= k < |before| ==> IsSpace(before[k])
    requires s != "" && !IsSpace(s[0])
    ensures TrimLeft(before + s) == s
  {
    if before == "" {
      assert before + s == s;
    } else {
      assert (before + s)[1..] == before[1..] + s;
      TrimLeftPrepended(before[1..], s);
    }
  }

  lemma {:induction false} TrimRightAppended(s: string, after: string)
    requires forall k :: 0 <= k < |after| ==> IsSpace(after[k])
    requires s != "" && !IsSpace(s[|s| - 1])
    ensures TrimRight(s + after) == s
  {
    if after == "" {
      assert s + after == s;
    } else {
      assert (s + after)[..|s + after| - 1] == s + after[..|after| - 1];
      TrimRightAppended(s, after[..|after| - 1]);
    }
  }

  /** No letter, digit or sign that a value is made of is a blank. */
  lemma VisibleIsNotSpace(c: char)
    requires '!' <= c <= '~'
    ensures !IsSpace(c)
  {}

  /** The toggle of the schema is "true" or "false", and "true" exactly for the three spellings, blanks
      and capitals aside. */
  lemma ToggleText(store: Store, cluster: string, value: string)
    ensures GetDefaultProxyMode(store[ProxyKey(cluster) := value], cluster)
            == if value != "" && Normalize(value) in {"true", "yes", "1"} then "true" else "false"
    ensures GetDefaultProxyMode(store - {ProxyKey(cluster)}, cluster) == "false"
  {}

  predicate Truthy(s: string) { s == "true" || s == "yes" || s == "1" }

  function GetDefaultProxyMode(store: Store, cluster: string): string {
    var key := ProxyKey(cluster);
    if key in store && store[key] != "" && Truthy(Normalize(store[key])) then "true" else "false"
  }

  lemma TruthyIsNormal(s: string)
    requires Truthy(s)
    ensures Normalize(s) == s
  {
    assert !IsSpace(s[0]) && !IsSpace(s[|s| - 1]);
    assert TrimLeft(s) == s && TrimRight(s) == s;
  }

  /** The toggle shown in the schema is on whenever proxy mode is on; it is on although proxy mode
      is off exactly for the loose spellings (" True" and the like) that only the schema accepts. */
  lemma ProxyDefaultAgrees(store: Store, cluster: string)
    ensures IsProxyModeEnabled(store, cluster) ==> GetDefaultProxyMode(store, cluster) == "true"
    ensures (IsProxyModeEnabled(store, cluster) <==> GetDefaultProxyMode(store, cluster) == "true")
            <==> (ProxyKey(cluster) in store && Truthy(Normalize(store[ProxyKey(cluster)])) ==>
                    Normalize(store[ProxyKey(cluster)]) == store[ProxyKey(cluster)])
  {
    assert "true"[0] != "false"[0];
    if ProxyKey(cluster) in store {
      var v := store[ProxyKey(cluster)];
      if Truthy(v) {
        TruthyIsNormal(v);
      }
      if v == "" {
        assert Normalize(v) == "";
      }
    }
  }

  /** The loose spellings exist. */
  lemma ProxyDefaultCanDisagree(cluster: string)
    ensures var store := map[ProxyKey(cluster) := "True"];
            !IsProxyModeEnabled(store, cluster) && GetDefaultProxyMode(store, cluster) == "true"
  {
    var s := "True";
    assert s[0] == 'T' && "true"[0] == 't' && "yes"[0] == 'y' && "1"[0] == '1';
    assert TrimLeft(s) == s && TrimRight(s) == s;
    assert Normalize(s) == "true";
  }

  /** getDefaultSecret: a listed configured value other than the default name, then the default name
      if listed, then the first listed secret. The result is the secret the runtime will use exactly
      when the runtime's choice is listed at all. */
  method GetDefaultSecret(store: Store, cluster: string, secrets: seq<string>) returns (name: string)
    ensures name == DefaultSecret(store, cluster, secrets)
    ensures secrets == [] ==> name == ""
    ensures secrets != [] ==> name in secrets
    ensures secrets != [] && GetConfiguredSecretName(store, cluster) !in secrets ==>
              name == if "application-manager" in secrets then "application-manager" else secrets[0]
    ensures secrets != [] ==>
              (name == GetConfiguredSecretName(store, cluster) <==> GetConfiguredSecretName(store, cluster) in secrets)
  {
    if |secrets| == 0 {
      return "";
    }
    var key := SecretKey(cluster);
    if key in store && store[key] != "" && store[key] != ACM_DEFAULT_SECRET {
      for i := 0 to |secrets|
        invariant store[key] !in secrets[..i]
      {
        if secrets[i] == store[key] {
          return store[key];
        }
      }
      assert secrets[..|secrets|] == secrets;
    }
    for i := 0 to |secrets|
      invariant ACM_DEFAULT_SECRET !in secrets[..i]
    {
      if secrets[i] == ACM_DEFAULT_SECRET {
        return ACM_DEFAULT_SECRET;
      }
    }
    assert secrets[..|secrets|] == secrets;
    return secrets[0];
  }

  function DefaultSecret(store: Store, cluster: string, secrets: seq<string>): string {
    var configured := GetConfiguredSecretName(store, cluster);
    if secrets == [] then ""
    else if configured in secrets then configured
    else if ACM_DEFAULT_SECRET in secrets then ACM_DEFAULT_SECRET
    else secrets[0]
  }
}
