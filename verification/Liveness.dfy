/** The anonymous liveness probe: health endpoints tried in order until one decides. */
module Liveness {
  import opened Types

  datatype LivenessResult = LivenessResult(online: bool, healthy: bool)

  /** What happens when one endpoint is tried. */
  datatype Reply = BadRequest | NoAnswer | Answer(status: int, closeFails: bool)

  datatype ProbeError = InvalidURL | RequestFailed | CheckFailed | CloseFailed | BadStatus(status: int) | Unsupported

  datatype BaseURL = BaseURL(scheme: string, host: string, path: string)

  predicate ValidBase(base: BaseURL) {
    base.host != "" && (base.scheme == "https" || base.scheme == "http")
  }

  /** Sections 15.5.5 and 15.5.6 of RFC 9110: the endpoint is not offered, try the next one. */
  predicate NotOffered(r: Reply) {
    r.Answer? && !r.closeFails && (r.status == 404 || r.status == 405)
  }

  /** Section 15.3 of RFC 9110. */
  predicate Success(r: Reply) {
    r.Answer? && !r.closeFails && 200 <= r.status < 300
  }

  /** The endpoint at k decides: it is the first that is offered. */
  ghost predicate Decides(replies: seq<Reply>, k: nat) {
    k < |replies| && !NotOffered(replies[k]) && forall j :: 0 <= j < k ==> NotOffered(replies[j])
  }

  /** The error a deciding reply leads to. */
  function Verdict(r: Reply): Option<ProbeError> {
    match r
    case BadRequest => Some(RequestFailed)
    case NoAnswer => Some(CheckFailed)
    case Answer(status, closeFails) =>
      if closeFails then Some(CloseFailed) else if 200 <= status < 300 then None else Some(BadStatus(status))
  }

  lemma DecidesOnce(replies: seq<Reply>, k: nat)
    requires k < |replies| && !NotOffered(replies[k]) && forall j :: 0 <= j < k ==> NotOffered(replies[j])
    ensures Decides(replies, k) && forall j: nat :: Decides(replies, j) ==> j == k
  {}

  lemma NoneDecides(replies: seq<Reply>)
    requires forall j :: 0 <= j < |replies| ==> NotOffered(replies[j])
    ensures forall k: nat :: !Decides(replies, k)
  {}

  const CLUSTER_HEALTH_ENDPOINTS := ["/readyz", "/livez", "/healthz"]

  /** What the last endpoint that was tried says about the outcome, in numbers. */
  ghost predicate Concludes(last: Reply, error: Option<ProbeError>, exhausted: bool) {
    match last
    case BadRequest => error == Some(RequestFailed)
    case NoAnswer => error == Some(CheckFailed)
    case Answer(status, closeFails) =>
      if closeFails then error == Some(CloseFailed)
      else if status == 404 || status == 405 then exhausted && error == Some(Unsupported)
      else if 200 <= status <= 299 then error == None
      else error == Some(BadStatus(status))
  }

  /** `replies[k]` is what endpoint k answers if it is tried; `tried` lists the endpoints that
      were, in order. The endpoint list is a parameter (the program's has three entries). */
  method CheckClusterAPILiveness(base: BaseURL, endpoints: seq<string>, replies: seq<Reply>)
    returns (result: LivenessResult, error: Option<ProbeError>, tried: seq<string>)
    requires |replies| == |endpoints|
    ensures error.None? <==> result.healthy
    ensures result.healthy ==> result.online
    ensures result.healthy <==> ValidBase(base) && exists k: nat :: Decides(replies, k) && Success(replies[k])
    // exactly the endpoints up to the deciding one are tried, or all when none decides
    ensures |tried| <= |endpoints| && forall j :: 0 <= j < |tried| ==> tried[j] == EndpointPath(base.path, endpoints[j])
    ensures result.online <==> exists j :: 0 <= j < |tried| && replies[j].Answer?
    // an endpoint path is appended to the base path, with one slash in between
    ensures forall j :: 0 <= j < |tried| ==> Joins(tried[j], base.path, endpoints[j])
    // one endpoint after the other is tried as long as they answer 404 or 405
    ensures forall j :: 0 <= j < |tried| - 1 ==> replies[j] == Answer(404, false) || replies[j] == Answer(405, false)
    ensures if tried == [] then error == Some(if endpoints == [] && base.host != "" && base.scheme in {"http", "https"}
                                              then Unsupported else InvalidURL)
            else Concludes(replies[|tried| - 1], error, |tried| == |endpoints|)
    ensures !ValidBase(base) ==> tried == [] && error == Some(InvalidURL)
    ensures forall k: nat {:trigger Decides(replies, k)} :: ValidBase(base) && Decides(replies, k)
              ==> |tried| == k + 1 && error == Verdict(replies[k])
    ensures ValidBase(base) && (forall j :: 0 <= j < |replies| ==> NotOffered(replies[j]))
            ==> |tried| == |endpoints| && error == Some(Unsupported)
  {
    result, error, tried := LivenessResult(false, false), None, [];
    if !ValidBase(base) {
      return result, Some(InvalidURL), tried;
    }
    for i := 0 to |endpoints|
      invariant error.None? && !result.healthy && |tried| == i
      invariant forall j :: 0 <= j < i ==> tried[j] == EndpointPath(base.path, endpoints[j])
      invariant forall j :: 0 <= j < i ==> Joins(tried[j], base.path, endpoints[j])
      invariant forall j :: 0 <= j < i ==> NotOffered(replies[j])
      invariant result.online <==> exists j :: 0 <= j < i && replies[j].Answer?
    {
      EndpointPathJoins(base.path, endpoints[i]);
      tried := tried + [EndpointPath(base.path, endpoints[i])];
      if !NotOffered(replies[i]) {
        DecidesOnce(replies, i);
      }
      match replies[i] {
        case BadRequest => return result, Some(RequestFailed), tried;
        case NoAnswer => return result, Some(CheckFailed), tried;
        case Answer(status, closeFails) =>
          result := result.(online := true);
          assert replies[i].Answer?;
          if closeFails {
            return result, Some(CloseFailed), tried;
          }
          if status == 404 || status == 405 {
            continue;
          }
          if status < 200 || status >= 300 {
            return result, Some(BadStatus(status)), tried;
          }
          result := result.(healthy := true);
          return result, None, tried;
      }
    }
    NoneDecides(replies);
    error := Some(Unsupported);
  }

  function TrimRightSlash(s: string): string {
    if s != "" && s[|s| - 1] == '/' then TrimRightSlash(s[..|s| - 1]) else s
  }

  function TrimLeftSlash(s: string): string {
    if s != "" && s[0] == '/' then TrimLeftSlash(s[1..]) else s
  }

  function EndpointPath(basePath: string, healthPath: string): string {
    TrimRightSlash(basePath) + "/" + TrimLeftSlash(healthPath)
  }

  ghost predicate Slashes(s: string) {
    forall i :: 0 <= i < |s| ==> s[i] == '/'
  }

  /** The path is the base path without its last slashes, one slash, and the rest without its first. */
  ghost predicate Joins(path: string, basePath: string, healthPath: string) {
    exists i, j :: 0 <= i <= |basePath| && 0 <= j <= |healthPath| && JoinsAt(path, basePath, healthPath, i, j)
  }

  ghost predicate JoinsAt(path: string, basePath: string, healthPath: string, i: nat, j: nat)
    requires i <= |basePath| && j <= |healthPath|
  {
    && Slashes(basePath[i..]) && (i > 0 ==> basePath[i - 1] != '/')
    && Slashes(healthPath[..j]) && (j < |healthPath| ==> healthPath[j] != '/')
    && path == basePath[..i] + "/" + healthPath[j..]
  }

  lemma {:induction false} TrimRightIs(s: string) returns (i: nat)
    ensures i <= |s| && TrimRightSlash(s) == s[..i] && Slashes(s[i..]) && (i > 0 ==> s[i - 1] != '/')
  {
    if s != "" && s[|s| - 1] == '/' {
      i := TrimRightIs(s[..|s| - 1]);
      assert s[..|s| - 1][..i] == s[..i] && s[i..] == s[..|s| - 1][i..] + ['/'];
    } else {
      i := |s|;
    }
  }

  lemma {:induction false} TrimLeftIs(s: string) returns (j: nat)
    ensures j <= |s| && TrimLeftSlash(s) == s[j..] && Slashes(s[..j]) && (j < |s| ==> s[j] != '/')
  {
    if s != "" && s[0] == '/' {
      j := TrimLeftIs(s[1..]);
      assert s[1..][j..] == s[j + 1..] && s[..j + 1] == ['/'] + s[1..][..j];
      j := j + 1;
    } else {
      j := 0;
    }
  }

  lemma EndpointPathJoins(basePath: string, healthPath: string)
    ensures Joins(EndpointPath(basePath, healthPath), basePath, healthPath)
  {
    var i := TrimRightIs(basePath);
    var j := TrimLeftIs(healthPath);
    assert JoinsAt(EndpointPath(basePath, healthPath), basePath, healthPath, i, j);
  }

  /** Whatever slashes there are at the joint, the endpoint is the stem, one slash and the tail; so a
      proxied cluster is asked for its own health under its own path. */
  lemma EndpointPathIs(stem: string, after: string, before: string, tail: string)
    requires stem != "" ==> stem[|stem| - 1] != '/'
    requires tail != "" ==> tail[0] != '/'
    requires Slashes(after) && Slashes(before)
    ensures EndpointPath(stem + after, before + tail) == stem + "/" + tail
  {
    TrimRightAppended(stem, after);
    TrimLeftPrepended(before, tail);
  }

  lemma {:induction false} TrimRightAppended(stem: string, after: string)
    requires (stem != "" ==> stem[|stem| - 1] != '/') && Slashes(after)
    ensures TrimRightSlash(stem + after) == stem
  {
    if after == "" {
      assert stem + after == stem;
    } else {
      assert (stem + after)[..|stem + after| - 1] == stem + after[..|after| - 1];
      TrimRightAppended(stem, after[..|after| - 1]);
    }
  }

  lemma {:induction false} TrimLeftPrepended(before: string, tail: string)
    requires (tail != "" ==> tail[0] != '/') && Slashes(before)
    ensures TrimLeftSlash(before + tail) == tail
  {
    if before == "" {
      assert before + tail == tail;
    } else {
      assert (before + tail)[1..] == before[1..] + tail;
      TrimLeftPrepended(before[1..], tail);
    }
  }

  lemma ProxiedEndpoints(cluster: string)
    requires cluster != "" && cluster[|cluster| - 1] != '/'
    ensures EndpointPath("/" + cluster, CLUSTER_HEALTH_ENDPOINTS[0]) == "/" + cluster + "/readyz"
    ensures EndpointPath("/" + cluster, CLUSTER_HEALTH_ENDPOINTS[1]) == "/" + cluster + "/livez"
    ensures EndpointPath("/" + cluster, CLUSTER_HEALTH_ENDPOINTS[2]) == "/" + cluster + "/healthz"
  {
    assert "/readyz" == "/" + "readyz" && "/livez" == "/" + "livez" && "/healthz" == "/" + "healthz";
    assert "/" + cluster == ("/" + cluster) + "";
    EndpointPathIs("/" + cluster, "", "/", "readyz");
    EndpointPathIs("/" + cluster, "", "/", "livez");
    EndpointPathIs("/" + cluster, "", "/", "healthz");
    assert ("/" + cluster) + "/" + "readyz" == "/" + cluster + "/readyz";
    assert ("/" + cluster) + "/" + "livez" == "/" + cluster + "/livez";
    assert ("/" + cluster) + "/" + "healthz" == "/" + cluster + "/healthz";
  }
}
