/** Values shared by the controllers: optional values, fallible reads and the cluster
    data that a KrknTargetRequest and its companion secret carry. */
module Types {

  datatype Option<+T> = None | Some(value: T)

  datatype Result<+T, +E> = Ok(value: T) | Err(error: E)

  /** The zero value means that no status was set. */
  datatype HealthStatus = NotSet | Healthy | Unhealthy | Unknown

  /** One entry of Status.TargetData[operator]. */
  datatype ClusterTarget = ClusterTarget(
    clusterName: string,
    clusterAPIURL: string,
    online: bool,
    status: HealthStatus)

  /** One entry of the secret: what a client needs to reach the cluster. */
  datatype ClusterData = ClusterData(clusterName: string, clusterAPI: string, kubeconfig: string)

  /** The two outputs of one pass over the managed clusters. */
  datatype Snapshot = Snapshot(targets: seq<ClusterTarget>, clusters: map<string, ClusterData>)
  {
    /** Every cluster in the secret is a listed target and both agree on its API URL. */
    ghost predicate Consistent() {
      forall name :: name in clusters ==>
        clusters[name].clusterName == name
        && exists i :: 0 <= i < |targets| && targets[i].clusterName == name
                       && targets[i].clusterAPIURL == clusters[name].clusterAPI
    }
  }
}
