/** The cluster factory: find-or-create of one DB cluster (factory/cluster_factory.go). */
module ClusterFactory {
  import opened Wrappers
  import opened Rds
  import Factory

  /** What the caller supplies to build a cluster factory. */
  datatype NewDBClusterFactoryInput = NewDBClusterFactoryInput(
    clusterId: string,
    engine: string,
    engineVersion: string,
    masterUsername: string,
    masterUserPass: string,
    securityGroupIds: seq<string>,
    subnetGroupName: Option<string>)

  class DBClusterFactory {
    var clusterIdentifier: string
    var subnetGroupName: Option<string>
    var securityGroupIds: seq<string>
    var engine: string
    var engineVersion: string
    var masterUsername: string
    var masterUserPass: string

    /** NewDBClusterFactory: every field is copied from the input; the security
        group ids keep their order and length. */
    constructor (input: NewDBClusterFactoryInput)
      ensures clusterIdentifier == input.clusterId
      ensures engine == input.engine && engineVersion == input.engineVersion
      ensures masterUsername == input.masterUsername && masterUserPass == input.masterUserPass
      ensures subnetGroupName == input.subnetGroupName
      ensures securityGroupIds == input.securityGroupIds
    {
      clusterIdentifier := input.clusterId;
      engine := input.engine;
      engineVersion := input.engineVersion;
      masterUsername := input.masterUsername;
      masterUserPass := input.masterUserPass;
      subnetGroupName := input.subnetGroupName;
      var sIds: seq<string> := [];
      for i := 0 to |input.securityGroupIds|
        invariant sIds == input.securityGroupIds[..i]
      {
        sIds := sIds + [input.securityGroupIds[i]];
      }
      assert sIds == input.securityGroupIds;
      securityGroupIds := sIds;
    }

    /** The create request createDBCluster sends: all seven factory fields. */
    function CreateInput(): CreateDBClusterInput
      reads this
    {
      CreateDBClusterInput(clusterIdentifier, engine, engineVersion, masterUsername, masterUserPass,
                           subnetGroupName, securityGroupIds)
    }

    /** createDBCluster: one create call; its error, or the created cluster. */
    method CreateDBCluster(svc: Service) returns (r: Reply<Cluster>)
      modifies svc
      ensures svc.ClusterCreated(CreateInput())
      ensures old(svc.Valid()) ==> svc.Valid()
      ensures r.Exclusive()
      ensures r.err == old(svc.CreateClusterError(CreateInput()))
      ensures r.err.None? ==> r.value == Some(ClusterFrom(CreateInput()))
    {
      var clusterInput := CreateDBClusterInput(clusterIdentifier, engine, engineVersion, masterUsername,
                                               masterUserPass, subnetGroupName, securityGroupIds);
      var clusterOutput := svc.CreateDBCluster(clusterInput);
      if clusterOutput.err.Some? {
        return Reply(None, clusterOutput.err);
      }
      return Reply(clusterOutput.value, None);
    }

    /** FindOrCreateDBCluster: the existing cluster, or a create on the
        not-found fault; any other error, AWS or not, is passed back. */
    method FindOrCreateDBCluster(svc: Service) returns (r: Reply<Cluster>)
      modifies svc
      ensures old(svc.Valid()) ==> svc.Valid()
      ensures r.Exclusive()
      // found: returned as it is, nothing created
      ensures old(svc.describeFault).None? && clusterIdentifier in old(svc.clusters) ==>
                r == Reply(Some(old(svc.clusters)[clusterIdentifier]), None) && unchanged(svc)
      // not found: exactly one create, carrying the seven factory fields
      ensures var d := old(Factory.FindDBCluster(svc, clusterIdentifier)).err;
              d.Some? && HasCode(d.value, ErrCodeDBClusterNotFoundFault) ==>
                && svc.ClusterCreated(CreateInput())
                && r.err == old(svc.CreateClusterError(CreateInput()))
                && (r.err.None? ==> r.value == Some(ClusterFrom(CreateInput())))
      // any other error: unchanged, nothing created
      ensures var d := old(Factory.FindDBCluster(svc, clusterIdentifier)).err;
              d.Some? && !HasCode(d.value, ErrCodeDBClusterNotFoundFault) ==>
                r == Reply(None, d) && unchanged(svc)
      ensures |old(svc.creates)| <= |svc.creates| <= |old(svc.creates)| + 1
      ensures old(svc.Valid()) && r.value.Some? ==> r.value.value.identifier == clusterIdentifier
    {
      var found := Factory.FindDBCluster(svc, clusterIdentifier);
      if found.err.Some? {
        var err := found.err.value;
        match err
        case AwsError(code, _) =>
          if code == ErrCodeDBClusterNotFoundFault {
            r := CreateDBCluster(svc);
            return;
          }
          return Reply(None, Some(err));
        case OtherError(_) =>
          return Reply(None, Some(err));
      }
      return found;
    }

    /** Running the reconciler twice creates the cluster at most once. */
    method FindOrCreateDBClusterTwice(svc: Service) returns (first: Reply<Cluster>, second: Reply<Cluster>)
      requires svc.describeFault.None? && svc.createFault.None?
      modifies svc
      ensures |svc.creates| <= |old(svc.creates)| + 1
      ensures clusterIdentifier in old(svc.clusters) ==> svc.creates == old(svc.creates)
      ensures first.value.Some? && second == first
    {
      first := FindOrCreateDBCluster(svc);
      second := FindOrCreateDBCluster(svc);
    }
  }
}
