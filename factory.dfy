/**
 The subnet-group reconciler and the two lookups shared by the cluster and
 instance factories and the readiness pollers (factory/factory.go).
 */
module Factory {
  import opened Wrappers
  import opened Rds

  /** What createSubnetGroup hands back for a create call that failed with `e`.
      Every AWS-coded error, whatever its code, is passed back as it is. A
      non-AWS error makes the `err.(awserr.Error)` assertion fail, and the nil
      `aerr` it leaves is what is returned: the caller gets neither a group nor
      an error. */
  function CreateFailureReply(e: Error): Reply<SubnetGroup> {
    match e
    case AwsError(_, _) => Reply(None, Some(e))
    case OtherError(_) => Reply(None, None)
  }

  /** What a failed create evidently should hand back: the error itself. */
  function IntendedCreateFailureReply(e: Error): Reply<SubnetGroup> {
    Reply(None, Some(e))
  }

  /** What createSubnetGroup hands back once the create call reported `createErr`. */
  function CreateReply(createErr: Option<Error>, input: CreateDBSubnetGroupInput): Reply<SubnetGroup> {
    if createErr.None? then Reply(Some(GroupFrom(input)), None) else CreateFailureReply(createErr.value)
  }

  /** Every AWS code comes back unchanged: the already-exists race
      (DBSubnetGroupAlreadyExists), both quota faults (DBSubnetGroupQuotaExceeded,
      DBSubnetQuotaExceededFault), too few availability zones
      (DBSubnetGroupDoesNotCoverEnoughAZs), an invalid subnet (InvalidSubnet)
      and any other code. */
  lemma AwsCreateFailurePassesThrough(e: Error)
    requires e.AwsError?
    ensures CreateFailureReply(e) == Reply(None, Some(e))
    ensures CreateFailureReply(e).Exclusive()
  {
  }

  /** A non-AWS create failure is reported as neither a group nor an error. */
  lemma NonAwsCreateFailureIsSilent(message: string)
    ensures CreateFailureReply(OtherError(message)).value.None?
    ensures CreateFailureReply(OtherError(message)).err.None?
    ensures !CreateFailureReply(OtherError(message)).Exclusive()
  {
  }

  /** With the error returned as intended, every failed create is reported. */
  lemma IntendedCreateFailureIsReported(e: Error)
    ensures IntendedCreateFailureReply(e).err == Some(e)
    ensures IntendedCreateFailureReply(e).Exclusive()
    ensures e.AwsError? ==> IntendedCreateFailureReply(e) == CreateFailureReply(e)
  {
  }

  /** createSubnetGroup: copy the subnet ids, issue one create call and
      translate its outcome. */
  method CreateSubnetGroup(svc: Service, subnetGroupName: string, groupDescription: string, subnetIds: seq<string>)
    returns (r: Reply<SubnetGroup>)
    modifies svc
    ensures svc.SubnetGroupCreated(CreateDBSubnetGroupInput(subnetGroupName, groupDescription, subnetIds))
    ensures old(svc.Valid()) ==> svc.Valid()
    ensures r == CreateReply(old(svc.CreateSubnetGroupError(CreateDBSubnetGroupInput(subnetGroupName, groupDescription, subnetIds))),
                             CreateDBSubnetGroupInput(subnetGroupName, groupDescription, subnetIds))
  {
    var sIds: seq<string> := [];
    for i := 0 to |subnetIds|
      invariant sIds == subnetIds[..i]
    {
      sIds := sIds + [subnetIds[i]];
    }
    assert sIds == subnetIds;
    var groupInput := CreateDBSubnetGroupInput(subnetGroupName, groupDescription, sIds);
    var groupOutput := svc.CreateDBSubnetGroup(groupInput);
    if groupOutput.err.Some? {
      match groupOutput.err.value
      case AwsError(_, _) =>
        return Reply(None, groupOutput.err);
      case OtherError(_) =>
        return Reply(None, None);
    }
    return Reply(groupOutput.value, None);
  }

  /** UpdateOrCreateDBSubnetGroup: return the group of that name if the service
      has one; on the not-found fault create it; pass any other error back. */
  method UpdateOrCreateDBSubnetGroup(svc: Service, groupName: string, groupDescription: string, subnets: seq<string>)
    returns (r: Reply<SubnetGroup>)
    modifies svc
    ensures old(svc.Valid()) ==> svc.Valid()
    // found: the stored group, and no call that changes anything
    ensures old(svc.describeFault).None? && groupName in old(svc.subnetGroups) ==>
              r == Reply(Some(old(svc.subnetGroups)[groupName]), None) && unchanged(svc)
    // not found: exactly one create, with the requested name, description and subnets
    ensures var d := old(svc.DescribeDBSubnetGroups(groupName)).err;
            var input := CreateDBSubnetGroupInput(groupName, groupDescription, subnets);
            d.Some? && HasCode(d.value, ErrCodeDBSubnetGroupNotFoundFault) ==>
              && svc.SubnetGroupCreated(input)
              && r == CreateReply(old(svc.CreateSubnetGroupError(input)), input)
    // any other describe error: returned unchanged, and nothing is created
    ensures var d := old(svc.DescribeDBSubnetGroups(groupName)).err;
            d.Some? && !HasCode(d.value, ErrCodeDBSubnetGroupNotFoundFault) ==>
              r == Reply(None, d) && unchanged(svc)
    ensures |old(svc.creates)| <= |svc.creates| <= |old(svc.creates)| + 1
    ensures old(svc.Valid()) && r.value.Some? ==> r.value.value.name == groupName
  {
    var descGroupsOutput := svc.DescribeDBSubnetGroups(groupName);
    if descGroupsOutput.err.Some? {
      var err := descGroupsOutput.err.value;
      if HasCode(err, ErrCodeDBSubnetGroupNotFoundFault) {
        r := CreateSubnetGroup(svc, groupName, groupDescription, subnets);
        return;
      }
      return Reply(None, Some(err));
    }
    return Reply(Some(descGroupsOutput.items[0]), None);
  }

  /** Reconciling the same group twice creates it at most once: the second
      call finds what the first one made or found. */
  method UpdateOrCreateDBSubnetGroupTwice(svc: Service, groupName: string, groupDescription: string, subnets: seq<string>)
    returns (first: Reply<SubnetGroup>, second: Reply<SubnetGroup>)
    requires svc.describeFault.None? && svc.createFault.None?
    modifies svc
    ensures |svc.creates| <= |old(svc.creates)| + 1
    ensures groupName in old(svc.subnetGroups) ==> svc.creates == old(svc.creates)
    ensures first.value.Some? && second == first
  {
    first := UpdateOrCreateDBSubnetGroup(svc, groupName, groupDescription, subnets);
    second := UpdateOrCreateDBSubnetGroup(svc, groupName, groupDescription, subnets);
  }

  /** findDBCluster: element 0 of the describe output, or the describe error unchanged. */
  function FindDBCluster(svc: Service, clusterIdentifier: string): (r: Reply<Cluster>)
    reads svc
    ensures r.Exclusive()
    ensures r.err == svc.DescribeDBClusters(clusterIdentifier).err
    ensures r.value.Some? ==> clusterIdentifier in svc.clusters && r.value.value == svc.clusters[clusterIdentifier]
  {
    var descClusterOutput := svc.DescribeDBClusters(clusterIdentifier);
    if descClusterOutput.err.Some? then Reply(None, descClusterOutput.err)
    else Reply(Some(descClusterOutput.items[0]), None)
  }

  /** findDBClusterInstance: element 0 of the describe output, or the describe error unchanged. */
  function FindDBClusterInstance(svc: Service, instanceIdentifier: string): (r: Reply<Instance>)
    reads svc
    ensures r.Exclusive()
    ensures r.err == svc.DescribeDBInstances(instanceIdentifier).err
    ensures r.value.Some? ==> instanceIdentifier in svc.instances && r.value.value == svc.instances[instanceIdentifier]
  {
    var descInstancesOutput := svc.DescribeDBInstances(instanceIdentifier);
    if descInstancesOutput.err.Some? then Reply(None, descInstancesOutput.err)
    else Reply(Some(descInstancesOutput.items[0]), None)
  }
}
