/**
 An abstract stand-in for the RDS control-plane client that the factories call.
 The service keeps the subnet groups, clusters and instances it knows, keyed by
 identifier; an injectable fault for describe calls and one for create calls;
 and the log of every create call it received, in order.
 */
module Rds {
  import opened Wrappers

  /** What an SDK call fails with: an error that carries an AWS error code
      (what `awserr.Error` exposes), or any other Go error. */
  datatype Error = AwsError(code: string, message: string) | OtherError(message: string)

  /** `err.(awserr.Error)` succeeds and `aerr.Code() == code`. */
  predicate HasCode(e: Error, code: string) {
    e.AwsError? && e.code == code
  }

  // Error codes, with the values of the SDK's rds package.
  const ErrCodeDBSubnetGroupNotFoundFault := "DBSubnetGroupNotFoundFault"
  const ErrCodeDBSubnetGroupAlreadyExistsFault := "DBSubnetGroupAlreadyExists"
  const ErrCodeDBClusterNotFoundFault := "DBClusterNotFoundFault"
  const ErrCodeDBClusterAlreadyExistsFault := "DBClusterAlreadyExistsFault"
  const ErrCodeDBInstanceNotFoundFault := "DBInstanceNotFound"
  const ErrCodeDBInstanceAlreadyExistsFault := "DBInstanceAlreadyExists"

  /** The status a freshly created cluster or instance reports. */
  const StatusCreating := "creating"

  datatype SubnetGroup = SubnetGroup(name: string, description: string, subnetIds: seq<string>)

  datatype Cluster = Cluster(
    identifier: string,
    engine: string,
    engineVersion: string,
    masterUsername: string,
    subnetGroupName: Option<string>,
    securityGroupIds: seq<string>,
    status: string)

  datatype Instance = Instance(
    identifier: string,
    clusterIdentifier: string,
    engine: string,
    instanceClass: string,
    status: string)

  datatype CreateDBSubnetGroupInput = CreateDBSubnetGroupInput(
    subnetGroupName: string,
    description: string,
    subnetIds: seq<string>)

  datatype CreateDBClusterInput = CreateDBClusterInput(
    clusterIdentifier: string,
    engine: string,
    engineVersion: string,
    masterUsername: string,
    masterUserPassword: string,
    subnetGroupName: Option<string>,
    vpcSecurityGroupIds: seq<string>)

  datatype CreateDBInstanceInput = CreateDBInstanceInput(
    instanceIdentifier: string,
    clusterIdentifier: string,
    engine: string,
    instanceClass: string)

  /** One entry of the service's log of mutating calls. */
  datatype CreateCall =
    | CreateSubnetGroupCall(groupInput: CreateDBSubnetGroupInput)
    | CreateClusterCall(clusterInput: CreateDBClusterInput)
    | CreateInstanceCall(instanceInput: CreateDBInstanceInput)

  /** The output of a describe-by-identifier call: the matching resources, or an error. */
  datatype DescribeOutput<T> = DescribeOutput(items: seq<T>, err: Option<Error>)

  /** The pair (resource, error) a Go function returns; None stands for nil. */
  datatype Reply<T> = Reply(value: Option<T>, err: Option<Error>) {
    /** Go's convention: exactly one of the two results is non-nil. */
    predicate Exclusive() {
      value.Some? <==> err.None?
    }
  }

  /** The group the service reports back after creating it from `input`. */
  function GroupFrom(input: CreateDBSubnetGroupInput): SubnetGroup {
    SubnetGroup(input.subnetGroupName, input.description, input.subnetIds)
  }

  /** The cluster the service reports back after creating it from `input`
      (the service does not report the master password back). */
  function ClusterFrom(input: CreateDBClusterInput): Cluster {
    Cluster(input.clusterIdentifier, input.engine, input.engineVersion, input.masterUsername,
            input.subnetGroupName, input.vpcSecurityGroupIds, StatusCreating)
  }

  /** The instance the service reports back after creating it from `input`. */
  function InstanceFrom(input: CreateDBInstanceInput): Instance {
    Instance(input.instanceIdentifier, input.clusterIdentifier, input.engine, input.instanceClass, StatusCreating)
  }

  class Service {
    var subnetGroups: map<string, SubnetGroup>
    var clusters: map<string, Cluster>
    var instances: map<string, Instance>
    /** When set, every describe call fails with this error. */
    var describeFault: Option<Error>
    /** When set, every create call fails with this error. */
    var createFault: Option<Error>
    /** Every create call received, oldest first. */
    var creates: seq<CreateCall>

    /** Every resource is stored under its own identifier. */
    ghost predicate Valid()
      reads this
    {
      && (forall n :: n in subnetGroups ==> subnetGroups[n].name == n)
      && (forall id :: id in clusters ==> clusters[id].identifier == id)
      && (forall id :: id in instances ==> instances[id].identifier == id)
    }

    constructor (
      subnetGroups: map<string, SubnetGroup>,
      clusters: map<string, Cluster>,
      instances: map<string, Instance>,
      describeFault: Option<Error>,
      createFault: Option<Error>)
      ensures this.subnetGroups == subnetGroups && this.clusters == clusters && this.instances == instances
      ensures this.describeFault == describeFault && this.createFault == createFault
      ensures creates == []
      ensures Valid() <==>
                && (forall n :: n in subnetGroups ==> subnetGroups[n].name == n)
                && (forall id :: id in clusters ==> clusters[id].identifier == id)
                && (forall id :: id in instances ==> instances[id].identifier == id)
    {
      this.subnetGroups := subnetGroups;
      this.clusters := clusters;
      this.instances := instances;
      this.describeFault := describeFault;
      this.createFault := createFault;
      creates := [];
    }

    /** DescribeDBSubnetGroups with a group name: the one group of that name, or a fault. */
    function DescribeDBSubnetGroups(name: string): (out: DescribeOutput<SubnetGroup>)
      reads this
      ensures out.err.None? <==> describeFault.None? && name in subnetGroups
      ensures out.err.None? ==> out.items == [subnetGroups[name]]
      ensures out.err.Some? ==> out.items == []
      ensures describeFault.None? && name !in subnetGroups ==> HasCode(out.err.value, ErrCodeDBSubnetGroupNotFoundFault)
    {
      if describeFault.Some? then DescribeOutput([], describeFault)
      else if name in subnetGroups then DescribeOutput([subnetGroups[name]], None)
      else DescribeOutput([], Some(AwsError(ErrCodeDBSubnetGroupNotFoundFault, name)))
    }

    /** DescribeDBClusters with a cluster identifier. */
    function DescribeDBClusters(id: string): (out: DescribeOutput<Cluster>)
      reads this
      ensures out.err.None? <==> describeFault.None? && id in clusters
      ensures out.err.None? ==> out.items == [clusters[id]]
      ensures out.err.Some? ==> out.items == []
      ensures describeFault.None? && id !in clusters ==> HasCode(out.err.value, ErrCodeDBClusterNotFoundFault)
    {
      if describeFault.Some? then DescribeOutput([], describeFault)
      else if id in clusters then DescribeOutput([clusters[id]], None)
      else DescribeOutput([], Some(AwsError(ErrCodeDBClusterNotFoundFault, id)))
    }

    /** DescribeDBInstances with an instance identifier. */
    function DescribeDBInstances(id: string): (out: DescribeOutput<Instance>)
      reads this
      ensures out.err.None? <==> describeFault.None? && id in instances
      ensures out.err.None? ==> out.items == [instances[id]]
      ensures out.err.Some? ==> out.items == []
      ensures describeFault.None? && id !in instances ==> HasCode(out.err.value, ErrCodeDBInstanceNotFoundFault)
    {
      if describeFault.Some? then DescribeOutput([], describeFault)
      else if id in instances then DescribeOutput([instances[id]], None)
      else DescribeOutput([], Some(AwsError(ErrCodeDBInstanceNotFoundFault, id)))
    }

    /** The error a create of `input` would fail with now, if any. */
    function CreateSubnetGroupError(input: CreateDBSubnetGroupInput): Option<Error>
      reads this
    {
      if createFault.Some? then createFault
      else if input.subnetGroupName in subnetGroups
      then Some(AwsError(ErrCodeDBSubnetGroupAlreadyExistsFault, input.subnetGroupName))
      else None
    }

    function CreateClusterError(input: CreateDBClusterInput): Option<Error>
      reads this
    {
      if createFault.Some? then createFault
      else if input.clusterIdentifier in clusters
      then Some(AwsError(ErrCodeDBClusterAlreadyExistsFault, input.clusterIdentifier))
      else None
    }

    function CreateInstanceError(input: CreateDBInstanceInput): Option<Error>
      reads this
    {
      if createFault.Some? then createFault
      else if input.instanceIdentifier in instances
      then Some(AwsError(ErrCodeDBInstanceAlreadyExistsFault, input.instanceIdentifier))
      else None
    }

    /** The state change of one create-subnet-group call: it is logged, and the
        group is stored unless the call failed. Nothing else changes. */
    twostate predicate SubnetGroupCreated(input: CreateDBSubnetGroupInput)
      reads this
    {
      && creates == old(creates) + [CreateSubnetGroupCall(input)]
      && subnetGroups == (if old(CreateSubnetGroupError(input)).None?
                          then old(subnetGroups)[input.subnetGroupName := GroupFrom(input)]
                          else old(subnetGroups))
      && clusters == old(clusters) && instances == old(instances)
      && describeFault == old(describeFault) && createFault == old(createFault)
    }

    twostate predicate ClusterCreated(input: CreateDBClusterInput)
      reads this
    {
      && creates == old(creates) + [CreateClusterCall(input)]
      && clusters == (if old(CreateClusterError(input)).None?
                      then old(clusters)[input.clusterIdentifier := ClusterFrom(input)]
                      else old(clusters))
      && subnetGroups == old(subnetGroups) && instances == old(instances)
      && describeFault == old(describeFault) && createFault == old(createFault)
    }

    twostate predicate InstanceCreated(input: CreateDBInstanceInput)
      reads this
    {
      && creates == old(creates) + [CreateInstanceCall(input)]
      && instances == (if old(CreateInstanceError(input)).None?
                       then old(instances)[input.instanceIdentifier := InstanceFrom(input)]
                       else old(instances))
      && subnetGroups == old(subnetGroups) && clusters == old(clusters)
      && describeFault == old(describeFault) && createFault == old(createFault)
    }

    method CreateDBSubnetGroup(input: CreateDBSubnetGroupInput) returns (r: Reply<SubnetGroup>)
      modifies this
      ensures SubnetGroupCreated(input)
      ensures old(Valid()) ==> Valid()
      ensures r.err == old(CreateSubnetGroupError(input))
      ensures r.value == if r.err.None? then Some(GroupFrom(input)) else None
    {
      r := Reply(None, CreateSubnetGroupError(input));
      if r.err.None? {
        r := Reply(Some(GroupFrom(input)), None);
        subnetGroups := subnetGroups[input.subnetGroupName := GroupFrom(input)];
      }
      creates := creates + [CreateSubnetGroupCall(input)];
    }

    method CreateDBCluster(input: CreateDBClusterInput) returns (r: Reply<Cluster>)
      modifies this
      ensures ClusterCreated(input)
      ensures old(Valid()) ==> Valid()
      ensures r.err == old(CreateClusterError(input))
      ensures r.value == if r.err.None? then Some(ClusterFrom(input)) else None
    {
      r := Reply(None, CreateClusterError(input));
      if r.err.None? {
        r := Reply(Some(ClusterFrom(input)), None);
        clusters := clusters[input.clusterIdentifier := ClusterFrom(input)];
      }
      creates := creates + [CreateClusterCall(input)];
    }

    method CreateDBInstance(input: CreateDBInstanceInput) returns (r: Reply<Instance>)
      modifies this
      ensures InstanceCreated(input)
      ensures old(Valid()) ==> Valid()
      ensures r.err == old(CreateInstanceError(input))
      ensures r.value == if r.err.None? then Some(InstanceFrom(input)) else None
    {
      r := Reply(None, CreateInstanceError(input));
      if r.err.None? {
        r := Reply(Some(InstanceFrom(input)), None);
        instances := instances[input.instanceIdentifier := InstanceFrom(input)];
      }
      creates := creates + [CreateInstanceCall(input)];
    }
  }
}
