/** The instance factory: find-or-create of the cluster's instance (factory/instance_factory.go). */
module InstanceFactory {
  import opened Wrappers
  import opened Rds
  import Factory

  /** How a call ends: it returns its (instance, error) pair, or the process
      is aborted by `log.Fatal` and nothing is returned. */
  datatype Outcome = Returned(reply: Reply<Instance>) | Aborted(cause: Error)

  class DBInstanceFactory {
    var instanceIdentifier: string
    var clusterIdentifier: string
    var engine: string
    var instanceClass: string

    /** NewDBInstanceFactory: engine and cluster identifier come from the
        cluster; instance identifier and class from the arguments. */
    constructor (cluster: Cluster, id: string, instanceClass: string)
      ensures engine == cluster.engine && clusterIdentifier == cluster.identifier
      ensures instanceIdentifier == id && this.instanceClass == instanceClass
    {
      engine := cluster.engine;
      instanceIdentifier := id;
      this.instanceClass := instanceClass;
      clusterIdentifier := cluster.identifier;
    }

    /** The create request createDBClusterInstance sends. */
    function CreateInput(): CreateDBInstanceInput
      reads this
    {
      CreateDBInstanceInput(instanceIdentifier, clusterIdentifier, engine, instanceClass)
    }

    /** createDBClusterInstance: one create call; a failure aborts the process. */
    method CreateDBClusterInstance(svc: Service) returns (o: Outcome)
      modifies svc
      ensures svc.InstanceCreated(CreateInput())
      ensures old(svc.Valid()) ==> svc.Valid()
      ensures var e := old(svc.CreateInstanceError(CreateInput()));
              o == if e.None? then Returned(Reply(Some(InstanceFrom(CreateInput())), None)) else Aborted(e.value)
    {
      var instanceInput := CreateDBInstanceInput(instanceIdentifier, clusterIdentifier, engine, instanceClass);
      var instanceOutput := svc.CreateDBInstance(instanceInput);
      if instanceOutput.err.Some? {
        return Aborted(instanceOutput.err.value);
      }
      return Returned(Reply(instanceOutput.value, None));
    }

    /** FindOrCreateDBClusterInstance: the existing instance, or a create on
        the not-found fault; any other error is passed back. */
    method FindOrCreateDBClusterInstance(svc: Service) returns (o: Outcome)
      modifies svc
      ensures old(svc.Valid()) ==> svc.Valid()
      ensures o.Returned? ==> o.reply.Exclusive()
      // found: returned as it is, nothing created
      ensures old(svc.describeFault).None? && instanceIdentifier in old(svc.instances) ==>
                o == Returned(Reply(Some(old(svc.instances)[instanceIdentifier]), None)) && unchanged(svc)
      // not found: exactly one create with identifier, cluster, engine and class
      ensures var d := old(Factory.FindDBClusterInstance(svc, instanceIdentifier)).err;
              var e := old(svc.CreateInstanceError(CreateInput()));
              d.Some? && HasCode(d.value, ErrCodeDBInstanceNotFoundFault) ==>
                && svc.InstanceCreated(CreateInput())
                && o == (if e.None? then Returned(Reply(Some(InstanceFrom(CreateInput())), None)) else Aborted(e.value))
      // any other error: unchanged, nothing created
      ensures var d := old(Factory.FindDBClusterInstance(svc, instanceIdentifier)).err;
              d.Some? && !HasCode(d.value, ErrCodeDBInstanceNotFoundFault) ==>
                o == Returned(Reply(None, d)) && unchanged(svc)
      ensures o.Aborted? ==> |svc.creates| == |old(svc.creates)| + 1
      ensures old(svc.Valid()) && o.Returned? && o.reply.value.Some? ==>
                o.reply.value.value.identifier == instanceIdentifier
    {
      var found := Factory.FindDBClusterInstance(svc, instanceIdentifier);
      if found.err.Some? {
        var err := found.err.value;
        match err
        case AwsError(code, _) =>
          if code == ErrCodeDBInstanceNotFoundFault {
            o := CreateDBClusterInstance(svc);
            return;
          }
          return Returned(Reply(None, Some(err)));
        case OtherError(_) =>
          return Returned(Reply(None, Some(err)));
      }
      return Returned(found);
    }

    /** Running the reconciler twice creates the instance at most once. */
    method FindOrCreateDBClusterInstanceTwice(svc: Service) returns (first: Outcome, second: Outcome)
      requires svc.describeFault.None? && svc.createFault.None?
      modifies svc
      ensures |svc.creates| <= |old(svc.creates)| + 1
      ensures instanceIdentifier in old(svc.instances) ==> svc.creates == old(svc.creates)
      ensures first.Returned? && first.reply.value.Some? && second == first
    {
      first := FindOrCreateDBClusterInstance(svc);
      second := FindOrCreateDBClusterInstance(svc);
    }
  }
}
