# rds-aurora-experiments create-cluster core, in Dafny

This project models the decision logic of the `create-cluster` tool. The tool
brings up an Aurora database cluster on Amazon RDS in four parts:

- **Request builder** (`request/request.go`). It reads one `ClusterRequest`
  from environment variables. Two of them are comma-separated lists. The
  readiness timeout is parsed with `strconv.Atoi` and falls back to 1.
- **Subnet-group reconciler** (`factory/factory.go`). It describes the group
  by name. It returns the group if it exists and creates it on the not-found
  fault. Any other error is passed back.
- **Cluster and instance factories** (`factory/cluster_factory.go`,
  `factory/instance_factory.go`). Each holds the fields of one create request
  and runs the same find-or-create protocol. A failed instance create aborts
  the process.
- **Readiness pollers** (`factory/wait.go`). Each poll loop checks the
  deadline, then takes one status sample. It counts consecutive
  `"available"` samples, and any other status resets the count to 0. The
  loop reports ready once the count reaches 4. A fired deadline or a failed
  describe ends it with `false`.

Modules:

- `Wrappers`: `Option`.
- `Rds`: the provider. `Service` is a class holding one map per resource
  kind, keyed by identifier. It also holds an injectable describe fault, an
  injectable create fault, and the log `creates` of every create call. Go's
  `(value, error)` result pairs are modelled as `Reply`; `Reply.Exclusive`
  states Go's convention that exactly one half is non-nil.
- `Factory`: factory.go.
- `ClusterFactory`: cluster_factory.go.
- `InstanceFactory`: instance_factory.go.
- `Wait`: wait.go.
  - One poll's environment is a finite sequence of `Tick`s, one per loop
    iteration. A tick says whether the deadline had fired, and what the
    describe call reports: a status, or an error.
  - `Poll` is the specification of the loop.
  - `StopsAt`, `FirstStop` and `OutcomeAt` are an independent reference
    definition of where it stops and what it reports.
- `Request`: request.go.
  - The environment is a `map<string, string>`; a missing key reads as `""`.
  - `Split` follows Go's `strings.Split` with a one-character separator: the
    empty string gives `[""]`. `Join` is its partner.
  - `Atoi` is the partner of `Itoa`.

## Model

| member | source | states |
|---|---|---|
| Wait.WaitForClusterReady | golang/create-cluster/factory/wait.go:17-62 | The result is `Poll` of the ticks. No deadline fired before the last sample. On `true`, at least 4 samples were taken and the last 4 were `"available"`. On `false`, the deadline fired before the next sample or the last describe failed. The loop invariant keeps the counter equal to the trailing run of `"available"` samples and below 4. |
| Wait.WaitForInstanceReady | golang/create-cluster/factory/wait.go:64-96 | The same counter rule as the cluster poller, applied to the instance status. Any describe error ends it with `false`. |
| Wait.PollCharacterisation | golang/create-cluster/factory/wait.go:21-59 | The loop ends within the environment exactly when some iteration stops it: a fired deadline, a failed describe, or 4 consecutive `"available"` samples. It then reports the outcome that the first such iteration calls for. |
| Wait.PollFromFirstStop | golang/create-cluster/factory/wait.go:18-59 | From any iteration before the first stop, with the counter equal to the trailing run of `"available"` samples, the counter is below 4 and the loop reports the first stop's outcome. |
| Wait.PollEndsAtAStop | golang/create-cluster/factory/wait.go:21-59 | A loop that returns within the environment returns at an iteration that stops it. |
| Wait.RunBelowThreshold | golang/create-cluster/factory/wait.go:48-56 | Before the first stop, the count of consecutive `"available"` samples stays below 4. |
| Wait.RunIsAvailable | golang/create-cluster/factory/wait.go:46-51 | Every sample within the counted run is `"available"`. |
| Wait.AvailableRun | golang/create-cluster/factory/wait.go:46-51 | `n` consecutive `"available"` samples make the count at least `n`. |
| Wait.StableRun | golang/create-cluster/factory/wait.go:46-56 | 4 `"available"` samples ending at iteration k bring the count to 4 there. |
| Wait.RunStable | golang/create-cluster/factory/wait.go:46-56 | A count of 4 after iteration k means the last 4 samples were `"available"`. |
| Wait.FirstStopExists | golang/create-cluster/factory/wait.go:21-61 | If some iteration stops the loop, there is a first one. |
| Wait.NoDeadlineReadyAtFirstStableRun | golang/create-cluster/factory/wait.go:21-59 | With no deadline and no describe error, the poller reports ready. The number of samples taken is the end of the first run of 4 consecutive `"available"` statuses. |
| Wait.DeadlineEndsPoll | golang/create-cluster/factory/wait.go:22-25 | A deadline seen at the top of an iteration ends the poll with `false`, and no sample is taken in that iteration. |
| Wait.DescribeErrorEndsPoll | golang/create-cluster/factory/wait.go:27-43 | Any describe error ends the poll with `false` after that sample. This holds for not-found, another AWS code, or a non-AWS error. |
| Wait.CreatingThenStable | golang/create-cluster/factory/wait.go:46-56 | Two `"creating"` samples, then four `"available"` ones: ready after six samples. |
| Wait.FlapResetsCount | golang/create-cluster/factory/wait.go:49-51 | A `"creating"` sample between `"available"` ones resets the count, so four more `"available"` samples are needed. |
| Wait.DeadlineBeforeThreshold | golang/create-cluster/factory/wait.go:22-25 | A deadline after three `"available"` samples gives `false` after three samples. |
| Factory.UpdateOrCreateDBSubnetGroup | golang/create-cluster/factory/factory.go:10-39 | Found: the stored group is returned and the service is unchanged. Not-found fault: exactly one create is issued, with the requested name, description and subnet ids, and the create's outcome, translated by `CreateReply`, is returned; a non-AWS create failure gives neither a group nor an error. Any other describe error, AWS or not: that error is returned with no group, and nothing changes. A returned group carries the requested name. |
| Factory.UpdateOrCreateDBSubnetGroupTwice | golang/create-cluster/factory/factory.go:10-85 | Reconciling one group twice with a healthy service issues at most one create, and none if the group existed. Both calls return the same group. |
| Factory.CreateSubnetGroup | golang/create-cluster/factory/factory.go:41-85 | Exactly one create is logged. The subnet ids sent keep the input's order and length. The reply is the created group, or the create failure translated by `CreateFailureReply`. |
| Factory.AwsCreateFailurePassesThrough | golang/create-cluster/factory/factory.go:55-75 | Every AWS-coded create fault comes back unchanged with no group. This covers already-exists, both quota faults, availability-zone coverage, invalid subnet and any other code. |
| Factory.NonAwsCreateFailureIsSilent | golang/create-cluster/factory/factory.go:76-81 | A non-AWS create failure comes back as neither a group nor an error. |
| Factory.IntendedCreateFailureIsReported | golang/create-cluster/factory/factory.go:54-81 | With the error itself returned, every failed create is reported. This agrees with the code for AWS-coded errors. |
| Factory.FindDBCluster | golang/create-cluster/factory/factory.go:87-98 | The describe error comes back unchanged. Otherwise the result is the one stored cluster of that identifier, and exactly one half of the pair is set. |
| Factory.FindDBClusterInstance | golang/create-cluster/factory/factory.go:100-111 | The same as `FindDBCluster`, for instances. |
| ClusterFactory.DBClusterFactory.constructor | golang/create-cluster/factory/cluster_factory.go:20-38 | Cluster id, engine, engine version, master username, master password and subnet group name are copied verbatim. The security group ids keep their order and length. |
| ClusterFactory.DBClusterFactory.FindOrCreateDBCluster | golang/create-cluster/factory/cluster_factory.go:40-61 | Found: the cluster is returned and nothing changes. Not-found fault: exactly one create carrying all seven factory fields. Any other error, AWS or not: returned unchanged, and nothing changes. Exactly one half of the pair is set. |
| ClusterFactory.DBClusterFactory.CreateDBCluster | golang/create-cluster/factory/cluster_factory.go:73-91 | One create call carrying the seven fields. A failure returns its error and no cluster. |
| ClusterFactory.DBClusterFactory.FindOrCreateDBClusterTwice | golang/create-cluster/factory/cluster_factory.go:40-91 | Two runs with a healthy service issue at most one create, and none if the cluster existed. Both return the same cluster. |
| InstanceFactory.DBInstanceFactory.constructor | golang/create-cluster/factory/instance_factory.go:10-20 | Engine and cluster identifier come from the cluster. Instance id and class come from the arguments. |
| InstanceFactory.DBInstanceFactory.FindOrCreateDBClusterInstance | golang/create-cluster/factory/instance_factory.go:29-49 | Found: returned, and nothing changes. Not-found fault: exactly one create with instance id, cluster id, engine and class. Any other error: returned unchanged, and nothing changes. An abort follows exactly one create. |
| InstanceFactory.DBInstanceFactory.CreateDBClusterInstance | golang/create-cluster/factory/instance_factory.go:51-67 | One create call. A failure ends in the `Aborted` outcome, and no result is returned. |
| InstanceFactory.DBInstanceFactory.FindOrCreateDBClusterInstanceTwice | golang/create-cluster/factory/instance_factory.go:29-67 | Two runs with a healthy service issue at most one create, and none if the instance existed. Both return the same instance. |
| Request.NewRequest | golang/create-cluster/request/request.go:45-82 | Every string field is its variable's value, or `""` when the variable is unset. `SgIds` and `Subnets` are the comma-split of their variables: one more piece than commas, joining back to the variable. `ReadyTimeout` is the parsed value, or 1 when it does not parse. |
| Request.SplitLength | golang/create-cluster/request/request.go:64-69 | A split has one more piece than the string has separators. |
| Request.SplitPiecesHaveNoSeparator | golang/create-cluster/request/request.go:64-69 | No piece of a split contains the separator. |
| Request.JoinSplit | golang/create-cluster/request/request.go:64-69 | Joining the pieces with the separator reproduces the string. |
| Request.SplitJoin | golang/create-cluster/request/request.go:64-69 | Splitting separator-free pieces joined by the separator gives back the pieces. |
| Request.SplitPrefix | golang/create-cluster/request/request.go:64-69 | A separator-free prefix is glued to the first piece of the split. |
| Request.EmptyListGivesOneEmptyPiece | golang/create-cluster/request/request.go:61-69 | An empty or unset list variable gives `[""]`, not an empty list. |
| Request.Atoi | golang/create-cluster/request/request.go:74 | A successful parse is a value within the int64 range, from a non-empty string. |
| Request.AtoiItoa | golang/create-cluster/request/request.go:74-79 | Every int64 written in decimal parses back to itself. |
| Request.NatDigitsValue | golang/create-cluster/request/request.go:74 | The decimal numeral of `n` has value `n`. |
| Request.AtoiRejectsNonDigit | golang/create-cluster/request/request.go:74-78 | A non-digit after the optional sign makes the parse fail, so the timeout falls back to 1. |

## Left out

- `golang/create-cluster/main.go` and `golang/create-cluster/service/service.go` are not part of this model.
  - main.go is the entry point. It sets up sessions and credentials. At main.go:64 it calls `FindOrCreateDBSubnetGroup`, which the modelled files do not define.
  - service.go orchestrates the steps. It calls `UpdateOrCreateDBSubnetGroup` (service.go:15), which is modelled. It also calls `UpdateOrCreateDBCluster`, `UpdateOrCreateDBClusterInstance` and the instance-factory setters (service.go:42-46, 57, 77), none of which the modelled files define.
  - So no "update" or "modify" behaviour is modelled. Despite its name, `UpdateOrCreateDBSubnetGroup` never modifies a group: it finds or creates it.
- The AWS SDK client, sessions and pointers:
  - The real service is replaced by `Rds.Service`. Resources are values, not pointers.
  - A describe by identifier returns the one stored resource, or the not-found fault.
  - A create fails with the injected fault, or with an already-exists fault when the identifier is taken.
  - A cluster create does not check that the subnet group exists; an instance create does not check the cluster. The real service's other validations are not modelled.
- Wait.WaitForClusterReady: `context` deadlines and `time.Sleep` are not modelled in real time. The deadline is a per-iteration `expired` flag, and the sleep between samples has no effect.
- Wait.WaitForClusterReady and Wait.WaitForInstanceReady require `Halts(ticks)`. The Go loop is unbounded, so a poll that never stops runs forever. The finite environment here cannot express that. `PollCharacterisation` shows the loop halts exactly under this condition.
- Wait: the describe call is abstracted to its observation.
  - An error of any kind becomes `DescribeFailed`.
  - The cluster poller's three error branches differ only in what they log.
- Logging (logrus) has no effect on any result and is left out. The one fatal call, at instance_factory.go:62, is modelled as the `Aborted` outcome.
- Request.Atoi: it models a sign, decimal digits and the int64 range of a 64-bit platform. It does not model the exact error values of `strconv.Atoi`: every failure is `None`.
- Request.NewRequest: `os.Getenv` is modelled as a lookup in a map given as a parameter.
- Request: Go strings are byte strings, while a Dafny `string` is a sequence of Unicode characters. Splitting on `,` and the ASCII digit test behave alike on valid UTF-8, but an environment value that is not valid UTF-8 cannot be represented.

## Findings

| source | as written | input that shows it | evidently intended | confidence | as-written member | corrected member |
|---|---|---|---|---|---|---|
| golang/create-cluster/factory/factory.go:76-81 | When the create error is not an `awserr.Error`, the branch returns the `aerr` left by the failed type assertion. That value is nil, so the caller gets a nil group and a nil error. | A create call that fails with a non-AWS error, such as a transport error: `CreateFailureReply(OtherError(m))` gives `Reply(None, None)` | Return the error itself, as the non-AWS branches of the other reconcilers do (cluster_factory.go:56, instance_factory.go:44) | not executed | Factory.NonAwsCreateFailureIsSilent | Factory.IntendedCreateFailureIsReported |

`Factory.CreateSubnetGroup` and `Factory.UpdateOrCreateDBSubnetGroup` keep the
behaviour as written. `Factory.IntendedCreateFailureReply` is the corrected
translation: it reports every failed create.
