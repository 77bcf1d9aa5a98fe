# ECS agent bookkeeping, modelled in Dafny

This project models four sequential pieces of the Amazon ECS container agent's
bookkeeping and proves properties about them:

- **Container status domain** (`StatusDomain`, `container_status.dfy`). The
  `int32` enumeration `ContainerStatus` (None, Pulled, Created, Running,
  ResourcesProvisioned, Stopped, and the sentinel Zombie) comes with its
  string table and the pure mappings from a container status and a steady
  state to a task status and to the status reported to the backend.
- **Container record** (`ContainerModel`, `container.dfy`, with `Decimal`,
  `decimal.dfy`, for the exit code's decimal text). `Container` is a class
  whose desired, known and sent statuses are changed in place through
  setters. `Overridden` builds a fresh copy with the command override
  applied, and the `String` summaries of `Container` and `DockerContainer`
  are modelled too.
- **Stats-engine watch table** (`StatsEngine`, `stats_engine.dfy`).
  `DockerStatsEngine` keeps two maps: task ARN to watched containers by
  docker id, and task ARN to task-definition family and version.
  `AddContainer` and `RemoveContainer` update them in place, and the metric
  collection reads them. Each method is proved against a value-level
  transition function (`AddedTable`, `RemovedTable`) or a specification
  predicate. The table invariant is proved to be preserved: no empty
  container map, the same task ARNs in both maps.
- **ENI attachment event filter** (`EniStateManager`,
  `eni_state_manager.dfy`). For each device MAC address it makes the
  four-way decision: empty MAC, unmanaged device, already sent, or send.
  When it sends, it marks the attachment attached and emits a task state
  change. `Init` runs this over the host's links and `Reconcile` over the
  current device map.

`Wrappers` (`wrappers.dfy`) holds the `Option` and `Result` values used for
Go's nil pointers and `(value, error)` returns.

Modelling choices:

- The resolver that maps a docker id to its task and container name is two
  partial maps; a missing key is the resolver's error.
- Each container's stats queue is a `StatsQueue` value: a CPU and a memory
  stats set, each either present or an error. A container with no queue entry
  has neither.
- The ENI agent state is a map from MAC address to attachment value. The
  unmanaged-device cache is a set, and the event channel is a sequence of
  emitted events.
- Go iterates maps in unspecified order. The loops over map keys
  (`getContainerMetricsForTask`, `GetInstanceMetrics`, `Reconcile`) therefore
  pick any remaining key. Their contracts hold for whatever order the map
  was walked in: an `exists order` over enumerations of the key set.
- The proof that a loop over a map visits each key once uses one predicate,
  `Enumerates` (`Enumeration`, `enumeration.dfy`). The stats engine and the
  ENI state manager share it.
- `ContainerStatus.String` searches the table in its literal order. The
  table's values are distinct, so the name found does not depend on the
  order (`NameRoundTrip`).

## Model

| member | source | states |
|---|---|---|
| StatusDomain.StatusOrder | agent/api/containerstatus.go:16-36 | None=0 < Pulled < Created < Running < ResourcesProvisioned < Stopped < Zombie, consecutive integers |
| StatusDomain.StatusNamesAreTheTableKeys | agent/api/containerstatus.go:41-48 | the six names are exactly the keys of the status table |
| StatusDomain.NamedStatuses | agent/api/containerstatus.go:41-48 | a status has a table name iff it lies between None and Stopped; Zombie has none |
| StatusDomain.SearchName | agent/api/containerstatus.go:52-56 | the search finds a key whose table entry is the status, or reports that no key has it |
| StatusDomain.String | agent/api/containerstatus.go:50-58 | the result is always a table name; it names the status when the status is named, and is "NONE" otherwise |
| StatusDomain.NameRoundTrip | agent/api/containerstatus.go:41-58 | name -> status -> name gives back the name |
| StatusDomain.StatusRoundTrip | agent/api/containerstatus.go:41-58 | for the six named statuses, looking up `String(s)` gives back s |
| StatusDomain.UnnamedStatusString | agent/api/containerstatus.go:50-58 | Zombie and every value outside None..Stopped print as "NONE" |
| StatusDomain.TaskStatusFor | agent/api/containerstatus.go:66-83 | the task is Running iff the status equals the steady state and is not None; Stopped only for a Stopped container; Created only for Created or Running; None for status None |
| StatusDomain.TaskStatusForCases | agent/api/containerstatus.go:66-83 | each task status, as an iff over the container status and steady state, with the switch's first-match order (None wins even when the steady state is None) |
| StatusDomain.TaskStatusMonotoneAlongLifecycle | agent/api/containerstatus.go:60-83 | along a path that stops at its steady state before Stopped (ResourcesProvisioned only when it is the steady state), the task status never goes backwards, and the last state before Stopped maps to TaskRunning |
| StatusDomain.ProvisionedPastRunningSteadyState | agent/api/containerstatus.go:60-83 | with a Running steady state, moving from Running to ResourcesProvisioned, as the transition comment draws it, takes the task status from Running back to None |
| StatusDomain.ShouldReportToBackend | agent/api/containerstatus.go:88-90 | reported iff the task status is Running or Stopped, or both the status and the steady state are None |
| StatusDomain.BackendStatus | agent/api/containerstatus.go:94-104 | the result is Running, Stopped or None; it is not None exactly when the status should be reported; the steady state is Running, and wins over Stopped; any other Stopped is Stopped |
| StatusDomain.ReportedStatusAgreesWithTaskStatus | agent/api/containerstatus.go:85-104 | for a status other than None, it is reported iff its task status is Running or Stopped, and the backend status agrees with that task status |
| StatusDomain.Terminal | agent/api/containerstatus.go:107-109 | terminal iff the status is named and its name is "STOPPED" |
| StatusDomain.IsRunning | agent/api/containerstatus.go:112-114 | running iff Running <= status < Stopped, and then its name is "RUNNING" or "RESOURCES_PROVISIONED" |
| StatusDomain.TerminalAndRunningExclusive | agent/api/containerstatus.go:106-114 | no status is both terminal and running; both kinds are named statuses |
| ContainerModel.MinimumMemoryIsFourMebibytes | agent/api/container.go:22-26 | the minimum container memory is 4·1024·1024 = 4194304 bytes |
| ContainerModel.WithOverrides | agent/api/container.go:132-143 | the copy's command is the override's when one is set, the original command otherwise; every other field is the original's |
| ContainerModel.OverriddenWithoutOverrideIsIdentity | agent/api/container.go:134-143 | with no override the copy equals the original |
| ContainerModel.OverriddenIdempotent | agent/api/container.go:134-143 | applying the override twice is the same as once; the override is carried into the copy |
| ContainerModel.Container.constructor | agent/api/container.go:42-111 | a container holds exactly the given field values |
| ContainerModel.Container.Overridden | agent/api/container.go:132-143 | returns a fresh container holding the overridden copy of the receiver's field values; the receiver is unchanged |
| ContainerModel.RenameOverriddenCopy | agent/api/container.go:134-143 | renaming the overridden copy leaves the original container unchanged |
| ContainerModel.Container.GetKnownStatus | agent/api/container.go:155-161 | returns the known status |
| ContainerModel.Container.SetKnownStatus | agent/api/container.go:163-169 | the known status becomes s; no other field changes |
| ContainerModel.Container.GetDesiredStatus | agent/api/container.go:171-177 | returns the desired status |
| ContainerModel.Container.SetDesiredStatus | agent/api/container.go:179-185 | the desired status becomes s; no other field changes |
| ContainerModel.Container.GetSentStatus | agent/api/container.go:187-193 | returns the sent status |
| ContainerModel.Container.SetSentStatus | agent/api/container.go:195-201 | the sent status becomes s; no other field changes |
| ContainerModel.Container.KnownTerminal | agent/api/container.go:145-148 | holds iff the known status is Stopped |
| ContainerModel.Container.DesiredTerminal | agent/api/container.go:150-153 | holds iff the desired status is Stopped |
| ContainerModel.Container.Summary | agent/api/container.go:205 | "name(image) (" then the known status's name, "->", the desired status's name and ")"; each name looks up in the status table to the status it stands for, whenever that status is named |
| ContainerModel.Container.String | agent/api/container.go:203-210 | starts with "name(image) (KNOWN->DESIRED)"; " - Exit: n" follows exactly when the exit code is known, where n is the code's canonical decimal text (`Itoa`) and parses back to that code |
| ContainerModel.DockerContainer.constructor | agent/api/container.go:117-122 | a docker container holds the given id, name and container |
| ContainerModel.DockerContainerString | agent/api/container.go:124-130 | "nil" exactly for a nil pointer, otherwise "Id: …, Name: …, Container: …" with the container's own string |
| Decimal.DigitChar | agent/api/container.go:207 | each digit is the character with that digit's value |
| Decimal.NatToStringDigits | agent/api/container.go:207 | the decimal text of a natural number is non-empty, all digits, and parses back to the number |
| Decimal.Itoa | agent/api/container.go:207 | the text is non-empty, starts with '-' iff the number is negative, and is all digits after the sign, with no leading zero |
| Decimal.NatToStringLeadingDigit | agent/api/container.go:207 | a natural number's decimal spelling starts with '0' iff the number is zero |
| Decimal.ItoaRoundTrip | agent/api/container.go:207 | the decimal text of any integer, sign included, parses back to that integer |
| StatsEngine.AddedTable | agent/stats/engine.go:184-218 | when the task cannot be resolved, has an empty ARN or family, is terminal, already watches the container, or the name cannot be resolved, the table is unchanged |
| StatsEngine.AddAccepted | agent/stats/engine.go:220-228 | a successful add watches the container under its task with its name and records (family, version); the task's containers become exactly its earlier ones plus this one, and all other tasks are untouched |
| StatsEngine.EmptyTableWellFormed | agent/stats/engine.go:116-127 | the new engine's empty table satisfies the invariant |
| StatsEngine.AddPreservesWellFormed | agent/stats/engine.go:220-228 | an add keeps every container map non-empty and both maps on the same task ARNs |
| StatsEngine.AddIdempotent | agent/stats/engine.go:202-212 | adding the same container twice is the same as adding it once |
| StatsEngine.RemovedTable | agent/stats/engine.go:238-257 | removing a container whose task cannot be resolved, or which is not watched, leaves the table unchanged |
| StatsEngine.RemoveWatched | agent/stats/engine.go:259-270 | removing a watched container deletes only that id from its task; the task and its definition are deleted exactly when no other container is left; otherwise the task keeps its other containers unchanged and the definitions are untouched |
| StatsEngine.RemoveLeavesOtherTasks | agent/stats/engine.go:259-270 | a remove leaves every other task's containers and definition untouched |
| StatsEngine.RemovePreservesWellFormed | agent/stats/engine.go:259-270 | a remove keeps the invariant |
| StatsEngine.AddThenRemove | agent/stats/engine.go:180-271 | on a well-formed table, removing a container just added restores the original table, provided the task's recorded definition, if any, is the (family, version) the add writes (the add overwrites it and the remove keeps it while other containers remain) |
| StatsEngine.AddThenRemoveKnownTask | agent/stats/engine.go:220-228 | the same, when the task was already watched and its recorded definition is the one the add writes |
| StatsEngine.AddThenRemoveNewTask | agent/stats/engine.go:220-228 | the same, when the add created the task's entry |
| StatsEngine.MetricsInOrder | agent/stats/engine.go:412-435 | one metric per container listed |
| StatsEngine.ContainerMetricsNonEmpty | agent/stats/engine.go:290-293 | a task's metric list is empty iff none of its containers has both stats sets |
| StatsEngine.AppendTaskMetric | agent/stats/engine.go:301-306 | appending a task's metric keeps the list's tasks distinct and accounts for that task |
| StatsEngine.DockerStatsEngine.constructor | agent/stats/engine.go:116-127 | a new engine, given its resolver and metrics metadata, has an empty, well-formed table |
| StatsEngine.DockerStatsEngine.IsIdle | agent/stats/engine.go:317-319 | an idle engine watches no container; on a well-formed table, idle iff the table is empty |
| StatsEngine.DockerStatsEngine.AddContainer | agent/stats/engine.go:180-230 | the source's checks, taken in order, make the table `AddedTable` of the old table, and the invariant is kept |
| StatsEngine.DockerStatsEngine.RemoveContainer | agent/stats/engine.go:234-271 | the source's checks, taken in order, make the table `RemovedTable` of the old table, and the invariant is kept |
| StatsEngine.DockerStatsEngine.GetContainerMetricsForTask | agent/stats/engine.go:403-438 | an error exactly for an ARN not in the table; otherwise one metric per container having both stats sets, with its name and sets, in some order of the container map |
| StatsEngine.DockerStatsEngine.CollectTaskMetrics | agent/stats/engine.go:283-307 | one metric per reportable task, in some order of the map, none without container metrics; when any task is watched, the range variable ends on a watched ARN that no metric but possibly the last one carries |
| StatsEngine.DockerStatsEngine.GetInstanceMetrics | agent/stats/engine.go:273-315 | as evidently intended: sets Idle to whether the table is empty; idle gives no metrics and no error; otherwise an error iff no task yields metrics, else one metric per reportable task, each with its own ARN and the family and version the table records for it |
| StatsEngine.DockerStatsEngine.GetInstanceMetricsAsWritten | agent/stats/engine.go:273-315 | as written: the same Idle, idle and error behaviour; the metrics are those of the intended loop with every ARN replaced by the last ARN the loop visited |
| StatsEngine.AliasedArnsMislabel | agent/stats/engine.go:302 | with two or more metrics, the ARNs as written coincide, so the tasks are no longer distinct, and the first metric names another task than the one whose family and container metrics it carries |
| StatsEngine.TwoTasksShareOneArn | agent/stats/engine.go:283-306 | on two watched tasks with stats, whatever the map order, both tasks are reported and as written they carry one ARN, the first a wrong one |
| StatsEngine.OneTaskUnderAnotherArn | agent/stats/engine.go:283-306 | with two watched tasks of which only t1 yields stats, every metric is t1's; when the walk ends on t2, as written each is reported under t2's ARN with t1's family |
| EniStateManager.StateAfter | agent/eni/statemanager/statemanager_linux.go:91-100 | handling MACs never adds or removes attachments |
| EniStateManager.StateAfterKeepsDecisions | agent/eni/statemanager/statemanager_linux.go:91-100 | handling a MAC changes only statuses, so no later decision or event changes |
| EniStateManager.StateAfterCompose | agent/eni/statemanager/statemanager_linux.go:58-63 | handling MACs one after another is handling their union |
| EniStateManager.EventsForMembership | agent/eni/statemanager/statemanager_linux.go:109-114 | an event is emitted iff it is the attached-attachment event of an eligible MAC handled |
| EniStateManager.EventsForCount | agent/eni/statemanager/statemanager_linux.go:109-114 | over distinct MACs, exactly one event per eligible MAC |
| EniStateManager.EventsForAppend | agent/eni/statemanager/statemanager_linux.go:58-63 | the events of a list followed by one more MAC are those of the list, then those of the MAC |
| EniStateManager.HandleStep | agent/eni/statemanager/statemanager_linux.go:58-63 | one more handled MAC gives the state, events and unmanaged set of handling all of them from the start |
| EniStateManager.HandleTwiceEmitsTwice | agent/eni/statemanager/statemanager_linux.go:94-98 | the sent flag is not set, so handling an unsent attachment twice emits two identical events |
| EniStateManager.Macs | agent/eni/statemanager/statemanager_linux.go:59-60 | the MAC of each link, in link order |
| EniStateManager.HandlePrefixStep | agent/eni/statemanager/statemanager_linux.go:59-62 | handling the next link's MAC after the earlier ones gives the state, events and unmanaged set of handling all of them from the start |
| EniStateManager.ReconcileEventCount | agent/eni/statemanager/statemanager_linux.go:109-114 | reconciling emits exactly one event per eligible MAC of the device map |
| EniStateManager.StateManager.constructor | agent/eni/statemanager/statemanager_linux.go:48-55 | a new manager has the given agent state, no unmanaged device and no event |
| EniStateManager.StateManager.ENIStateChangeShouldBeSent | agent/eni/statemanager/statemanager_linux.go:65-88 | (nil, false) for an empty MAC; (nil, false) for an unknown MAC, which joins the unmanaged set; (eni, false) when already sent; (eni, true) otherwise |
| EniStateManager.StateManager.HandleENIEvent | agent/eni/statemanager/statemanager_linux.go:90-100 | iff the filter says send, the attachment's status becomes Attached and one event carrying it and its task ARN is emitted; nothing else changes |
| EniStateManager.StateManager.Init | agent/eni/statemanager/statemanager_linux.go:57-63 | the state, events and unmanaged set are those of handling every link's MAC in link order |
| EniStateManager.StateManager.Reconcile | agent/eni/statemanager/statemanager_linux.go:108-114 | the state, events and unmanaged set are those of handling each MAC of the device map once, in some order of the map |

## Left out

- Locking: the per-field status locks of `Container` and the engine's `containersLock` are not modelled. Access is sequential.
- Docker and event plumbing of the stats engine are not modelled: `MustInit`, `Init`, `openEventStream`, `listContainersAndStartEventHandler`, `handleDockerEvents`, `addExistingContainers`, `initDockerClient`. They are container-runtime I/O and channel loops.
- Stats collection: `StartStatsCron`, `StopStatsCron` and the stats queue's sampling are not modelled. Each container's queue is a value that either yields a stats set or an error.
- Resolver internals: `DockerContainerMetadataResolver`'s lookups in the task engine state are replaced by two partial maps. Its error for a nil task engine (agent/stats/engine.go:90-91, 103-104) looks the same as an unknown id.
- DockerStatsEngine.constructor: the model's engine is the one `MustInit` and agent/stats/engine_test.go:114-116 use, with `resolver` and `metricsMetadata` assigned. `NewDockerStatsEngine` leaves both nil, so calling `AddContainer` or `RemoveContainer` before that dereferences a nil resolver (agent/stats/engine.go:186, 239), and `GetInstanceMetrics` a nil metadata (agent/stats/engine.go:277). Those panics are not modelled.
- The metrics environment flag (`setMetricCollectionFlag`, `IsMetricCollectionEnabled`) reads the process environment and is not modelled.
- `NewDockerStatsEngine` returns a process-wide singleton. Here it is a constructor that makes a fresh, empty engine.
- The metrics metadata is a value field of the engine, not a shared pointer. Callers that keep the returned metadata do not see later `Idle` updates.
- Unmanaged-device cache: the LRU capacity of 10 and the one-hour TTL are not modelled. The cache is a set that only grows, and it only affects logging.
- The ENI attachment and task state change are values. Go's event shares the attachment pointer with the agent state, so later changes to the attachment show through the event. That aliasing is not modelled.
- The sending on the event channel is an append to `events`. Blocking on a full channel is not modelled.
- `api.ENIAttachment`'s other fields, its locking, and `IsSent`/`SetSentStatus` are not part of this model; `IsSent` reads the `sent` field.
- task_status.go is not part of this model. `TaskStatus` has the four values the mapping uses, and a task is terminal when it is Stopped.
- Container fields with no logic in the modelled code: `AppliedStatus`, `ApplyingError`, `DockerConfig`, `RegistryAuthentication`, `VolumesFrom`, `MountPoints`, `Ports`, `KnownPortBindings`, `ResourceDependecies`.
- `DockerContainer.String` with a nil `Container` pointer dereferences nil in Go. The model's `DockerContainer` always holds a container.
- The steady-state helpers (`GetNextKnownStateProgression`, `IsKnownSteadyState`, `GetSteadyStateStatus`) and the `*Unsafe` accessors used by agent/api/container_test.go are not defined in agent/api/container.go and are not modelled.
- TaskStatusMonotoneAlongLifecycle: proved only for the path that visits ResourcesProvisioned when it is the steady state. On the transition comment's path through Running and then ResourcesProvisioned with a Running steady state, the task status falls from Running to None (`ProvisionedPastRunningSteadyState`).
- Overridden: the copy is a value copy. Go's `*c` copy is shallow: the slices (`Command`, `Links`, `RunDependencies`, `VolumesFrom`, `MountPoints`, `Ports`), the `Environment` map and the pointer fields (`EntryPoint`, `KnownExitCode`, `ApplyingError`, `RegistryAuthentication`) stay shared with the original, and after an override `Command` shares the override's slice. Only value fields such as `Name` are independent, which is what `RenameOverriddenCopy` states.
- GetInstanceMetricsAsWritten: the last ARN visited is fixed by the map order. The model says only that it is some watched ARN that no earlier metric carries.
- JSON marshalling of containers and metrics is not modelled.

## Findings

| source | as written | input that shows it | evidently intended | confidence | as-written member | corrected member |
|---|---|---|---|---|---|---|
| agent/stats/engine.go:283-306 | `TaskArn: &taskArn` stores the address of the loop's one range variable, so after the loop every metric's ARN is the last ARN visited | tasks t1 → {c1} and t2 → {c3}, both containers with CPU and memory stats, both tasks with definitions: two metrics come back with the same ARN, one of them with the other task's family and containers. With stats only for c1 (t2 just started) and the walk ending on t2, the one metric, t1's, comes back under t2's ARN | each metric carries its own task's ARN | not executed; holds under Go's loop-variable semantics before Go 1.22 | StatsEngine.DockerStatsEngine.GetInstanceMetricsAsWritten, StatsEngine.TwoTasksShareOneArn, StatsEngine.OneTaskUnderAnotherArn | StatsEngine.DockerStatsEngine.GetInstanceMetrics |
