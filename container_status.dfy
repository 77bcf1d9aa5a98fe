/**
 * The container status domain of the agent: the ordered `ContainerStatus`
 * enumeration, its string table, and the pure mappings from a container status
 * (together with the container's steady state) to a task status and to the
 * status reported to the backend.
 */
module StatusDomain {
  import opened Wrappers

  /** `ContainerStatus` is a Go `int32`; every value of that width is a status value. */
  newtype ContainerStatus = x: int | -0x8000_0000 <= x < 0x8000_0000

  // The named statuses are consecutive integers starting at zero (Go `iota`).
  const ContainerStatusNone: ContainerStatus := 0
  const ContainerPulled: ContainerStatus := 1
  const ContainerCreated: ContainerStatus := 2
  const ContainerRunning: ContainerStatus := 3
  const ContainerResourcesProvisioned: ContainerStatus := 4
  const ContainerStopped: ContainerStatus := 5
  /** An "impossible" status used only as the upper bound in comparisons. */
  const ContainerZombie: ContainerStatus := 6

  /** The task-level status a container status contributes to. */
  datatype TaskStatus = TaskStatusNone | TaskCreated | TaskRunning | TaskStopped

  /** The keys of `containerStatusMap`, in the order the table lists them. */
  const StatusNames: seq<string> :=
    ["NONE", "PULLED", "CREATED", "RUNNING", "RESOURCES_PROVISIONED", "STOPPED"]

  /** `containerStatusMap`: the name of each of the six named statuses. */
  const ContainerStatusMap: map<string, ContainerStatus> := map[
    "NONE" := ContainerStatusNone,
    "PULLED" := ContainerPulled,
    "CREATED" := ContainerCreated,
    "RUNNING" := ContainerRunning,
    "RESOURCES_PROVISIONED" := ContainerResourcesProvisioned,
    "STOPPED" := ContainerStopped
  ]

  lemma StatusOrder()
    ensures ContainerStatusNone < ContainerPulled < ContainerCreated < ContainerRunning
    ensures ContainerRunning < ContainerResourcesProvisioned < ContainerStopped < ContainerZombie
    ensures ContainerStatusNone == 0 && ContainerZombie == ContainerStatusNone + 6
  {
  }

  lemma StatusNamesAreTheTableKeys()
    ensures forall k :: k in StatusNames <==> k in ContainerStatusMap
  {
  }

  /** The named statuses are exactly None through Stopped; Zombie is not one of them. */
  lemma NamedStatuses(cs: ContainerStatus)
    ensures cs in ContainerStatusMap.Values <==> ContainerStatusNone <= cs <= ContainerStopped
  {
    if ContainerStatusNone <= cs <= ContainerStopped {
      var k := StatusNames[cs as int];
      assert ContainerStatusMap[k] == cs;
    }
  }

  /**
   * The ranging search of `String`: the first key of `keys` whose table entry is
   * `cs`, if there is one.
   */
  function SearchName(keys: seq<string>, cs: ContainerStatus): (r: Option<string>)
    requires forall k :: k in keys ==> k in ContainerStatusMap
    ensures r.Some? ==> r.value in keys && ContainerStatusMap[r.value] == cs
    ensures r.None? ==> forall k :: k in keys ==> ContainerStatusMap[k] != cs
  {
    if keys == [] then None
    else if ContainerStatusMap[keys[0]] == cs then Some(keys[0])
    else SearchName(keys[1..], cs)
  }

  /**
   * `ContainerStatus.String`: the table name of a named status, and "NONE" for
   * every other value (Zombie included).
   */
  function String(cs: ContainerStatus): (r: string)
    ensures r in ContainerStatusMap
    ensures cs in ContainerStatusMap.Values ==> ContainerStatusMap[r] == cs
    ensures cs !in ContainerStatusMap.Values ==> r == "NONE"
  {
    StatusNamesAreTheTableKeys();
    match SearchName(StatusNames, cs)
    case Some(k) => k
    case None => "NONE"
  }

  /** Round trip name -> status -> name: the table's values are distinct. */
  lemma NameRoundTrip(k: string)
    requires k in ContainerStatusMap
    ensures String(ContainerStatusMap[k]) == k
  {
    var cs := ContainerStatusMap[k];
    assert cs in ContainerStatusMap.Values;
    var r := String(cs);
    assert k in StatusNames && r in StatusNames by { StatusNamesAreTheTableKeys(); }
    // The table's values are its keys' positions in StatusNames, hence distinct.
    forall i | 0 <= i < |StatusNames|
      ensures ContainerStatusMap[StatusNames[i]] == i as ContainerStatus
    {
    }
  }

  /** Round trip status -> name -> status, for the six named statuses. */
  lemma StatusRoundTrip(cs: ContainerStatus)
    requires ContainerStatusNone <= cs <= ContainerStopped
    ensures ContainerStatusMap[String(cs)] == cs
  {
    NamedStatuses(cs);
  }

  /** Zombie and every value outside None..Stopped print as "NONE". */
  lemma UnnamedStatusString(cs: ContainerStatus)
    requires cs < ContainerStatusNone || ContainerStopped < cs
    ensures String(cs) == "NONE"
  {
    NamedStatuses(cs);
  }

  /**
   * `ContainerStatus.TaskStatus`: the cases of the source's switch, tried in
   * order, the first match winning.
   */
  function TaskStatusFor(cs: ContainerStatus, steadyState: ContainerStatus): (r: TaskStatus)
    ensures r == TaskRunning <==> cs == steadyState && cs != ContainerStatusNone
    ensures r == TaskStopped ==> cs == ContainerStopped
    ensures r == TaskCreated ==> cs == ContainerCreated || cs == ContainerRunning
    ensures cs == ContainerStatusNone ==> r == TaskStatusNone
  {
    if cs == ContainerStatusNone then TaskStatusNone
    else if cs == steadyState then TaskRunning
    else if cs == ContainerCreated then TaskCreated
    else if cs == ContainerStopped then TaskStopped
    else if cs == ContainerRunning && steadyState == ContainerResourcesProvisioned then TaskCreated
    else TaskStatusNone
  }

  /** Each task status, characterised by the container statuses that map to it. */
  lemma TaskStatusForCases(cs: ContainerStatus, steadyState: ContainerStatus)
    ensures TaskStatusFor(cs, steadyState) == TaskRunning
      <==> cs == steadyState && cs != ContainerStatusNone
    ensures TaskStatusFor(cs, steadyState) == TaskStopped
      <==> cs == ContainerStopped && steadyState != ContainerStopped
    ensures TaskStatusFor(cs, steadyState) == TaskCreated
      <==> cs != steadyState
           && (cs == ContainerCreated
               || (cs == ContainerRunning && steadyState == ContainerResourcesProvisioned))
    ensures TaskStatusFor(cs, steadyState) == TaskStatusNone
      <==> cs == ContainerStatusNone
           || (cs != steadyState && cs != ContainerCreated && cs != ContainerStopped
               && !(cs == ContainerRunning && steadyState == ContainerResourcesProvisioned))
  {
  }

  /**
   * `ShouldReportToBackend`: only the steady state and Stopped are reported;
   * apart from a None steady state, these are the statuses whose task is
   * running or stopped.
   */
  predicate ShouldReportToBackend(cs: ContainerStatus, steadyState: ContainerStatus)
    ensures ShouldReportToBackend(cs, steadyState)
            <==> TaskStatusFor(cs, steadyState) in {TaskRunning, TaskStopped}
                 || (cs == ContainerStatusNone && steadyState == ContainerStatusNone)
  {
    cs == steadyState || cs == ContainerStopped
  }

  /**
   * `BackendStatus`: the steady state is reported as Running, Stopped as
   * Stopped, anything else as None.
   */
  function BackendStatus(cs: ContainerStatus, steadyState: ContainerStatus): (r: ContainerStatus)
    ensures r == ContainerRunning || r == ContainerStopped || r == ContainerStatusNone
    ensures r != ContainerStatusNone <==> ShouldReportToBackend(cs, steadyState)
    ensures cs == steadyState ==> r == ContainerRunning
    ensures cs != steadyState && cs == ContainerStopped ==> r == ContainerStopped
  {
    if cs == steadyState then ContainerRunning
    else if cs == ContainerStopped then ContainerStopped
    else ContainerStatusNone
  }

  /** `Terminal`: only Stopped is terminal; it is the status named "STOPPED". */
  predicate Terminal(cs: ContainerStatus)
    ensures Terminal(cs) <==> cs in ContainerStatusMap.Values && String(cs) == "STOPPED"
  {
    NamedStatuses(cs);
    cs == ContainerStopped
  }

  /** `IsRunning`: Running or ResourcesProvisioned, the statuses from Running up to Stopped. */
  predicate IsRunning(cs: ContainerStatus)
    ensures IsRunning(cs) <==> ContainerRunning <= cs < ContainerStopped
    ensures IsRunning(cs) ==> String(cs) in {"RUNNING", "RESOURCES_PROVISIONED"}
  {
    NamedStatuses(cs);
    cs == ContainerRunning || cs == ContainerResourcesProvisioned
  }

  lemma TerminalAndRunningExclusive(cs: ContainerStatus)
    ensures !(Terminal(cs) && IsRunning(cs))
    ensures Terminal(cs) || IsRunning(cs) ==> cs in ContainerStatusMap.Values
  {
    NamedStatuses(cs);
  }

  /**
   * A reportable status other than None belongs to a running or stopped task,
   * and the backend status agrees with the task status.
   */
  lemma ReportedStatusAgreesWithTaskStatus(cs: ContainerStatus, steadyState: ContainerStatus)
    requires cs != ContainerStatusNone
    ensures ShouldReportToBackend(cs, steadyState)
      <==> TaskStatusFor(cs, steadyState) in {TaskRunning, TaskStopped}
    ensures TaskStatusFor(cs, steadyState) == TaskRunning ==> BackendStatus(cs, steadyState) == ContainerRunning
    ensures TaskStatusFor(cs, steadyState) == TaskStopped ==> BackendStatus(cs, steadyState) == ContainerStopped
  {
  }

  /**
   * The path a container takes for a given steady state:
   * None -> Pulled -> Created -> Running -> [ResourcesProvisioned] -> Stopped,
   * where ResourcesProvisioned is visited only when it is the steady state.
   * The transition comment of `TaskStatus` draws ResourcesProvisioned on every
   * path; `ProvisionedPastRunningSteadyState` shows why it is left out here.
   */
  function Lifecycle(steadyState: ContainerStatus): (path: seq<ContainerStatus>)
  {
    [ContainerStatusNone, ContainerPulled, ContainerCreated, ContainerRunning]
    + (if steadyState == ContainerResourcesProvisioned then [ContainerResourcesProvisioned] else [])
    + [ContainerStopped]
  }

  function TaskRank(ts: TaskStatus): nat
  {
    match ts
    case TaskStatusNone => 0
    case TaskCreated => 1
    case TaskRunning => 2
    case TaskStopped => 3
  }

  /**
   * Along the container's path, the task status never goes backwards:
   * None -> Created -> Running -> Stopped.
   */
  lemma TaskStatusMonotoneAlongLifecycle(steadyState: ContainerStatus, i: nat, j: nat)
    requires steadyState == ContainerRunning || steadyState == ContainerResourcesProvisioned
    requires i <= j < |Lifecycle(steadyState)|
    ensures TaskRank(TaskStatusFor(Lifecycle(steadyState)[i], steadyState))
      <= TaskRank(TaskStatusFor(Lifecycle(steadyState)[j], steadyState))
    ensures TaskStatusFor(Lifecycle(steadyState)[|Lifecycle(steadyState)| - 2], steadyState) == TaskRunning
  {
  }

  /**
   * On the transition comment's path with a Running steady state, the task
   * status falls from Running back to None at ResourcesProvisioned: the mapping
   * is monotone only on paths that stop at the steady state.
   */
  lemma ProvisionedPastRunningSteadyState()
    ensures TaskStatusFor(ContainerRunning, ContainerRunning) == TaskRunning
    ensures TaskStatusFor(ContainerResourcesProvisioned, ContainerRunning) == TaskStatusNone
    ensures TaskRank(TaskStatusFor(ContainerResourcesProvisioned, ContainerRunning))
            < TaskRank(TaskStatusFor(ContainerRunning, ContainerRunning))
  {
  }
}
