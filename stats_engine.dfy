/**
 * The stats engine's watch table: which containers of which tasks are being
 * watched for utilisation metrics, how containers are added and removed as the
 * container runtime reports them, and how the per-task metrics are assembled.
 */
module StatsEngine {
  import opened Wrappers
  import opened StatusDomain
  import opened Enumeration

  /** The fields of a task the engine reads. */
  datatype Task = Task(arn: string, family: string, version: string, knownStatus: TaskStatus)

  /** A task status is terminal when it is Stopped. */
  predicate TaskTerminal(ts: TaskStatus)
  {
    ts == TaskStopped
  }

  /**
   * The container metadata resolver, as two partial lookups keyed by docker id:
   * the owning task and the container's docker name. A missing key is a
   * resolution error (an unknown id, or a resolver whose task engine is nil).
   */
  datatype Resolver = Resolver(taskOf: map<string, Task>, nameOf: map<string, string>)

  /** Task definition family and version, as recorded for a watched task. */
  datatype TaskDefinition = TaskDefinition(family: string, version: string)

  /** A watched container: its docker id and its docker name. */
  datatype CronContainer = CronContainer(dockerID: string, name: string)

  /** An aggregated set of samples, opaque to the engine. */
  datatype StatsSet = StatsSet(samples: seq<int>)

  /**
   * What a container's stats queue yields right now: a CPU and a memory stats
   * set, each either available or an error.
   */
  datatype StatsQueue = StatsQueue(cpu: Option<StatsSet>, memory: Option<StatsSet>)

  datatype ContainerMetric = ContainerMetric(name: string, cpuStatsSet: StatsSet, memoryStatsSet: StatsSet)

  datatype TaskMetric = TaskMetric(
    taskArn: string,
    taskDefinitionFamily: string,
    taskDefinitionVersion: string,
    containerMetrics: seq<ContainerMetric>)

  /** Instance metadata sent with the metrics; `idle` is set by each collection. */
  datatype MetricsMetadata = MetricsMetadata(cluster: string, containerInstance: string, idle: Option<bool>)

  /** The two maps of the engine: task ARN -> (docker id -> container), task ARN -> definition. */
  datatype WatchTable = WatchTable(
    tasksToContainers: map<string, map<string, CronContainer>>,
    tasksToDefinitions: map<string, TaskDefinition>)

  const EmptyTable := WatchTable(map[], map[])

  /**
   * The table's invariant: no task maps to an empty container map, both maps
   * have the same task ARNs, and every container is filed under its own id.
   */
  predicate WellFormed(t: WatchTable)
  {
    && (forall arn :: arn in t.tasksToContainers ==> t.tasksToContainers[arn] != map[])
    && t.tasksToContainers.Keys == t.tasksToDefinitions.Keys
    && (forall arn, id :: arn in t.tasksToContainers && id in t.tasksToContainers[arn] ==>
          t.tasksToContainers[arn][id].dockerID == id)
  }

  predicate Watched(t: WatchTable, arn: string, id: string)
  {
    arn in t.tasksToContainers && id in t.tasksToContainers[arn]
  }

  /** Every reason `AddContainer` ignores a container. */
  predicate AddRejected(t: WatchTable, r: Resolver, id: string)
  {
    || id !in r.taskOf
    || |r.taskOf[id].arn| == 0
    || |r.taskOf[id].family| == 0
    || TaskTerminal(r.taskOf[id].knownStatus)
    || Watched(t, r.taskOf[id].arn, id)
    || id !in r.nameOf
  }

  /** The table after `AddContainer(id)`. */
  function AddedTable(t: WatchTable, r: Resolver, id: string): (t': WatchTable)
    ensures AddRejected(t, r, id) ==> t' == t
  {
    if AddRejected(t, r, id) then t
    else
      var task := r.taskOf[id];
      var inner := if task.arn in t.tasksToContainers then t.tasksToContainers[task.arn] else map[];
      WatchTable(
        t.tasksToContainers[task.arn := inner[id := CronContainer(id, r.nameOf[id])]],
        t.tasksToDefinitions[task.arn := TaskDefinition(task.family, task.version)])
  }

  /**
   * A successful add watches the container under its task, records the task's
   * definition, keeps the task's other containers and leaves other tasks alone.
   */
  lemma AddAccepted(t: WatchTable, r: Resolver, id: string)
    requires !AddRejected(t, r, id)
    ensures var task := r.taskOf[id]; var t' := AddedTable(t, r, id);
            && Watched(t', task.arn, id)
            && t'.tasksToContainers[task.arn][id] == CronContainer(id, r.nameOf[id])
            && task.arn in t'.tasksToDefinitions
            && t'.tasksToDefinitions[task.arn] == TaskDefinition(task.family, task.version)
            && t'.tasksToContainers.Keys == t.tasksToContainers.Keys + {task.arn}
            && t'.tasksToDefinitions.Keys == t.tasksToDefinitions.Keys + {task.arn}
            && (forall a :: a in t.tasksToContainers && a != task.arn ==>
                  t'.tasksToContainers[a] == t.tasksToContainers[a])
            && (forall a :: a in t.tasksToDefinitions && a != task.arn ==>
                  t'.tasksToDefinitions[a] == t.tasksToDefinitions[a])
            && (forall other :: Watched(t, task.arn, other) ==>
                  Watched(t', task.arn, other)
                  && t'.tasksToContainers[task.arn][other] == t.tasksToContainers[task.arn][other])
            && t'.tasksToContainers[task.arn]
               == (if task.arn in t.tasksToContainers then t.tasksToContainers[task.arn] else map[])
                  [id := CronContainer(id, r.nameOf[id])]
  {
  }

  /** The table after `RemoveContainer(id)`. */
  function RemovedTable(t: WatchTable, r: Resolver, id: string): (t': WatchTable)
    ensures id !in r.taskOf || !Watched(t, r.taskOf[id].arn, id) ==> t' == t
  {
    if id !in r.taskOf then t
    else
      var arn := r.taskOf[id].arn;
      if arn !in t.tasksToContainers then t
      else if id !in t.tasksToContainers[arn] then t
      else
        var inner := t.tasksToContainers[arn] - {id};
        if |inner| == 0 then
          WatchTable(t.tasksToContainers - {arn}, t.tasksToDefinitions - {arn})
        else
          WatchTable(t.tasksToContainers[arn := inner], t.tasksToDefinitions)
  }

  lemma EmptyTableWellFormed()
    ensures WellFormed(EmptyTable)
  {
  }

  /** Adding a container keeps the table's invariant. */
  lemma AddPreservesWellFormed(t: WatchTable, r: Resolver, id: string)
    requires WellFormed(t)
    ensures WellFormed(AddedTable(t, r, id))
  {
    if !AddRejected(t, r, id) {
      var arn := r.taskOf[id].arn;
      var t' := AddedTable(t, r, id);
      forall a | a in t'.tasksToContainers
        ensures t'.tasksToContainers[a] != map[]
      {
        if a == arn {
          assert id in t'.tasksToContainers[a];
        }
      }
    }
  }

  /** Removing a container keeps the table's invariant: an emptied task is dropped with its definition. */
  lemma RemovePreservesWellFormed(t: WatchTable, r: Resolver, id: string)
    requires WellFormed(t)
    ensures WellFormed(RemovedTable(t, r, id))
  {
  }

  /** A second `AddContainer` of the same id changes nothing. */
  lemma AddIdempotent(t: WatchTable, r: Resolver, id: string)
    ensures AddedTable(AddedTable(t, r, id), r, id) == AddedTable(t, r, id)
  {
  }

  /**
   * Removing a watched container deletes exactly that id from its task; the
   * task and its definition go too exactly when no other container is left.
   */
  lemma RemoveWatched(t: WatchTable, r: Resolver, id: string)
    requires id in r.taskOf && Watched(t, r.taskOf[id].arn, id)
    ensures var arn := r.taskOf[id].arn; var t' := RemovedTable(t, r, id);
            && !Watched(t', arn, id)
            && (forall other :: other != id ==>
                  (Watched(t', arn, other) <==> Watched(t, arn, other)))
            && (arn !in t'.tasksToContainers <==> t.tasksToContainers[arn].Keys == {id})
            && (arn !in t'.tasksToContainers ==> arn !in t'.tasksToDefinitions)
            && (arn in t'.tasksToContainers ==>
                  && t'.tasksToContainers[arn] == t.tasksToContainers[arn] - {id}
                  && t'.tasksToDefinitions == t.tasksToDefinitions)
  {
    var arn := r.taskOf[id].arn;
    var inner := t.tasksToContainers[arn] - {id};
    if |inner| == 0 {
      assert inner.Keys == {};
    } else {
      var other :| other in inner;
      assert other in t.tasksToContainers[arn].Keys && other != id;
    }
  }

  /** Removing a container leaves every other task's containers and definition alone. */
  lemma RemoveLeavesOtherTasks(t: WatchTable, r: Resolver, id: string, a: string)
    requires id in r.taskOf && a != r.taskOf[id].arn
    ensures var t' := RemovedTable(t, r, id);
            && (a in t'.tasksToContainers <==> a in t.tasksToContainers)
            && (a in t.tasksToContainers ==> t'.tasksToContainers[a] == t.tasksToContainers[a])
            && (a in t'.tasksToDefinitions <==> a in t.tasksToDefinitions)
            && (a in t.tasksToDefinitions ==> t'.tasksToDefinitions[a] == t.tasksToDefinitions[a])
  {
  }

  /**
   * Adding a container that was not watched and then removing it gives back
   * the table, provided the task's recorded definition (if any) is the one
   * the add writes.
   */
  lemma AddThenRemove(t: WatchTable, r: Resolver, id: string)
    requires WellFormed(t)
    requires !AddRejected(t, r, id)
    requires var task := r.taskOf[id];
             task.arn in t.tasksToDefinitions ==>
               t.tasksToDefinitions[task.arn] == TaskDefinition(task.family, task.version)
    ensures RemovedTable(AddedTable(t, r, id), r, id) == t
  {
    var arn := r.taskOf[id].arn;
    if arn in t.tasksToContainers {
      AddThenRemoveKnownTask(t, r, id);
    } else {
      AddThenRemoveNewTask(t, r, id);
    }
  }

  lemma AddThenRemoveKnownTask(t: WatchTable, r: Resolver, id: string)
    requires !AddRejected(t, r, id)
    requires var task := r.taskOf[id];
             && task.arn in t.tasksToContainers && t.tasksToContainers[task.arn] != map[]
             && task.arn in t.tasksToDefinitions
             && t.tasksToDefinitions[task.arn] == TaskDefinition(task.family, task.version)
    ensures RemovedTable(AddedTable(t, r, id), r, id) == t
  {
    var task := r.taskOf[id];
    var arn := task.arn;
    var c := CronContainer(id, r.nameOf[id]);
    var inner := t.tasksToContainers[arn];
    var t1 := AddedTable(t, r, id);
    assert t1.tasksToContainers == t.tasksToContainers[arn := inner[id := c]];
    assert t1.tasksToDefinitions == t.tasksToDefinitions;
    assert id !in inner;
    assert inner[id := c] - {id} == inner;
    assert |inner| != 0;
    assert t1.tasksToContainers[arn := inner] == t.tasksToContainers;
  }

  lemma AddThenRemoveNewTask(t: WatchTable, r: Resolver, id: string)
    requires !AddRejected(t, r, id)
    requires var arn := r.taskOf[id].arn;
             arn !in t.tasksToContainers && arn !in t.tasksToDefinitions
    ensures RemovedTable(AddedTable(t, r, id), r, id) == t
  {
    var task := r.taskOf[id];
    var arn := task.arn;
    var c := CronContainer(id, r.nameOf[id]);
    var t1 := AddedTable(t, r, id);
    assert t1.tasksToContainers == t.tasksToContainers[arn := map[id := c]];
    assert t1.tasksToDefinitions == t.tasksToDefinitions[arn := TaskDefinition(task.family, task.version)];
    assert map[id := c] - {id} == map[];
    assert RemovedTable(t1, r, id) == WatchTable(t1.tasksToContainers - {arn}, t1.tasksToDefinitions - {arn});
    assert t1.tasksToContainers - {arn} == t.tasksToContainers;
    assert t1.tasksToDefinitions - {arn} == t.tasksToDefinitions;
  }

  /** A container yields a metric when both of its stats sets are available. */
  predicate HasStats(queues: map<string, StatsQueue>, id: string)
  {
    id in queues && queues[id].cpu.Some? && queues[id].memory.Some?
  }

  /** The docker ids of a task's containers that yield a metric. */
  function Reporting(containers: map<string, CronContainer>, queues: map<string, StatsQueue>): set<string>
  {
    set id | id in containers && HasStats(queues, id)
  }

  function MetricOf(containers: map<string, CronContainer>, queues: map<string, StatsQueue>, id: string): ContainerMetric
    requires id in containers && HasStats(queues, id)
  {
    ContainerMetric(containers[id].name, queues[id].cpu.value, queues[id].memory.value)
  }

  /** The metrics of the containers listed in `order`, in that order. */
  function MetricsInOrder(containers: map<string, CronContainer>, queues: map<string, StatsQueue>, order: seq<string>)
    : (ms: seq<ContainerMetric>)
    requires forall id :: id in order ==> id in containers && HasStats(queues, id)
    ensures |ms| == |order|
  {
    if order == [] then []
    else MetricsInOrder(containers, queues, order[..|order| - 1])
         + [MetricOf(containers, queues, order[|order| - 1])]
  }

  /** `ms` holds one metric per reporting container, in some order. */
  ghost predicate ContainerMetricsOf(containers: map<string, CronContainer>, queues: map<string, StatsQueue>, ms: seq<ContainerMetric>)
  {
    exists order :: Enumerates(order, Reporting(containers, queues))
                    && ms == MetricsInOrder(containers, queues, order)
  }

  /** The tasks `GetInstanceMetrics` reports: some container yields a metric and the definition is known. */
  function ReportableTasks(t: WatchTable, queues: map<string, StatsQueue>): set<string>
  {
    set arn | arn in t.tasksToContainers && arn in t.tasksToDefinitions
              && Reporting(t.tasksToContainers[arn], queues) != {}
  }

  /** `tm` is the metric of a reportable task, with that task's definition and container metrics. */
  ghost predicate TaskMetricFor(t: WatchTable, queues: map<string, StatsQueue>, tm: TaskMetric)
  {
    && tm.taskArn in ReportableTasks(t, queues)
    && tm.taskDefinitionFamily == t.tasksToDefinitions[tm.taskArn].family
    && tm.taskDefinitionVersion == t.tasksToDefinitions[tm.taskArn].version
    && ContainerMetricsOf(t.tasksToContainers[tm.taskArn], queues, tm.containerMetrics)
  }

  predicate DistinctTasks(tms: seq<TaskMetric>)
  {
    forall i, j :: 0 <= i < j < |tms| ==> tms[i].taskArn != tms[j].taskArn
  }

  /** `tms` holds one metric per reportable task, with that task's definition and container metrics. */
  ghost predicate TaskMetricsOf(t: WatchTable, queues: map<string, StatsQueue>, tms: seq<TaskMetric>)
  {
    && DistinctTasks(tms)
    && (forall i :: 0 <= i < |tms| ==> TaskMetricFor(t, queues, tms[i]))
    && (forall arn :: arn in ReportableTasks(t, queues) ==>
          exists i :: 0 <= i < |tms| && tms[i].taskArn == arn)
  }

  /**
   * `DockerStatsEngine`: the watch table, updated in place, with the resolver
   * and the metrics metadata it uses.
   */
  class DockerStatsEngine {
    var tasksToContainers: map<string, map<string, CronContainer>>
    var tasksToDefinitions: map<string, TaskDefinition>
    var resolver: Resolver
    var metricsMetadata: MetricsMetadata

    function Table(): WatchTable
      reads this
    {
      WatchTable(tasksToContainers, tasksToDefinitions)
    }

    predicate Valid()
      reads this
    {
      WellFormed(Table())
    }

    /**
     * `NewDockerStatsEngine` with its resolver and metrics metadata assigned,
     * as `MustInit` and the tests do before the engine is used: empty maps.
     */
    constructor (resolver: Resolver, metadata: MetricsMetadata)
      ensures Valid() && Table() == EmptyTable
      ensures this.resolver == resolver && metricsMetadata == metadata
    {
      tasksToContainers := map[];
      tasksToDefinitions := map[];
      this.resolver := resolver;
      metricsMetadata := metadata;
    }

    /** `isIdle`: no task is being watched; on a well-formed table, the table is empty. */
    predicate IsIdle()
      reads this
      ensures IsIdle() ==> forall arn, id :: !Watched(Table(), arn, id)
      ensures Valid() ==> (IsIdle() <==> Table() == EmptyTable)
    {
      |tasksToContainers| == 0
    }

    /** `AddContainer`: starts watching a container of a live, well-formed task. */
    method AddContainer(dockerID: string)
      modifies this`tasksToContainers, this`tasksToDefinitions
      ensures Table() == AddedTable(old(Table()), resolver, dockerID)
      ensures old(Valid()) ==> Valid()
    {
      if Valid() {
        AddPreservesWellFormed(Table(), resolver, dockerID);
      }
      if dockerID !in resolver.taskOf {
        return;
      }
      var task := resolver.taskOf[dockerID];
      if |task.arn| == 0 || |task.family| == 0 {
        return;
      }
      if TaskTerminal(task.knownStatus) {
        return;
      }
      var taskExists := task.arn in tasksToContainers;
      if taskExists {
        if dockerID in tasksToContainers[task.arn] {
          return;
        }
      }
      if dockerID !in resolver.nameOf {
        return;
      }
      var containerName := resolver.nameOf[dockerID];
      if !taskExists {
        tasksToContainers := tasksToContainers[task.arn := map[]];
      }
      var container := CronContainer(dockerID, containerName);
      tasksToContainers := tasksToContainers[task.arn := tasksToContainers[task.arn][dockerID := container]];
      tasksToDefinitions := tasksToDefinitions[task.arn := TaskDefinition(task.family, task.version)];
    }

    /** `RemoveContainer`: stops watching a container, dropping its task when it was the last one. */
    method RemoveContainer(dockerID: string)
      modifies this`tasksToContainers, this`tasksToDefinitions
      ensures Table() == RemovedTable(old(Table()), resolver, dockerID)
      ensures old(Valid()) ==> Valid()
    {
      if Valid() {
        RemovePreservesWellFormed(Table(), resolver, dockerID);
      }
      if dockerID !in resolver.taskOf {
        return;
      }
      var task := resolver.taskOf[dockerID];
      if task.arn !in tasksToContainers {
        return;
      }
      if dockerID !in tasksToContainers[task.arn] {
        return;
      }
      var remaining := tasksToContainers[task.arn] - {dockerID};
      tasksToContainers := tasksToContainers[task.arn := remaining];
      if |tasksToContainers[task.arn]| == 0 {
        tasksToContainers := tasksToContainers - {task.arn};
        tasksToDefinitions := tasksToDefinitions - {task.arn};
        assert tasksToContainers == old(tasksToContainers) - {task.arn};
      } else {
        assert RemovedTable(old(Table()), resolver, dockerID)
               == WatchTable(old(tasksToContainers)[task.arn := remaining], old(tasksToDefinitions));
      }
    }

    /**
     * `getContainerMetricsForTask`: an error for a task that is not watched;
     * otherwise one metric per container of the task whose CPU and memory stats
     * sets are both available. `queues` holds what each container's stats queue
     * yields, keyed by docker id.
     */
    method GetContainerMetricsForTask(taskArn: string, queues: map<string, StatsQueue>)
      returns (r: Result<seq<ContainerMetric>>)
      ensures r.Err? <==> taskArn !in tasksToContainers
      ensures r.Ok? ==> ContainerMetricsOf(tasksToContainers[taskArn], queues, r.value)
    {
      if taskArn !in tasksToContainers {
        return Err("Task not found");
      }
      var containerMap := tasksToContainers[taskArn];
      var containerMetrics: seq<ContainerMetric> := [];
      var pending := containerMap.Keys;
      ghost var order: seq<string> := [];
      while pending != {}
        invariant pending <= containerMap.Keys
        invariant forall id :: id in order ==> id in containerMap && HasStats(queues, id) && id !in pending
        invariant forall id :: id in containerMap && HasStats(queues, id) && id !in pending ==> id in order
        invariant forall i, j :: 0 <= i < j < |order| ==> order[i] != order[j]
        invariant containerMetrics == MetricsInOrder(containerMap, queues, order)
        decreases pending
      {
        var id :| id in pending;
        pending := pending - {id};
        var queue := if id in queues then queues[id] else StatsQueue(None, None);
        if queue.cpu.None? {
          continue;
        }
        if queue.memory.None? {
          continue;
        }
        var metric := ContainerMetric(containerMap[id].name, queue.cpu.value, queue.memory.value);
        containerMetrics := containerMetrics + [metric];
        assert (order + [id])[..|order|] == order;
        order := order + [id];
      }
      assert Enumerates(order, Reporting(containerMap, queues));
      return Ok(containerMetrics);
    }

    /**
     * The loop of `GetInstanceMetrics` over the watched tasks: one metric per
     * reportable task, and `rangeKey`, the value the loop's range variable
     * holds when the loop ends (the last task ARN visited, whether or not its
     * metric was kept).
     */
    method CollectTaskMetrics(queues: map<string, StatsQueue>)
      returns (taskMetrics: seq<TaskMetric>, rangeKey: string)
      ensures TaskMetricsOf(Table(), queues, taskMetrics)
      ensures |taskMetrics| == 0 <==> ReportableTasks(Table(), queues) == {}
      ensures tasksToContainers != map[] ==> rangeKey in tasksToContainers
      ensures forall i :: 0 <= i < |taskMetrics| - 1 ==> taskMetrics[i].taskArn != rangeKey
    {
      taskMetrics := [];
      rangeKey := "";
      var pending := tasksToContainers.Keys;
      ghost var t := Table();
      ghost var reportable := ReportableTasks(t, queues);
      while pending != {}
        invariant pending <= tasksToContainers.Keys
        invariant pending != tasksToContainers.Keys ==> rangeKey in tasksToContainers
        invariant DistinctTasks(taskMetrics)
        invariant forall i :: 0 <= i < |taskMetrics| ==>
                    TaskMetricFor(t, queues, taskMetrics[i]) && taskMetrics[i].taskArn !in pending
        invariant forall i :: 0 <= i < |taskMetrics| - 1 ==> taskMetrics[i].taskArn != rangeKey
        invariant forall arn :: arn in reportable && arn !in pending ==>
                    exists i :: 0 <= i < |taskMetrics| && taskMetrics[i].taskArn == arn
        decreases pending
      {
        var taskArn :| taskArn in pending;
        rangeKey := taskArn;
        pending := pending - {taskArn};
        var containerMetrics := GetContainerMetricsForTask(taskArn, queues);
        if containerMetrics.Err? {
          assert false;
        }
        ContainerMetricsNonEmpty(tasksToContainers[taskArn], queues, containerMetrics.value);
        if |containerMetrics.value| == 0 {
          assert taskArn !in reportable;
          continue;
        }
        if taskArn !in tasksToDefinitions {
          assert taskArn !in reportable;
          continue;
        }
        var taskDef := tasksToDefinitions[taskArn];
        var metric := TaskMetric(taskArn, taskDef.family, taskDef.version, containerMetrics.value);
        assert TaskMetricFor(t, queues, metric);
        AppendTaskMetric(t, queues, taskMetrics, metric, pending);
        taskMetrics := taskMetrics + [metric];
      }
      if reportable != {} {
        var arn :| arn in reportable;
        assert |taskMetrics| > 0;
      }
      if |taskMetrics| > 0 {
        assert TaskMetricFor(t, queues, taskMetrics[0]);
      }
    }

    /**
     * `GetInstanceMetrics` as evidently intended: records whether the instance
     * is idle in the metadata; an idle instance reports no tasks; otherwise one
     * metric per reportable task, each carrying its own task's ARN, and an error
     * when there is none.
     */
    method GetInstanceMetrics(queues: map<string, StatsQueue>)
      returns (r: Result<(MetricsMetadata, seq<TaskMetric>)>)
      modifies this`metricsMetadata
      ensures metricsMetadata == old(metricsMetadata).(idle := Some(IsIdle()))
      ensures IsIdle() ==> r == Ok((metricsMetadata, []))
      ensures !IsIdle() ==> (r.Err? <==> ReportableTasks(Table(), queues) == {})
      ensures r.Ok? ==> r.value.0 == metricsMetadata && TaskMetricsOf(Table(), queues, r.value.1)
    {
      var idle := IsIdle();
      metricsMetadata := metricsMetadata.(idle := Some(idle));
      if idle {
        return Ok((metricsMetadata, []));
      }
      var taskMetrics, _ := CollectTaskMetrics(queues);
      if |taskMetrics| == 0 {
        return Err("No task metrics to report");
      }
      return Ok((metricsMetadata, taskMetrics));
    }

    /**
     * `GetInstanceMetrics` as written: each metric's `TaskArn` is the address of
     * the loop's single range variable, so once the loop is over every metric
     * reads the last ARN visited, while its definition and container metrics
     * remain its own task's.
     */
    method GetInstanceMetricsAsWritten(queues: map<string, StatsQueue>)
      returns (r: Result<(MetricsMetadata, seq<TaskMetric>)>)
      modifies this`metricsMetadata
      ensures metricsMetadata == old(metricsMetadata).(idle := Some(IsIdle()))
      ensures IsIdle() ==> r == Ok((metricsMetadata, []))
      ensures !IsIdle() ==> (r.Err? <==> ReportableTasks(Table(), queues) == {})
      ensures r.Ok? && !IsIdle() ==>
                r.value.0 == metricsMetadata
                && exists tms: seq<TaskMetric>, rangeKey: string ::
                     && TaskMetricsOf(Table(), queues, tms)
                     && rangeKey in tasksToContainers
                     && (forall i :: 0 <= i < |tms| - 1 ==> tms[i].taskArn != rangeKey)
                     && r.value.1 == AliasedTaskArns(tms, rangeKey)
    {
      var idle := IsIdle();
      metricsMetadata := metricsMetadata.(idle := Some(idle));
      if idle {
        return Ok((metricsMetadata, []));
      }
      var taskMetrics, rangeKey := CollectTaskMetrics(queues);
      if |taskMetrics| == 0 {
        return Err("No task metrics to report");
      }
      return Ok((metricsMetadata, AliasedTaskArns(taskMetrics, rangeKey)));
    }
  }

  /** The metrics with every `TaskArn` read through the one range variable. */
  function AliasedTaskArns(tms: seq<TaskMetric>, rangeKey: string): seq<TaskMetric>
  {
    seq(|tms|, i requires 0 <= i < |tms| => tms[i].(taskArn := rangeKey))
  }

  /**
   * With two or more tasks reported, the metrics as written all carry one ARN,
   * so they no longer name distinct tasks, and the first of them carries the
   * definition and container metrics of a task other than the one it names.
   */
  lemma AliasedArnsMislabel(t: WatchTable, queues: map<string, StatsQueue>, tms: seq<TaskMetric>, rangeKey: string)
    requires TaskMetricsOf(t, queues, tms) && |tms| >= 2
    requires forall i :: 0 <= i < |tms| - 1 ==> tms[i].taskArn != rangeKey
    ensures var aliased := AliasedTaskArns(tms, rangeKey);
            && aliased[0].taskArn == aliased[1].taskArn
            && !DistinctTasks(aliased)
            && aliased[0].taskArn != tms[0].taskArn
            && aliased[0].taskDefinitionFamily == t.tasksToDefinitions[tms[0].taskArn].family
            && aliased[0].containerMetrics == tms[0].containerMetrics
  {
    var aliased := AliasedTaskArns(tms, rangeKey);
    assert aliased[0].taskArn == aliased[1].taskArn;
    assert TaskMetricFor(t, queues, tms[0]);
  }

  /** Two watched tasks, t1 with container c1 and t2 with container c3, both with stats and definitions. */
  const ExampleTable := WatchTable(
    map["t1" := map["c1" := CronContainer("c1", "n-c1")], "t2" := map["c3" := CronContainer("c3", "n-c3")]],
    map["t1" := TaskDefinition("f1", "1"), "t2" := TaskDefinition("f2", "2")])

  const ExampleQueues := map[
    "c1" := StatsQueue(Some(StatsSet([1])), Some(StatsSet([2]))),
    "c3" := StatsQueue(Some(StatsSet([3])), Some(StatsSet([4])))]

  /**
   * On the two-task example, whatever order the map is walked in, the metrics as
   * written report both tasks under one ARN, and one of them under the wrong one.
   */
  lemma TwoTasksShareOneArn(tms: seq<TaskMetric>, rangeKey: string)
    requires TaskMetricsOf(ExampleTable, ExampleQueues, tms)
    requires forall i :: 0 <= i < |tms| - 1 ==> tms[i].taskArn != rangeKey
    ensures |tms| >= 2
    ensures var aliased := AliasedTaskArns(tms, rangeKey);
            aliased[0].taskArn == aliased[1].taskArn && aliased[0].taskArn != tms[0].taskArn
  {
    assert Reporting(ExampleTable.tasksToContainers["t1"], ExampleQueues) == {"c1"} by {
      assert HasStats(ExampleQueues, "c1");
    }
    assert Reporting(ExampleTable.tasksToContainers["t2"], ExampleQueues) == {"c3"} by {
      assert HasStats(ExampleQueues, "c3");
    }
    assert "t1" in ReportableTasks(ExampleTable, ExampleQueues);
    assert "t2" in ReportableTasks(ExampleTable, ExampleQueues);
    var i :| 0 <= i < |tms| && tms[i].taskArn == "t1";
    var j :| 0 <= j < |tms| && tms[j].taskArn == "t2";
    assert i != j;
    AliasedArnsMislabel(ExampleTable, ExampleQueues, tms, rangeKey);
  }

  /** The example table with only t1's container yielding stats so far (t2's just started). */
  const OneStartedQueues := map["c1" := StatsQueue(Some(StatsSet([1])), Some(StatsSet([2])))]

  /**
   * A single reported task is mislabelled too: when the map walk ends on t2,
   * which yields no metric yet, every metric (only t1 is reported) is t1's and
   * is reported under t2's ARN, carrying t1's definition and containers.
   */
  lemma OneTaskUnderAnotherArn(tms: seq<TaskMetric>)
    requires TaskMetricsOf(ExampleTable, OneStartedQueues, tms)
    ensures |tms| > 0
    ensures "t2" in ExampleTable.tasksToContainers
            && forall i :: 0 <= i < |tms| - 1 ==> tms[i].taskArn != "t2"
    ensures forall i :: 0 <= i < |tms| ==>
              && tms[i].taskArn == "t1"
              && AliasedTaskArns(tms, "t2")[i].taskArn == "t2"
              && AliasedTaskArns(tms, "t2")[i].taskDefinitionFamily
                 == ExampleTable.tasksToDefinitions["t1"].family
                 != ExampleTable.tasksToDefinitions["t2"].family
  {
    assert Reporting(ExampleTable.tasksToContainers["t1"], OneStartedQueues) == {"c1"} by {
      assert HasStats(OneStartedQueues, "c1");
    }
    assert Reporting(ExampleTable.tasksToContainers["t2"], OneStartedQueues) == {} by {
      assert !HasStats(OneStartedQueues, "c3");
    }
    assert ReportableTasks(ExampleTable, OneStartedQueues) == {"t1"};
    forall k | 0 <= k < |tms|
      ensures tms[k].taskArn == "t1"
    {
      assert TaskMetricFor(ExampleTable, OneStartedQueues, tms[k]);
    }
  }

  /** One step of `GetInstanceMetrics`' loop: appending the metric of a task not yet visited. */
  lemma AppendTaskMetric(t: WatchTable, queues: map<string, StatsQueue>, tms: seq<TaskMetric>,
                         tm: TaskMetric, pending: set<string>)
    requires DistinctTasks(tms)
    requires forall i :: 0 <= i < |tms| ==> TaskMetricFor(t, queues, tms[i]) && tms[i].taskArn !in pending + {tm.taskArn}
    requires forall arn :: arn in ReportableTasks(t, queues) && arn !in pending + {tm.taskArn} ==>
               exists i :: 0 <= i < |tms| && tms[i].taskArn == arn
    requires TaskMetricFor(t, queues, tm) && tm.taskArn !in pending
    ensures DistinctTasks(tms + [tm])
    ensures forall i :: 0 <= i < |tms + [tm]| ==> TaskMetricFor(t, queues, (tms + [tm])[i]) && (tms + [tm])[i].taskArn !in pending
    ensures forall arn :: arn in ReportableTasks(t, queues) && arn !in pending ==>
              exists i :: 0 <= i < |tms + [tm]| && (tms + [tm])[i].taskArn == arn
  {
    var tms' := tms + [tm];
    forall arn | arn in ReportableTasks(t, queues) && arn !in pending
      ensures exists i :: 0 <= i < |tms'| && tms'[i].taskArn == arn
    {
      if arn == tm.taskArn {
        assert tms'[|tms|].taskArn == arn;
      } else {
        var i :| 0 <= i < |tms| && tms[i].taskArn == arn;
        assert tms'[i].taskArn == arn;
      }
    }
  }

  /** A task's metrics are empty exactly when none of its containers yields one. */
  lemma ContainerMetricsNonEmpty(containers: map<string, CronContainer>, queues: map<string, StatsQueue>, ms: seq<ContainerMetric>)
    requires ContainerMetricsOf(containers, queues, ms)
    ensures |ms| == 0 <==> Reporting(containers, queues) == {}
  {
    var order :| Enumerates(order, Reporting(containers, queues))
                 && ms == MetricsInOrder(containers, queues, order);
    if Reporting(containers, queues) != {} {
      var id :| id in Reporting(containers, queues);
      assert id in order;
    }
    if |order| > 0 {
      assert order[0] in order;
    }
  }
}
