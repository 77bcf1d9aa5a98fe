/**
 * The agent's record of one container: its run specification, the desired,
 * known and sent statuses with their accessors, the command override, and the
 * human-readable summaries of a container and of its Docker cross-reference.
 */
module ContainerModel {
  import opened Wrappers
  import opened StatusDomain
  import opened Decimal

  /** The minimum amount of memory given to a Docker container: 4 MiB. */
  const DockerContainerMinimumMemoryInBytes: nat := 4 * 1024 * 1024

  lemma MinimumMemoryIsFourMebibytes()
    ensures DockerContainerMinimumMemoryInBytes == 4194304
    ensures DockerContainerMinimumMemoryInBytes / 1024 / 1024 == 4
  {
  }

  /** `ContainerOverrides`: only the command can be overridden; `None` is a nil pointer. */
  datatype ContainerOverrides = ContainerOverrides(command: Option<seq<string>>)

  /** A value copy of every modelled field of a `Container` (Go `*c`). */
  datatype ContainerRecord = ContainerRecord(
    name: string,
    image: string,
    imageID: string,
    command: seq<string>,
    cpu: nat,
    memory: nat,
    links: seq<string>,
    essential: bool,
    entryPoint: Option<seq<string>>,
    environment: map<string, string>,
    overrides: ContainerOverrides,
    desiredStatus: ContainerStatus,
    knownStatus: ContainerStatus,
    runDependencies: seq<string>,
    isInternal: bool,
    sentStatus: ContainerStatus,
    knownExitCode: Option<int>)

  /**
   * The value `Overridden` copies out: the container's fields, with the
   * override's command in place of the command when one is set.
   */
  function WithOverrides(c: ContainerRecord): (r: ContainerRecord)
    ensures c.overrides.command.Some? ==> r.command == c.overrides.command.value
    ensures c.overrides.command.None? ==> r.command == c.command
    ensures r.(command := c.command) == c
  {
    match c.overrides.command
    case Some(cmd) => c.(command := cmd)
    case None => c
  }

  /** With no override the copy equals the original. */
  lemma OverriddenWithoutOverrideIsIdentity(c: ContainerRecord)
    requires c.overrides.command.None?
    ensures WithOverrides(c) == c
  {
  }

  /** Applying the overrides a second time changes nothing: the override is kept in the copy. */
  lemma OverriddenIdempotent(c: ContainerRecord)
    ensures WithOverrides(WithOverrides(c)) == WithOverrides(c)
    ensures WithOverrides(c).overrides == c.overrides
  {
  }

  /**
   * `Container`: the fields the agent reads and updates in place. The desired,
   * known and sent statuses each have their own accessors (one lock each in the
   * source; access is sequential here).
   */
  class Container {
    var name: string
    var image: string
    var imageID: string
    var command: seq<string>
    var cpu: nat
    var memory: nat
    var links: seq<string>
    var essential: bool
    var entryPoint: Option<seq<string>>
    var environment: map<string, string>
    var overrides: ContainerOverrides
    var desiredStatus: ContainerStatus
    var knownStatus: ContainerStatus
    var runDependencies: seq<string>
    var isInternal: bool
    var sentStatus: ContainerStatus
    var knownExitCode: Option<int>

    /** A container with the given fields. */
    constructor (r: ContainerRecord)
      ensures Snapshot() == r
    {
      name, image, imageID := r.name, r.image, r.imageID;
      command, cpu, memory, links := r.command, r.cpu, r.memory, r.links;
      essential, entryPoint, environment := r.essential, r.entryPoint, r.environment;
      overrides, desiredStatus, knownStatus := r.overrides, r.desiredStatus, r.knownStatus;
      runDependencies, isInternal := r.runDependencies, r.isInternal;
      sentStatus, knownExitCode := r.sentStatus, r.knownExitCode;
    }

    /** The value of every field (Go `*c`). */
    function Snapshot(): ContainerRecord
      reads this
    {
      ContainerRecord(name, image, imageID, command, cpu, memory, links, essential,
                      entryPoint, environment, overrides, desiredStatus, knownStatus,
                      runDependencies, isInternal, sentStatus, knownExitCode)
    }

    /**
     * `Overridden`: a new container holding the overridden copy of the
     * receiver's field values; the receiver is not changed.
     */
    method Overridden() returns (r: Container)
      ensures fresh(r)
      ensures r.Snapshot() == WithOverrides(Snapshot())
    {
      r := new Container(WithOverrides(Snapshot()));
    }

    method GetKnownStatus() returns (s: ContainerStatus)
      ensures s == knownStatus
    {
      s := knownStatus;
    }

    /** Changes the known status and nothing else. */
    method SetKnownStatus(s: ContainerStatus)
      modifies this`knownStatus
      ensures knownStatus == s
      ensures Snapshot() == old(Snapshot()).(knownStatus := s)
    {
      knownStatus := s;
    }

    method GetDesiredStatus() returns (s: ContainerStatus)
      ensures s == desiredStatus
    {
      s := desiredStatus;
    }

    /** Changes the desired status and nothing else. */
    method SetDesiredStatus(s: ContainerStatus)
      modifies this`desiredStatus
      ensures desiredStatus == s
      ensures Snapshot() == old(Snapshot()).(desiredStatus := s)
    {
      desiredStatus := s;
    }

    method GetSentStatus() returns (s: ContainerStatus)
      ensures s == sentStatus
    {
      s := sentStatus;
    }

    /** Changes the sent status and nothing else. */
    method SetSentStatus(s: ContainerStatus)
      modifies this`sentStatus
      ensures sentStatus == s
      ensures Snapshot() == old(Snapshot()).(sentStatus := s)
    {
      sentStatus := s;
    }

    /** `KnownTerminal`: the known status is Stopped. */
    predicate KnownTerminal()
      reads this
      ensures KnownTerminal() <==> knownStatus == ContainerStopped
    {
      Terminal(knownStatus)
    }

    /** `DesiredTerminal`: the desired status is Stopped. */
    predicate DesiredTerminal()
      reads this
      ensures DesiredTerminal() <==> desiredStatus == ContainerStopped
    {
      Terminal(desiredStatus)
    }

    /**
     * "name(image) (KNOWN->DESIRED)", the part of `String` always present: the
     * status names between the parentheses read back as the known and desired
     * statuses whenever those are named.
     */
    function Summary(): (r: string)
      reads this
      ensures var p := name + "(" + image + ") (";
              var k := StatusDomain.String(knownStatus);
              var d := StatusDomain.String(desiredStatus);
              && |r| == |p| + |k| + 2 + |d| + 1
              && r[..|p|] == p && r[|r| - 1] == ')'
              && r[|p| + |k|..|p| + |k| + 2] == "->"
              && r[|p|..|p| + |k|] == k && r[|p| + |k| + 2..|r| - 1] == d
              && (ContainerStatusNone <= knownStatus <= ContainerStopped ==>
                    ContainerStatusMap[r[|p|..|p| + |k|]] == knownStatus)
              && (ContainerStatusNone <= desiredStatus <= ContainerStopped ==>
                    ContainerStatusMap[r[|p| + |k| + 2..|r| - 1]] == desiredStatus)
    {
      var p := name + "(" + image + ") (";
      var k := StatusDomain.String(knownStatus);
      var d := StatusDomain.String(desiredStatus);
      JoinedParts(p, k, d);
      StatusDomain.NamedStatuses(knownStatus);
      StatusDomain.NamedStatuses(desiredStatus);
      p + k + "->" + d + ")"
    }

    /**
     * `Container.String`: the summary, followed by " - Exit: n" exactly when
     * the exit code is known; n reads back as that exit code.
     */
    function String(): (r: string)
      reads this
      ensures |r| >= |Summary()| && r[..|Summary()|] == Summary()
      ensures knownExitCode.None? ==> r == Summary()
      ensures knownExitCode.Some? ==>
                |r| > |Summary()| + 9
                && r[|Summary()|..|Summary()| + 9] == " - Exit: "
                && Atoi(r[|Summary()| + 9..]) == Some(knownExitCode.value)
                && r[|Summary()| + 9..] == Itoa(knownExitCode.value)
    {
      var ret := Summary();
      match knownExitCode
      case None => ret
      case Some(code) =>
        ItoaRoundTrip(code);
        AppendedParts(ret, " - Exit: ", Itoa(code));
        ret + " - Exit: " + Itoa(code)
    }
  }

  /** Where the parts of a + b + c sit, for any strings. */
  lemma AppendedParts(a: string, b: string, c: string)
    ensures var r := a + b + c;
            && |r| == |a| + |b| + |c|
            && r[..|a|] == a && r[|a|..|a| + |b|] == b && r[|a| + |b|..] == c
  {
    var r := a + b + c;
    assert r[|a|..|a| + |b|] == b;
  }

  /** Where the parts of p + k + "->" + d + ")" sit, for any strings. */
  lemma JoinedParts(p: string, k: string, d: string)
    ensures var r := p + k + "->" + d + ")";
            && |r| == |p| + |k| + 2 + |d| + 1
            && r[..|p|] == p && r[|r| - 1] == ')'
            && r[|p|..|p| + |k|] == k
            && r[|p| + |k|..|p| + |k| + 2] == "->"
            && r[|p| + |k| + 2..|r| - 1] == d
  {
    var r := p + k + "->" + d + ")";
    assert r[|p|..|p| + |k|] == k;
    assert r[|p| + |k| + 2..|r| - 1] == d;
  }

  /**
   * Renaming the overridden copy leaves the original container as it was: the
   * copy is a separate object.
   */
  method RenameOverriddenCopy(c: Container, newName: string) returns (r: Container)
    ensures fresh(r) && r.name == newName && r != c
    ensures r.Snapshot() == WithOverrides(c.Snapshot()).(name := newName)
    ensures c.Snapshot() == old(c.Snapshot())
  {
    r := c.Overridden();
    r.name := newName;
  }

  /**
   * `DockerContainer`: the mapping between a container as Docker knows it (id,
   * generated name) and the agent's container.
   */
  class DockerContainer {
    var dockerID: string
    var dockerName: string
    var container: Container

    constructor (id: string, dockerName: string, container: Container)
      ensures this.dockerID == id && this.dockerName == dockerName && this.container == container
    {
      this.dockerID, this.dockerName, this.container := id, dockerName, container;
    }
  }

  /**
   * `DockerContainer.String`: "nil" for a nil pointer, otherwise the id, name and
   * the container's own summary.
   */
  function DockerContainerString(dc: DockerContainer?): (r: string)
    reads dc, if dc != null then {dc.container} else {}
    ensures r == "nil" <==> dc == null
    ensures dc != null ==>
              r == "Id: " + dc.dockerID + ", Name: " + dc.dockerName + ", Container: "
                   + dc.container.String()
  {
    if dc == null then "nil"
    else
      var r := "Id: " + dc.dockerID + ", Name: " + dc.dockerName + ", Container: "
               + dc.container.String();
      assert r[0] == 'I';
      r
  }
}
