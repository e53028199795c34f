/**
 * The push of a component: after the Deployment is rolled out, the files are synced to the first
 * container that mounts the project sources and the devfile's commands are run in it; and the
 * delete of a component.
 */
module ComponentPush {
  import opened Results
  import opened Cluster
  import opened Adapter
  import Text

  // ---- supervisord ------------------------------------------------------------------------------

  /** A container of that name whose entrypoint is not already supervisord. */
  predicate NeedsSupervisord(container: Container, containerName: string)
  {
    container.name == containerName && container.command != [SupervisordBinaryPath]
  }

  /** The command that starts supervisord, daemonised, in a container of the pod. */
  function SupervisordStart(containerName: string, podName: string): (op: Op)
    ensures op.ExecuteCommand? && op.compInfo == ComponentInfo(containerName, podName)
    ensures op.argv == [SupervisordBinaryPath, "-c", SupervisordConfFile, "-d"]
  {
    ExecuteCommand(ComponentInfo(containerName, podName), [SupervisordBinaryPath, "-c", SupervisordConfFile, "-d"])
  }

  /** The supervisord starts issued for the containers, container after container. */
  function SupervisordOps(containerName: string, podName: string, containers: seq<Container>): seq<Op>
    decreases |containers|
  {
    if containers == [] then []
    else
      SupervisordOps(containerName, podName, containers[..|containers| - 1])
      + if NeedsSupervisord(containers[|containers| - 1], containerName) then [SupervisordStart(containerName, podName)] else []
  }

  /** Every exec is the same supervisord start, and there is one exactly when some container needs it. */
  lemma {:induction false} SupervisordOpsShape(containerName: string, podName: string, containers: seq<Container>)
    ensures var ops := SupervisordOps(containerName, podName, containers);
            && |ops| <= |containers|
            && (forall i :: 0 <= i < |ops| ==> ops[i] == SupervisordStart(containerName, podName))
            && (ops != [] <==> exists i :: 0 <= i < |containers| && NeedsSupervisord(containers[i], containerName))
    decreases |containers|
  {
    if containers != [] {
      var init := containers[..|containers| - 1];
      SupervisordOpsShape(containerName, podName, init);
      assert forall i :: 0 <= i < |init| ==> init[i] == containers[i];
    }
  }

  /**
   * `InitRunContainerSupervisord`: starts supervisord in every container of that name that does not
   * already run it; every start is attempted and the error of the last one is returned.
   */
  method InitRunContainerSupervisord(c: Client, containerName: string, podName: string, containers: seq<Container>)
    returns (err: Option<string>)
    modifies c`log
    ensures c.log == old(c.log) + SupervisordOps(containerName, podName, containers)
    ensures err == LastFailure(c, SupervisordOps(containerName, podName, containers))
  {
    err := None;
    for i := 0 to |containers|
      invariant c.log == old(c.log) + SupervisordOps(containerName, podName, containers[..i])
      invariant err == LastFailure(c, SupervisordOps(containerName, podName, containers[..i]))
    {
      assert containers[..i + 1][..i] == containers[..i];
      var container := containers[i];
      if container.name == containerName && container.command != [SupervisordBinaryPath] {
        var command := [SupervisordBinaryPath, "-c", SupervisordConfFile, "-d"];
        err := c.Perform(ExecuteCommand(ComponentInfo(containerName, podName), command));
      }
    }
    assert containers[..|containers|] == containers;
  }

  // ---- devfile commands -------------------------------------------------------------------------

  const NoCommandsError: string := "error executing devfile commands - there should be at least 1 command"

  /** The run action: without restart for an existing component whose run command does not ask for one. */
  function RunOp(run: ExecCommand, componentExists: bool, podName: string): (op: Op)
    ensures (op.ExecRunAction? || op.ExecRunActionWithoutRestart?) && op.command == run && op.podName == podName
    ensures op.ExecRunActionWithoutRestart? <==> componentExists && !run.restartRequired
    ensures op.ExecRunAction? <==> !componentExists || run.restartRequired
  {
    if componentExists && !run.restartRequired then ExecRunActionWithoutRestart(run, podName)
    else ExecRunAction(run, podName)
  }

  /** The init action, run only on the first push of a component. */
  function InitOps(commands: map<CommandGroup, ExecCommand>, componentExists: bool, podName: string): seq<Op>
  {
    if !componentExists && InitGroup in commands then [ExecBuildAction(commands[InitGroup], podName)] else []
  }

  function BuildOps(commands: map<CommandGroup, ExecCommand>, podName: string): seq<Op>
  {
    if BuildGroup in commands then [ExecBuildAction(commands[BuildGroup], podName)] else []
  }

  /** The supervisord starts made before the run action of a new component. */
  function StartOps(commands: map<CommandGroup, ExecCommand>, componentExists: bool, podName: string,
                    containers: seq<Container>): seq<Op>
    requires RunGroup in commands
  {
    if componentExists then [] else SupervisordOps(commands[RunGroup].component, podName, containers)
  }

  /** The phases of the run command: supervisord started on a first push, then the run action. */
  function RunTrace(c: Client, commands: map<CommandGroup, ExecCommand>, componentExists: bool,
                    podName: string, containers: seq<Container>): Trace<Op>
  {
    if RunGroup !in commands then Trace([], None)
    else Then(Phase(c, StartOps(commands, componentExists, podName, containers)),
              Phase(c, [RunOp(commands[RunGroup], componentExists, podName)]))
  }

  /** What `execDevfile` issues and returns: init, build and run in turn, a failure ending it. */
  function ExecDevfileTrace(c: Client, commands: map<CommandGroup, ExecCommand>, componentExists: bool,
                            podName: string, containers: seq<Container>): Trace<Op>
  {
    if |commands| == 0 then Trace([], Some(NoCommandsError))
    else
      Then(Phase(c, InitOps(commands, componentExists, podName)),
           Then(Phase(c, BuildOps(commands, podName)),
                RunTrace(c, commands, componentExists, podName, containers)))
  }

  /**
   * `execDevfile`: the init action (first push only), the build action, then — after starting
   * supervisord on a first push — the run action, with or without restart; a failure ends it.
   */
  method ExecDevfile(c: Client, commands: map<CommandGroup, ExecCommand>, componentExists: bool,
                     podName: string, containers: seq<Container>) returns (err: Option<string>)
    modifies c`log
    ensures c.log == old(c.log) + ExecDevfileTrace(c, commands, componentExists, podName, containers).ops
    ensures err == ExecDevfileTrace(c, commands, componentExists, podName, containers).err
  {
    ghost var log0 := c.log;
    ghost var init := InitOps(commands, componentExists, podName);
    ghost var build := BuildOps(commands, podName);
    if |commands| == 0 {
      return Some(NoCommandsError);
    }
    if !componentExists && InitGroup in commands {
      var command := commands[InitGroup];
      err := c.Perform(ExecBuildAction(command, podName));
      if err.Some? {
        return;
      }
    }
    assert c.log == log0 + init;
    if BuildGroup in commands {
      var command := commands[BuildGroup];
      err := c.Perform(ExecBuildAction(command, podName));
      AppendAssoc(log0, init, build);
      if err.Some? {
        return;
      }
    }
    assert c.log == log0 + (init + build);
    err := None;
    if RunGroup in commands {
      var command := commands[RunGroup];
      ghost var starts := StartOps(commands, componentExists, podName, containers);
      if !componentExists {
        err := InitRunContainerSupervisord(c, command.component, podName, containers);
      }
      AppendAssoc(log0, init + build, starts);
      AppendAssoc(init, build, starts);
      if err.Some? {
        return;
      }
      ghost var run := RunOp(command, componentExists, podName);
      ghost var before := init + (build + starts);
      AppendAssoc(log0, before, [run]);
      AppendAssoc(init, build + starts, [run]);
      AppendAssoc(build, starts, [run]);
      if componentExists && !command.restartRequired {
        err := c.Perform(ExecRunActionWithoutRestart(command, podName));
        return;
      }
      err := c.Perform(ExecRunAction(command, podName));
    }
  }

  /** The phases of `execDevfile`: init, build, supervisord starts, run. */
  function ExecPhases(commands: map<CommandGroup, ExecCommand>, componentExists: bool, podName: string,
                      containers: seq<Container>): seq<seq<Op>>
  {
    [InitOps(commands, componentExists, podName), BuildOps(commands, podName)]
    + if RunGroup in commands
      then [StartOps(commands, componentExists, podName, containers), [RunOp(commands[RunGroup], componentExists, podName)]]
      else []
  }

  /** The calls `execDevfile` makes when none fails: init, build, supervisord starts, run. */
  function ExecPlan(commands: map<CommandGroup, ExecCommand>, componentExists: bool, podName: string,
                    containers: seq<Container>): seq<Op>
  {
    InitOps(commands, componentExists, podName) + BuildOps(commands, podName)
    + if RunGroup in commands
      then StartOps(commands, componentExists, podName, containers) + [RunOp(commands[RunGroup], componentExists, podName)]
      else []
  }

  /** An exec into the component's containers. */
  predicate IsExecOp(op: Op)
  {
    op.ExecBuildAction? || op.ExecRunAction? || op.ExecRunActionWithoutRestart? || op.ExecuteCommand?
  }

  /**
   * What the plan holds: only execs; the init action first on a first push; the run action last,
   * without restart exactly for an existing component whose command does not require one; and
   * supervisord started only on a first push, for the run command's container.
   */
  lemma ExecPlanShape(commands: map<CommandGroup, ExecCommand>, componentExists: bool, podName: string,
                      containers: seq<Container>)
    ensures var plan := ExecPlan(commands, componentExists, podName, containers);
            && (forall i :: 0 <= i < |plan| ==> IsExecOp(plan[i]))
            && (!componentExists && InitGroup in commands ==> plan[0] == ExecBuildAction(commands[InitGroup], podName))
            && (RunGroup in commands ==>
                  && plan != []
                  && plan[|plan| - 1] == RunOp(commands[RunGroup], componentExists, podName)
                  && (plan[|plan| - 1].ExecRunActionWithoutRestart? <==> componentExists && !commands[RunGroup].restartRequired))
            && (RunGroup !in commands ==> forall i :: 0 <= i < |plan| ==> plan[i].ExecBuildAction?)
            && (forall i :: 0 <= i < |plan| && plan[i].ExecuteCommand? ==>
                  !componentExists && RunGroup in commands
                  && plan[i] == SupervisordStart(commands[RunGroup].component, podName))
            && (componentExists ==> |plan| <= 2)
  {
    var plan := ExecPlan(commands, componentExists, podName, containers);
    var head := InitOps(commands, componentExists, podName) + BuildOps(commands, podName);
    if RunGroup in commands {
      var starts := StartOps(commands, componentExists, podName, containers);
      SupervisordOpsShape(commands[RunGroup].component, podName, containers);
      assert plan == head + starts + [RunOp(commands[RunGroup], componentExists, podName)];
      forall i | 0 <= i < |plan|
        ensures IsExecOp(plan[i])
        ensures plan[i].ExecuteCommand? ==> !componentExists && plan[i] == SupervisordStart(commands[RunGroup].component, podName)
      {
        if |head| <= i < |head| + |starts| {
          assert plan[i] == starts[i - |head|];
        }
      }
    } else {
      assert plan == head;
    }
  }

  /** `execDevfile` runs its phases in turn, and all their calls together are its plan. */
  lemma ExecDevfileIsPhases(c: Client, commands: map<CommandGroup, ExecCommand>, componentExists: bool,
                            podName: string, containers: seq<Container>)
    requires |commands| > 0
    ensures var phases := ExecPhases(commands, componentExists, podName, containers);
            && ExecDevfileTrace(c, commands, componentExists, podName, containers) == RunPhases(c, phases)
            && Concat(phases) == ExecPlan(commands, componentExists, podName, containers)
            && forall k :: 0 <= k < |phases| ==> Uniform(phases[k])
  {
    var phases := ExecPhases(commands, componentExists, podName, containers);
    var init := InitOps(commands, componentExists, podName);
    var build := BuildOps(commands, podName);
    var tail := phases[2..];
    assert phases == [init, build] + tail;
    assert phases[1..] == [build] + tail && phases[1..][1..] == tail;
    assert RunPhases(c, phases[1..]) == Then(Phase(c, build), RunPhases(c, tail));
    if RunGroup in commands {
      var starts := StartOps(commands, componentExists, podName, containers);
      var run := [RunOp(commands[RunGroup], componentExists, podName)];
      assert tail == [starts, run];
      assert tail[1..] == [run] && tail[1..][1..] == [];
      assert RunPhases(c, tail[1..]) == Then(Phase(c, run), Trace([], None));
      assert run + [] == run;
    } else {
      assert tail == [];
    }
    ExecPhasesConcat(commands, componentExists, podName, containers);
    ExecPhasesUniform(commands, componentExists, podName, containers);
  }

  /** Each phase repeats one call. */
  lemma ExecPhasesUniform(commands: map<CommandGroup, ExecCommand>, componentExists: bool, podName: string,
                          containers: seq<Container>)
    ensures var phases := ExecPhases(commands, componentExists, podName, containers);
            forall k :: 0 <= k < |phases| ==> Uniform(phases[k])
  {
    if RunGroup in commands {
      SupervisordOpsShape(commands[RunGroup].component, podName, containers);
    }
  }

  /** All the calls of the phases, in order, are the plan. */
  lemma ExecPhasesConcat(commands: map<CommandGroup, ExecCommand>, componentExists: bool, podName: string,
                         containers: seq<Container>)
    ensures Concat(ExecPhases(commands, componentExists, podName, containers))
            == ExecPlan(commands, componentExists, podName, containers)
  {
    var phases := ExecPhases(commands, componentExists, podName, containers);
    var init := InitOps(commands, componentExists, podName);
    var build := BuildOps(commands, podName);
    var tail := phases[2..];
    assert phases[1..] == [build] + tail && phases[1..][1..] == tail;
    assert Concat(phases) == init + Concat(phases[1..]);
    assert Concat(phases[1..]) == build + Concat(tail);
    AppendAssoc(init, build, Concat(tail));
    if RunGroup in commands {
      var starts := StartOps(commands, componentExists, podName, containers);
      var run := [RunOp(commands[RunGroup], componentExists, podName)];
      assert tail == [starts, run];
      assert tail[1..] == [run] && tail[1..][1..] == [];
      assert Concat(tail[1..]) == run + Concat([]);
      assert run + [] == run;
    } else {
      assert tail == [];
    }
  }

  /**
   * `execDevfile` issues its plan in order: what it issued is a prefix of the plan, an error is that
   * of the last call issued, and it completes without error exactly when no call of the plan fails.
   */
  lemma ExecDevfileFollowsPlan(c: Client, commands: map<CommandGroup, ExecCommand>, componentExists: bool,
                               podName: string, containers: seq<Container>)
    requires |commands| > 0
    ensures var t := ExecDevfileTrace(c, commands, componentExists, podName, containers);
            var plan := ExecPlan(commands, componentExists, podName, containers);
            && |t.ops| <= |plan| && t.ops == plan[..|t.ops|]
            && (t.err.Some? ==> t.ops != [] && t.err == c.Failure(t.ops[|t.ops| - 1]))
            && (t.err == None <==> t.ops == plan && forall i :: 0 <= i < |plan| ==> plan[i] !in c.failing)
  {
    ExecDevfileIsPhases(c, commands, componentExists, podName, containers);
    RunPhasesFollowPlan(c, ExecPhases(commands, componentExists, podName, containers));
  }

  // ---- finding the container to sync to --------------------------------------------------------

  /** The container mounts the shared project-source volume. */
  predicate MountsSource(container: Container)
  {
    exists k :: 0 <= k < |container.volumeMounts| && container.volumeMounts[k].name == OdoSourceVolume
  }

  const NoSourceContainerError: string :=
    "In order to sync files, odo requires at least one component in a devfile to set 'mountSources: true'"

  /** The name of the first container that mounts the project sources; an error when none does. */
  function SourceContainer(containers: seq<Container>): Result<string>
    decreases |containers|
  {
    if containers == [] then Err(NoSourceContainerError)
    else if MountsSource(containers[0]) then Ok(containers[0].name)
    else SourceContainer(containers[1..])
  }

  /**
   * SourceContainer finds a container exactly when one mounts the sources, and then names the first
   * such; otherwise it reports that no component sets `mountSources`.
   */
  lemma {:induction false} SourceContainerFirst(containers: seq<Container>)
    ensures var r := SourceContainer(containers);
            && (r.Ok? <==> exists i :: 0 <= i < |containers| && MountsSource(containers[i]))
            && (r.Err? ==> r.msg == NoSourceContainerError)
            && (r.Ok? ==> exists i :: 0 <= i < |containers| && MountsSource(containers[i]) && r.value == containers[i].name
                                      && forall j :: 0 <= j < i ==> !MountsSource(containers[j]))
    decreases |containers|
  {
    if containers != [] && !MountsSource(containers[0]) {
      var tail := containers[1..];
      SourceContainerFirst(tail);
      assert forall i :: 0 < i < |containers| ==> containers[i] == tail[i - 1];
      var r := SourceContainer(tail);
      if r.Ok? {
        var i :| 0 <= i < |tail| && MountsSource(tail[i]) && r.value == tail[i].name
                 && forall j :: 0 <= j < i ==> !MountsSource(tail[j]);
        assert MountsSource(containers[i + 1]);
        forall j | 0 <= j < i + 1 ensures !MountsSource(containers[j]) {
          if j > 0 { assert containers[j] == tail[j - 1]; }
        }
      }
    }
  }

  /** `getFirstContainerWithSourceVolume`: scans the containers and their mounts in order. */
  method GetFirstContainerWithSourceVolume(containers: seq<Container>) returns (r: Result<string>)
    ensures r == SourceContainer(containers)
  {
    for i := 0 to |containers|
      invariant SourceContainer(containers) == SourceContainer(containers[i..])
    {
      assert containers[i..][1..] == containers[i + 1..];
      var c := containers[i];
      for k := 0 to |c.volumeMounts|
        invariant forall m :: 0 <= m < k ==> c.volumeMounts[m].name != OdoSourceVolume
      {
        if c.volumeMounts[k].name == OdoSourceVolume {
          return Ok(c.name);
        }
      }
    }
    return Err(NoSourceContainerError);
  }

  // ---- push -------------------------------------------------------------------------------------

  /** The step of a push that failed. */
  datatype PushStep = PodBefore | Validate | Reconcile | Rollout | PodAfter | SourceVolume | Sync | Exec

  /**
   * How a push ends: done; failed at a step with the error that step got; or with the process
   * exiting because the config could not be applied.
   */
  datatype PushOutcome = Pushed | PushFailed(step: PushStep, cause: string) | Exited(cause: string)

  /** The calls a push issued, in order, and how it ended. */
  datatype PushRun = PushRun(ops: seq<Op>, outcome: PushOutcome)

  /** `waitAndGetComponentPod`'s error: the wait's error under the component's pod selector. */
  function PodWaitError(componentName: string, cause: string): string
  {
    Wrap("error while waiting for pod component=" + componentName, cause)
  }

  /**
   * The error `Push` returns when `step` fails with `cause`: wrapped in the step's context, except
   * the devfile commands' error, which is returned as it is. `podName` is the pod that ran before
   * the push ("" for a new component).
   */
  function PushError(step: PushStep, componentName: string, podName: string, cause: string): string
  {
    match step
    case PodBefore => Wrap("unable to get pod for component " + componentName, PodWaitError(componentName, cause))
    case Validate => Wrap("failed to validate devfile build and run commands", cause)
    case Reconcile => Wrap("unable to create or update component", cause)
    case Rollout => Wrap("error while waiting for deployment rollout", cause)
    case PodAfter => Wrap("unable to get pod for component " + componentName, PodWaitError(componentName, cause))
    case SourceVolume => Wrap("error while retrieving container from pod " + podName + " with a mounted project volume", cause)
    case Sync => Wrap("Failed to sync to component with name " + componentName, cause)
    case Exec => cause
  }

  /**
   * What a push does after the component is written: wait for the rollout and the running pod,
   * apply the config, sync the files to the first source-mounting container, and run the devfile
   * commands when the sync asks for it. `podName` is the pod that ran before, "" for a new component.
   */
  function StartRun(c: Client, componentName: string, commands: map<CommandGroup, ExecCommand>,
                    componentExists: bool, podName: string): PushRun
  {
    var rollout := WaitForDeploymentRollout(componentName);
    if rollout in c.failing then PushRun([rollout], PushFailed(Rollout, c.failing[rollout]))
    else if c.rolloutPod.Err? then PushRun([rollout], PushFailed(PodAfter, c.rolloutPod.msg))
    else
      var pod := c.rolloutPod.value;
      var apply := ApplyConfig(componentExists);
      if apply in c.failing then PushRun([rollout, apply], Exited(c.failing[apply]))
      else
        var container := SourceContainer(pod.containers);
        if container.Err? then PushRun([rollout, apply], PushFailed(SourceVolume, container.msg))
        else
          var params := SyncParameters(ComponentInfo(container.value, pod.name), componentExists,
                                       componentExists && podName != pod.name);
          var sync := SyncFiles(params);
          if sync in c.failing then PushRun([rollout, apply, sync], PushFailed(Sync, c.failing[sync]))
          else if !c.execRequired(params) then PushRun([rollout, apply, sync], Pushed)
          else
            var exec := ExecDevfileTrace(c, commands, componentExists, pod.name, pod.containers);
            PushRun([rollout, apply, sync] + exec.ops, if exec.err.Some? then PushFailed(Exec, exec.err.value) else Pushed)
  }

  /** What `Push` issues and how it ends, given the pod running before it (`pod0`). */
  function PushRunOf(c: Client, componentName: string, x: Collaborators, pod0: Result<Pod>): PushRun
  {
    var componentExists := c.ComponentExists(componentName);
    if componentExists && pod0.Err? then PushRun([], PushFailed(PodBefore, pod0.msg))
    else if x.commands.Err? then PushRun([], PushFailed(Validate, x.commands.msg))
    else
      var reconcile := ReconcileTrace(c, componentName, x);
      if reconcile.err.Some? then PushRun(reconcile.ops, PushFailed(Reconcile, reconcile.err.value))
      else
        var podName := if componentExists then pod0.value.name else "";
        var rest := StartRun(c, componentName, x.commands.value, componentExists, podName);
        PushRun(reconcile.ops + rest.ops, rest.outcome)
  }

  /** The running pod after a push: the rolled-out one once the rollout wait has succeeded. */
  function PodAfterPush(c: Client, componentName: string, x: Collaborators, pod0: Result<Pod>): Result<Pod>
  {
    if c.ComponentExists(componentName) && pod0.Err? then pod0
    else if x.commands.Err? || ReconcileTrace(c, componentName, x).err.Some? then pod0
    else if WaitForDeploymentRollout(componentName) in c.failing then pod0
    else c.rolloutPod
  }

  /**
   * `Push`: creates or updates the component, waits for its pod, syncs the project files to it and
   * runs the devfile commands when the sync says they are needed.
   */
  method Push(c: Client, componentName: string, x: Collaborators) returns (outcome: PushOutcome)
    modifies c`log, c`pod
    ensures c.log == old(c.log) + PushRunOf(c, componentName, x, old(c.pod)).ops
    ensures outcome == PushRunOf(c, componentName, x, old(c.pod)).outcome
    ensures c.pod == PodAfterPush(c, componentName, x, old(c.pod))
  {
    var componentExists := c.ComponentExists(componentName);
    var podName := "";
    if componentExists {
      var pod := c.WaitAndGetPod();
      if pod.Err? {
        return PushFailed(PodBefore, pod.msg);
      }
      podName := pod.value.name;
    }
    if x.commands.Err? {
      return PushFailed(Validate, x.commands.msg);
    }
    var pushDevfileCommands := x.commands.value;
    ghost var reconcile := ReconcileTrace(c, componentName, x);
    var err := CreateOrUpdateComponent(c, componentName, x);
    if err.Some? {
      return PushFailed(Reconcile, err.value);
    }
    ghost var log1 := c.log;
    ghost var rest := StartRun(c, componentName, pushDevfileCommands, componentExists, podName);
    outcome := Start(c, componentName, pushDevfileCommands, componentExists, podName);
    AppendAssoc(old(c.log), reconcile.ops, rest.ops);
  }

  /** The second half of `Push`, from the rollout wait on. */
  method Start(c: Client, componentName: string, commands: map<CommandGroup, ExecCommand>,
               componentExists: bool, podName: string) returns (outcome: PushOutcome)
    modifies c`log, c`pod
    ensures c.log == old(c.log) + StartRun(c, componentName, commands, componentExists, podName).ops
    ensures outcome == StartRun(c, componentName, commands, componentExists, podName).outcome
    ensures c.pod == if WaitForDeploymentRollout(componentName) !in c.failing then c.rolloutPod else old(c.pod)
  {
    ghost var log0 := c.log;
    var err := c.WaitForRollout(componentName);
    if err.Some? {
      return PushFailed(Rollout, err.value);
    }
    var running := c.WaitAndGetPod();
    if running.Err? {
      return PushFailed(PodAfter, running.msg);
    }
    var pod := running.value;
    ghost var rollout := WaitForDeploymentRollout(componentName);
    ghost var apply := ApplyConfig(componentExists);
    err := c.Perform(ApplyConfig(componentExists));
    AppendAssoc(log0, [rollout], [apply]);
    assert [rollout] + [apply] == [rollout, apply];
    if err.Some? {
      return Exited(err.value);
    }
    var podChanged := componentExists && podName != pod.name;
    var containerName := GetFirstContainerWithSourceVolume(pod.containers);
    if containerName.Err? {
      return PushFailed(SourceVolume, containerName.msg);
    }
    var syncParams := SyncParameters(ComponentInfo(containerName.value, pod.name), componentExists, podChanged);
    err := c.Perform(SyncFiles(syncParams));
    AppendAssoc(log0, [rollout, apply], [SyncFiles(syncParams)]);
    assert [rollout, apply] + [SyncFiles(syncParams)] == [rollout, apply, SyncFiles(syncParams)];
    if err.Some? {
      return PushFailed(Sync, err.value);
    }
    if c.execRequired(syncParams) {
      ghost var done := c.log;
      err := ExecDevfile(c, commands, componentExists, pod.name, pod.containers);
      AppendAssoc(log0, [rollout, apply, SyncFiles(syncParams)], c.log[|done|..]);
      if err.Some? {
        return PushFailed(Exec, err.value);
      }
    }
    outcome := Pushed;
  }

  /** `execDevfile` only execs into the pod, and completes only when none of its calls failed. */
  lemma ExecDevfileExecsOnly(c: Client, commands: map<CommandGroup, ExecCommand>, componentExists: bool,
                             podName: string, containers: seq<Container>)
    ensures var t := ExecDevfileTrace(c, commands, componentExists, podName, containers);
            && (forall i :: 0 <= i < |t.ops| ==> IsExecOp(t.ops[i]))
            && (t.err == None ==> forall i :: 0 <= i < |t.ops| ==> t.ops[i] !in c.failing)
  {
    if |commands| > 0 {
      ExecDevfileFollowsPlan(c, commands, componentExists, podName, containers);
      ExecPlanShape(commands, componentExists, podName, containers);
      var t := ExecDevfileTrace(c, commands, componentExists, podName, containers);
      var plan := ExecPlan(commands, componentExists, podName, containers);
      assert forall i :: 0 <= i < |t.ops| ==> t.ops[i] == plan[i];
    }
  }

  /** Calls that are not execs followed by execs: the execs are exactly the later calls. */
  lemma HeadThenExecs(head: seq<Op>, execs: seq<Op>)
    requires forall i :: 0 <= i < |head| ==> !IsExecOp(head[i])
    requires forall i :: 0 <= i < |execs| ==> IsExecOp(execs[i])
    ensures var ops := head + execs;
            forall i :: 0 <= i < |ops| ==>
              && (IsExecOp(ops[i]) <==> i >= |head|)
              && (ops[i].SyncFiles? <==> i < |head| && head[i].SyncFiles?)
              && (i >= |head| ==> ops[i] == execs[i - |head|])
  {
  }

  /**
   * After the component is written: the rollout wait, the config, one sync to the first
   * source-mounting container of the rolled-out pod, telling whether the pod changed, and then
   * only execs, made only when that sync asked for them. A push that completes saw no call fail.
   */
  lemma StartRunShape(c: Client, componentName: string, commands: map<CommandGroup, ExecCommand>,
                      componentExists: bool, podName: string)
    ensures var run := StartRun(c, componentName, commands, componentExists, podName);
            && 1 <= |run.ops|
            && run.ops[0] == WaitForDeploymentRollout(componentName)
            && (|run.ops| >= 2 ==> run.ops[1] == ApplyConfig(componentExists))
            && (|run.ops| >= 3 ==>
                  && c.rolloutPod.Ok? && SourceContainer(c.rolloutPod.value.containers).Ok?
                  && run.ops[2] == SyncFiles(SyncParameters(
                       ComponentInfo(SourceContainer(c.rolloutPod.value.containers).value, c.rolloutPod.value.name),
                       componentExists, componentExists && podName != c.rolloutPod.value.name)))
            && (|run.ops| > 3 ==> c.execRequired(run.ops[2].params))
            && (forall i :: 0 <= i < |run.ops| ==> (IsExecOp(run.ops[i]) <==> i >= 3))
            && (forall i :: 0 <= i < |run.ops| ==> (run.ops[i].SyncFiles? <==> i == 2))
            && (run.outcome == Pushed ==>
                  |run.ops| >= 3 && forall i :: 0 <= i < |run.ops| ==> run.ops[i] !in c.failing)
  {
    var run := StartRun(c, componentName, commands, componentExists, podName);
    if |run.ops| > 3 {
      var pod := c.rolloutPod.value;
      var exec := ExecDevfileTrace(c, commands, componentExists, pod.name, pod.containers);
      ExecDevfileExecsOnly(c, commands, componentExists, pod.name, pod.containers);
      HeadThenExecs(run.ops[..3], exec.ops);
      assert run.ops == run.ops[..3] + exec.ops;
    }
  }

  /** Calls after a run of writes: every sync and every exec among them is one of the later calls. */
  lemma AfterWrites(writes: seq<Op>, later: seq<Op>)
    requires forall i :: 0 <= i < |writes| ==> IsWriteOp(writes[i])
    ensures forall i :: 0 <= i < |writes + later| && ((writes + later)[i].SyncFiles? || IsExecOp((writes + later)[i])) ==>
              i >= |writes| && (writes + later)[i] == later[i - |writes|]
  {
  }

  /** Calls after a run of writes that exec only after a sync asking for it keep doing so after the writes. */
  lemma ExecsFollowSync(c: Client, writes: seq<Op>, later: seq<Op>)
    requires forall i :: 0 <= i < |writes| ==> IsWriteOp(writes[i])
    requires forall i :: 0 <= i < |later| ==> (IsExecOp(later[i]) <==> i >= 3)
    requires |later| > 3 ==> later[2].SyncFiles? && c.execRequired(later[2].params)
    ensures var ops := writes + later;
            forall i :: 0 <= i < |ops| && IsExecOp(ops[i]) ==>
              exists j :: 0 <= j < i && ops[j].SyncFiles? && c.execRequired(ops[j].params)
  {
    var ops := writes + later;
    forall i | 0 <= i < |ops| && IsExecOp(ops[i])
      ensures exists j :: 0 <= j < i && ops[j].SyncFiles? && c.execRequired(ops[j].params)
    {
      assert ops[i] == later[i - |writes|];
      assert ops[|writes| + 2] == later[2];
    }
  }

  /** Calls after a run of writes that sync once, third: the combined calls sync once, with that call. */
  lemma OneSyncAfterWrites(writes: seq<Op>, later: seq<Op>)
    requires forall i :: 0 <= i < |writes| ==> IsWriteOp(writes[i])
    requires forall i :: 0 <= i < |later| ==> (later[i].SyncFiles? <==> i == 2)
    ensures var ops := writes + later;
            forall i :: 0 <= i < |ops| && ops[i].SyncFiles? ==>
              && |later| >= 3 && ops[i] == later[2]
              && forall j :: 0 <= j < |ops| && ops[j].SyncFiles? ==> j == i
  {
    AfterWrites(writes, later);
  }

  /**
   * `op` syncs to the first source-mounting container of the rolled-out pod, and reports the pod as
   * changed exactly when the component existed and its pod before the push is not the rolled-out one.
   */
  predicate SyncsRolledOut(c: Client, x: Collaborators, existed: bool, pod0: Result<Pod>, op: Op)
  {
    && op.SyncFiles?
    && c.rolloutPod.Ok? && x.commands.Ok? && (existed ==> pod0.Ok?)
    && SourceContainer(c.rolloutPod.value.containers).Ok?
    && op.params == SyncParameters(
         ComponentInfo(SourceContainer(c.rolloutPod.value.containers).value, c.rolloutPod.value.name),
         existed, existed && pod0.value.name != c.rolloutPod.value.name)
  }

  /** A push syncs at most once, and that sync is the one SyncsRolledOut describes. */
  lemma PushSyncTarget(c: Client, componentName: string, x: Collaborators, pod0: Result<Pod>)
    ensures var run := PushRunOf(c, componentName, x, pod0);
            forall i :: 0 <= i < |run.ops| && run.ops[i].SyncFiles? ==>
              && SyncsRolledOut(c, x, c.ComponentExists(componentName), pod0, run.ops[i])
              && forall j :: 0 <= j < |run.ops| && run.ops[j].SyncFiles? ==> j == i
  {
    var run := PushRunOf(c, componentName, x, pod0);
    var existed := c.ComponentExists(componentName);
    PushRunCases(c, componentName, x, pod0);
    if x.commands.Ok? && !(existed && pod0.Err?) {
      var reconcile := ReconcileTrace(c, componentName, x);
      ReconcileWritesOnly(c, componentName, x);
      if reconcile.err.None? {
        var podName := if existed then pod0.value.name else "";
        var rest := StartRun(c, componentName, x.commands.value, existed, podName);
        StartRunShape(c, componentName, x.commands.value, existed, podName);
        OneSyncAfterWrites(reconcile.ops, rest.ops);
        if |rest.ops| >= 3 {
          assert SyncsRolledOut(c, x, existed, pod0, rest.ops[2]);
        }
      } else {
        AfterWrites(reconcile.ops, []);
        assert reconcile.ops + [] == reconcile.ops;
      }
    }
  }

  /** Every exec of a push comes after a sync that asked for the devfile commands to run. */
  lemma PushExecsAfterSync(c: Client, componentName: string, x: Collaborators, pod0: Result<Pod>)
    ensures var run := PushRunOf(c, componentName, x, pod0);
            forall i :: 0 <= i < |run.ops| && IsExecOp(run.ops[i]) ==>
              exists j :: 0 <= j < i && run.ops[j].SyncFiles? && c.execRequired(run.ops[j].params)
  {
    var run := PushRunOf(c, componentName, x, pod0);
    var existed := c.ComponentExists(componentName);
    if run.ops != [] && x.commands.Ok? && !(existed && pod0.Err?) {
      var reconcile := ReconcileTrace(c, componentName, x);
      ReconcileWritesOnly(c, componentName, x);
      if reconcile.err.None? {
        var podName := if existed then pod0.value.name else "";
        StartRunShape(c, componentName, x.commands.value, existed, podName);
        ExecsFollowSync(c, reconcile.ops, StartRun(c, componentName, x.commands.value, existed, podName).ops);
      } else {
        ExecsFollowSync(c, reconcile.ops, []);
        assert reconcile.ops + [] == reconcile.ops;
      }
    }
  }

  /** A push that completes has written the component, synced it, and seen no call fail. */
  lemma PushCompletes(c: Client, componentName: string, x: Collaborators, pod0: Result<Pod>)
    ensures var run := PushRunOf(c, componentName, x, pod0);
            run.outcome == Pushed ==>
              && x.commands.Ok?
              && (exists i :: 0 <= i < |run.ops| && run.ops[i].SyncFiles?)
              && (forall i :: 0 <= i < |run.ops| ==> run.ops[i] !in c.failing)
              && PodAfterPush(c, componentName, x, pod0) == c.rolloutPod
  {
    var run := PushRunOf(c, componentName, x, pod0);
    if run.outcome == Pushed {
      var existed := c.ComponentExists(componentName);
      PushRunCases(c, componentName, x, pod0);
      var reconcile := ReconcileTrace(c, componentName, x);
      ReconcileAttempts(c, componentName, x);
      var podName := if existed then pod0.value.name else "";
      var rest := StartRun(c, componentName, x.commands.value, existed, podName);
      StartRunShape(c, componentName, x.commands.value, existed, podName);
      NoneFailing(c, reconcile.ops, rest.ops);
      assert run.ops[|reconcile.ops| + 2] == rest.ops[2];
    }
  }

  /**
   * The ways a push can go: it stops before any call when the earlier pod cannot be found or the
   * commands are invalid, after the component's writes when they fail, and otherwise issues the
   * writes and then what starting the component issues, ending as that does.
   */
  lemma PushRunCases(c: Client, componentName: string, x: Collaborators, pod0: Result<Pod>)
    ensures var run := PushRunOf(c, componentName, x, pod0);
            var existed := c.ComponentExists(componentName);
            var reconcile := ReconcileTrace(c, componentName, x);
            && (existed && pod0.Err? ==> run == PushRun([], PushFailed(PodBefore, pod0.msg)))
            && (!(existed && pod0.Err?) && x.commands.Err? ==> run == PushRun([], PushFailed(Validate, x.commands.msg)))
            && (!(existed && pod0.Err?) && x.commands.Ok? && reconcile.err.Some? ==>
                  run == PushRun(reconcile.ops, PushFailed(Reconcile, reconcile.err.value)))
            && (!(existed && pod0.Err?) && x.commands.Ok? && reconcile.err.None? ==>
                  var rest := StartRun(c, componentName, x.commands.value, existed, if existed then pod0.value.name else "");
                  run == PushRun(reconcile.ops + rest.ops, rest.outcome))
  {
  }

  /** Two runs of calls none of which fails make a run none of which fails. */
  lemma NoneFailing(c: Client, a: seq<Op>, b: seq<Op>)
    requires forall i :: 0 <= i < |a| ==> a[i] !in c.failing
    requires forall i :: 0 <= i < |b| ==> b[i] !in c.failing
    ensures forall i :: 0 <= i < |a + b| ==> (a + b)[i] !in c.failing
  {
  }


  // ---- delete -----------------------------------------------------------------------------------

  /**
   * What `Delete` issues and returns: nothing but an error naming the component when it is not on
   * the cluster, otherwise the one Deployment delete by label.
   */
  function DeleteTrace(c: Client, componentName: string, labels: map<string, string>): (t: Trace<Op>)
    ensures |t.ops| <= 1
    ensures t.ops != [] <==> c.ComponentExists(componentName)
    ensures t.ops != [] ==> t.ops[0] == DeleteDeployment(labels) && t.err == c.Failure(t.ops[0])
    ensures t.ops == [] ==> t.err.Some? && Text.OccursAt(t.err.value, componentName, 14)
  {
    if !c.ComponentExists(componentName) then
      Trace([], Some("the component " + componentName + " doesn't exist on the cluster"))
    else
      Trace([DeleteDeployment(labels)], c.Failure(DeleteDeployment(labels)))
  }

  /** `Delete`: deletes the component's Deployment by its labels, refusing a component that is not there. */
  method Delete(c: Client, componentName: string, labels: map<string, string>) returns (err: Option<string>)
    modifies c`log
    ensures c.log == old(c.log) + DeleteTrace(c, componentName, labels).ops
    ensures err == DeleteTrace(c, componentName, labels).err
  {
    if !c.ComponentExists(componentName) {
      return Some("the component " + componentName + " doesn't exist on the cluster");
    }
    err := c.Perform(DeleteDeployment(labels));
  }
}
