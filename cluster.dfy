/**
 * The cluster as the component adapter sees it: the Kubernetes objects it reads and writes, and a
 * client whose answers are fixed by the cluster's state and whose every state-changing or exec call
 * is recorded, in order, in a ghost log.
 */
module Cluster {
  import opened Results
  import Tar

  datatype ContainerPort = ContainerPort(name: string, containerPort: int, protocol: string)

  datatype VolumeMount = VolumeMount(name: string, mountPath: string)

  datatype Container = Container(
    name: string,
    image: string,
    command: seq<string>,
    args: seq<string>,
    volumeMounts: seq<VolumeMount>,
    ports: seq<ContainerPort>)

  datatype Pod = Pod(name: string, containers: seq<Container>)

  /** What the adapter keeps of an existing Service when it updates it. */
  datatype Service = Service(clusterIP: string, resourceVersion: string)

  /** A devfile volume and the persistent volume claim that backs it. */
  datatype Volume = Volume(name: string, size: string)
  datatype Storage = Storage(name: string, volume: Volume)

  /** The devfile's exec command of one group (`command.Exec`). */
  datatype ExecCommand = ExecCommand(
    id: string,
    component: string,
    commandLine: string,
    workingDir: string,
    restartRequired: bool)   // what `common.IsRestartRequired` answers for it

  datatype CommandGroup = InitGroup | BuildGroup | RunGroup

  /** Where the component's containers are addressed. */
  datatype ComponentInfo = ComponentInfo(containerName: string, podName: string)

  datatype SyncParameters = SyncParameters(compInfo: ComponentInfo, componentExists: bool, podChanged: bool)

  /** Group, version and kind of a decoded manifest, and the resource the dynamic client addresses. */
  datatype Gvk = Gvk(group: string, version: string, kind: string)
  datatype Gvr = Gvr(group: string, version: string, resource: string)

  /** A decoded manifest (`unstructured.Unstructured`): only the fields the adapter touches. */
  datatype Manifest = Manifest(gvk: Gvk, name: string, resourceVersion: string, document: string)

  /** One item of a resource list. */
  datatype Item = Item(name: string, resourceVersion: string)

  /** Every call the adapter makes that changes the cluster or runs something in a container. */
  datatype Op =
    | CreateDeployment(name: string, labels: map<string, string>, containers: seq<Container>)
    | UpdateDeployment(name: string, labels: map<string, string>, containers: seq<Container>)
    | DeleteDeployment(labels: map<string, string>)
    | CreateService(name: string, owner: string, ports: seq<ContainerPort>)
    | UpdateService(name: string, owner: string, ports: seq<ContainerPort>, clusterIP: string, resourceVersion: string)
    | DeleteService(name: string)
    | CreateStorages(storages: seq<Storage>)
    | WaitForDeploymentRollout(name: string)
    | ApplyConfig(componentExists: bool)
    | SyncFiles(params: SyncParameters)
    | ExecBuildAction(command: ExecCommand, podName: string)
    | ExecRunAction(command: ExecCommand, podName: string)
    | ExecRunActionWithoutRestart(command: ExecCommand, podName: string)
    | ExecuteCommand(compInfo: ComponentInfo, argv: seq<string>)
    | CreateResource(gvr: Gvr, namespace: string, manifest: Manifest)
    | UpdateResource(gvr: Gvr, namespace: string, manifest: Manifest)
    | ExtractProjectToComponent(compInfo: ComponentInfo, targetPath: string, archive: seq<Tar.Entry>)

  /** The label set of a component's objects. */
  function ComponentLabels(componentName: string): (labels: map<string, string>)
    ensures labels.Keys == {"component"} && labels["component"] == componentName
  {
    map["component" := componentName]
  }

  /**
   * `kclient.Client` together with the dynamic client and the sync client. Its constant fields are
   * the cluster's answers: which components have a Deployment, the Services and claims that exist,
   * what listing a resource returns, the pod that a rollout leaves running, which calls fail and with
   * what message, and whether a sync reports that commands must run.
   */
  class Client {
    const namespace: string
    const deployments: set<string>
    const services: map<string, Service>
    const claims: map<(string, string), string>       // (volume, component) -> existing claim name
    const claimErrors: map<(string, string), string>  // (volume, component) -> lookup error
    const listed: map<Gvr, seq<Item>>                 // a resource missing here fails to list
    const rolloutPod: Result<Pod>
    const failing: map<Op, string>
    const execRequired: SyncParameters -> bool
    /** The running pod of the component, as WaitAndGetPod finds it. */
    var pod: Result<Pod>
    /** Every recorded call, in the order issued. */
    ghost var log: seq<Op>

    constructor (
      namespace: string, deployments: set<string>, services: map<string, Service>,
      claims: map<(string, string), string>, claimErrors: map<(string, string), string>,
      listed: map<Gvr, seq<Item>>, pod: Result<Pod>, rolloutPod: Result<Pod>,
      failing: map<Op, string>, execRequired: SyncParameters -> bool)
      ensures this.namespace == namespace && this.deployments == deployments && this.services == services
      ensures this.claims == claims && this.claimErrors == claimErrors && this.listed == listed
      ensures this.pod == pod && this.rolloutPod == rolloutPod && this.failing == failing
      ensures this.execRequired == execRequired && log == []
    {
      this.namespace := namespace;
      this.deployments := deployments;
      this.services := services;
      this.claims := claims;
      this.claimErrors := claimErrors;
      this.listed := listed;
      this.pod := pod;
      this.rolloutPod := rolloutPod;
      this.failing := failing;
      this.execRequired := execRequired;
      log := [];
    }

    /** The error the cluster answers `op` with, if any. */
    function Failure(op: Op): (err: Option<string>)
      ensures err.Some? <==> op in failing
    {
      if op in failing then Some(failing[op]) else None
    }

    /** `utils.ComponentExists`: a Deployment of that name exists. */
    predicate ComponentExists(name: string)
    {
      name in deployments
    }

    /** `storage.GetExistingPVC`: the claim already made for a volume of a component, or "". */
    function GetExistingPVC(volumeName: string, componentName: string): (r: Result<string>)
      ensures r.Err? <==> (volumeName, componentName) in claimErrors
      ensures r.Ok? && r.value != "" ==> (volumeName, componentName) in claims
    {
      if (volumeName, componentName) in claimErrors then Err(claimErrors[(volumeName, componentName)])
      else if (volumeName, componentName) in claims then Ok(claims[(volumeName, componentName)])
      else Ok("")
    }

    /** `Services(...).Get`: the Service of that name; a missing one is an error. */
    function GetService(name: string): (r: Result<Service>)
      ensures r.Ok? <==> name in services
    {
      if name in services then Ok(services[name]) else Err("services \"" + name + "\" not found")
    }

    /** The dynamic client's `List`: a nil list on error. */
    function List(gvr: Gvr): (r: Option<seq<Item>>)
      ensures r.Some? <==> gvr in listed
    {
      if gvr in listed then Some(listed[gvr]) else None
    }

    /** `WaitAndGetPod`: the running pod, or the error waiting for it ended with. */
    function WaitAndGetPod(): Result<Pod>
      reads this
    {
      pod
    }

    /** Issues a call: it is recorded, and it fails exactly when the cluster refuses it. */
    method Perform(op: Op) returns (err: Option<string>)
      modifies this`log
      ensures log == old(log) + [op]
      ensures err == Failure(op)
    {
      log := log + [op];
      err := Failure(op);
    }

    /** `WaitForDeploymentRollout`: on success the rolled-out pod is the one running. */
    method WaitForRollout(name: string) returns (err: Option<string>)
      modifies this`log, this`pod
      ensures log == old(log) + [WaitForDeploymentRollout(name)]
      ensures err == Failure(WaitForDeploymentRollout(name))
      ensures pod == if err == None then rolloutPod else old(pod)
    {
      log := log + [WaitForDeploymentRollout(name)];
      err := Failure(WaitForDeploymentRollout(name));
      if err == None {
        pod := rolloutPod;
      }
    }
  }

  /**
   * Calls issued one after another, each only if the previous ones succeeded: the calls made and the
   * error of the one that failed.
   */
  function Attempt(c: Client, ops: seq<Op>): (t: Trace<Op>)
    ensures |t.ops| <= |ops| && t.ops == ops[..|t.ops|]
    ensures t.err == None <==> t.ops == ops && forall i :: 0 <= i < |ops| ==> ops[i] !in c.failing
    ensures t.err != None ==>
              && |t.ops| > 0 && t.err == c.Failure(t.ops[|t.ops| - 1])
              && forall i :: 0 <= i < |t.ops| - 1 ==> t.ops[i] !in c.failing
  {
    if ops == [] then Trace([], None)
    else if ops[0] in c.failing then Trace([ops[0]], c.Failure(ops[0]))
    else
      var rest := Attempt(c, ops[1..]);
      Trace([ops[0]] + rest.ops, rest.err)
  }

  /** When the first failing call is the `n`-th, exactly the calls up to it are made and its error is returned. */
  lemma {:induction false} AttemptStopsAt(c: Client, ops: seq<Op>, n: nat)
    requires n < |ops| && ops[n] in c.failing
    requires forall i :: 0 <= i < n ==> ops[i] !in c.failing
    ensures Attempt(c, ops) == Trace(ops[..n + 1], Some(c.failing[ops[n]]))
    decreases n
  {
    if n > 0 {
      AttemptStopsAt(c, ops[1..], n - 1);
      assert [ops[0]] + ops[1..][..n] == ops[..n + 1];
    }
  }

  /** When no call fails, all are made and no error is returned. */
  lemma AttemptAll(c: Client, ops: seq<Op>)
    requires forall i :: 0 <= i < |ops| ==> ops[i] !in c.failing
    ensures Attempt(c, ops) == Trace(ops, None)
  {
  }

  /** The error of calls that each overwrite the previous error: that of the last one. */
  function LastFailure(c: Client, ops: seq<Op>): (err: Option<string>)
    ensures err.Some? <==> ops != [] && ops[|ops| - 1] in c.failing
  {
    if ops == [] then None else c.Failure(ops[|ops| - 1])
  }

  /** A phase: calls all issued, whatever each answers, ending with the error of the last. */
  function Phase(c: Client, ops: seq<Op>): Trace<Op>
  {
    Trace(ops, LastFailure(c, ops))
  }

  /** Phases one after another, each only if the previous one ended without error. */
  function RunPhases(c: Client, phases: seq<seq<Op>>): Trace<Op>
    decreases |phases|
  {
    if phases == [] then Trace([], None) else Then(Phase(c, phases[0]), RunPhases(c, phases[1..]))
  }

  /** The calls of all the phases, in order. */
  function Concat(phases: seq<seq<Op>>): seq<Op>
    decreases |phases|
  {
    if phases == [] then [] else phases[0] + Concat(phases[1..])
  }

  /** A phase that repeats one call: it fails at its last call exactly when any of its calls fails. */
  predicate Uniform(ops: seq<Op>)
  {
    forall i :: 0 <= i < |ops| ==> ops[i] == ops[|ops| - 1]
  }

  /**
   * Phases of repeated calls are issued in order: what is issued is a prefix of all their calls, an
   * error is that of the last call issued, and they run to completion exactly when no call fails.
   */
  lemma {:induction false} RunPhasesFollowPlan(c: Client, phases: seq<seq<Op>>)
    requires forall k :: 0 <= k < |phases| ==> Uniform(phases[k])
    ensures var t := RunPhases(c, phases);
            var plan := Concat(phases);
            && |t.ops| <= |plan| && t.ops == plan[..|t.ops|]
            && (t.err.Some? ==> t.ops != [] && t.err == c.Failure(t.ops[|t.ops| - 1]))
            && (t.err == None <==> t.ops == plan && forall i :: 0 <= i < |plan| ==> plan[i] !in c.failing)
    decreases |phases|
  {
    if phases != [] {
      var p := phases[0];
      var rest := RunPhases(c, phases[1..]);
      var plan := Concat(phases);
      assert forall k :: 0 <= k < |phases[1..]| ==> phases[1..][k] == phases[k + 1];
      RunPhasesFollowPlan(c, phases[1..]);
      assert plan == p + Concat(phases[1..]);
      if LastFailure(c, p).None? {
        assert forall i :: 0 <= i < |p| ==> p[i] !in c.failing by {
          assert Uniform(phases[0]);
        }
        assert p + rest.ops == plan[..|p| + |rest.ops|];
        assert forall i :: |p| <= i < |plan| ==> plan[i] == Concat(phases[1..])[i - |p|];
      }
    }
  }
}
