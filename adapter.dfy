/**
 * The Kubernetes component adapter: applying a deploy manifest, reconciling a component's
 * Deployment, Service and volume claims, running its devfile commands, and the push that ties them
 * together with the file sync.
 */
module Adapter {
  import opened Results
  import opened Text
  import opened Cluster

  /** Names defined by the odo packages the adapter imports (common, kclient). */
  const SupervisordBinaryPath: string := "/opt/odo/bin/supervisord"
  const SupervisordConfFile: string := "/opt/odo/conf/devfile-supervisor.conf"
  const OdoSourceVolume: string := "odo-projects"

  // ---- deploy: manifest substitution and apply ---------------------------------------------------

  datatype UrlKind = Docker | Route | Ingress

  /** A URL of the environment file. */
  datatype LocalUrl = LocalUrl(name: string, port: int, kind: UrlKind)

  datatype DeployParameters = DeployParameters(tag: string, manifestSource: string, urls: seq<LocalUrl>)

  datatype DeployOutcome = Deployed | DeployFailed(msg: string) | DecodePanic

  datatype DeployRun = DeployRun(ops: seq<Op>, outcome: DeployOutcome)

  /** The port substituted for PORT: that of the first URL that is not a Docker one, or "" when there is none. */
  function ChosenPort(urls: seq<LocalUrl>): (port: string)
    ensures port == "" <==> forall i :: 0 <= i < |urls| ==> urls[i].kind == Docker
    ensures port != "" ==> FirstOther(urls) < |urls| && port == Itoa(urls[FirstOther(urls)].port)
  {
    if urls == [] then ""
    else if urls[0].kind != Docker then ItoaRoundTrip(urls[0].port); Itoa(urls[0].port)
    else
      var rest := ChosenPort(urls[1..]);
      assert forall i :: 1 <= i < |urls| ==> urls[i] == urls[1..][i - 1];
      rest
  }

  /** The index of the first URL that is not of the Docker kind; |urls| when every one is. */
  function FirstOther(urls: seq<LocalUrl>): (i: nat)
    ensures i <= |urls|
    ensures i < |urls| ==> urls[i].kind != Docker
    ensures forall j :: 0 <= j < i ==> urls[j].kind == Docker
  {
    if urls == [] || urls[0].kind != Docker then 0 else 1 + FirstOther(urls[1..])
  }

  /** `determinePort`: the loop over the URLs, stopping at the first that is not a Docker one. */
  method DeterminePort(urls: seq<LocalUrl>) returns (deploymentPort: string)
    ensures deploymentPort == ChosenPort(urls)
  {
    deploymentPort := "";
    var i := 0;
    while i < |urls|
      invariant 0 <= i <= |urls|
      invariant forall j :: 0 <= j < i ==> urls[j].kind == Docker
    {
      if urls[i].kind != Docker {
        deploymentPort := Itoa(urls[i].port);
        break;
      }
      i := i + 1;
    }
  }

  /** The three tokens a deploy manifest may carry. */
  const SubstitutionKeys: set<string> := {"CONTAINER_IMAGE", "PROJECT_NAME", "PORT"}

  /** The substitutions `Deploy` makes: the image tag, the application name and the chosen port. */
  function DeploySubstitutions(tag: string, applicationName: string, port: string): (subs: map<string, string>)
    ensures subs.Keys == SubstitutionKeys
    ensures subs["CONTAINER_IMAGE"] == tag && subs["PROJECT_NAME"] == applicationName && subs["PORT"] == port
  {
    map["CONTAINER_IMAGE" := tag, "PROJECT_NAME" := applicationName, "PORT" := port]
  }

  /**
   * The manifest after the substitution loop has visited the keys in `order`: a key is replaced
   * everywhere when its value is not empty and it occurs in the text as it stands at that point.
   */
  function Substituted(yaml: string, subs: map<string, string>, order: seq<string>): string
    requires forall i :: 0 <= i < |order| ==> order[i] in subs
    decreases |order|
  {
    if order == [] then yaml
    else
      var before := Substituted(yaml, subs, order[..|order| - 1]);
      var key := order[|order| - 1];
      if subs[key] != "" && Contains(before, key) then ReplaceAll(before, key, subs[key]) else before
  }

  /** `substitueYamlVariables`: the loop over the map, in the order the Go runtime visits its keys. */
  method SubstituteYamlVariables(baseYaml: string, yamlSubstitutions: map<string, string>, order: seq<string>)
    returns (yaml: string)
    requires Enumerates(order, yamlSubstitutions.Keys)
    ensures yaml == Substituted(baseYaml, yamlSubstitutions, order)
  {
    yaml := baseYaml;
    var i := 0;
    while i < |order|
      invariant 0 <= i <= |order|
      invariant yaml == Substituted(baseYaml, yamlSubstitutions, order[..i])
    {
      var key := order[i];
      var value := yamlSubstitutions[key];
      assert order[..i + 1][..i] == order[..i];
      if value != "" && Contains(yaml, key) {
        var tempYaml := ReplaceAll(yaml, key, value);
        yaml := tempYaml;
      }
      i := i + 1;
    }
    assert order[..|order|] == order;
  }

  /**
   * A manifest in which no key with a non-empty value occurs comes out of the substitution byte for
   * byte unchanged, whatever order the keys are visited in.
   */
  lemma {:induction false} SubstitutionUnchanged(yaml: string, subs: map<string, string>, order: seq<string>)
    requires forall i :: 0 <= i < |order| ==> order[i] in subs
    requires forall i :: 0 <= i < |order| ==> subs[order[i]] == "" || !Contains(yaml, order[i])
    ensures Substituted(yaml, subs, order) == yaml
    decreases |order|
  {
    if order != [] {
      SubstitutionUnchanged(yaml, subs, order[..|order| - 1]);
    }
  }

  /** The name the manifest's PROJECT_NAME becomes and the listed item is looked up by. */
  function ApplicationName(componentName: string): (name: string)
    ensures |name| == |componentName| + 7 && name[..|componentName|] == componentName
    ensures name[|componentName|..] == "-deploy"
  {
    componentName + "-deploy"
  }

  /** The resource a manifest's kind is addressed by: the kind, plus "s", lower-cased. */
  function ResourceOf(gvk: Gvk): (gvr: Gvr)
    ensures gvr.group == gvk.group && gvr.version == gvk.version
    ensures |gvr.resource| == |gvk.kind| + 1 && gvr.resource[|gvk.kind|] == 's'
    ensures forall i :: 0 <= i < |gvk.kind| ==> gvr.resource[i] == LowerChar(gvk.kind[i])
    ensures forall i :: 0 <= i < |gvr.resource| ==> !IsUpper(gvr.resource[i])
  {
    Gvr(gvk.group, gvk.version, ToLower(gvk.kind + "s"))
  }

  /** The index of the last item with that name. */
  function LastMatch(items: seq<Item>, name: string): (r: Option<nat>)
    ensures r.None? <==> forall k :: 0 <= k < |items| ==> items[k].name != name
    ensures r.Some? ==> r.value < |items| && items[r.value].name == name
                        && forall k :: r.value < k < |items| ==> items[k].name != name
    decreases |items|
  {
    if items == [] then None
    else if items[|items| - 1].name == name then Some(|items| - 1)
    else LastMatch(items[..|items| - 1], name)
  }

  /**
   * The scan of the listed items in `Deploy`: whether one is named `name`, and the manifest carrying
   * the resource version of the last such item (unchanged when there is none).
   */
  method ScanForInstance(items: seq<Item>, name: string, manifest: Manifest) returns (instanceFound: bool, updated: Manifest)
    ensures instanceFound <==> exists k :: 0 <= k < |items| && items[k].name == name
    ensures !instanceFound ==> updated == manifest
    ensures instanceFound ==>
              exists k :: 0 <= k < |items| && items[k].name == name
                          && (forall j :: k < j < |items| ==> items[j].name != name)
                          && updated == manifest.(resourceVersion := items[k].resourceVersion)
  {
    instanceFound := false;
    updated := manifest;
    ghost var last := 0;
    for i := 0 to |items|
      invariant instanceFound <==> exists k :: 0 <= k < i && items[k].name == name
      invariant !instanceFound ==> updated == manifest
      invariant instanceFound ==>
                  && 0 <= last < i && items[last].name == name
                  && (forall j :: last < j < i ==> items[j].name != name)
                  && updated == manifest.(resourceVersion := items[last].resourceVersion)
    {
      if items[i].name == name {
        updated := updated.(resourceVersion := items[i].resourceVersion);
        instanceFound := true;
        last := i;
      }
    }
  }

  /** The manifest text `Deploy` decodes: the source with its tokens substituted. */
  function DeployYaml(componentName: string, p: DeployParameters, order: seq<string>): string
    requires Enumerates(order, SubstitutionKeys)
  {
    Substituted(p.manifestSource, DeploySubstitutions(p.tag, ApplicationName(componentName), ChosenPort(p.urls)), order)
  }

  /**
   * A manifest without the CONTAINER_IMAGE and PROJECT_NAME tokens is deployed as written when it
   * has no PORT token either, or when every URL is a Docker one: the port is then empty, and an
   * empty value is never substituted, so a PORT token stays in place.
   */
  lemma DeployYamlAsWritten(componentName: string, p: DeployParameters, order: seq<string>)
    requires Enumerates(order, SubstitutionKeys)
    requires !Contains(p.manifestSource, "CONTAINER_IMAGE") && !Contains(p.manifestSource, "PROJECT_NAME")
    requires !Contains(p.manifestSource, "PORT") || forall i :: 0 <= i < |p.urls| ==> p.urls[i].kind == Docker
    ensures DeployYaml(componentName, p, order) == p.manifestSource
  {
    var subs := DeploySubstitutions(p.tag, ApplicationName(componentName), ChosenPort(p.urls));
    forall i | 0 <= i < |order|
      ensures order[i] in subs && (subs[order[i]] == "" || !Contains(p.manifestSource, order[i]))
    {
      assert order[i] in order;
    }
    SubstitutionUnchanged(p.manifestSource, subs, order);
  }

  /** The items listing a resource yields; a failed list yields none. */
  function ListedItems(c: Client, gvr: Gvr): seq<Item>
  {
    match c.List(gvr) case Some(l) => l case None => []
  }

  /**
   * The call applying a decoded manifest: an update carrying the resource version of the last listed
   * instance named after the application, or a create when there is none.
   */
  function ApplyOp(c: Client, applicationName: string, m: Manifest): Op
  {
    var gvr := ResourceOf(m.gvk);
    var items := ListedItems(c, gvr);
    match LastMatch(items, applicationName)
    case Some(k) => UpdateResource(gvr, c.namespace, m.(resourceVersion := items[k].resourceVersion))
    case None => CreateResource(gvr, c.namespace, m)
  }

  /** What `Deploy` issues and returns, for the cluster's answers and the runtime's key order. */
  function DeployRunOf(c: Client, componentName: string, p: DeployParameters,
                       decode: string -> Option<Manifest>, order: seq<string>): DeployRun
    requires Enumerates(order, SubstitutionKeys)
  {
    match decode(DeployYaml(componentName, p, order))
    case None => DeployRun([], DecodePanic)
    case Some(m) =>
      var op := ApplyOp(c, ApplicationName(componentName), m);
      DeployRun([op], if op in c.failing then DeployFailed(Wrap("failed to deploy " + m.gvk.kind, c.failing[op])) else Deployed)
  }

  /** The last item with a name is the one after which no item has it. */
  lemma LastMatchIs(items: seq<Item>, name: string, k: nat)
    requires k < |items| && items[k].name == name
    requires forall j :: k < j < |items| ==> items[j].name != name
    ensures LastMatch(items, name) == Some(k)
  {
  }

  /**
   * `Deploy`: substitutes the manifest's tokens, decodes it, lists the resource of its kind and
   * updates the instance named after the application when one is listed, creating it otherwise.
   */
  method Deploy(c: Client, componentName: string, p: DeployParameters,
                decode: string -> Option<Manifest>, order: seq<string>) returns (outcome: DeployOutcome)
    requires Enumerates(order, SubstitutionKeys)
    modifies c`log
    ensures c.log == old(c.log) + DeployRunOf(c, componentName, p, decode, order).ops
    ensures outcome == DeployRunOf(c, componentName, p, decode, order).outcome
  {
    var namespace := c.namespace;
    var applicationName := componentName + "-deploy";
    var port := DeterminePort(p.urls);
    var yamlSubstitutions := DeploySubstitutions(p.tag, applicationName, port);
    var deployYaml := SubstituteYamlVariables(p.manifestSource, yamlSubstitutions, order);
    assert deployYaml == DeployYaml(componentName, p, order);
    var decoded := decode(deployYaml);
    if decoded.None? {
      // the decoder leaves the kind nil and the resource name dereferences it
      return DecodePanic;
    }
    var deploymentManifest := decoded.value;
    var gvr := ResourceOf(deploymentManifest.gvk);
    var instanceFound := false;
    var list := c.List(gvr);
    if list.Some? && |list.value| > 0 {
      instanceFound, deploymentManifest := ScanForInstance(list.value, applicationName, deploymentManifest);
    }
    ghost var op := ApplyOp(c, applicationName, decoded.value);
    var err;
    if !instanceFound {
      assert LastMatch(ListedItems(c, gvr), applicationName).None?;
      err := c.Perform(CreateResource(gvr, namespace, deploymentManifest));
    } else {
      ghost var k :| 0 <= k < |list.value| && list.value[k].name == applicationName
                     && (forall j :: k < j < |list.value| ==> list.value[j].name != applicationName)
                     && deploymentManifest == decoded.value.(resourceVersion := list.value[k].resourceVersion);
      LastMatchIs(ListedItems(c, gvr), applicationName, k);
      err := c.Perform(UpdateResource(gvr, namespace, deploymentManifest));
    }
    assert c.log == old(c.log) + [op];
    if err.Some? {
      return DeployFailed(Wrap("failed to deploy " + decoded.value.gvk.kind, err.value));
    }
    return Deployed;
  }

  /**
   * The apply rule: with a decodable manifest, exactly one call is made; it is an update exactly when
   * a listed item carries the application's name, and the update carries the resource version of the
   * last such item; a refused call is reported as "failed to deploy <Kind>".
   */
  lemma DeployAppliesOnce(c: Client, componentName: string, p: DeployParameters,
                          decode: string -> Option<Manifest>, order: seq<string>)
    requires Enumerates(order, SubstitutionKeys)
    ensures var run := DeployRunOf(c, componentName, p, decode, order);
            match decode(DeployYaml(componentName, p, order))
            case None => run.ops == [] && run.outcome == DecodePanic
            case Some(m) =>
              var gvr := ResourceOf(m.gvk);
              var items := if gvr in c.listed then c.listed[gvr] else [];
              && |run.ops| == 1
              && (run.ops[0].UpdateResource? <==> exists k :: 0 <= k < |items| && items[k].name == ApplicationName(componentName))
              && (run.ops[0].CreateResource? <==> !run.ops[0].UpdateResource?)
              && run.ops[0].gvr == gvr && run.ops[0].namespace == c.namespace
              && (run.ops[0].CreateResource? ==> run.ops[0].manifest == m)
              && (run.ops[0].UpdateResource? ==>
                    exists k :: 0 <= k < |items| && items[k].name == ApplicationName(componentName)
                                && (forall j :: k < j < |items| ==> items[j].name != ApplicationName(componentName))
                                && run.ops[0].manifest == m.(resourceVersion := items[k].resourceVersion))
              && (run.outcome == Deployed <==> run.ops[0] !in c.failing)
              && (run.outcome.DeployFailed? ==>
                    run.outcome.msg == Wrap("failed to deploy " + m.gvk.kind, c.failing[run.ops[0]]))
  {
  }

  // ---- createOrUpdateComponent ------------------------------------------------------------------

  /**
   * What the helpers the adapter calls, and whose code is not part of this model, answer for the
   * component's devfile: its containers, those containers with supervisord as entrypoint, its
   * volumes per component alias (in the order the Go runtime visits that map), the claim name
   * generated for a volume, and the containers with the claims and mounts added.
   */
  datatype Collaborators = Collaborators(
    containers: Result<seq<Container>>,
    withSupervisord: seq<Container> -> Result<seq<Container>>,
    volumes: seq<(string, seq<Volume>)>,
    pvcName: string -> Result<string>,
    mountVolumes: (seq<Container>, map<string, string>, seq<(string, seq<Volume>)>) -> Result<seq<Container>>,
    commands: Result<map<CommandGroup, ExecCommand>>)

  /** The volumes of every alias, alias after alias. */
  function Flatten(groups: seq<(string, seq<Volume>)>): seq<Volume>
    decreases |groups|
  {
    if groups == [] then [] else groups[0].1 + Flatten(groups[1..])
  }

  /** The claims to create and the claim name of every volume name. */
  datatype Claims = Claims(storages: seq<Storage>, names: map<string, string>)

  /**
   * The claims the volume loop collects from `vols`: one per volume name, at its first occurrence,
   * named after the existing claim when the cluster has one and by the generated name otherwise;
   * the first error of either lookup ends the loop.
   */
  function ClaimsOf(c: Client, componentName: string, pvcName: string -> Result<string>, vols: seq<Volume>): Result<Claims>
    decreases |vols|
  {
    if vols == [] then Ok(Claims([], map[]))
    else
      match ClaimsOf(c, componentName, pvcName, vols[..|vols| - 1])
      case Err(e) => Err(e)
      case Ok(acc) => ClaimStep(c, componentName, pvcName, acc, vols[|vols| - 1])
  }

  /** One turn of the volume loop. */
  function ClaimStep(c: Client, componentName: string, pvcName: string -> Result<string>, acc: Claims, vol: Volume): Result<Claims>
  {
    if vol.name in acc.names then Ok(acc)
    else
      match pvcName(vol.name)
      case Err(e) => Err(e)
      case Ok(generated) =>
        match c.GetExistingPVC(vol.name, componentName)
        case Err(e) => Err(e)
        case Ok(existing) =>
          var claim := if |existing| > 0 then existing else generated;
          Ok(Claims(acc.storages + [Storage(claim, vol)], acc.names[vol.name := claim]))
  }

  /** A turn either finds the name already claimed and changes nothing, or appends one claim for it. */
  lemma ClaimStepShape(c: Client, componentName: string, pvcName: string -> Result<string>, acc: Claims, vol: Volume)
    requires ClaimStep(c, componentName, pvcName, acc, vol).Ok?
    ensures var r := ClaimStep(c, componentName, pvcName, acc, vol).value;
            && (vol.name in acc.names ==> r == acc)
            && (vol.name !in acc.names ==>
                  && |r.storages| == |acc.storages| + 1
                  && r.storages == acc.storages + [Storage(r.storages[|acc.storages|].name, vol)]
                  && r.names == acc.names[vol.name := r.storages[|acc.storages|].name]
                  && ClaimNamed(c, componentName, pvcName, r.storages[|acc.storages|]))
  {
  }

  /** A successful loop over `vols` is a successful loop over all but the last volume and one more turn. */
  lemma ClaimsUnfold(c: Client, componentName: string, pvcName: string -> Result<string>, vols: seq<Volume>)
    requires vols != [] && ClaimsOf(c, componentName, pvcName, vols).Ok?
    ensures ClaimsOf(c, componentName, pvcName, vols[..|vols| - 1]).Ok?
    ensures ClaimsOf(c, componentName, pvcName, vols)
            == ClaimStep(c, componentName, pvcName, ClaimsOf(c, componentName, pvcName, vols[..|vols| - 1]).value, vols[|vols| - 1])
    ensures var r := ClaimsOf(c, componentName, pvcName, vols).value;
            var acc := ClaimsOf(c, componentName, pvcName, vols[..|vols| - 1]).value;
            var vol := vols[|vols| - 1];
            && (vol.name in acc.names ==> r == acc)
            && (vol.name !in acc.names ==>
                  && |r.storages| == |acc.storages| + 1
                  && r.storages == acc.storages + [Storage(r.storages[|acc.storages|].name, vol)]
                  && r.names == acc.names[vol.name := r.storages[|acc.storages|].name]
                  && ClaimNamed(c, componentName, pvcName, r.storages[|acc.storages|]))
  {
    ClaimStepShape(c, componentName, pvcName, ClaimsOf(c, componentName, pvcName, vols[..|vols| - 1]).value, vols[|vols| - 1]);
  }

  /** The volume loop continued from the claims collected so far over the volumes still to visit. */
  function ClaimsFrom(c: Client, componentName: string, pvcName: string -> Result<string>, acc: Claims, rest: seq<Volume>): Result<Claims>
    decreases |rest|
  {
    if rest == [] then Ok(acc)
    else
      match ClaimStep(c, componentName, pvcName, acc, rest[0])
      case Err(e) => Err(e)
      case Ok(next) => ClaimsFrom(c, componentName, pvcName, next, rest[1..])
  }

  /** Running the loop over `done` and then on over `rest` is running it over both. */
  lemma {:induction false} ClaimsSplit(c: Client, componentName: string, pvcName: string -> Result<string>,
                                       done: seq<Volume>, rest: seq<Volume>)
    ensures ClaimsOf(c, componentName, pvcName, done + rest)
            == match ClaimsOf(c, componentName, pvcName, done)
               case Err(e) => Err(e)
               case Ok(acc) => ClaimsFrom(c, componentName, pvcName, acc, rest)
    decreases |rest|
  {
    if rest == [] {
      assert done + rest == done;
    } else {
      var next := done + [rest[0]];
      assert (done + rest) == next + rest[1..];
      assert next[..|next| - 1] == done;
      ClaimsSplit(c, componentName, pvcName, next, rest[1..]);
    }
  }

  /** Running the loop over `first` and then on over `rest` is running it over both. */
  lemma {:induction false} ClaimsFromAppend(c: Client, componentName: string, pvcName: string -> Result<string>,
                                            acc: Claims, first: seq<Volume>, rest: seq<Volume>)
    ensures var r := ClaimsFrom(c, componentName, pvcName, acc, first);
            ClaimsFrom(c, componentName, pvcName, acc, first + rest)
            == if r.Err? then r else ClaimsFrom(c, componentName, pvcName, r.value, rest)
    decreases |first|
  {
    if first == [] {
      assert first + rest == rest;
    } else {
      assert (first + rest)[0] == first[0] && (first + rest)[1..] == first[1..] + rest;
      var step := ClaimStep(c, componentName, pvcName, acc, first[0]);
      if step.Ok? {
        ClaimsFromAppend(c, componentName, pvcName, step.value, first[1..], rest);
      }
    }
  }

  /** The volume loop of `createOrUpdateComponent`, over the aliases and then over their volumes. */
  method CollectStorages(c: Client, componentName: string, pvcName: string -> Result<string>,
                         componentAliasToVolumes: seq<(string, seq<Volume>)>)
    returns (uniqueStorages: seq<Storage>, volumeNameToPVCName: map<string, string>, err: Option<string>)
    ensures var target := ClaimsFrom(c, componentName, pvcName, Claims([], map[]), Flatten(componentAliasToVolumes));
            if target.Ok? then err == None && uniqueStorages == target.value.storages && volumeNameToPVCName == target.value.names
            else err == Some(target.msg)
  {
    ghost var target := ClaimsFrom(c, componentName, pvcName, Claims([], map[]), Flatten(componentAliasToVolumes));
    uniqueStorages := [];
    volumeNameToPVCName := map[];
    var processedVolumes: map<string, bool> := map[];
    var g := 0;
    while g < |componentAliasToVolumes|
      invariant 0 <= g <= |componentAliasToVolumes|
      invariant target == ClaimsFrom(c, componentName, pvcName, Claims(uniqueStorages, volumeNameToPVCName),
                                     Flatten(componentAliasToVolumes[g..]))
      invariant processedVolumes.Keys == volumeNameToPVCName.Keys
    {
      var volumes := componentAliasToVolumes[g].1;
      assert componentAliasToVolumes[g..][1..] == componentAliasToVolumes[g + 1..];
      ClaimsFromAppend(c, componentName, pvcName, Claims(uniqueStorages, volumeNameToPVCName),
                       volumes, Flatten(componentAliasToVolumes[g + 1..]));
      processedVolumes, uniqueStorages, volumeNameToPVCName, err :=
        ClaimAliasVolumes(c, componentName, pvcName, volumes, processedVolumes, uniqueStorages, volumeNameToPVCName);
      if err.Some? {
        return [], map[], err;
      }
      g := g + 1;
    }
    err := None;
  }

  /** The inner loop of the volume loop: the volumes of one component alias. */
  method ClaimAliasVolumes(c: Client, componentName: string, pvcName: string -> Result<string>, volumes: seq<Volume>,
                           processedVolumes: map<string, bool>, uniqueStorages: seq<Storage>,
                           volumeNameToPVCName: map<string, string>)
    returns (processed: map<string, bool>, storages: seq<Storage>, names: map<string, string>, err: Option<string>)
    requires processedVolumes.Keys == volumeNameToPVCName.Keys
    ensures var r := ClaimsFrom(c, componentName, pvcName, Claims(uniqueStorages, volumeNameToPVCName), volumes);
            if r.Ok? then err == None && storages == r.value.storages && names == r.value.names && processed.Keys == names.Keys
            else err == Some(r.msg)
  {
    ghost var target := ClaimsFrom(c, componentName, pvcName, Claims(uniqueStorages, volumeNameToPVCName), volumes);
    processed, storages, names := processedVolumes, uniqueStorages, volumeNameToPVCName;
    var v := 0;
    while v < |volumes|
      invariant 0 <= v <= |volumes|
      invariant target == ClaimsFrom(c, componentName, pvcName, Claims(storages, names), volumes[v..])
      invariant processed.Keys == names.Keys
    {
      var vol := volumes[v];
      assert volumes[v..][1..] == volumes[v + 1..];
      if vol.name !in processed {
        processed := processed[vol.name := true];
        var generatedPVCName := pvcName(vol.name);
        if generatedPVCName.Err? {
          return processed, storages, names, Some(generatedPVCName.msg);
        }
        var existingPVCName := c.GetExistingPVC(vol.name, componentName);
        if existingPVCName.Err? {
          return processed, storages, names, Some(existingPVCName.msg);
        }
        var claimName := generatedPVCName.value;
        if |existingPVCName.value| > 0 {
          claimName := existingPVCName.value;
        }
        storages := storages + [Storage(claimName, vol)];
        names := names[vol.name := claimName];
      }
      v := v + 1;
    }
    err := None;
  }

  /** The names the volumes carry. */
  function VolumeNames(vols: seq<Volume>): set<string>
  {
    set i | 0 <= i < |vols| :: vols[i].name
  }

  /** Where a volume name first occurs; |vols| when it does not. */
  function FirstIndex(vols: seq<Volume>, name: string): (i: nat)
    ensures i <= |vols|
    ensures i < |vols| ==> vols[i].name == name
    ensures forall j :: 0 <= j < i ==> vols[j].name != name
    decreases |vols|
  {
    if vols == [] then 0
    else if vols[0].name == name then 0
    else 1 + FirstIndex(vols[1..], name)
  }

  /** A name occurs exactly when its first index is inside the sequence. */
  lemma FirstIndexFound(vols: seq<Volume>, name: string)
    ensures FirstIndex(vols, name) < |vols| <==> name in VolumeNames(vols)
  {
    var i := FirstIndex(vols, name);
    if i < |vols| {
      assert vols[i].name == name;
    }
  }

  lemma FirstIndexAppend(vols: seq<Volume>, vol: Volume, name: string)
    ensures VolumeNames(vols + [vol]) == VolumeNames(vols) + {vol.name}
    ensures name in VolumeNames(vols) ==> FirstIndex(vols + [vol], name) == FirstIndex(vols, name)
    ensures name !in VolumeNames(vols) && name == vol.name ==> FirstIndex(vols + [vol], name) == |vols|
  {
    var all := vols + [vol];
    assert all[|vols|] == vol;
    assert forall i :: 0 <= i < |vols| ==> all[i] == vols[i];
    FirstIndexFound(vols, name);
    if name in VolumeNames(vols) {
      var i := FirstIndex(vols, name);
      assert all[i].name == name;
    }
  }

  /** The name map of the volume loop has exactly the volume names as keys. */
  lemma {:induction false} ClaimsKeys(c: Client, componentName: string, pvcName: string -> Result<string>,
                                      vols: seq<Volume>, cl: Claims)
    requires ClaimsOf(c, componentName, pvcName, vols) == Ok(cl)
    ensures cl.names.Keys == VolumeNames(vols)
    decreases |vols|
  {
    if vols != [] {
      var init := vols[..|vols| - 1];
      var vol := vols[|vols| - 1];
      assert vols == init + [vol];
      ClaimsUnfold(c, componentName, pvcName, vols);
      ClaimsKeys(c, componentName, pvcName, init, ClaimsOf(c, componentName, pvcName, init).value);
      FirstIndexAppend(init, vol, vol.name);
    }
  }

  /**
   * The claims the volume loop collects, by name: the name map gives each claim's volume that
   * claim's name, and every name it covers has a claim.
   */
  lemma {:induction false} ClaimsCoverNames(c: Client, componentName: string, pvcName: string -> Result<string>,
                                            vols: seq<Volume>, cl: Claims)
    requires ClaimsOf(c, componentName, pvcName, vols) == Ok(cl)
    ensures forall k :: 0 <= k < |cl.storages| ==>
              cl.storages[k].volume.name in cl.names && cl.names[cl.storages[k].volume.name] == cl.storages[k].name
    ensures forall name :: name in cl.names ==> exists k :: 0 <= k < |cl.storages| && cl.storages[k].volume.name == name
    decreases |vols|
  {
    if vols != [] {
      var init := vols[..|vols| - 1];
      var vol := vols[|vols| - 1];
      ClaimsUnfold(c, componentName, pvcName, vols);
      var acc := ClaimsOf(c, componentName, pvcName, init).value;
      ClaimsCoverNames(c, componentName, pvcName, init, acc);
      if vol.name !in acc.names {
        ClaimsCoverStep(acc, cl, vol);
      }
    }
  }

  /** A claim added for a new volume name keeps the name map and the claims in step. */
  lemma ClaimsCoverStep(acc: Claims, cl: Claims, vol: Volume)
    requires vol.name !in acc.names
    requires |cl.storages| == |acc.storages| + 1 && cl.storages[|acc.storages|].volume == vol
    requires cl.storages == acc.storages + [cl.storages[|acc.storages|]]
    requires cl.names == acc.names[vol.name := cl.storages[|acc.storages|].name]
    requires forall k :: 0 <= k < |acc.storages| ==>
               acc.storages[k].volume.name in acc.names && acc.names[acc.storages[k].volume.name] == acc.storages[k].name
    requires forall name :: name in acc.names ==> exists k :: 0 <= k < |acc.storages| && acc.storages[k].volume.name == name
    ensures forall k :: 0 <= k < |cl.storages| ==>
              cl.storages[k].volume.name in cl.names && cl.names[cl.storages[k].volume.name] == cl.storages[k].name
    ensures forall name :: name in cl.names ==> exists k :: 0 <= k < |cl.storages| && cl.storages[k].volume.name == name
  {
    var n := |acc.storages|;
    forall k | 0 <= k < n
      ensures cl.storages[k].volume.name in cl.names
      ensures cl.names[cl.storages[k].volume.name] == cl.storages[k].name
    {
      assert cl.storages[k] == acc.storages[k];
    }
    forall name | name in cl.names
      ensures exists k :: 0 <= k < |cl.storages| && cl.storages[k].volume.name == name
    {
      if name == vol.name {
        assert cl.storages[n].volume.name == name;
      } else {
        var k :| 0 <= k < n && acc.storages[k].volume.name == name;
        assert cl.storages[k] == acc.storages[k];
      }
    }
  }

  /** Every claim's volume, read at the position of its name's first occurrence in `vols` and in `init`. */
  lemma ClaimsIndexExtend(init: seq<Volume>, vol: Volume, storages: seq<Storage>)
    requires forall k :: 0 <= k < |storages| ==> FirstIndex(init, storages[k].volume.name) < |init|
    ensures forall k :: 0 <= k < |storages| ==>
              && FirstIndex(init + [vol], storages[k].volume.name) == FirstIndex(init, storages[k].volume.name)
              && (init + [vol])[FirstIndex(init, storages[k].volume.name)] == init[FirstIndex(init, storages[k].volume.name)]
  {
    forall k | 0 <= k < |storages|
      ensures FirstIndex(init + [vol], storages[k].volume.name) == FirstIndex(init, storages[k].volume.name)
    {
      FirstIndexFound(init, storages[k].volume.name);
      FirstIndexAppend(init, vol, storages[k].volume.name);
    }
  }

  /**
   * The claims the volume loop collects, by position: each is the volume at its name's first
   * occurrence, and they come in the order of those first occurrences (so no name has two claims).
   */
  lemma {:induction false} ClaimsInFirstOrder(c: Client, componentName: string, pvcName: string -> Result<string>,
                                              vols: seq<Volume>, cl: Claims)
    requires ClaimsOf(c, componentName, pvcName, vols) == Ok(cl)
    ensures forall k :: 0 <= k < |cl.storages| ==>
              && FirstIndex(vols, cl.storages[k].volume.name) < |vols|
              && cl.storages[k].volume == vols[FirstIndex(vols, cl.storages[k].volume.name)]
    ensures forall k1, k2 :: 0 <= k1 < k2 < |cl.storages| ==>
              FirstIndex(vols, cl.storages[k1].volume.name) < FirstIndex(vols, cl.storages[k2].volume.name)
    decreases |vols|
  {
    if vols != [] {
      var init := vols[..|vols| - 1];
      var vol := vols[|vols| - 1];
      assert vols == init + [vol];
      ClaimsUnfold(c, componentName, pvcName, vols);
      var acc := ClaimsOf(c, componentName, pvcName, init).value;
      ClaimsInFirstOrder(c, componentName, pvcName, init, acc);
      ClaimsIndexExtend(init, vol, acc.storages);
      if vol.name !in acc.names {
        ClaimsKeys(c, componentName, pvcName, init, acc);
        FirstIndexAppend(init, vol, vol.name);
        assert forall k :: 0 <= k < |acc.storages| ==> cl.storages[k] == acc.storages[k];
        ClaimsLastFirst(init, vol, acc.storages, cl.storages);
      }
    }
  }

  /** Appending a claim for a name not seen before keeps the claims in first-occurrence order. */
  lemma ClaimsLastFirst(init: seq<Volume>, vol: Volume, before: seq<Storage>, after: seq<Storage>)
    requires |after| == |before| + 1 && after[|before|].volume == vol
    requires forall k :: 0 <= k < |before| ==> after[k] == before[k]
    requires forall k :: 0 <= k < |before| ==>
               && FirstIndex(init, before[k].volume.name) < |init|
               && before[k].volume == init[FirstIndex(init, before[k].volume.name)]
               && FirstIndex(init + [vol], before[k].volume.name) == FirstIndex(init, before[k].volume.name)
    requires forall k1, k2 :: 0 <= k1 < k2 < |before| ==>
               FirstIndex(init, before[k1].volume.name) < FirstIndex(init, before[k2].volume.name)
    requires FirstIndex(init + [vol], vol.name) == |init|
    ensures forall k :: 0 <= k < |after| ==>
              && FirstIndex(init + [vol], after[k].volume.name) < |init + [vol]|
              && after[k].volume == (init + [vol])[FirstIndex(init + [vol], after[k].volume.name)]
    ensures forall k1, k2 :: 0 <= k1 < k2 < |after| ==>
              FirstIndex(init + [vol], after[k1].volume.name) < FirstIndex(init + [vol], after[k2].volume.name)
  {
    var vols := init + [vol];
    var n := |before|;
    forall k | 0 <= k < |after|
      ensures FirstIndex(vols, after[k].volume.name) < |vols|
      ensures after[k].volume == vols[FirstIndex(vols, after[k].volume.name)]
    {
      if k < n {
        assert after[k] == before[k];
        assert vols[FirstIndex(init, before[k].volume.name)] == init[FirstIndex(init, before[k].volume.name)];
      }
    }
    forall k1, k2 | 0 <= k1 < k2 < |after|
      ensures FirstIndex(vols, after[k1].volume.name) < FirstIndex(vols, after[k2].volume.name)
    {
      assert after[k1] == before[k1];
      if k2 < n {
        assert after[k2] == before[k2];
      }
    }
  }

  /** Every claim is named after the claim its volume already has, or by the generated name. */
  lemma {:induction false} ClaimsNamed(c: Client, componentName: string, pvcName: string -> Result<string>, vols: seq<Volume>)
    requires ClaimsOf(c, componentName, pvcName, vols).Ok?
    ensures var cl := ClaimsOf(c, componentName, pvcName, vols).value;
            forall k :: 0 <= k < |cl.storages| ==> ClaimNamed(c, componentName, pvcName, cl.storages[k])
    decreases |vols|
  {
    if vols != [] {
      ClaimsUnfold(c, componentName, pvcName, vols);
      ClaimsNamed(c, componentName, pvcName, vols[..|vols| - 1]);
      var acc := ClaimsOf(c, componentName, pvcName, vols[..|vols| - 1]).value;
      var cl := ClaimsOf(c, componentName, pvcName, vols).value;
      forall k | 0 <= k < |cl.storages|
        ensures ClaimNamed(c, componentName, pvcName, cl.storages[k])
      {
        if k < |acc.storages| {
          assert cl.storages[k] == acc.storages[k];
        }
      }
    }
  }

  /** A claim's name: the existing claim of its volume, or the generated name when there is none. */
  predicate ClaimNamed(c: Client, componentName: string, pvcName: string -> Result<string>, s: Storage)
  {
    match c.GetExistingPVC(s.volume.name, componentName)
    case Err(_) => false
    case Ok(existing) => if |existing| > 0 then s.name == existing else pvcName(s.volume.name) == Ok(s.name)
  }

  /** The ports of the containers, container after container. */
  function PortsOf(containers: seq<Container>): seq<ContainerPort>
    decreases |containers|
  {
    if containers == [] then []
    else PortsOf(containers[..|containers| - 1]) + containers[|containers| - 1].ports
  }

  /** The port loop of `createOrUpdateComponent`. */
  method CollectPorts(containers: seq<Container>) returns (containerPorts: seq<ContainerPort>)
    ensures containerPorts == PortsOf(containers)
  {
    containerPorts := [];
    for i := 0 to |containers|
      invariant containerPorts == PortsOf(containers[..i])
    {
      assert containers[..i + 1][..i] == containers[..i];
      if |containerPorts| == 0 {
        containerPorts := containers[i].ports;
      } else {
        containerPorts := containerPorts + containers[i].ports;
      }
    }
    assert containers[..|containers|] == containers;
  }

  /** The Service exposes exactly the ports some container declares; it has none exactly when no container declares one. */
  lemma {:induction false} PortsOfContents(containers: seq<Container>)
    ensures forall p :: p in PortsOf(containers) <==> exists i :: 0 <= i < |containers| && p in containers[i].ports
    ensures PortsOf(containers) == [] <==> forall i :: 0 <= i < |containers| ==> containers[i].ports == []
    decreases |containers|
  {
    if containers != [] {
      var init := containers[..|containers| - 1];
      var last := containers[|containers| - 1];
      PortsOfContents(init);
      assert PortsOf(containers) == PortsOf(init) + last.ports;
      forall p | p in PortsOf(containers)
        ensures exists i :: 0 <= i < |containers| && p in containers[i].ports
      {
        if p in PortsOf(init) {
          var i :| 0 <= i < |init| && p in init[i].ports;
          assert containers[i] == init[i];
        } else {
          assert p in containers[|containers| - 1].ports;
        }
      }
      forall p, i | 0 <= i < |containers| && p in containers[i].ports
        ensures p in PortsOf(containers)
      {
        if i < |init| {
          assert init[i] == containers[i];
        }
      }
      if PortsOf(containers) == [] {
        forall i | 0 <= i < |containers|
          ensures containers[i].ports == []
        {
          if i < |init| {
            assert init[i] == containers[i];
          }
        }
      } else if PortsOf(init) == [] {
        assert last.ports != [];
      } else {
        var i :| 0 <= i < |init| && init[i].ports != [];
        assert containers[i] == init[i];
      }
    }
  }

  /**
   * The Service calls: for an existing component, the old Service is updated (keeping its cluster
   * IP and resource version) when there are ports and deleted when there are none, and a Service is
   * created when there was none and there are ports; for a new component a Service is created only
   * when there are ports.
   */
  function ServiceOps(c: Client, componentName: string, ports: seq<ContainerPort>): seq<Op>
  {
    if c.ComponentExists(componentName) then
      match c.GetService(componentName)
      case Err(_) => if |ports| > 0 then [CreateService(componentName, componentName, ports)] else []
      case Ok(svc) =>
        if |ports| > 0 then [UpdateService(componentName, componentName, ports, svc.clusterIP, svc.resourceVersion)]
        else [DeleteService(componentName)]
    else if |ports| > 0 then [CreateService(componentName, componentName, ports)]
    else []
  }

  /** The calls that write the component, in order: its Deployment, its Service, its claims. */
  function WritePlan(c: Client, componentName: string, containers: seq<Container>, storages: seq<Storage>): seq<Op>
  {
    var labels := ComponentLabels(componentName);
    [if c.ComponentExists(componentName) then UpdateDeployment(componentName, labels, containers)
     else CreateDeployment(componentName, labels, containers)]
    + ServiceOps(c, componentName, PortsOf(containers))
    + [CreateStorages(storages)]
  }

  /** The Service rule, case by case: which Service call the plan holds, if any. */
  lemma ServiceRule(c: Client, componentName: string, containers: seq<Container>, storages: seq<Storage>)
    ensures var plan := WritePlan(c, componentName, containers, storages);
            var ports := PortsOf(containers);
            var existed := c.ComponentExists(componentName);
            var hadService := existed && componentName in c.services;
            && 2 <= |plan| <= 3
            && plan[0].name == componentName && plan[0].containers == containers
            && plan[0].labels == ComponentLabels(componentName)
            && (plan[0].UpdateDeployment? <==> existed)
            && (plan[0].CreateDeployment? <==> !existed)
            && plan[|plan| - 1] == CreateStorages(storages)
            && (|plan| == 2 <==> |ports| == 0 && !hadService)
            && (|plan| == 3 ==> plan[1].name == componentName)
            && (|plan| == 3 && plan[1].CreateService? <==> |ports| > 0 && !hadService)
            && (|plan| == 3 && plan[1].UpdateService? <==> |ports| > 0 && hadService)
            && (|plan| == 3 && plan[1].DeleteService? <==> |ports| == 0 && hadService)
            && (|plan| == 3 && !plan[1].DeleteService? ==> plan[1].ports == ports && plan[1].owner == componentName)
            && (|plan| == 3 && plan[1].UpdateService? ==>
                  plan[1].clusterIP == c.services[componentName].clusterIP
                  && plan[1].resourceVersion == c.services[componentName].resourceVersion)
  {
  }

  /** The writing calls as the adapter issues them: the Deployment call, the Service call, the claims call, each only if the previous succeeded. */
  function WriteTrace(c: Client, componentName: string, containers: seq<Container>, storages: seq<Storage>): Trace<Op>
  {
    var labels := ComponentLabels(componentName);
    var deployment := if c.ComponentExists(componentName) then UpdateDeployment(componentName, labels, containers)
                      else CreateDeployment(componentName, labels, containers);
    var service := ServiceOps(c, componentName, PortsOf(containers));
    if deployment in c.failing then Trace([deployment], Some(c.failing[deployment]))
    else if service != [] && service[0] in c.failing then Trace([deployment, service[0]], Some(c.failing[service[0]]))
    else Trace([deployment] + service + [CreateStorages(storages)], c.Failure(CreateStorages(storages)))
  }

  /** The adapter issues the write plan in order and stops at the first refused call. */
  lemma WriteTraceFollowsPlan(c: Client, componentName: string, containers: seq<Container>, storages: seq<Storage>)
    ensures WriteTrace(c, componentName, containers, storages) == Attempt(c, WritePlan(c, componentName, containers, storages))
  {
    var plan := WritePlan(c, componentName, containers, storages);
    var service := ServiceOps(c, componentName, PortsOf(containers));
    assert plan == [plan[0]] + service + [CreateStorages(storages)];
    if plan[0] in c.failing {
      AttemptStopsAt(c, plan, 0);
    } else if service != [] && service[0] in c.failing {
      AttemptStopsAt(c, plan, 1);
    } else if CreateStorages(storages) in c.failing {
      AttemptStopsAt(c, plan, |plan| - 1);
    } else {
      AttemptAll(c, plan);
    }
  }

  /** A call that writes the component's Deployment, Service or claims. */
  predicate IsWriteOp(op: Op)
  {
    op.CreateDeployment? || op.UpdateDeployment? || op.CreateService? || op.UpdateService? || op.DeleteService?
    || op.CreateStorages?
  }

  lemma WriteTraceWritesOnly(c: Client, componentName: string, containers: seq<Container>, storages: seq<Storage>)
    ensures var t := WriteTrace(c, componentName, containers, storages);
            forall i :: 0 <= i < |t.ops| ==> IsWriteOp(t.ops[i])
  {
  }

  /** What `createOrUpdateComponent` issues and returns. */
  function ReconcileTrace(c: Client, componentName: string, x: Collaborators): Trace<Op>
  {
    match x.containers
    case Err(e) => Trace([], Some(e))
    case Ok(found) =>
      if |found| == 0 then Trace([], Some("No valid components found in the devfile"))
      else
        match x.withSupervisord(found)
        case Err(e) => Trace([], Some(e))
        case Ok(supervised) =>
          match ClaimsOf(c, componentName, x.pvcName, Flatten(x.volumes))
          case Err(e) => Trace([], Some(e))
          case Ok(cl) =>
            match x.mountVolumes(supervised, cl.names, x.volumes)
            case Err(e) => Trace([], Some(e))
            case Ok(containers) => WriteTrace(c, componentName, containers, cl.storages)
  }

  /** Reconciling the component only writes its Deployment, Service and claims. */
  lemma ReconcileWritesOnly(c: Client, componentName: string, x: Collaborators)
    ensures var t := ReconcileTrace(c, componentName, x);
            forall i :: 0 <= i < |t.ops| ==> IsWriteOp(t.ops[i])
  {
    if x.containers.Ok? && |x.containers.value| > 0 && x.withSupervisord(x.containers.value).Ok? {
      var supervised := x.withSupervisord(x.containers.value).value;
      var claims := ClaimsOf(c, componentName, x.pvcName, Flatten(x.volumes));
      if claims.Ok? && x.mountVolumes(supervised, claims.value.names, x.volumes).Ok? {
        WriteTraceWritesOnly(c, componentName, x.mountVolumes(supervised, claims.value.names, x.volumes).value,
                             claims.value.storages);
      }
    }
  }

  /** Reconciling without error means that no call it made was refused. */
  lemma ReconcileAttempts(c: Client, componentName: string, x: Collaborators)
    ensures var t := ReconcileTrace(c, componentName, x);
            t.err == None ==> forall i :: 0 <= i < |t.ops| ==> t.ops[i] !in c.failing
  {
    if x.containers.Ok? && |x.containers.value| > 0 && x.withSupervisord(x.containers.value).Ok? {
      var supervised := x.withSupervisord(x.containers.value).value;
      var claims := ClaimsOf(c, componentName, x.pvcName, Flatten(x.volumes));
      if claims.Ok? && x.mountVolumes(supervised, claims.value.names, x.volumes).Ok? {
        WriteTraceFollowsPlan(c, componentName, x.mountVolumes(supervised, claims.value.names, x.volumes).value,
                              claims.value.storages);
      }
    }
  }

  /**
   * `createOrUpdateComponent`: builds the containers and the claims, then creates or updates the
   * Deployment, reconciles the Service and creates the claims, stopping at the first error.
   */
  method CreateOrUpdateComponent(c: Client, componentName: string, x: Collaborators) returns (err: Option<string>)
    modifies c`log
    ensures c.log == old(c.log) + ReconcileTrace(c, componentName, x).ops
    ensures err == ReconcileTrace(c, componentName, x).err
  {
    if x.containers.Err? {
      return Some(x.containers.msg);
    }
    var containers := x.containers.value;
    if |containers| == 0 {
      return Some("No valid components found in the devfile");
    }
    var supervised := x.withSupervisord(containers);
    if supervised.Err? {
      return Some(supervised.msg);
    }
    containers := supervised.value;
    var uniqueStorages, volumeNameToPVCName, e := CollectStorages(c, componentName, x.pvcName, x.volumes);
    ClaimsSplit(c, componentName, x.pvcName, [], Flatten(x.volumes));
    assert [] + Flatten(x.volumes) == Flatten(x.volumes);
    if e.Some? {
      return e;
    }
    var mounted := x.mountVolumes(containers, volumeNameToPVCName, x.volumes);
    if mounted.Err? {
      return Some(mounted.msg);
    }
    containers := mounted.value;
    err := WriteComponent(c, componentName, containers, uniqueStorages);
  }

  /**
   * The writing half of `createOrUpdateComponent`: the Deployment is updated when the component
   * exists and created otherwise, then the Service is reconciled and the claims are created; the
   * first refused call ends it.
   */
  method WriteComponent(c: Client, componentName: string, containers: seq<Container>, uniqueStorages: seq<Storage>)
    returns (err: Option<string>)
    modifies c`log
    ensures c.log == old(c.log) + WriteTrace(c, componentName, containers, uniqueStorages).ops
    ensures err == WriteTrace(c, componentName, containers, uniqueStorages).err
  {
    var labels := ComponentLabels(componentName);
    var containerPorts := CollectPorts(containers);
    ghost var t := WriteTrace(c, componentName, containers, uniqueStorages);
    if c.ComponentExists(componentName) {
      err := c.Perform(UpdateDeployment(componentName, labels, containers));
      if err.Some? {
        return;
      }
      var oldSvc := c.GetService(componentName);
      if oldSvc.Err? {
        if |containerPorts| > 0 {
          err := c.Perform(CreateService(componentName, componentName, containerPorts));
          if err.Some? {
            return;
          }
        }
      } else {
        if |containerPorts| > 0 {
          err := c.Perform(UpdateService(componentName, componentName, containerPorts,
                                         oldSvc.value.clusterIP, oldSvc.value.resourceVersion));
        } else {
          err := c.Perform(DeleteService(componentName));
        }
        if err.Some? {
          return;
        }
      }
    } else {
      err := c.Perform(CreateDeployment(componentName, labels, containers));
      if err.Some? {
        return;
      }
      if |containerPorts| > 0 {
        err := c.Perform(CreateService(componentName, componentName, containerPorts));
        if err.Some? {
          return;
        }
      }
    }
    assert c.log == old(c.log) + t.ops[..|t.ops| - 1];
    err := c.Perform(CreateStorages(uniqueStorages));
  }
}
