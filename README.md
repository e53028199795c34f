# odo: the Kubernetes component adapter and the file sync, in Dafny

This project models two parts of odo, the developer CLI for Kubernetes and OpenShift.

The first is the devfile component adapter for Kubernetes, `pkg/devfile/adapters/kubernetes/component/adapter.go`. It covers:

- `Deploy`: substitutes the `CONTAINER_IMAGE`, `PROJECT_NAME` and `PORT` tokens of a deploy manifest, then creates or updates the manifest's resource.
- `createOrUpdateComponent`: builds the component's containers and volume claims, then creates or updates its Deployment, reconciles its Service and creates its claims.
- `execDevfile` and `InitRunContainerSupervisord`: run the devfile's init, build and run commands, starting supervisord on a first push.
- `getFirstContainerWithSourceVolume`, `Push` and `Delete`.

The second is the sync archiver, `pkg/sync/sync.go`:

- `recursiveTar` walks a local tree into a tar archive, skipping paths that the exclusion globs match.
- `makeTar` archives either the whole tree or, in watch mode, only the files that were listed.
- `CopyFile` appends in-memory payloads to the archive and has the cluster extract it in the component's container.

Modules:

- `Results` (`results.dfy`): `Result`, `Option`, and `Trace`. A `Trace` is the calls an operation issued and the error it ended with.
- `Text` (`text.dfy`): substring replacement, decimal formatting (`strconv.Itoa`/`Atoi`), ASCII lower-casing and `filepath.ToSlash`.
- `Tar` (`tar.dfy`): tar headers and members, and the `archive/tar` writer as a class.
- `Cluster` (`cluster.dfy`): the calls made to the cluster, and `Client`, a class holding the cluster's answers. `Client` keeps a ghost log of every call except the read-only queries (`GetService`, `List`, `GetExistingPVC`, `WaitAndGetPod`).
- `Adapter` (`adapter.dfy`): `Deploy` and `createOrUpdateComponent`.
- `ComponentPush` (`push.dfy`): `execDevfile`, supervisord, the source container, `Push` and `Delete`.
- `Sync` (`sync.dfy`): the local file tree, `recursiveTar`, `makeTar` and `CopyFile`.

Each Go function that changes something, or that loops, is a Dafny `method`. Its contract ties the calls it logs, its result and any writer state to a specification function of its inputs. For example, `Adapter.WriteComponent` ensures `c.log == old(c.log) + WriteTrace(...).ops`, and `Sync.WriteNode` ensures `tw.entries == old(tw.entries) + Walk(...).ops`. Lemmas then prove what odo promises about those functions.

Go ranges over a map in an unspecified order. The model takes that order as a parameter `order` that lists the map's keys once each (`Results.Enumerates`). The results hold for every such order.

`recursiveTar` writes a header for an empty directory only when `ReadDir` returns no entries for it (sync.go lines 182-190). A directory whose entries are all excluded therefore gets no member of its own (`Sync.Walk`).

## Model

All source paths are under `pkg/`. The adapter is `pkg/devfile/adapters/kubernetes/component/adapter.go`.

| member | source | states |
|---|---|---|
| Adapter.ChosenPort | pkg/devfile/adapters/kubernetes/component/adapter.go:155-165 | The deployment port is "" exactly when every URL is of the Docker kind. Otherwise it is the decimal text of the port of the first URL that is not. |
| Adapter.FirstOther | pkg/devfile/adapters/kubernetes/component/adapter.go:155-165 | The index returned is that of the first non-Docker URL; every URL before it is a Docker one. |
| Adapter.DeterminePort | pkg/devfile/adapters/kubernetes/component/adapter.go:155-165 | The loop that breaks at the first non-Docker URL returns the port `ChosenPort` specifies. |
| Adapter.DeploySubstitutions | pkg/devfile/adapters/kubernetes/component/adapter.go:190-197 | The substitution map has exactly the keys CONTAINER_IMAGE, PROJECT_NAME and PORT. They map to the image tag, the application name and the chosen port. |
| Adapter.SubstituteYamlVariables | pkg/devfile/adapters/kubernetes/component/adapter.go:167-177 | The loop over the map gives the manifest that `Substituted` specifies for the runtime's key order. In that order, a key with a non-empty value is replaced everywhere it occurs in the text as it stands. |
| Adapter.SubstitutionUnchanged | pkg/devfile/adapters/kubernetes/component/adapter.go:167-177 | A manifest in which no key with a non-empty value occurs comes out unchanged, in every key order. |
| Adapter.DeployYamlAsWritten | pkg/devfile/adapters/kubernetes/component/adapter.go:167-197 | A manifest without the CONTAINER_IMAGE and PROJECT_NAME tokens is deployed as written when it has no PORT token either, or when every URL is a Docker one. In that case the port is empty, and an empty value is never substituted. |
| Adapter.ApplicationName | pkg/devfile/adapters/kubernetes/component/adapter.go:182 | The application name is the component name followed by "-deploy". |
| Adapter.ResourceOf | pkg/devfile/adapters/kubernetes/component/adapter.go:203-204 | The resource keeps the kind's group and version. Its name is the kind lower-cased character by character, followed by "s", with no upper-case letter left. |
| Adapter.LastMatch | pkg/devfile/adapters/kubernetes/component/adapter.go:215-226 | There is no match exactly when no listed item has the name. Otherwise the match is an item with that name. |
| Adapter.LastMatchIs | pkg/devfile/adapters/kubernetes/component/adapter.go:215-226 | An item with the name and no later namesake is the last match. |
| Adapter.ScanForInstance | pkg/devfile/adapters/kubernetes/component/adapter.go:215-226 | `instanceFound` holds exactly when some listed item has the application name. If so, the manifest carries the resource version of the last such item; if not, the manifest is unchanged. |
| Adapter.Deploy | pkg/devfile/adapters/kubernetes/component/adapter.go:180-248 | `Deploy` logs the calls `DeployRunOf` specifies and ends with its outcome. |
| Adapter.DeployAppliesOnce | pkg/devfile/adapters/kubernetes/component/adapter.go:199-242 | If the manifest does not decode, there are no calls and `Deploy` panics. Otherwise there is exactly one call, in the namespace, on the lower-cased plural resource. It is an update exactly when a listed item has the application name, and the update carries the last such item's resource version; otherwise it is a create of the manifest as decoded. `Deploy` succeeds exactly when that call is not refused, and a refusal is wrapped in "failed to deploy <Kind>". |
| Adapter.ClaimStepShape | pkg/devfile/adapters/kubernetes/component/adapter.go:383-409 | One turn of the volume loop leaves the claims unchanged for a name already seen. Otherwise it appends one claim for the volume, named after the existing claim or by the generated name, and maps the volume name to that claim. |
| Adapter.ClaimsUnfold | pkg/devfile/adapters/kubernetes/component/adapter.go:374-411 | A successful loop over the volumes is a successful loop over all but the last volume followed by one turn of that shape. |
| Adapter.ClaimsSplit | pkg/devfile/adapters/kubernetes/component/adapter.go:374-411 | The loop over `done + rest` is the loop over `done` continued over `rest`, and it stops at the first error. |
| Adapter.ClaimsFromAppend | pkg/devfile/adapters/kubernetes/component/adapter.go:374-411 | Continuing the loop over `first + rest` is continuing it over `first` and then over `rest`, unless `first` fails. |
| Adapter.CollectStorages | pkg/devfile/adapters/kubernetes/component/adapter.go:374-411 | The nested loop over aliases and their volumes returns the claims and the name map of the loop over all volumes in alias order. It returns the first error of the name generation or the existing-claim lookup. |
| Adapter.ClaimAliasVolumes | pkg/devfile/adapters/kubernetes/component/adapter.go:382-410 | The inner loop continues the claims over one alias's volumes. The processed set keeps the same keys as the name map. |
| Adapter.FirstIndex | pkg/devfile/adapters/kubernetes/component/adapter.go:374-411 | The first position of a volume name, with no earlier volume carrying it. |
| Adapter.FirstIndexFound | pkg/devfile/adapters/kubernetes/component/adapter.go:374-411 | A name occurs exactly when its first position is inside the sequence. |
| Adapter.FirstIndexAppend | pkg/devfile/adapters/kubernetes/component/adapter.go:374-411 | Appending a volume adds its name and keeps the first positions of names already present. |
| Adapter.ClaimsKeys | pkg/devfile/adapters/kubernetes/component/adapter.go:374-411 | The name map of the loop has exactly the volume names as keys. |
| Adapter.ClaimsCoverNames | pkg/devfile/adapters/kubernetes/component/adapter.go:374-411 | The name map gives each claim's volume that claim's name, and every mapped name has a claim. |
| Adapter.ClaimsCoverStep | pkg/devfile/adapters/kubernetes/component/adapter.go:403-408 | Adding a claim for a new name keeps the claims and the name map in step. |
| Adapter.ClaimsIndexExtend | pkg/devfile/adapters/kubernetes/component/adapter.go:374-411 | Appending a volume keeps the first position of every claimed name. |
| Adapter.ClaimsInFirstOrder | pkg/devfile/adapters/kubernetes/component/adapter.go:374-411 | Each claim is for the volume at its name's first occurrence. Claims come in the order of those first occurrences, so no volume name is claimed twice. |
| Adapter.ClaimsLastFirst | pkg/devfile/adapters/kubernetes/component/adapter.go:403-408 | Appending the claim for a name first seen at the end keeps the claims in first-occurrence order. |
| Adapter.ClaimsNamed | pkg/devfile/adapters/kubernetes/component/adapter.go:386-408 | Each claim is named after the existing claim of its volume when there is one, and by the generated name otherwise. |
| Adapter.CollectPorts | pkg/devfile/adapters/kubernetes/component/adapter.go:420-427 | The port loop returns every container's ports, container after container. |
| Adapter.PortsOfContents | pkg/devfile/adapters/kubernetes/component/adapter.go:420-427 | A port is collected exactly when some container declares it. None is collected exactly when no container declares one. |
| Adapter.ServiceRule | pkg/devfile/adapters/kubernetes/component/adapter.go:432-493 | The write plan is the component's Deployment (update exactly when it exists), at most one Service call, then the claims. There is no Service call exactly when there are no ports and no old Service. With ports, the Service is created when there was none and updated otherwise; an update keeps the old cluster IP and resource version. With no ports, an old Service is deleted. |
| Adapter.WriteTraceFollowsPlan | pkg/devfile/adapters/kubernetes/component/adapter.go:432-493 | The writes are issued in plan order and stop at the first refused call, with its error. |
| Adapter.WriteTraceWritesOnly | pkg/devfile/adapters/kubernetes/component/adapter.go:432-493 | The writes touch only the Deployment, the Service and the claims. |
| Adapter.ReconcileWritesOnly | pkg/devfile/adapters/kubernetes/component/adapter.go:348-496 | `createOrUpdateComponent` only writes the Deployment, the Service and the claims. |
| Adapter.ReconcileAttempts | pkg/devfile/adapters/kubernetes/component/adapter.go:348-496 | When `createOrUpdateComponent` returns no error, none of its calls was refused. |
| Adapter.CreateOrUpdateComponent | pkg/devfile/adapters/kubernetes/component/adapter.go:348-496 | It logs and returns what `ReconcileTrace` specifies. A missing container list, an empty one ("No valid components found in the devfile"), a supervisord, claim or mount error each end it before any write. |
| Adapter.WriteComponent | pkg/devfile/adapters/kubernetes/component/adapter.go:432-493 | The Deployment, Service and claims calls are logged as `WriteTrace` specifies, and the error returned is that of the first refused call. |
| ComponentPush.SupervisordStart | pkg/devfile/adapters/kubernetes/component/adapter.go:580-585 | The supervisord start is an exec of `/opt/odo/bin/supervisord -c /opt/odo/conf/devfile-supervisor.conf -d` in the named container of the pod. |
| ComponentPush.SupervisordOpsShape | pkg/devfile/adapters/kubernetes/component/adapter.go:577-590 | Every call is that same start, there are at most as many as there are containers, and there is one exactly when a container of that name is not already running supervisord. |
| ComponentPush.InitRunContainerSupervisord | pkg/devfile/adapters/kubernetes/component/adapter.go:577-590 | Every start is attempted, and the error returned is that of the last one. |
| ComponentPush.RunOp | pkg/devfile/adapters/kubernetes/component/adapter.go:563-568 | The run action is without restart exactly for an existing component whose run command does not ask for a restart. |
| ComponentPush.ExecDevfile | pkg/devfile/adapters/kubernetes/component/adapter.go:513-573 | `execDevfile` logs and returns what `ExecDevfileTrace` specifies. An empty command map is an error before any call. |
| ComponentPush.ExecPlanShape | pkg/devfile/adapters/kubernetes/component/adapter.go:523-570 | The plan holds only execs. The init action comes first on a first push, and the run action comes last. Supervisord is started only on a first push, for the run command's container. An existing component gets at most two calls. |
| ComponentPush.ExecDevfileIsPhases | pkg/devfile/adapters/kubernetes/component/adapter.go:513-573 | `execDevfile` runs its phases in turn (init, build, supervisord starts, run). All their calls together are its plan. |
| ComponentPush.ExecPhasesUniform | pkg/devfile/adapters/kubernetes/component/adapter.go:577-590 | Each phase repeats a single call. |
| ComponentPush.ExecPhasesConcat | pkg/devfile/adapters/kubernetes/component/adapter.go:513-573 | The phases' calls, in order, are the plan. |
| ComponentPush.ExecDevfileFollowsPlan | pkg/devfile/adapters/kubernetes/component/adapter.go:513-573 | What `execDevfile` issues is a prefix of its plan. An error is the failure of the last call issued. It completes exactly when the whole plan was issued and no call of it failed. |
| ComponentPush.ExecDevfileExecsOnly | pkg/devfile/adapters/kubernetes/component/adapter.go:513-573 | `execDevfile` only execs into the pod, and completes only when none of its calls failed. |
| ComponentPush.SourceContainerFirst | pkg/devfile/adapters/kubernetes/component/adapter.go:596-606 | A container is found exactly when one mounts the project-source volume, and it is the first such. Otherwise the error asks for `mountSources: true`. |
| ComponentPush.GetFirstContainerWithSourceVolume | pkg/devfile/adapters/kubernetes/component/adapter.go:596-606 | The nested scan over containers and their mounts returns what `SourceContainer` specifies. |
| ComponentPush.Push | pkg/devfile/adapters/kubernetes/component/adapter.go:252-341 | `Push` logs the calls `PushRunOf` specifies, ends with its outcome, and leaves the pod `PodAfterPush` names. |
| ComponentPush.Start | pkg/devfile/adapters/kubernetes/component/adapter.go:287-338 | After the writes, `Push` logs what `StartRun` specifies. The pod becomes the rolled-out one exactly when the rollout wait succeeds. |
| ComponentPush.StartRunShape | pkg/devfile/adapters/kubernetes/component/adapter.go:287-338 | After the writes come the rollout wait, the config apply, then one sync to the first source-mounting container of the rolled-out pod. The sync marks the pod as changed exactly when the component existed and ran on another pod. Only execs follow, and only when the sync asked for them. A completed push saw no call fail. |
| ComponentPush.HeadThenExecs | pkg/devfile/adapters/kubernetes/component/adapter.go:317-338 | When non-exec calls come before execs, the execs are exactly the later calls. |
| ComponentPush.AfterWrites | pkg/devfile/adapters/kubernetes/component/adapter.go:282-338 | A sync or exec that comes after the component's writes is one of the later calls. |
| ComponentPush.ExecsFollowSync | pkg/devfile/adapters/kubernetes/component/adapter.go:317-338 | Prefixing the writes keeps every exec after a sync that asked for it. |
| ComponentPush.OneSyncAfterWrites | pkg/devfile/adapters/kubernetes/component/adapter.go:317-330 | Prefixing the writes keeps a single sync, the third of the later calls. |
| ComponentPush.PushSyncTarget | pkg/devfile/adapters/kubernetes/component/adapter.go:304-330 | A push syncs at most once. That sync goes to the first source-mounting container of the rolled-out pod, and marks the pod as changed exactly when the component existed and its earlier pod is not the rolled-out one. |
| ComponentPush.PushExecsAfterSync | pkg/devfile/adapters/kubernetes/component/adapter.go:317-338 | Every exec of a push comes after a sync that reported that the devfile commands must run. |
| ComponentPush.PushCompletes | pkg/devfile/adapters/kubernetes/component/adapter.go:252-341 | A completed push had valid commands, synced, saw no call refused, and left the rolled-out pod as the component's pod. |
| ComponentPush.PushRunCases | pkg/devfile/adapters/kubernetes/component/adapter.go:252-341 | A push stops before any call when the earlier pod cannot be found or the commands are invalid. It stops after the writes when they fail. Otherwise it issues the writes and then the start calls, and ends as the start does. |
| ComponentPush.NoneFailing | pkg/devfile/adapters/kubernetes/component/adapter.go:252-341 | Two runs of unrefused calls joined are a run of unrefused calls. |
| ComponentPush.DeleteTrace | pkg/devfile/adapters/kubernetes/component/adapter.go:609-615 | A component not on the cluster gets no call and an error naming it. Otherwise there is exactly one call, the Deployment delete by the given labels, with that call's error. |
| ComponentPush.Delete | pkg/devfile/adapters/kubernetes/component/adapter.go:609-615 | `Delete` logs and returns what `DeleteTrace` specifies. |
| Sync.ChildNamed | pkg/sync/sync.go:178-196 | A child is found exactly when a directory entry has that name. |
| Sync.HeaderOf | pkg/sync/sync.go:185 | The header `tar.FileInfoHeader` makes, under the given name. Its mode is the node's permission bits, with no file-type bits. Its type flag is the node's kind, its size is a file's length (0 otherwise), and its link name is a symlink's target ("" otherwise). |
| Sync.LeafEntry | pkg/sync/sync.go:183-233 | A leaf's member is complete and under the given name. A symlink gets a symlink header with its target and no body; a file gets a regular header and its bytes; an empty directory gets a directory header. |
| Sync.WalkComplete | pkg/sync/sync.go:144-237 | Every member the walk writes got all the bytes its header announces, under a name with '/' as separator. |
| Sync.WalkChildrenComplete | pkg/sync/sync.go:191-195 | The same holds for the walks of a directory's children. |
| Sync.WellNamedAppend | pkg/sync/sync.go:191-195 | Two runs of complete, slashed members joined stay complete and slashed. |
| Sync.WalkChildrenStops | pkg/sync/sync.go:191-195 | Once a child's walk fails, the later children are not walked. |
| Sync.ChildNamedAt | pkg/sync/sync.go:178-196 | With distinct names, a child's name leads to that child. |
| Sync.ChildNamedFound | pkg/sync/sync.go:178-196 | The node a name leads to is a child of that name. |
| Sync.LookupCons | pkg/sync/sync.go:191-195 | The path through a child leads where the path below that child leads. |
| Sync.KeptCons | pkg/sync/sync.go:159-170 | A path kept below a kept directory is kept from above that directory. |
| Sync.KeptUncons | pkg/sync/sync.go:159-170 | A kept path is kept from its first step on, and that first step is kept. |
| Sync.OriginCons | pkg/sync/sync.go:191-195 | A member of a child's walk is explained from its kept parent directory. |
| Sync.OriginUncons | pkg/sync/sync.go:191-195 | A member explained from a directory is explained from the child its path goes through. |
| Sync.WalkSound | pkg/sync/sync.go:144-237 | Every member of the walk is a file, a symlink or an empty directory below the walked node, with its header and bytes, under the name the walk gives it. Neither it nor any directory above it matched an exclusion glob. |
| Sync.WalkChildrenSound | pkg/sync/sync.go:191-195 | The same holds for the walks of a directory's children. |
| Sync.ThenParts | pkg/sync/sync.go:191-195 | A chain of walks that completes completed both parts and holds their members. |
| Sync.WalkChildrenContains | pkg/sync/sync.go:191-195 | A children's walk that completes holds each child's walk whole. |
| Sync.WalkFindsLeaves | pkg/sync/sync.go:144-237 | A walk that completes archives every file, symlink and empty directory below the walked node that no exclusion glob removed, neither itself nor a directory above it. |
| Sync.ToSlashJoin | pkg/sync/sync.go:149-150 | Slashing the join of a slashed directory is slashing the join of the directory. |
| Sync.JoinAllCons | pkg/sync/sync.go:191-195 | Joining names from the front gives the same path as joining them from the back. |
| Sync.JoinNameAssoc | pkg/sync/sync.go:191-195 | Joins regroup when the middle part is not empty. |
| Sync.DestNameIsJoin | pkg/sync/sync.go:147-195 | A member's name is its names below the walked node joined under `destFile` (as `filepath.Join` joins and cleans them) and slashed. In whole-tree mode (`destFile` "") and for a listed source directory (`destFile` "."), it is the path relative to the archived directory, with '/' between the names. |
| Sync.WriteNode | pkg/sync/sync.go:172-236 | The body of `recursiveTar` appends exactly the members `Walk` specifies and returns its error. The writer stays open with every member complete. |
| Sync.WriteLeaf | pkg/sync/sync.go:183-233 | A leaf's header, and a file's bytes after it, append exactly its member. |
| Sync.ChildStep | pkg/sync/sync.go:191-195 | One more child's walk appends to the children's members; when it fails, the directory's walk fails with it. |
| Sync.WriteChildren | pkg/sync/sync.go:191-195 | The loop over a directory's entries appends what walking them in turn specifies, and stops at the first error. |
| Sync.RecursiveTar | pkg/sync/sync.go:144-237 | `recursiveTar` on a path appends the walk of what the glob of that literal path finds: the path if it exists, nothing otherwise. |
| Sync.ListedStep | pkg/sync/sync.go:100-135 | One more listed file appends its members after those of the files before it. |
| Sync.ListedFilesStop | pkg/sync/sync.go:100-135 | Once a listed file fails, the later ones are not archived. |
| Sync.ListedFilesMissing | pkg/sync/sync.go:100-135 | In watch mode, listed files none of which exists give an empty archive and no error. |
| Sync.ListedSourceDirectory | pkg/sync/sync.go:118-127 | A listed source directory has relative path ".", and a file `a` in it is archived under the name "a", not "./a". |
| Sync.ListedOutsideSource | pkg/sync/sync.go:118-127 | A listed file whose relative path is "../f" is found one directory up and archived under the name "../f". |
| Sync.ListedFilesSound | pkg/sync/sync.go:100-135 | In watch mode every member comes from the walk of a listed file that exists and whose path relative to the source directory was found. |
| Sync.MakeTar | pkg/sync/sync.go:89-141 | `makeTar` appends the members of the walk in whole-tree mode. In watch mode it appends, for each listed file that exists, the walk of the path its clean relative path reaches from the source directory (".." steps up), named by that relative path. It returns the first error. |
| Sync.PayloadEntry | pkg/sync/sync.go:52-66 | A payload's member is complete. |
| Sync.Payloads | pkg/sync/sync.go:51-67 | One member per key, in range order, each with the key's bytes. |
| Sync.KeysListed | pkg/sync/sync.go:51 | Each name in the range order is a key of the map. |
| Sync.PayloadsCoverMap | pkg/sync/sync.go:51-67 | The payload loop writes each key of the map exactly once, under its own name and with its bytes, and nothing else. |
| Sync.WritePayload | pkg/sync/sync.go:52-66 | A payload's header and then its bytes append exactly its member. |
| Sync.WritePayloads | pkg/sync/sync.go:51-67 | The range loop appends the payloads in the order the map is ranged over. |
| Sync.WriteArchive | pkg/sync/sync.go:38-70 | The writing side returns an error exactly when archiving fails. Otherwise it returns the walked or listed members followed by the payloads. |
| Sync.CopyFile | pkg/sync/sync.go:27-79 | When archiving fails, the process exits with nothing sent. Otherwise exactly one extract call is made under the slashed `targetPath`, carrying the archive, and `CopyFile` returns its error. |
| Text.ReplaceAllAbsent | pkg/devfile/adapters/kubernetes/component/adapter.go:171-174 | Replacing a token that does not occur changes nothing. |
| Text.ContainsShift | pkg/devfile/adapters/kubernetes/component/adapter.go:171-174 | A token absent from a text is absent from its tail. |
| Text.DigitChar | pkg/devfile/adapters/kubernetes/component/adapter.go:160 | A digit's character is a decimal digit of that value. |
| Text.NatToDecimal | pkg/devfile/adapters/kubernetes/component/adapter.go:160 | A natural number's text is non-empty, all digits, with no leading zero. |
| Text.DecimalRoundTrip | pkg/devfile/adapters/kubernetes/component/adapter.go:160 | Reading back a natural number's text gives the number. |
| Text.ItoaRoundTrip | pkg/devfile/adapters/kubernetes/component/adapter.go:160 | `strconv.Itoa` gives non-empty text, starting with '-' exactly for negatives, and `Atoi` reads it back. |
| Text.ToLower | pkg/devfile/adapters/kubernetes/component/adapter.go:204 | Lower-casing keeps the length and maps each character. |
| Text.ToLowerIdempotent | pkg/devfile/adapters/kubernetes/component/adapter.go:204 | Lower-cased text has no upper-case letter, and lower-casing it again changes nothing. |
| Text.ToSlash | pkg/sync/sync.go:149-150 | `filepath.ToSlash` keeps the length and replaces exactly the separators by '/'. |
| Text.ToSlashSlashed | pkg/sync/sync.go:149-150 | Slashed text has no separator left, and slashing slashed text changes nothing. |
| Tar.TarWriter.constructor | pkg/sync/sync.go:40 | A new writer is open and empty. |
| Tar.TarWriter.Remaining | pkg/sync/sync.go:228 | The bytes the last header still expects; none once flushed. |
| Tar.TarWriter.WriteHeader | pkg/sync/sync.go:187 | On a closed writer, a header fails with "write after close". If the last member is short, it fails. Otherwise it starts a new member. |
| Tar.TarWriter.Write | pkg/sync/sync.go:228 | Bytes past the header's size fail with "write too long". Otherwise they are appended to the last member. |
| Tar.TarWriter.Close | pkg/sync/sync.go:69 | Close always closes the writer, and errs exactly when the open writer's last member is short. |
| Cluster.ComponentLabels | pkg/devfile/adapters/kubernetes/component/adapter.go:351-353 | A component's labels map "component" to its name and nothing else. |
| Cluster.Client.constructor | pkg/devfile/adapters/kubernetes/component/adapter.go:43-48 | A new client holds the cluster's given answers and an empty log. |
| Cluster.Client.Failure | pkg/devfile/adapters/kubernetes/component/adapter.go:435 | A call gets an error exactly when the cluster refuses it. |
| Cluster.Client.GetExistingPVC | pkg/devfile/adapters/kubernetes/component/adapter.go:394 | The lookup fails exactly when the cluster says so. A non-empty claim name is one the cluster holds. |
| Cluster.Client.GetService | pkg/devfile/adapters/kubernetes/component/adapter.go:440 | The old Service is found exactly when the cluster has it. |
| Cluster.Client.List | pkg/devfile/adapters/kubernetes/component/adapter.go:216 | Listing a resource succeeds exactly when the cluster lists it. |
| Cluster.Client.Perform | pkg/devfile/adapters/kubernetes/component/adapter.go:435 | A call is appended to the log and returns the cluster's answer. |
| Cluster.Client.WaitForRollout | pkg/devfile/adapters/kubernetes/component/adapter.go:287 | The rollout wait is logged. On success the component's pod becomes the rolled-out one. |
| Cluster.Attempt | pkg/devfile/adapters/kubernetes/component/adapter.go:432-493 | Calls made in order until one is refused: a prefix of the plan, which is the whole plan exactly when no call in it is refused. |
| Cluster.AttemptStopsAt | pkg/devfile/adapters/kubernetes/component/adapter.go:432-493 | The first refused call ends the attempt with its error. |
| Cluster.AttemptAll | pkg/devfile/adapters/kubernetes/component/adapter.go:432-493 | With no refused call, the whole plan is issued without error. |
| Cluster.LastFailure | pkg/devfile/adapters/kubernetes/component/adapter.go:577-590 | Looping over every call and keeping the last error gives an error exactly when the last call is refused. |
| Cluster.RunPhasesFollowPlan | pkg/devfile/adapters/kubernetes/component/adapter.go:513-573 | Phases run in turn, each ending with its last call's error, issue a prefix of all their calls. They complete exactly when no call is refused. |

## Left out

- The helpers `createOrUpdateComponent` and `Push` call, whose code is not part of this model, are parameters (`Adapter.Collaborators`). They are `GetContainers`, `UpdateContainersWithSupervisord`, `GetVolumes`, `GeneratePVCNameFromDevfileVol`, `AddPVCAndVolumeMount` and `ValidateAndGetPushDevfileCommands`. So are the decision of `SyncFiles` whether the commands must run, and the YAML decoder of `Deploy`.
- `util.IsGlobExpMatch`, `checkFileExist`, and `util.GetAbsPath` followed by `filepath.Rel` are parameters (`excluded`, `fileExists`, `relative`). Their results, including errors, are taken as given.
- Sync.RecursiveTar: `filepath.Glob` is modelled for a literal path only: the path when it exists, nothing otherwise. Glob metacharacters in project paths are not modelled.
- The file system is a tree value. Errors of `os.Lstat`, `ioutil.ReadDir`, `os.Readlink`, `os.Open`, `io.Copy` and `f.Close` are not modelled, nor are file types other than files, directories and symlinks.
- Sync.Walk descends into a directory's child nodes directly instead of re-globbing the joined path. The two agree when names in a directory are distinct (`UniqueNames`), which the soundness lemmas require.
- The tar byte layout (512-byte blocks, padding, checksums) is not modelled. Members are header values and byte sequences.
- Sync.WriteNode, Sync.MakeTar, Sync.WritePayloads: on an open writer whose members are complete, `WriteHeader` and `Write` cannot fail. These methods therefore do not model the `os.Exit` on a payload write error, which cannot happen.
- Sync.CopyFile: the pipe and goroutine are sequential. The archive is built first and then handed to the extract call. `os.Exit(1)` on a failed `makeTar` is the outcome `Exited`, with no extract call. Whether a real run would have started the extract first is not modelled.
- Sync.MakeTar: `destPath` only appears in log lines and is not used.
- Sync.MakeTar: `relative` is taken to give a clean relative path, as `filepath.Rel` does: entry names, with ".." only as leading steps. Directory entries named "." or "..", which `ReadDir` never lists, are not modelled.
- Sync.HeaderOf: the header's mode is the node's permission bits as given. These include any setuid, setgid and sticky bits, which `tar.FileInfoHeader` copies in. The header's modification time, owner and group are not modelled.
- Sync.PayloadEntry: the payload mode is the decimal literal 7770 the code uses. It is kept as written and not converted to an octal permission.
- Text.ToLower: `strings.ToLower` is modelled for ASCII letters only.
- ComponentPush.Push: `LogErrorAndExit` after a failed config apply is the outcome `Exited`. The exact texts of the wrapped errors (`PushError`) are computed, but no lemma states them.
- `waitAndGetComponentPod` is reduced to the pod the client reports (`Client.WaitAndGetPod`). The watch options, phase and spinner are not modelled.
- `runBuildConfig`, `Build`, `runKaniko`, `New` and `DoesComponentExist` are not part of this model. Neither are logging, spinners or `klog`.
- Adapter.Deploy: the dynamic client built from the kube config is the `Client`; a failure to build it, which panics, is not modelled. A failed list is treated as an empty one, as the code does.
