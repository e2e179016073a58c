# A model of the Kalypso controllers

Kalypso is a Kubernetes operator. A `Workload` aggregates five capability resources (Compute,
Storage, Networking, Observability, Security); each capability resource owns leaf objects (HPA, PDB,
Service, Ingress, claims, Role, RoleBinding) and may edit the Deployment it targets. Every spec can
carry escape hatches: raw patches that run on the objects just before they are written.

This project models those controllers in Dafny and proves properties of whole runs of them.

## How the model is built

- `JsonTree` (Json.dfy): documents, the merge patch of section 2 of RFC 7396, and the diff that
  `client.MergeFrom` sends. Arrays are atomic.
- `TreeEdit`: edits of one place of a document. Field assignments of a controller, patches, and the
  decoding of a patched document over the old object are all edits of this kind. Edits compose, and
  every edit is idempotent; the idempotence results come from there.
- `Decoding`: `json.Unmarshal` into an existing object and `omitempty` marshalling after it, as an overlay.
- `JsonPatch`: add, remove and replace of section 4 of RFC 6902, and when such an operation is an edit.
- `EscapeHatch`: the patch engine, and passes of mutate-then-hatch on their own earlier result.
- `NamedList`, `VolumeUpsert`, `Deployments`, `DeploymentWriters`: typed Deployments, their
  marshalling, and the edits of the two writers. `DeploymentObjects`: the same edits as loops that
  write heap arrays in place, next to the snapshot that is taken first.
- `StaleReads`, `WatchLoop`: the merge diffs of several writers on one Deployment.
- `IngressRules`: the Ingress builder, and what its marshalled rules serve.
- `Cluster`: the API server as a value and each Reconcile as a function on it. `Reconcilers`: the same
  reconcilers as methods that change an `ApiServer` object step by step, proved equal to those functions.
- `Leaves`, `LeafFrames`, `Fixpoints`: one create-or-update, plans of them, frames, and repetition.
- `Histories`, `Convergence`, `Quiescence`, `Settling`, `Collisions`: ownership, order independence,
  bounded convergence, confluence, the success of every request, and when two requests collide.
  `DeploymentHatches`: rest of hatched writers of one Deployment.
- `References`, `EndToEnd`: what a cluster at rest stores, in terms of one resource and of a Workload.
- `Watches`: which changes of a Deployment matter to which of its writers.
- `DeepCopies`: nested generated copies on the heap.

Modelling choices a reader should know:

- A leaf object is its owner plus a document. `managed: Edit` is the list of field assignments of a
  mutate function; everything it does not name survives from the stored object.
- A hatch carries what its payload parses to under each decoder; a volume carries what its size parses
  to. The Go types of the kinds are a parameter (`Types`) of every theorem: which documents decode into a
  kind, what a null does at each place (nothing to a scalar or struct; it empties a pointer, slice or map,
  which is then omitted or marshalled as null), and which empty value, if any, `omitempty` omits there (an
  empty list, an empty map, or the zero scalar of the field). A path token of a JSON Patch is a member name or an
  array position, as the Go type of its place has it.
- A Reconcile is one step on the store, except for the Deployment writers, whose interleavings with
  stale reads are the subject of `StaleReads`.
- An error return means the request is queued again, so a store is at rest only when every request
  returns without error and without effect.

Results that differ from what one might expect of the code:

- What a patch drops comes back: the decode keeps every member that is absent from the patched document, so
  neither a null in a merge patch nor a `remove` operation removes a field (`DroppedKeepsOldValue`,
  `RemoveIsUndone`). A field goes exactly if the patched document holds a null or an empty value that its place
  omits (`MissingIff`): a JSON Patch that *replaces* a pointer, slice or map by null removes it
  (`NullRemovesMinReplicas`), and so does any hatch that sets a list to `[]` (`MergeRemovesIff`,
  `EmptyListRemovesExternalIps`). The design document describes hatches as able to patch any field; the model
  follows the code.
- Mutate-then-hatch is not idempotent for two families of operations on a field that the controller does not
  set, and for one operation, where every document decodes, these are all (`SettlesIff`): an insertion into or
  removal from an array, and a replace by what the field omits. A hatch that appends to `externalIPs` of a
  Service makes every pass store one more element (`ExternalIpNeverSettles`, `UnsteadyNeverAtRest`); one that replaces `externalIPs` by null removes
  the field, and fails from then on because it finds nothing to replace (`NullExternalIpsFailsAgain`,
  `LostTargetNeverAtRest`). One that appends to `ports`, which the controller sets, settles at once
  (`PortHatchSettles`). For lists of hatches: no pass stores anything but what the first one stored, unless one of
  them moves such elements, and all passes succeed for hatches that add members or set what is there, and for
  all merge hatches (`MutateThenHatchIdempotent`, `SureSucceeds`).
- Hatches on a Deployment, the one object with two writers, can contradict each other: two that set the
  replicas come to rest together if and only if they set the same number (`RestTogetherIff`, `WebReplicasFight`).
- The fallback rule of a TLS-only Ingress uses port 80 whatever the Service ports are (`BackendPortsExistIff`,
  `TlsOnlyMissesPort`).
- Two Storages that share a volume name on one Deployment fight for ever (`CanSettleIffDisjoint`). Two Storages
  that do not, and read before either wrote, lose volumes or mounts unless one of them found its part already
  done (`StaleDiffHarmlessIff`, `VolumeLost`, `DataVolumeLost`).
- The PDB controller reads the Deployment's selector without watching Deployments (`PdbGoesStale`, `WebBudgetGoesStale`).
- Claim names are injective within a Storage but not across Storages: they meet exactly when one Storage name
  continues the other after a dash and the volume names make up for it (`ClaimNamesMeetIff`).

## Model

| member | source | states |
|---|---|---|
| JsonTree.DiffRoundTrip | internal/controller/storage/deployment_controller.go:154-158 | sending the merge diff of an edit to the document it was read from stores the edit, if and only if every null of the edit already stood at its place |
| JsonTree.LandSettles | internal/controller/compute/deployment_controller.go:119-123 | a field nobody else wrote, or that already holds the edit, ends as the edit wants it however old the read was |
| TreeEdit.ComposeMeans | pkg/patch/patch_engine.go:38-84 | edits are closed under composition: one edit does the work of two, at every place of every document |
| TreeEdit.ApplyIdempotent | pkg/patch/patch_engine.go:38-84 | every edit is idempotent at every place |
| TreeEdit.ApplyAllIdempotent | pkg/patch/patch_engine.go:38-84 | hence so is every list of edits, as a whole |
| TreeEdit.MergeAllIdempotent | pkg/patch/patch_engine.go:66-71 | any list of merge patches applied in sequence is idempotent as a whole |
| TreeEdit.FixedAgree | internal/controller/compute/hpa_controller.go:100-173 | two documents that the same edit leaves alone agree on everything the edit decides |
| EscapeHatch.ApplyEscapeHatches | pkg/patch/patch_engine.go:30-87 | the engine's loop returns a fresh object holding the fail-fast fold of the hatches of the kind, or the error of the first that fails; the caller's object keeps its document |
| EscapeHatch.HatchesAppend | pkg/patch/patch_engine.go:38-86 | applying two lists is applying the first and then, unless it failed, the second |
| EscapeHatch.HatchOutcome | pkg/patch/patch_engine.go:52-83 | one hatch of the kind after others that succeeded: the pass ends with an error exactly if its payload does not parse, its operations fail, its patch type is unknown, or the patched document does not decode, each with its own error; else the rest runs on the decoded document |
| EscapeHatch.OnlyOwnKindMatters | pkg/patch/patch_engine.go:38-41 | the result depends on the hatches of the target kind alone, so malformed hatches of other kinds are harmless |
| Decoding.OverlayExact | pkg/patch/patch_engine.go:77-83 | decoding a patched document over the old object yields exactly the patched document if and only if the patch dropped no key anywhere in the tree and each of its nulls and empty values is marshalled where it stands |
| Decoding.OverlayAt | pkg/patch/patch_engine.go:77-83 | at every path where both documents have an object, the new one is decoded into the old one |
| Decoding.MissingIff | pkg/patch/patch_engine.go:77-83 | at any depth, a member of the old object is missing after the decode if and only if the patched document holds there a null, or an empty list, map or scalar, that the place omits |
| Decoding.DroppedKeepsOldValue | pkg/patch/patch_engine.go:77-83 | a member dropped at any depth, through objects and array elements, keeps its old value |
| Decoding.DecodeIsEdit | pkg/patch/patch_engine.go:66-83 | patching a place and decoding the result over it is one edit, in which an emptied place does nothing |
| EscapeHatch.MergeRemovesIff | pkg/patch/patch_engine.go:66-83 | a merge hatch removes a field that lies below objects only if and only if it sets the field to an empty value that the field omits; its nulls remove nothing |
| EscapeHatch.ReplacedField | pkg/patch/patch_engine.go:52-83 | replacing a field of a section by any value decodes that value into the old one, takes the field out if nothing is left of it, and changes nothing else |
| EscapeHatch.MergedField | pkg/patch/patch_engine.go:66-83 | the same for a merge patch that sets the field to a value without members |
| Leaves.NullRemovesMinReplicas | pkg/patch/patch_engine.go:52-83 | a hatch that replaces the lower bound of an autoscaler by null removes it |
| Leaves.EmptyListRemovesExternalIps | pkg/patch/patch_engine.go:66-83 | a merge hatch that sets externalIPs of a Service to the empty list removes it |
| EscapeHatch.RemoveIsUndone | pkg/patch/patch_engine.go:52-64 | removing an object member by JSON Patch, at any depth below objects, leaves the object as it was |
| JsonPatch.OpSucceedsIff | pkg/patch/patch_engine.go:60-64 | an operation succeeds if and only if the container its path ends in exists and has the named member or index, or for an add room for it; the whole document can be set but not removed |
| JsonPatch.OpChanges | pkg/patch/patch_engine.go:60-64 | then that container changes at the named member alone, or gains, loses or replaces the one element, with those behind it moved by one |
| JsonPatch.OpFrame | pkg/patch/patch_engine.go:60-64 | and nothing changes at any path that leaves the way to that container |
| JsonPatch.OpsInOrder | pkg/patch/patch_engine.go:60-64 | the operations of a patch run in order, and one that fails makes the patch fail |
| JsonPatch.OpIsEdit | pkg/patch/patch_engine.go:52-64 | on documents that a known edit has made, an operation is an edit itself unless it inserts into or removes from an array that the known edit does not set |
| EscapeHatch.HatchesAreEdit | pkg/patch/patch_engine.go:38-84 | steady hatches, merge or JSON Patch, with the decodes between them, are one edit together with the assignments of the controller |
| EscapeHatch.MutateThenHatchIdempotent | internal/controller/networking/ingress_controller.go:195-238 | for any steady hatches, a second pass of mutate-then-hatch over its own result stores what the first pass stored, if it succeeds; with hatches that cannot fail both passes do succeed |
| EscapeHatch.SureSucceeds | pkg/patch/patch_engine.go:38-84 | merge hatches, and operations on what the controller or an earlier hatch has put there or that add members to it, are steady and succeed on everything that the controller makes, where every document decodes |
| EscapeHatch.MovesNothingIsSteady | pkg/patch/patch_engine.go:38-84 | all merge hatches are steady, and so is every JSON Patch without an array insertion or removal, whatever the controller sets |
| EscapeHatch.SettlesIff | pkg/patch/patch_engine.go:52-83 | for one operation, on every stored document on which the first pass succeeds, where every document decodes: the second pass succeeds and stores the same if and only if the operation neither moves elements of an array nor replaces a field by what it omits, in a place that the controller does not set |
| EscapeHatch.MovedOnce | pkg/patch/patch_engine.go:52-83 | a pass with such an operation changes the length of the array by one from what was stored |
| Leaves.ExternalIpNeverSettles | internal/controller/networking/service_controller.go:98-137 | a hatch that appends to externalIPs of a Service never settles: whatever is stored, a pass stores something else, and so does the next |
| Leaves.PortHatchSettles | internal/controller/networking/service_controller.go:98-137 | the same operation on ports, which the controller sets, succeeds on both passes and settles at once |
| Leaves.NullExternalIpsFailsAgain | internal/controller/networking/service_controller.go:98-137 | a hatch that replaces externalIPs by null, or by what the field omits, fails on the result of its own pass |
| NamedList.LookupPut | internal/controller/storage/deployment_controller.go:90-115 | find by name, else append: the name maps to the new value and every other first-match lookup is unchanged |
| NamedList.SameList | internal/controller/storage/deployment_controller.go:92-104 | a list is determined by its names, its first-match lookups and its shadowed items |
| VolumeUpsert.LookupPutAll | internal/controller/storage/deployment_controller.go:87-140 | after the whole pass a listed name maps to what its last listing writes, and every other lookup is unchanged |
| VolumeUpsert.NamesPutAll | internal/controller/storage/deployment_controller.go:106-115 | the original names stay in place as a prefix and the new names follow in order of first appearance |
| VolumeUpsert.NewNamesExact | internal/controller/storage/deployment_controller.go:106-115 | the appended names are distinct, are exactly the listed names that were absent, and are counted exactly |
| VolumeUpsert.OthersUntouched | internal/controller/storage/deployment_controller.go:92-104 | shadowed duplicates and unlisted items keep their place and value |
| VolumeUpsert.UniquePutAll | internal/controller/storage/deployment_controller.go:87-140 | unique names stay unique and the length grows by the number of distinct new names |
| VolumeUpsert.FixedIffSettled | internal/controller/storage/deployment_controller.go:87-140 | the pass changes nothing if and only if every listed name already holds what its last listing writes |
| VolumeUpsert.PutAllIdempotent | internal/controller/storage/deployment_controller.go:87-140 | a second pass changes nothing, for every list and every spec, duplicate names in either included |
| Deployments.RoundTrip | internal/controller/storage/deployment_controller.go:142-158 | unmarshalling undoes marshalling, so a Deployment's document determines it |
| Deployments.PodMarshalled | internal/controller/storage/deployment_controller.go:142-158 | where the document keeps what the writers change: volumes, mounts, node selector, affinity and spread constraints, item by item |
| DeploymentObjects.DeploymentObject.Attach | internal/controller/storage/deployment_controller.go:87-140 | the nested loops over heap arrays leave the Deployment that the fold over the listed volumes gives, and write nothing but the volumes and the mounts of the first container |
| DeploymentObjects.DeploymentObject.AttachAll | internal/controller/storage/deployment_controller.go:87-140 | the nested loops, list by list |
| DeploymentObjects.SnapshotThenAttach | internal/controller/storage/deployment_controller.go:85-140 | the in-place writes do not reach the deep-copied snapshot |
| DeploymentObjects.SnapshotThenSchedule | internal/controller/compute/deployment_controller.go:101-105 | the assignments do not reach the deep-copied snapshot |
| DeploymentObjects.DeploymentObject.DeepCopy | internal/controller/storage/deployment_controller.go:85-85 | the snapshot is equal to the Deployment and made of new arrays and containers |
| DeploymentObjects.DeploymentObject.AttachVolume | internal/controller/storage/deployment_controller.go:88-115 | the inner volume loop sets the source of the first volume of the name, in place, to the claim by its name and nothing else, or appends one in a new array |
| DeploymentObjects.ContainerObject.MountVolume | internal/controller/storage/deployment_controller.go:117-139 | the inner mount loop sets the path of the first mount of the name in place, or appends one in a new array |
| DeploymentObjects.DeploymentObject.SetScheduling | internal/controller/compute/deployment_controller.go:103-105 | exactly the three scheduling fields are replaced |
| DeploymentWriters.AttachMeans | internal/controller/storage/deployment_controller.go:87-140 | name by name: a listed volume is a claim named after Storage and volume, and nothing else; it is mounted at its last listed path with other mount fields kept; other volumes, mounts, containers and pod fields are unchanged |
| DeploymentWriters.ScheduleMeans | internal/controller/compute/deployment_controller.go:93-105 | with any of the five settings given, the three pod fields are replaced, the affinity term by term; with none given, and elsewhere, nothing changes |
| StaleReads.LandPod | internal/controller/storage/deployment_controller.go:85-158 | a diff of two Deployments that differ in the pod spec lands on the pod spec only, field by field, on whatever the server holds |
| StaleReads.LandStorage | internal/controller/storage/deployment_controller.go:85-158 | the Storage diff replaces each of its two lists if the pass changed it and touches nothing else, on whatever the server holds |
| StaleReads.LandCompute | internal/controller/compute/deployment_controller.go:101-123 | the Compute diff sets its three fields and nothing else, when each is as it was read or already set; without settings it is empty |
| StaleReads.HistorySerializes | internal/controller/compute/deployment_controller.go:101-123 | in a protocol whose diffs of earlier serial states land serially, every state of every run is serial and every event can happen |
| StaleReads.NoLostUpdate | internal/controller/storage/deployment_controller.go:85-158 | one Compute and one Storage, each reading any earlier state any number of times: every state equals a serial run, in either order, of the writers that acted, and no run gets stuck |
| WatchLoop.PassLands | internal/controller/storage/deployment_controller.go:85-158 | the diff of a fresh read stores exactly the pass |
| WatchLoop.FixedIff | internal/controller/storage/deployment_controller.go:87-140 | a Storage has nothing to do exactly when its volumes and mounts are settled |
| WatchLoop.StaysFixed | internal/controller/storage/deployment_controller.go:87-140 | a Storage with nothing to do still has nothing to do after a pass of one with other volume names |
| WatchLoop.WatchLoopTerminates | internal/controller/storage/deployment_controller.go:167-218 | with pairwise disjoint volume names at most one patch per Storage has an effect over any schedule |
| WatchLoop.SharedNameNeverSettles | internal/controller/storage/deployment_controller.go:87-115 | no Deployment satisfies two Storages of different names that share a volume name |
| WatchLoop.CanSettleIffDisjoint | internal/controller/storage/deployment_controller.go:87-140 | Storages of distinct names can all come to rest on some Deployment if and only if no two share a volume name |
| WatchLoop.StaleDiffHarmlessIff | internal/controller/storage/deployment_controller.go:85-158 | of two Storages that share no volume name and read the same Deployment, the second diff adds its work to that of the first if and only if, for the volumes and for the mounts, one of them found its part already done |
| WatchLoop.StaleStorageOverwrites | internal/controller/storage/deployment_controller.go:85-158 | otherwise every volume that the second one does not list is as it was before the first one wrote |
| WatchLoop.VolumeLost | internal/controller/storage/deployment_controller.go:85-158 | so a new volume of the first one is lost, which a serial run would have |
| WatchLoop.DataVolumeLost | internal/controller/storage/deployment_controller.go:85-158 | two Storages with one volume each on an empty Deployment: the first one's volume is gone |
| IngressRules.BuildRules | internal/controller/networking/ingress_controller.go:106-193 | the outer loop and its fallback build the flattening of the public then private routes |
| IngressRules.BuildRouteRules | internal/controller/networking/ingress_controller.go:139-191 | the inner loops build one rule for each hostname of a route, or one without host, each with one backend path for each listed path in order, or for / |
| IngressRules.BuildTlsHosts | internal/controller/networking/ingress_controller.go:199-207 | the loop collects the non-empty hosts of the rules |
| IngressRules.ServedIffContributed | internal/controller/networking/ingress_controller.go:108-191 | with a route, a host and path are served if and only if a public or private route lists both, where no hostname counts as the empty one and no path as / |
| IngressRules.RulesAt | internal/controller/networking/ingress_controller.go:108-191 | the rules place by place: the i-th rule of the n-th route, public ones first, has its i-th hostname and all its paths in order, to the target under the first Service port, or 80 |
| References.StoredRuleAt | internal/controller/networking/ingress_controller.go:149-189 | the marshalled rules, place by place and member by member: the host unless empty, and a prefix path for each listed one, to service name and port number |
| IngressRules.CountsRules | internal/controller/networking/ingress_controller.go:172-189 | the rule count is the sum over routes of max(1, number of hostnames) |
| IngressRules.PublicFirst | internal/controller/networking/ingress_controller.go:111-112 | the rules of the public routes precede those of the private ones |
| IngressRules.TlsHostsExact | internal/controller/networking/ingress_controller.go:197-214 | the TLS hosts are exactly the non-empty hostnames of the routes, in order, repetitions kept |
| IngressRules.FlattenBackends | internal/controller/networking/ingress_controller.go:149-168 | every backend is the target under one port |
| IngressRules.BackendPortsExistIff | internal/controller/networking/ingress_controller.go:114-168 | every backend port is a Service port if and only if there is a route or the Service has port 80 |
| IngressRules.TlsOnlyMissesPort | internal/controller/networking/ingress_controller.go:114-135 | a TLS secret and port 8080 without routes: the one backend port is 80 |
| IngressRules.StoredServesIff | internal/controller/networking/ingress_controller.go:157-191 | the marshalled rules serve exactly the hosts and paths of the rules |
| Reconcilers.ReconcileChildOf | internal/controller/workload/compute_controller.go:39-122 | the five Workload reconcilers: skip, delete or create-or-update the child, with the owner check before the write |
| Reconcilers.AssignHpa | internal/controller/compute/hpa_controller.go:101-150 | the assignments in their order, with the appended metrics, are those of the plan |
| Reconcilers.ReconcileHpa | internal/controller/compute/hpa_controller.go:42-183 | the HPA reconciler does what its plan says: deleted without MaxReplicas, else its four fields set or cleared |
| Reconcilers.ReconcilePdb | internal/controller/compute/pdb_controller.go:42-180 | the PDB reconciler does what its plan says, with the selector it reads from the Deployment |
| Reconcilers.ReconcileService | internal/controller/networking/service_controller.go:41-137 | the Service reconciler does what its plan says, under the name of the target |
| Reconcilers.ReconcileIngress | internal/controller/networking/ingress_controller.go:41-251 | the Ingress reconciler does what its plan says, with the rules and TLS hosts of the loops |
| Reconcilers.ReconcileRole | internal/controller/security/role_controller.go:41-133 | the Role reconciler does what its plan says |
| Reconcilers.ReconcileRoleBinding | internal/controller/security/rolebinding_controller.go:41-145 | the RoleBinding reconciler does what its plan says, with the derived Role name |
| Reconcilers.ReconcilePvcs | internal/controller/storage/pvc_controller.go:42-140 | one create-or-update for each listed volume in order, returning on the first error with the earlier writes kept |
| Reconcilers.ReconcileScheduling | internal/controller/compute/deployment_controller.go:42-130 | the scheduling reconciler: read, edit, hatch, and patch with the diff against the read |
| Reconcilers.ReconcileVolumes | internal/controller/storage/deployment_controller.go:43-165 | the volumes reconciler: read, attach, hatch, and patch with the diff against the read |
| Reconcilers.FindForDeployment | internal/controller/storage/deployment_controller.go:167-204 | the watch map of a capability returns, without duplicates, exactly the resources of the namespace whose target is a Deployment of this name |
| Leaves.UnhatchedWrite | internal/controller/security/role_controller.go:95-128 | without hatches CreateOrUpdate stores exactly the assignments over the stored or blank object, under the new owner, or fails if and only if the object has another owner |
| Leaves.SpecFieldAfter | internal/controller/compute/hpa_controller.go:96-173 | an assignment to a field of the spec acts on that field and on nothing else of the object |
| Leaves.SpecFixedIff | internal/controller/compute/hpa_controller.go:100-173 | a document on which assignments below spec do nothing is one that holds every assigned value |
| Histories.WatchMissesNobody | internal/controller/compute/deployment_controller.go:132-169 | a writer that does not look a Deployment up is indifferent to it |
| Watches.DependsIff | internal/controller/storage/deployment_controller.go:167-204 | an unhatched writer depends on a Deployment if and only if the watch map returns it for that Deployment and it has a setting or volume to write |
| LeafFrames.ExecLocal | internal/controller/storage/pvc_controller.go:66-137 | the outcome of a plan at its keys depends on the store at its keys alone |
| LeafFrames.PvcPass | internal/controller/storage/pvc_controller.go:66-137 | no key but the derived ones changes; a failed pass stopped at a first volume and the store holds exactly the effects of those before it |
| LeafFrames.PvcLastWins | internal/controller/storage/pvc_controller.go:66-137 | on success each derived name holds the assignments of the last listed volume of that name |
| References.PassStoresClaims | internal/controller/storage/pvc_controller.go:66-137 | so the claim of each listed volume is the Storage's and asks for its size, for the listed modes in order, or ReadWriteOnce alone, and for the class |
| LeafFrames.PvcSucceedsIff | internal/controller/storage/pvc_controller.go:81-135 | an unhatched pass succeeds if and only if every size parses and no claim is controlled by another owner at the start |
| LeafFrames.PvcKeyInjective | internal/controller/storage/pvc_controller.go:68-75 | claim keys are injective in the volume name within one Storage |
| LeafFrames.ClaimNamesMeetIff | internal/controller/storage/pvc_controller.go:68-75 | across Storages two claims share a name exactly if they are the same, or one Storage name is the other, a dash and some w, and the volume of the other is w, a dash and the first one's volume, as for claim b-c of Storage a and claim c of Storage a-b |
| Histories.ForeignStep | internal/controller/networking/service_controller.go:74-112 | a reconcile for another owner deletes an owned leaf if its own object is disabled, and otherwise leaves it exactly as it was |
| Histories.ForeignChild | internal/controller/workload/compute_controller.go:74-109 | a Workload never rewrites a capability resource of another |
| Histories.OwnershipHolds | internal/controller/storage/pvc_controller.go:109-115 | while it exists, an owned leaf keeps its owner and contents over every run of other owners |
| Histories.NoClaimDeleted | internal/controller/storage/pvc_controller.go:66-139 | no run of any reconcilers deletes a claim |
| Histories.ChildrenRun | internal/controller/workload/compute_controller.go:65-117 | the closed form of a run of Workload reconciles, at every key, for any order and repetitions |
| Histories.OrderIrrelevant | internal/controller/workload/storage_controller.go:65-117 | runs that serve the same set of Workload requests end in the same state, so distinct Workloads commute in every order and namespace assignment |
| Histories.PdbsFromEmpty | internal/controller/compute/pdb_controller.go:75-147 | over every history of edits and reconciles from an empty store without PDB hatches, every stored PDB has exactly one of the two exclusive fields |
| Fixpoints.PlanTwice | internal/controller/storage/pvc_controller.go:66-137 | repeating the plan of a leaf controller on its own result writes nothing new, even when it stops at an error, with steady hatches; with duplicate volume names too, if the hatches of the claims cannot fail |
| Fixpoints.SureRun | internal/controller/storage/pvc_controller.go:66-137 | the closed form of a pass of writes under hatches that cannot fail, duplicates included: all edits of a leaf, assignments and hatches, one after the other |
| Fixpoints.SureRunSucceedsIff | internal/controller/storage/pvc_controller.go:66-137 | such a pass succeeds if and only if it rejects nothing and no other controller holds a leaf it writes |
| Fixpoints.SureRunTwice | internal/controller/storage/pvc_controller.go:66-137 | such a pass writes nothing new on its own result, wherever it stops |
| Fixpoints.LastOpHolds | internal/controller/storage/pvc_controller.go:66-137 | after a plan that succeeds, every leaf satisfies the last write to it together with its hatches |
| Fixpoints.UnsteadyNeverRests | pkg/patch/patch_engine.go:52-83 | a write whose one hatch moves elements of an unset array is never without effect |
| Fixpoints.LostTargetNeverRests | pkg/patch/patch_engine.go:52-83 | nor is one whose one hatch replaces an unset field by what the field omits |
| Fixpoints.EditsIndependent | internal/controller/storage/deployment_controller.go:85-140 | a Deployment writer with nothing to do still has nothing to do after a write of the other kind, or of a Storage with other volume names |
| Convergence.RequestTwice | internal/controller/workload/compute_controller.go:39-122 | a second pass of the same request has no effect |
| Convergence.StaysQuiet | internal/controller/networking/service_controller.go:65-137 | a request with nothing to do still has nothing to do after any other second-layer request, two Storages with different volume names on one Deployment included |
| Convergence.EffectiveStepDescends | internal/controller/workload/compute_controller.go:65-117 | an effective step lowers the pair (dirty children, dirty second-layer requests) lexicographically |
| Convergence.BoundedConvergence | internal/controller/workload/compute_controller.go:65-117 | every schedule has at most F * (N + 1) + S effective steps |
| Convergence.SettlesEventually | internal/controller/workload/compute_controller.go:65-117 | from every state of a run some schedule brings every request to where it has no effect |
| Quiescence.ChildrenAtRest | internal/controller/workload/networking_controller.go:65-117 | the closed form of the capability resources once no Workload request has an effect |
| Quiescence.Confluence | internal/controller/workload/compute_controller.go:65-117 | whatever two schedules bring the cluster to rest, the capability resources are equal and both stores agree on all that every live request manages |
| Quiescence.UnsteadyNeverAtRest | internal/controller/networking/service_controller.go:94-137 | a leaf controller whose one hatch moves elements of an unset array is never at rest |
| Quiescence.LostTargetNeverAtRest | internal/controller/networking/service_controller.go:94-137 | nor is one whose one hatch replaces an unset field by what the field omits, unless exactly that is stored |
| Settling.RequestSucceeds | internal/controller/workload/compute_controller.go:65-117 | from a start without foreign owners on children and leaves, with sizes that parse and hatches that cannot fail, no request fails in any state of any run |
| Settling.QuietIsRest | internal/controller/workload/compute_controller.go:65-117 | so in every run a store without pending work is at rest, and the reverse |
| Settling.ComesToRest | internal/controller/workload/compute_controller.go:65-117 | every run from such a start can be continued to a store at which every request returns without error and without effect |
| Settling.QuietConfluence | internal/controller/workload/compute_controller.go:65-117 | from such a start, whatever two schedules leave no request with an effect, the capability resources are equal and both stores are at rest and agree on all that every live request manages |
| DeploymentHatches.NullIsNotStored | internal/controller/compute/deployment_controller.go:107-123 | a null that a hatch puts where the Deployment had nothing is not stored: the diff sends it as a removal |
| DeploymentHatches.HatchedWrite | internal/controller/compute/deployment_controller.go:101-126 | a Deployment write under a hatch that sets the replicas stores its own edit with the replicas set |
| DeploymentHatches.WriterAtRestIff | internal/controller/compute/deployment_controller.go:101-126 | such a writer is at rest if and only if its own edit is done and the replicas are as its hatch says |
| DeploymentHatches.RestTogetherIff | internal/controller/storage/deployment_controller.go:142-161 | two such writers of one Deployment that write different fields can be at rest together if and only if their hatches set the same number |
| DeploymentHatches.WebReplicasFight | internal/controller/compute/deployment_controller.go:101-126 | a cluster with a Compute and a Storage on one Deployment: with 3 and 3 replicas they can be at rest together, with 3 and 5 never |
| References.SingleAtRestIff | internal/controller/security/role_controller.go:65-133 | an unhatched controller of one leaf is at rest if and only if the leaf is absent, or is its own and a fixed point of its assignments, as its spec demands |
| References.ClaimsStored | internal/controller/storage/pvc_controller.go:66-137 | at rest the same holds for every listed volume, in terms of the last volume of its name |
| References.ClaimsExist | internal/controller/storage/deployment_controller.go:88-139 | at rest every listed volume of the Deployment is a claim by name alone that exists and belongs to the Storage, and is mounted at the last listed path |
| References.RoleBindingIffRole | internal/controller/security/rolebinding_controller.go:65-112 | at rest a RoleBinding exists exactly when its Role does, refers to it by kind and name, and binds the one service account named after the target in the namespace |
| References.BackendsExist | internal/controller/networking/ingress_controller.go:149-168 | at rest every path item of the stored rules names the stored Service, and all their ports occur among its stored ports if and only if there is a route or it has port 80 |
| References.RoutesServed | internal/controller/networking/ingress_controller.go:108-191 | at rest, with a route, the stored rules serve exactly the hosts and paths that the routes contribute |
| References.SchedulingOutcome | internal/controller/compute/deployment_controller.go:60-126 | one request to the Compute writer: no effect without a Deployment as target or without settings; else, unhatched, exactly the three scheduling fields of the target are replaced |
| References.VolumesOutcome | internal/controller/storage/deployment_controller.go:60-161 | one request to the Storage writer: no effect without a Deployment as target; else, unhatched, volumes and mounts of the target change name by name as listed, and nothing else |
| References.AimlessRun | internal/controller/security/role_controller.go:41-65 | no run of requests for resources that are gone or name no target changes anything |
| References.PdbGoesStale | internal/controller/compute/pdb_controller.go:101-134 | a PDB at rest stays at rest under a change of Deployments if and only if the selector it reads is the same |
| References.WebBudgetGoesStale | internal/controller/compute/pdb_controller.go:101-134 | a Deployment whose selector changes from v1 to v2 leaves a budget that is no longer at rest |
| EndToEnd.WorkloadChildren | internal/controller/workload/observability_controller.go:39-122 | each of the five requests of a Workload is at rest if and only if its child is absent without a target of the capability, or is the Workload's, under its own name, with the settings of that capability and the Workload's target |
| EndToEnd.WorkloadScales | internal/controller/compute/hpa_controller.go:65-173 | from a Workload whose child is at rest: the autoscaler is at rest if and only if it is absent without an upper bound, or refers to the target by kind and name, has the bounds, and a metric of cpu and of memory for each positive percentage |
| EndToEnd.WorkloadIsBudgeted | internal/controller/compute/pdb_controller.go:65-170 | likewise the budget has the selector of the target Deployment, or one on its name, and the minimum if one is given, else the maximum |
| EndToEnd.WorkloadIsScheduled | internal/controller/compute/deployment_controller.go:65-126 | the Compute of a Workload is at rest if and only if the target Deployment has its node selector, its three affinity terms and its spread constraints, as soon as one of these is given |
| EndToEnd.WorkloadIsStored | internal/controller/storage/pvc_controller.go:66-137 | at rest a Workload's volume is a stored claim with the size, modes and class last listed, is put on the Deployment by the claim's name alone, and is mounted at the last listed path |
| EndToEnd.WorkloadIsServed | internal/controller/networking/ingress_controller.go:106-218 | at rest, with a route, the Workload's Ingress serves exactly what its routes contribute |
| EndToEnd.WorkloadHasIngress | internal/controller/networking/ingress_controller.go:65-218 | at rest the Ingress is there exactly with a route or a TLS secret; its TLS entry names the secret and the non-empty hostnames in order; without routes it has the one default rule |
| EndToEnd.WorkloadRuleAt | internal/controller/networking/ingress_controller.go:108-191 | at rest the stored rules of a Workload, place by place and member by member |
| EndToEnd.WorkloadIsExposed | internal/controller/networking/service_controller.go:65-137 | the Service controller is at rest if and only if the Service is absent without ports, or selects the pods labelled with the target under the listed ports, with their numbers and other fields in order |
| EndToEnd.WorkloadIsRouted | internal/controller/networking/ingress_controller.go:149-168 | and, with ports, every path goes to the Service named after the Workload's target, on one of its stored ports |
| EndToEnd.WorkloadIsBound | internal/controller/security/rolebinding_controller.go:65-112 | at rest the Workload's Role has its rules and is bound to the service account named after the target |
| Collisions.ApartIff | internal/controller/networking/service_controller.go:65-72 | two requests collide exactly when they name a common Service, derive a common claim, or are two Computes, or two Storages with a common volume name, on one Deployment |
| DeepCopies.Route.DeepCopyInto | api/v1alpha1/zz_generated.deepcopy.go:166-178 | an equal copy whose slices are new, with nil kept nil |
| DeepCopies.CopyRoutes | api/v1alpha1/zz_generated.deepcopy.go:193-199 | each element copied into a new one, no slice shared with the source or between elements |
| DeepCopies.IngressSpec.DeepCopyInto | api/v1alpha1/zz_generated.deepcopy.go:191-208 | an equal copy whose routes, public and private, are new and pairwise share nothing |
| DeepCopies.IngressSpec.WriteThroughCopy | api/v1alpha1/zz_generated.deepcopy.go:191-208 | no later write through the copy reaches the source |
| DeepCopies.CopyMap | api/v1alpha1/zz_generated.deepcopy.go:500-506 | a new map, filled by ranging over the old one in any order, with the same entries; nil kept nil |
| DeepCopies.VolumeSpec.DeepCopyInto | api/v1alpha1/zz_generated.deepcopy.go:792-799 | an equal copy with new access modes |
| DeepCopies.StorageSpec.DeepCopyInto | api/v1alpha1/zz_generated.deepcopy.go:727-742 | an equal copy; volumes, their access modes and hatches are new and pairwise share nothing |
| DeepCopies.StorageSpec.WriteThroughCopy | api/v1alpha1/zz_generated.deepcopy.go:727-742 | no later write through the copy reaches the source |
| DeepCopies.SchedulingSpec.DeepCopyInto | api/v1alpha1/zz_generated.deepcopy.go:498-515 | an equal copy with a new map and a new slice |
| DeepCopies.ComputeSpec.DeepCopyInto | api/v1alpha1/zz_generated.deepcopy.go:105-116 | an equal copy of all fields that shares neither the map nor a slice |
| DeepCopies.ComputeSpec.WriteThroughCopy | api/v1alpha1/zz_generated.deepcopy.go:105-116 | no later write through the copy reaches the source |
| DeepCopies.NetworkingSpec.DeepCopyInto | api/v1alpha1/zz_generated.deepcopy.go:280-290 | an equal copy whose ports, hatches, routes and their slices are new, the routes pairwise separate |

## Left out

- Start-up, manager wiring, caches, work queues, leader election, logging: no logic of the controllers.
- API errors other than "not found" and an ownership conflict, and conflicts of concurrent updates of a leaf: the store contract has none.
- JSON text, number formats and the internals of the patch library; of JSON Patch, the operations move, copy and test and negative indices.
- Decoding.OverlayExact: members unknown to the Go type, which the decode drops, stay here. Struct values of maps, which the decode replaces, are merged here; no modelled kind has one. A null element behind the old end of an array stays null; a null for a resource quantity follows the rule of its place.
- Reuse of spare slice capacity by the decoder.
- Object metadata: names, labels, further owner references, and the error for a hatch that renames an object.
- Affinity terms, topology spread constraints, policy rules and the deep fields of containers: opaque documents. Affinity terms carry no null outside arrays, as marshalled values; `DiffRoundTrip` shows why a null could not be stored.
- resource.ParseQuantity: a volume carries the result or none.
- ServiceMonitor and PodMonitor controllers: the same shape, and they ignore hatches.
- Garbage collection, status conditions, CRD validation and defaulting: not done by this code.
- Deep copies of the remaining types: compositions of the slice, map and struct patterns modelled; that of a WorkloadSpec calls those of its five specs and has no slice of its own. Headers of slices of structs are values here, so only the elements and the slices behind them can alias. In the memory of the Storage writer, containers after the first are values, since nothing writes them.
- DeepCopies.SchedulingSpec.DeepCopyInto: affinity and the spread constraints, whose copies are upstream code, are values, so pointers inside them cannot alias.
- DeepCopies.NetworkingSpec.DeepCopyInto: Service ports, whose copies are upstream code, are values.
- The two Deployment writers and the Storage watch loop are proved without Deployment hatches; `Reconcilers` carries the hatches through.
- Convergence.BoundedConvergence: assumes no hatch for Deployments of a request that writes one, because two such hatches can contradict each other (`RestTogetherIff` has the condition for hatches that set one field) or make each other's patches fail; and steady hatches for leaves, without which one operation never comes to rest (`UnsteadyNeverAtRest`). For lists of operations steadiness is sufficient only: an insertion that a later removal takes back would do no harm.
- Settling.RequestSucceeds: that hatches cannot fail is sufficient only. Hatches that replace or remove members which the store happens to have may succeed as well.
- Fixpoints.PlanTwice: a Storage that lists a volume name twice must have no claim hatch that can fail, because the second hatched write of a pass may fail where the first time it did not.
- Quiescence.Confluence: agreement is on managed fields and on what the hatches decide, because unmanaged fields can depend on whether an object was deleted and created again.
- Reconcilers.ReconcileIngress: the TLS hosts are computed before the rules are assigned rather than after; nothing reads them in between.
