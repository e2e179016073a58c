/**
 The reconcilers as the source writes them: step by step on the API server. Each method is proved
 to do exactly what its function in module Cluster says.
 */
module Reconcilers {
  import opened Wrappers
  import opened JsonTree
  import opened TreeEdit
  import opened EscapeHatch
  import opened Specs
  import opened Deployments
  import opened DeploymentWriters
  import opened DeploymentObjects
  import opened IngressRules
  import opened Cluster

  class ApiServer {
    var workloads: map<string, WorkloadSpec>
    var crs: map<CrKey, Cr>
    var deployments: map<ObjectKey, Deployment>
    var leaves: map<LeafKey, Leaf>
    const types: Types

    ghost function Value(): State
      reads this
    {
      State(workloads, crs, deployments, leaves)
    }

    constructor (types: Types)
      ensures Value() == State(map[], map[], map[], map[]) && this.types == types
    {
      workloads, crs, deployments, leaves := map[], map[], map[], map[];
      this.types := types;
    }

    /** The in-memory target of CreateOrUpdate, its mutation, its owner, its hatches, and the write. */
    method CreateOrUpdate(key: LeafKey, managed: Edit, owner: Owner, hatches: seq<Hatch>) returns (ok: bool)
      requires managed.Into?
      modifies this`leaves
      ensures var r := ExecOp(types, owner, hatches, Write(key, managed), old(leaves));
              leaves == r.leaves && ok == r.ok
    {
      var target := new KubeObject(if key in leaves then leaves[key].doc else Obj(map[]));
      target.doc := Apply(managed, Some(target.doc)).value;
      if key in leaves && !MayControl(leaves[key].owner, owner) {
        return false;
      }
      var patched := ApplyEscapeHatches(types, target, hatches, KindName(key.kind));
      if patched.Failure? {
        return false;
      }
      leaves := leaves[key := Leaf(Some(owner), patched.value.doc)];
      return true;
    }

    method Delete(key: LeafKey)
      modifies this`leaves
      ensures leaves == old(leaves) - {key}
    {
      if key in leaves {
        leaves := leaves - {key};
      }
    }

    /** The merge patch request: the server applies it to what it stores and rejects what it cannot decode. */
    method Patch(key: ObjectKey, read: Deployment, patched: Json) returns (ok: bool)
      requires key in deployments && patched.Obj?
      modifies this`deployments
      ensures var d := Decode(Merge(Encode(old(deployments)[key]), Diff(Encode(read), patched)));
              ok == d.Some? && deployments == if ok then old(deployments)[key := d.value] else old(deployments)
    {
      var d := Decode(Merge(Encode(deployments[key]), Diff(Encode(read), patched)));
      if d.None? {
        return false;
      }
      deployments := deployments[key := d.value];
      return true;
    }
  }

  // ----- First layer

  /** The five Workload reconcilers, which differ in the capability only. */
  method ReconcileChildOf(api: ApiServer, w: string, cap: Capability) returns (ok: bool)
    modifies api`crs
    ensures Outcome(api.Value(), ok) == ReconcileChild(old(api.Value()), w, cap)
  {
    if w !in api.workloads {
      return true;
    }
    var workload := api.workloads[w];
    var targetNamespace := workload.targetRef.namespace;
    if targetNamespace == "" {
      return true;
    }
    var key := CrKey(cap, targetNamespace, w + Suffix(cap));
    if workload.Of(cap).targetRef.resource == "" {
      if key in api.crs {
        api.crs := api.crs - {key};
      }
      assert api.crs == old(api.crs) - {key};
    } else {
      var spec := workload.Of(cap);
      spec := spec.(targetRef := workload.targetRef);
      if key in api.crs && !MayControl(api.crs[key].owner, WorkloadOwner(w)) {
        return false;
      }
      api.crs := api.crs[key := Cr(Some(WorkloadOwner(w)), spec)];
    }
    return true;
  }

  // ----- Leaves

  /** The assignments of the mutate function, in its order. */
  method AssignHpa(target: ResourceRef, a: Autoscaling) returns (fields: map<string, Edit>)
    ensures SpecEdit(fields) == HpaEdit(target, a, Metrics(a))
  {
    fields := map["scaleTargetRef" := SetTo(ScaleTarget(target))];
    fields := fields["maxReplicas" := SetTo(Num(a.maxReplicas))];
    if a.minReplicas > 0 {
      fields := fields["minReplicas" := SetTo(Num(a.minReplicas))];
    } else {
      fields := fields["minReplicas" := Set(None)];
    }
    var metrics := [];
    if a.targetCpu > 0 {
      metrics := metrics + [Metric("cpu", a.targetCpu)];
    }
    if a.targetMemory > 0 {
      metrics := metrics + [Metric("memory", a.targetMemory)];
    }
    fields := fields["metrics" := if metrics == [] then Set(None) else SetTo(Arr(metrics))];
    assert metrics == Metrics(a);
    assert fields == Cluster.HpaFields(target, a, metrics);
  }

  method ReconcileHpa(api: ApiServer, ck: CrKey) returns (ok: bool)
    requires ck in api.crs ==> api.crs[ck].spec.ComputeSpec?
    modifies api`leaves
    ensures Outcome(api.Value(), ok) == ReconcileLeaf(api.types, old(api.Value()), ck, HpaController)
  {
    if ck !in api.crs {
      return true;
    }
    var spec := api.crs[ck].spec;
    if spec.targetRef.resource == "" {
      return true;
    }
    ghost var plan := Plan(ck, spec, HpaController, PdbSelector(api.deployments, ck.namespace, spec.targetRef));
    ExecSingle(api.types, CrOwner(ck), spec.hatches, plan, api.leaves);
    var key := LeafKey(Hpa, ck.namespace, ck.name + "-hpa");
    if spec.autoscaling.maxReplicas == 0 {
      api.Delete(key);
      ok := true;
    } else {
      var fields := AssignHpa(spec.targetRef, spec.autoscaling);
      ok := api.CreateOrUpdate(key, SpecEdit(fields), CrOwner(ck), spec.hatches);
    }
  }

  method ReconcilePdb(api: ApiServer, ck: CrKey) returns (ok: bool)
    requires ck in api.crs ==> api.crs[ck].spec.ComputeSpec?
    modifies api`leaves
    ensures Outcome(api.Value(), ok) == ReconcileLeaf(api.types, old(api.Value()), ck, PdbController)
  {
    if ck !in api.crs {
      return true;
    }
    var spec := api.crs[ck].spec;
    if spec.targetRef.resource == "" {
      return true;
    }
    ghost var plan := Plan(ck, spec, PdbController, PdbSelector(api.deployments, ck.namespace, spec.targetRef));
    ExecSingle(api.types, CrOwner(ck), spec.hatches, plan, api.leaves);
    var key := LeafKey(Pdb, ck.namespace, ck.name + "-pdb");
    if !spec.minAvailable.IsSet() && !spec.maxUnavailable.IsSet() {
      api.Delete(key);
      ok := true;
    } else {
      var deployKey := ObjectKey(ck.namespace, spec.targetRef.resource);
      var selector := Obj(map["matchLabels" := AppSelector(spec.targetRef)]);
      if spec.targetRef.kind == "Deployment" && deployKey in api.deployments {
        if api.deployments[deployKey].Selector().Some? {
          selector := api.deployments[deployKey].Selector().value;
        }
      }
      var fields := map["selector" := SetTo(selector)];
      if spec.minAvailable.IsSet() {
        fields := fields["minAvailable" := SetTo(spec.minAvailable.ToJson())];
        fields := fields["maxUnavailable" := Set(None)];
      } else if spec.maxUnavailable.IsSet() {
        fields := fields["maxUnavailable" := SetTo(spec.maxUnavailable.ToJson())];
        fields := fields["minAvailable" := Set(None)];
      }
      assert SpecEdit(fields) == PdbEdit(selector, spec.minAvailable, spec.maxUnavailable);
      ok := api.CreateOrUpdate(key, SpecEdit(fields), CrOwner(ck), spec.hatches);
    }
  }

  method ReconcileService(api: ApiServer, ck: CrKey) returns (ok: bool)
    requires ck in api.crs ==> api.crs[ck].spec.NetworkingSpec?
    modifies api`leaves
    ensures Outcome(api.Value(), ok) == ReconcileLeaf(api.types, old(api.Value()), ck, ServiceController)
  {
    if ck !in api.crs {
      return true;
    }
    var spec := api.crs[ck].spec;
    if spec.targetRef.resource == "" {
      return true;
    }
    ghost var plan := Plan(ck, spec, ServiceController, PdbSelector(api.deployments, ck.namespace, spec.targetRef));
    ExecSingle(api.types, CrOwner(ck), spec.hatches, plan, api.leaves);
    var key := LeafKey(Service, ck.namespace, spec.targetRef.resource);
    if |spec.ports| == 0 {
      api.Delete(key);
      ok := true;
    } else {
      ok := api.CreateOrUpdate(key, ServiceEdit(spec.targetRef, spec.ports, spec.serviceType), CrOwner(ck),
                               spec.hatches);
    }
  }

  method ReconcileIngress(api: ApiServer, ck: CrKey) returns (ok: bool)
    requires ck in api.crs ==> api.crs[ck].spec.NetworkingSpec?
    modifies api`leaves
    ensures Outcome(api.Value(), ok) == ReconcileLeaf(api.types, old(api.Value()), ck, IngressController)
  {
    if ck !in api.crs {
      return true;
    }
    var spec := api.crs[ck].spec;
    if spec.targetRef.resource == "" {
      return true;
    }
    ghost var plan := Plan(ck, spec, IngressController, PdbSelector(api.deployments, ck.namespace, spec.targetRef));
    ExecSingle(api.types, CrOwner(ck), spec.hatches, plan, api.leaves);
    var key := LeafKey(Ingress, ck.namespace, ck.name + "-ingress");
    if !HasIngress(spec) {
      api.Delete(key);
      ok := true;
    } else {
      var rules := BuildRules(spec);
      var hosts := [];
      if spec.tlsSecretName != "" {
        hosts := BuildTlsHosts(rules);
      }
      assert IngressEdit(rules, hosts, spec.tlsSecretName) == IngressEdit(rules, TlsHosts(rules), spec.tlsSecretName);
      ok := api.CreateOrUpdate(key, IngressEdit(rules, hosts, spec.tlsSecretName), CrOwner(ck), spec.hatches);
    }
  }

  method ReconcileRole(api: ApiServer, ck: CrKey) returns (ok: bool)
    requires ck in api.crs ==> api.crs[ck].spec.SecuritySpec?
    modifies api`leaves
    ensures Outcome(api.Value(), ok) == ReconcileLeaf(api.types, old(api.Value()), ck, RoleController)
  {
    if ck !in api.crs {
      return true;
    }
    var spec := api.crs[ck].spec;
    if spec.targetRef.resource == "" {
      return true;
    }
    ghost var plan := Plan(ck, spec, RoleController, PdbSelector(api.deployments, ck.namespace, spec.targetRef));
    ExecSingle(api.types, CrOwner(ck), spec.hatches, plan, api.leaves);
    var key := LeafKey(Role, ck.namespace, ck.name + "-role");
    if !spec.createRole {
      api.Delete(key);
      ok := true;
    } else {
      ok := api.CreateOrUpdate(key, RoleEdit(spec.rules), CrOwner(ck), spec.hatches);
    }
  }

  method ReconcileRoleBinding(api: ApiServer, ck: CrKey) returns (ok: bool)
    requires ck in api.crs ==> api.crs[ck].spec.SecuritySpec?
    modifies api`leaves
    ensures Outcome(api.Value(), ok) == ReconcileLeaf(api.types, old(api.Value()), ck, RoleBindingController)
  {
    if ck !in api.crs {
      return true;
    }
    var spec := api.crs[ck].spec;
    if spec.targetRef.resource == "" {
      return true;
    }
    ghost var plan := Plan(ck, spec, RoleBindingController, PdbSelector(api.deployments, ck.namespace, spec.targetRef));
    ExecSingle(api.types, CrOwner(ck), spec.hatches, plan, api.leaves);
    var key := LeafKey(RoleBinding, ck.namespace, ck.name + "-rb");
    if !spec.createRole {
      api.Delete(key);
      ok := true;
    } else {
      ok := api.CreateOrUpdate(key, RoleBindingEdit(ck.name + "-role", spec.targetRef.resource, ck.namespace),
                               CrOwner(ck), spec.hatches);
    }
  }

  /** One CreateOrUpdate for each listed volume, in order, returning on the first error. */
  method ReconcilePvcs(api: ApiServer, ck: CrKey) returns (ok: bool)
    requires ck in api.crs ==> api.crs[ck].spec.StorageSpec?
    modifies api`leaves
    ensures Outcome(api.Value(), ok) == ReconcileLeaf(api.types, old(api.Value()), ck, PvcController)
  {
    if ck !in api.crs {
      return true;
    }
    var spec := api.crs[ck].spec;
    if spec.targetRef.resource == "" {
      return true;
    }
    ghost var ops := PvcOps(ck, spec.storageClassName, spec.volumes);
    assert ops[0..] == ops;
    for k := 0 to |spec.volumes|
      invariant Exec(api.types, CrOwner(ck), spec.hatches, ops, old(api.leaves)) ==
                Exec(api.types, CrOwner(ck), spec.hatches, ops[k..], api.leaves)
    {
      var vol := spec.volumes[k];
      assert ops[k..][0] == PvcOp(ck, spec.storageClassName, vol) && ops[k..][1..] == ops[k + 1..];
      var key := LeafKey(Pvc, ck.namespace, ClaimName(ck.name, vol.name));
      var accessModes := vol.accessModes;
      if |accessModes| == 0 {
        accessModes := ["ReadWriteOnce"];
      }
      if vol.quantity.None? {
        return false;
      }
      var wrote := api.CreateOrUpdate(key, PvcEdit(accessModes, vol.quantity.value, spec.storageClassName),
                                      CrOwner(ck), spec.hatches);
      if !wrote {
        return false;
      }
    }
    return true;
  }

  // ----- Deployment writers

  method ReconcileScheduling(api: ApiServer, ck: CrKey) returns (ok: bool)
    requires ck in api.crs ==> api.crs[ck].spec.ComputeSpec?
    modifies api`deployments
    ensures Outcome(api.Value(), ok) == ReconcileLeaf(api.types, old(api.Value()), ck, SchedulingController)
  {
    if ck !in api.crs {
      return true;
    }
    var spec := api.crs[ck].spec;
    if spec.targetRef.resource == "" {
      return true;
    }
    ok := ScheduleTarget(api, ck, spec);
  }

  method ScheduleTarget(api: ApiServer, ck: CrKey, spec: Spec) returns (ok: bool)
    requires spec.ComputeSpec?
    modifies api`deployments
    ensures Outcome(api.Value(), ok) == ReconcileDeployment(api.types, old(api.Value()), ck, spec, SchedulingController)
  {
    var key := ObjectKey(ck.namespace, spec.targetRef.resource);
    var deployFound := spec.targetRef.kind == "Deployment" && key in api.deployments;
    if deployFound && spec.scheduling.IsSet() {
      var deploy := Load(api.deployments[key]);
      var originalDeploy := SnapshotThenSchedule(deploy, spec.scheduling);
      ok := HatchAndPatch(api, key, originalDeploy.Value(), deploy.Value(), spec.hatches);
    } else {
      ok := true;
    }
  }

  method ReconcileVolumes(api: ApiServer, ck: CrKey) returns (ok: bool)
    requires ck in api.crs ==> api.crs[ck].spec.StorageSpec?
    modifies api`deployments
    ensures Outcome(api.Value(), ok) == ReconcileLeaf(api.types, old(api.Value()), ck, VolumesController)
  {
    if ck !in api.crs {
      return true;
    }
    var spec := api.crs[ck].spec;
    if spec.targetRef.resource == "" {
      return true;
    }
    ok := true;
    if spec.targetRef.kind == "Deployment" {
      ok := AttachToTarget(api, ck, spec);
    }
  }

  method AttachToTarget(api: ApiServer, ck: CrKey, spec: Spec) returns (ok: bool)
    requires spec.StorageSpec? && spec.targetRef.kind == "Deployment"
    modifies api`deployments
    ensures Outcome(api.Value(), ok) == ReconcileDeployment(api.types, old(api.Value()), ck, spec, VolumesController)
  {
    var key := ObjectKey(ck.namespace, spec.targetRef.resource);
    if key !in api.deployments {
      return true;
    }
    var deploy := Load(api.deployments[key]);
    var originalDeploy := SnapshotThenAttach(deploy, ck.name, spec.volumes);
    ok := HatchAndPatch(api, key, originalDeploy.Value(), deploy.Value(), spec.hatches);
  }

  /** From the documents that the snapshot and the edited Deployment marshal to. */
  method HatchAndPatch(api: ApiServer, key: ObjectKey, original: Deployment, edited: Deployment, hatches: seq<Hatch>)
    returns (ok: bool)
    requires key in api.deployments && api.deployments[key] == original
    modifies api`deployments
    ensures Outcome(api.Value(), ok) == PatchOutcome(api.types, old(api.Value()), key, hatches, edited)
  {
    var deploy := new KubeObject(Encode(edited));
    var patched := ApplyEscapeHatches(api.types, deploy, hatches, "Deployment");
    if patched.Failure? || !patched.value.doc.Obj? {
      return false;
    }
    ok := api.Patch(key, original, patched.value.doc);
  }

  // ----- Watches

  /** The resources of one capability in a namespace, in the arbitrary order of a List call. */
  method List(api: ApiServer, cap: Capability, namespace: string) returns (items: seq<CrKey>)
    ensures forall k :: k in items <==> k in api.crs && k.cap == cap && k.namespace == namespace
    ensures forall i, j :: 0 <= i < j < |items| ==> items[i] != items[j]
  {
    items := [];
    var rest := api.crs.Keys;
    while rest != {}
      invariant rest <= api.crs.Keys
      invariant forall k :: k in items <==> k in api.crs && k !in rest && k.cap == cap && k.namespace == namespace
      invariant forall i, j :: 0 <= i < j < |items| ==> items[i] != items[j]
      decreases |rest|
    {
      var k :| k in rest;
      rest := rest - {k};
      if k.cap == cap && k.namespace == namespace {
        items := items + [k];
      }
    }
  }

  /**
   findStoragesForDeployment and findComputesForDeployment: without duplicates, exactly the
   resources of the capability whose reconcile looks the Deployment up.
   */
  method FindForDeployment(api: ApiServer, cap: Capability, d: ObjectKey) returns (requests: seq<CrKey>)
    ensures forall k :: k in requests <==>
              k in api.crs && k.cap == cap && k.namespace == d.namespace && api.crs[k].spec.targetRef.resource != "" &&
              api.crs[k].spec.targetRef.kind == "Deployment" && api.crs[k].spec.targetRef.resource == d.name
    ensures forall i, j :: 0 <= i < j < |requests| ==> requests[i] != requests[j]
  {
    var items := List(api, cap, d.namespace);
    requests := [];
    for n := 0 to |items|
      invariant forall k :: k in requests <==> k in items[..n] && LooksUp(api.Value(), k, d)
      invariant forall i, j :: 0 <= i < j < |requests| ==> requests[i] != requests[j]
    {
      var item := items[n];
      assert items[..n + 1] == items[..n] + [item];
      assert item !in items[..n];
      assert item in items;
      var target := api.crs[item].spec.targetRef;
      if target.resource != "" && target.kind == "Deployment" && target.resource == d.name {
        requests := requests + [item];
      }
    }
    assert items[..|items|] == items;
  }
}
