/**
 The state of the API server that the reconcilers share, and each Reconcile as a function on it:
 Workloads own capability resources (first layer), capability resources own leaf objects and edit
 the Deployment they target (second layer).
 */
module Cluster {
  import opened Wrappers
  import opened JsonTree
  import opened TreeEdit
  import opened EscapeHatch
  import opened Specs
  import opened Deployments
  import opened DeploymentWriters
  import opened IngressRules

  datatype ObjectKey = ObjectKey(namespace: string, name: string)
  datatype CrKey = CrKey(cap: Capability, namespace: string, name: string)
  datatype LeafKind = Hpa | Pdb | Service | Ingress | Pvc | Role | RoleBinding
  datatype LeafKey = LeafKey(kind: LeafKind, namespace: string, name: string)

  /** The controller reference of an object; the owner lives in the same namespace or is cluster-scoped. */
  datatype Owner = Owner(kind: string, name: string)

  datatype Cr = Cr(owner: Option<Owner>, spec: Spec)
  datatype Leaf = Leaf(owner: Option<Owner>, doc: Json)

  datatype State = State(
    workloads: map<string, WorkloadSpec>,
    crs: map<CrKey, Cr>,
    deployments: map<ObjectKey, Deployment>,
    leaves: map<LeafKey, Leaf>)

  /** `ok` is whether Reconcile returned without error; on an error the request is queued again. */
  datatype Outcome = Outcome(state: State, ok: bool)
  datatype LeafOutcome = LeafOutcome(leaves: map<LeafKey, Leaf>, ok: bool)

  /** SetControllerReference succeeds unless another controller is already set. */
  predicate MayControl(existing: Option<Owner>, o: Owner) {
    existing.None? || existing.value == o
  }

  // ----- First layer

  function CapName(cap: Capability): string {
    match cap
    case Compute => "Compute"
    case Storage => "Storage"
    case Networking => "Networking"
    case Observability => "Observability"
    case Security => "Security"
  }

  function Suffix(cap: Capability): string {
    match cap
    case Compute => "-compute"
    case Storage => "-storage"
    case Networking => "-networking"
    case Observability => "-observability"
    case Security => "-security"
  }

  function ChildKey(w: string, ws: WorkloadSpec, cap: Capability): CrKey {
    CrKey(cap, ws.targetRef.namespace, w + Suffix(cap))
  }

  function WorkloadOwner(w: string): Owner {
    Owner("Workload", w)
  }

  /** The spec of a child: the capability's settings under the Workload's own target. */
  function Desired(ws: WorkloadSpec, cap: Capability): Spec {
    ws.Of(cap).(targetRef := ws.targetRef)
  }

  /** The entry of the child after a reconcile; None for the result means an error. */
  function ChildAfter(ws: WorkloadSpec, w: string, cap: Capability, child: Option<Cr>): Option<Option<Cr>> {
    if ws.Of(cap).targetRef.resource == "" then Some(None)
    else if child.Some? && !MayControl(child.value.owner, WorkloadOwner(w)) then None
    else Some(Some(Cr(Some(WorkloadOwner(w)), Desired(ws, cap))))
  }

  function PutEntry<K, V>(m: map<K, V>, k: K, v: Option<V>): map<K, V> {
    match v
    case None => m - {k}
    case Some(x) => m[k := x]
  }

  function ReconcileChild(c: State, w: string, cap: Capability): Outcome {
    if w !in c.workloads || c.workloads[w].targetRef.namespace == "" then Outcome(c, true)
    else
      var ws := c.workloads[w];
      var key := ChildKey(w, ws, cap);
      match ChildAfter(ws, w, cap, Get(c.crs, key))
      case None => Outcome(c, false)
      case Some(after) => Outcome(c.(crs := PutEntry(c.crs, key, after)), true)
  }

  // ----- Leaf objects

  function KindName(kind: LeafKind): string {
    match kind
    case Hpa => "HorizontalPodAutoscaler"
    case Pdb => "PodDisruptionBudget"
    case Service => "Service"
    case Ingress => "Ingress"
    case Pvc => "PersistentVolumeClaim"
    case Role => "Role"
    case RoleBinding => "RoleBinding"
  }

  function CrOwner(ck: CrKey): Owner {
    Owner(CapName(ck.cap), ck.name)
  }

  /** What a Reconcile does to one leaf; `Reject` is an error raised before anything is written. */
  datatype LeafOp = Erase(key: LeafKey) | Write(key: LeafKey, managed: Edit) | Reject

  /**
   CreateOrUpdate: mutate the stored object (or a blank one), claim it, then run the escape hatches.
   Fields that `managed` does not name survive from the stored object.
   */
  function WriteLeaf(types: Types, owner: Owner, hatches: seq<Hatch>, kind: LeafKind, managed: Edit,
                     stored: Option<Leaf>): Option<Leaf> {
    var blank := if stored.Some? then stored.value.doc else Obj(map[]);
    var mutated := Apply(managed, Some(blank)).GetOr(Null);
    if stored.Some? && !MayControl(stored.value.owner, owner) then None
    else match ApplyHatches(types, KindName(kind), hatches, mutated)
      case Failure(_) => None
      case Success(doc) => Some(Leaf(Some(owner), doc))
  }

  function ExecOp(types: Types, owner: Owner, hatches: seq<Hatch>, op: LeafOp,
                  leaves: map<LeafKey, Leaf>): LeafOutcome {
    match op
    case Erase(key) => LeafOutcome(leaves - {key}, true)
    case Reject => LeafOutcome(leaves, false)
    case Write(key, managed) =>
      (match WriteLeaf(types, owner, hatches, key.kind, managed, Get(leaves, key))
       case None => LeafOutcome(leaves, false)
       case Some(leaf) => LeafOutcome(leaves[key := leaf], true))
  }

  /** The operations in order, up to and including the first that fails. */
  function Exec(types: Types, owner: Owner, hatches: seq<Hatch>, ops: seq<LeafOp>,
                leaves: map<LeafKey, Leaf>): LeafOutcome {
    if ops == [] then LeafOutcome(leaves, true)
    else
      var first := ExecOp(types, owner, hatches, ops[0], leaves);
      if first.ok then Exec(types, owner, hatches, ops[1..], first.leaves) else first
  }

  lemma ExecSingle(types: Types, owner: Owner, hatches: seq<Hatch>, plan: seq<LeafOp>, leaves: map<LeafKey, Leaf>)
    requires |plan| == 1
    ensures Exec(types, owner, hatches, plan, leaves) == ExecOp(types, owner, hatches, plan[0], leaves)
  {
    var first := ExecOp(types, owner, hatches, plan[0], leaves);
    assert Exec(types, owner, hatches, plan[1..], first.leaves) == LeafOutcome(first.leaves, true);
  }

  function SpecEdit(fields: map<string, Edit>): Edit {
    Into(map["spec" := Into(fields)])
  }

  /** The fields below spec. */
  function SpecOf(doc: Json): map<string, Json> {
    Fields(Member(doc, "spec"))
  }

  function SetTo(v: Json): Edit {
    Set(Some(v))
  }

  /** Assign the field, or clear it when there is no value. */
  function SetIf(present: bool, v: Json): Edit {
    Set(if present then Some(v) else None)
  }

  function Metric(resource: string, percentage: int): Json {
    Obj(map["type" := Str("Resource"),
            "resource" := Obj(map["name" := Str(resource),
                                  "target" := Obj(map["type" := Str("Utilization"),
                                                      "averageUtilization" := Num(percentage)])])])
  }

  function Metrics(a: Autoscaling): seq<Json> {
    (if a.targetCpu > 0 then [Metric("cpu", a.targetCpu)] else [])
    + (if a.targetMemory > 0 then [Metric("memory", a.targetMemory)] else [])
  }

  function ScaleTarget(target: ResourceRef): Json {
    Obj(OmitEmpty("apiVersion", target.apiVersion) + map["kind" := Str(target.kind), "name" := Str(target.resource)])
  }

  function HpaFields(target: ResourceRef, a: Autoscaling, metrics: seq<Json>): map<string, Edit> {
    map["scaleTargetRef" := SetTo(ScaleTarget(target)),
        "maxReplicas" := SetTo(Num(a.maxReplicas)),
        "minReplicas" := SetIf(a.minReplicas > 0, Num(a.minReplicas)),
        "metrics" := SetIf(metrics != [], Arr(metrics))]
  }

  function HpaEdit(target: ResourceRef, a: Autoscaling, metrics: seq<Json>): Edit {
    SpecEdit(HpaFields(target, a, metrics))
  }

  function AppSelector(target: ResourceRef): Json {
    Obj(map["app" := Str(target.resource)])
  }

  function PdbFields(selector: Json, minAvailable: IntOrString, maxUnavailable: IntOrString): map<string, Edit> {
    if minAvailable.IsSet() then
      map["selector" := SetTo(selector), "minAvailable" := SetTo(minAvailable.ToJson()), "maxUnavailable" := Set(None)]
    else if maxUnavailable.IsSet() then
      map["selector" := SetTo(selector), "maxUnavailable" := SetTo(maxUnavailable.ToJson()),
          "minAvailable" := Set(None)]
    else map["selector" := SetTo(selector)]
  }

  function PdbEdit(selector: Json, minAvailable: IntOrString, maxUnavailable: IntOrString): Edit {
    SpecEdit(PdbFields(selector, minAvailable, maxUnavailable))
  }

  /** The selector of the target Deployment if it can be read, else one on the target's name. */
  function PdbSelector(deployments: map<ObjectKey, Deployment>, namespace: string, target: ResourceRef): Json {
    var key := ObjectKey(namespace, target.resource);
    if target.kind == "Deployment" && key in deployments && deployments[key].Selector().Some?
    then deployments[key].Selector().value
    else Obj(map["matchLabels" := AppSelector(target)])
  }

  function EncodePort(p: ServicePort): Json {
    Obj(p.extra["port" := Num(p.port)])
  }

  function EncodePorts(ports: seq<ServicePort>): Json {
    Arr(seq(|ports|, i requires 0 <= i < |ports| => EncodePort(ports[i])))
  }

  function ServiceFields(target: ResourceRef, ports: seq<ServicePort>, serviceType: string): map<string, Edit> {
    map["selector" := SetTo(AppSelector(target)),
        "ports" := SetTo(EncodePorts(ports)),
        "type" := SetIf(serviceType != "", Str(serviceType))]
  }

  function ServiceEdit(target: ResourceRef, ports: seq<ServicePort>, serviceType: string): Edit {
    SpecEdit(ServiceFields(target, ports, serviceType))
  }

  function IngressFields(rules: seq<Rule>, hosts: seq<string>, secretName: string): map<string, Edit> {
    map["rules" := SetTo(EncodeRules(rules)),
        "tls" := SetIf(secretName != "", EncodeTls(hosts, secretName))]
  }

  function IngressEdit(rules: seq<Rule>, hosts: seq<string>, secretName: string): Edit {
    SpecEdit(IngressFields(rules, hosts, secretName))
  }

  predicate HasIngress(net: Spec)
    requires net.NetworkingSpec?
  {
    |net.publicRoutes| > 0 || |net.privateRoutes| > 0 || net.tlsSecretName != ""
  }

  function AccessModes(vol: VolumeSpec): seq<string> {
    if vol.accessModes == [] then ["ReadWriteOnce"] else vol.accessModes
  }

  function EncodeStrings(xs: seq<string>): Json {
    Arr(seq(|xs|, i requires 0 <= i < |xs| => Str(xs[i])))
  }

  function StorageRequest(quantity: Json): Json {
    Obj(map["requests" := Obj(map["storage" := quantity])])
  }

  function PvcFields(accessModes: seq<string>, quantity: Json, storageClassName: string): map<string, Edit> {
    map["accessModes" := SetTo(EncodeStrings(accessModes)),
        "resources" := SetTo(StorageRequest(quantity)),
        "storageClassName" := SetIf(storageClassName != "", Str(storageClassName))]
  }

  function PvcEdit(accessModes: seq<string>, quantity: Json, storageClassName: string): Edit {
    SpecEdit(PvcFields(accessModes, quantity, storageClassName))
  }

  function PvcKey(ck: CrKey, volume: string): LeafKey {
    LeafKey(Pvc, ck.namespace, ClaimName(ck.name, volume))
  }

  function PvcOp(ck: CrKey, storageClassName: string, vol: VolumeSpec): LeafOp {
    if vol.quantity.None? then Reject
    else Write(PvcKey(ck, vol.name), PvcEdit(AccessModes(vol), vol.quantity.value, storageClassName))
  }

  function PvcOps(ck: CrKey, storageClassName: string, vols: seq<VolumeSpec>): seq<LeafOp> {
    seq(|vols|, i requires 0 <= i < |vols| => PvcOp(ck, storageClassName, vols[i]))
  }

  function RoleEdit(rules: seq<Json>): Edit {
    Into(map["rules" := SetTo(if rules == [] then Null else Arr(rules))])
  }

  function RoleName(ck: CrKey): string {
    ck.name + "-role"
  }

  function RoleRef(roleName: string): Json {
    Obj(map["apiGroup" := Str("rbac.authorization.k8s.io"), "kind" := Str("Role"), "name" := Str(roleName)])
  }

  function Subject(account: string, namespace: string): Json {
    Obj(map["kind" := Str("ServiceAccount"), "name" := Str(account), "namespace" := Str(namespace)])
  }

  function RoleBindingEdit(roleName: string, account: string, namespace: string): Edit {
    Into(map["roleRef" := SetTo(RoleRef(roleName)), "subjects" := SetTo(Arr([Subject(account, namespace)]))])
  }

  // ----- Second layer

  datatype Controller =
    | HpaController | PdbController | ServiceController | IngressController
    | PvcController | RoleController | RoleBindingController
    | SchedulingController | VolumesController

  function LeafName(ck: CrKey, suffix: string): string {
    ck.name + suffix
  }

  /** What the leaf controllers do for a resource of this spec; `selector` is what the PDB controller reads. */
  function Plan(ck: CrKey, spec: Spec, ctl: Controller, selector: Json): seq<LeafOp> {
    match (ctl, spec)
    case (HpaController, ComputeSpec(target, _, a, _, _, _)) =>
      var key := LeafKey(Hpa, ck.namespace, LeafName(ck, "-hpa"));
      [if a.maxReplicas == 0 then Erase(key) else Write(key, HpaEdit(target, a, Metrics(a)))]
    case (PdbController, ComputeSpec(_, _, _, _, minAvailable, maxUnavailable)) =>
      var key := LeafKey(Pdb, ck.namespace, LeafName(ck, "-pdb"));
      [if minAvailable.IsSet() || maxUnavailable.IsSet()
       then Write(key, PdbEdit(selector, minAvailable, maxUnavailable))
       else Erase(key)]
    case (ServiceController, NetworkingSpec(target, _, ports, serviceType, _, _, _)) =>
      var key := LeafKey(Service, ck.namespace, target.resource);
      [if ports == [] then Erase(key) else Write(key, ServiceEdit(target, ports, serviceType))]
    case (IngressController, NetworkingSpec(_, _, _, _, _, _, secretName)) =>
      var key := LeafKey(Ingress, ck.namespace, LeafName(ck, "-ingress"));
      [if HasIngress(spec) then Write(key, IngressEdit(Rules(spec), TlsHosts(Rules(spec)), secretName)) else Erase(key)]
    case (PvcController, StorageSpec(_, _, storageClassName, vols)) =>
      PvcOps(ck, storageClassName, vols)
    case (RoleController, SecuritySpec(_, _, createRole, rules)) =>
      var key := LeafKey(Role, ck.namespace, RoleName(ck));
      [if createRole then Write(key, RoleEdit(rules)) else Erase(key)]
    case (RoleBindingController, SecuritySpec(target, _, createRole, _)) =>
      var key := LeafKey(RoleBinding, ck.namespace, LeafName(ck, "-rb"));
      [if createRole then Write(key, RoleBindingEdit(RoleName(ck), target.resource, ck.namespace)) else Erase(key)]
    case (_, _) => []
  }

  /** The edit that a Deployment writer makes, or None when it does not write at all. */
  function DeploymentEdit(ck: CrKey, spec: Spec, ctl: Controller, d: Deployment): Option<Deployment> {
    match (ctl, spec)
    case (SchedulingController, ComputeSpec(_, _, _, scheduling, _, _)) =>
      if scheduling.IsSet() then Some(d.(pod := Schedule(d.pod, scheduling))) else None
    case (VolumesController, StorageSpec(_, _, _, vols)) =>
      Some(d.(pod := AttachVolumes(d.pod, ck.name, vols)))
    case (_, _) => None
  }

  /** Hatch the edited copy, then send the merge diff against the copy that was read. */
  function PatchDeployment(types: Types, hatches: seq<Hatch>, read: Deployment,
                           edited: Deployment): Option<Deployment> {
    match ApplyHatches(types, "Deployment", hatches, Encode(edited))
    case Failure(_) => None
    case Success(doc) => if doc.Obj? then Decode(Merge(Encode(read), Diff(Encode(read), doc))) else None
  }

  predicate WritesDeployments(ctl: Controller) {
    ctl.SchedulingController? || ctl.VolumesController?
  }

  function PatchOutcome(types: Types, c: State, key: ObjectKey, hatches: seq<Hatch>, edited: Deployment): Outcome
    requires key in c.deployments
  {
    StoreIfAny(c, key, PatchDeployment(types, hatches, c.deployments[key], edited))
  }

  function StoreIfAny(c: State, key: ObjectKey, patched: Option<Deployment>): Outcome {
    match patched
    case None => Outcome(c, false)
    case Some(d) => Outcome(c.(deployments := c.deployments[key := d]), true)
  }

  function ReconcileDeployment(types: Types, c: State, ck: CrKey, spec: Spec, ctl: Controller): Outcome {
    var key := ObjectKey(ck.namespace, spec.targetRef.resource);
    if spec.targetRef.kind != "Deployment" || key !in c.deployments then Outcome(c, true)
    else match DeploymentEdit(ck, spec, ctl, c.deployments[key])
      case None => Outcome(c, true)
      case Some(edited) =>
        PatchOutcome(types, c, key, spec.hatches, edited)
  }

  function ReconcileLeaf(types: Types, c: State, ck: CrKey, ctl: Controller): Outcome {
    if ck !in c.crs || c.crs[ck].spec.targetRef.resource == "" then Outcome(c, true)
    else
      var spec := c.crs[ck].spec;
      if WritesDeployments(ctl) then ReconcileDeployment(types, c, ck, spec, ctl)
      else
        var plan := Plan(ck, spec, ctl, PdbSelector(c.deployments, ck.namespace, spec.targetRef));
        var r := Exec(types, CrOwner(ck), spec.hatches, plan, c.leaves);
        Outcome(c.(leaves := r.leaves), r.ok)
  }

  // ----- The whole system

  /** Whether a reconcile of the resource would look up the Deployment `d`. */
  predicate LooksUp(c: State, k: CrKey, d: ObjectKey) {
    k in c.crs && c.crs[k].spec.targetRef.resource != "" && c.crs[k].spec.targetRef.kind == "Deployment" &&
    ObjectKey(k.namespace, c.crs[k].spec.targetRef.resource) == d
  }

  /** One request taken from the work queue of one controller. */
  datatype Request = Child(workload: string, cap: Capability) | ForResource(ck: CrKey, ctl: Controller)

  function Reconcile(types: Types, c: State, r: Request): Outcome {
    match r
    case Child(w, cap) => ReconcileChild(c, w, cap)
    case ForResource(ck, ctl) => ReconcileLeaf(types, c, ck, ctl)
  }
}
