/**
 What single controllers leave at rest, as exact conditions on the stored fields, and the references
 between the objects of a cluster at rest: claims, role bindings, backends and selectors.
 */
module References {
  import opened Wrappers
  import opened JsonTree
  import opened TreeEdit
  import opened EscapeHatch
  import opened NamedList
  import opened Specs
  import opened VolumeUpsert
  import opened Deployments
  import opened DeploymentWriters
  import opened WatchLoop
  import opened IngressRules
  import opened Cluster
  import opened LeafFrames
  import opened Leaves
  import opened Histories
  import opened Fixpoints
  import opened Convergence
  import opened Quiescence
  import opened Schedules

  // ----- One leaf

  /** The store agrees with an operation that no hatch follows. */
  predicate PlainHolds(leaves: map<LeafKey, Leaf>, owner: Owner, op: LeafOp) {
    match op
    case Erase(key) => key !in leaves
    case Reject => false
    case Write(key, managed) =>
      key in leaves && leaves[key].owner == Some(owner) &&
      Apply(managed, Some(leaves[key].doc)) == Some(leaves[key].doc)
  }

  /** An unhatched controller of a single leaf is at rest if and only if the store agrees with its operation. */
  lemma SingleAtRestIff(types: Types, c: State, r: Request)
    requires Live(c, r) && !WritesDeployments(r.ctl) && |PlanIn(c, r)| == 1
    requires PlanIn(c, r)[0].Write? ==> NoHatchesFor(c.crs[r.ck].spec.hatches, KindName(PlanIn(c, r)[0].key.kind))
    ensures AtRest(types, c, r) <==> PlainHolds(c.leaves, CrOwner(r.ck), PlanIn(c, r)[0])
  {
    var op := PlanIn(c, r)[0];
    LeafRequest(types, c, r);
    ExecSingle(types, CrOwner(r.ck), c.crs[r.ck].spec.hatches, PlanIn(c, r), c.leaves);
    if op.Erase? {
      assert c.leaves - {op.key} == c.leaves <==> op.key !in c.leaves;
    } else if op.Write? {
      PlansAssign(r.ck, c.crs[r.ck].spec, r.ctl, Convergence.Selector(c, r.ck, c.crs[r.ck].spec), op);
      UnhatchedWrite(types, CrOwner(r.ck), c.crs[r.ck].spec.hatches, op.key, op.managed, c.leaves);
      WriteFixedIff(c.leaves, CrOwner(r.ck), op.key, op.managed);
    }
  }

  lemma WriteFixedIff(leaves: map<LeafKey, Leaf>, owner: Owner, key: LeafKey, managed: Edit)
    requires managed.Into?
    ensures var stored := if key in leaves then leaves[key].doc else Obj(map[]);
            leaves[key := Leaf(Some(owner), After(managed, stored))] == leaves <==>
            PlainHolds(leaves, owner, Write(key, managed))
  {
    var stored := if key in leaves then leaves[key].doc else Obj(map[]);
    var leaf := Leaf(Some(owner), After(managed, stored));
    if leaves[key := leaf] == leaves {
      assert key in leaves && leaves[key] == leaf;
    }
  }

  // ----- The stored fields on which an assignment does nothing

  /** A metric on the average utilization of one resource. */
  predicate MetricIs(j: Json, resource: string, percentage: int) {
    j == Obj(map["type" := Str("Resource"),
                 "resource" := Obj(map["name" := Str(resource),
                                       "target" := Obj(map["type" := Str("Utilization"),
                                                           "averageUtilization" := Num(percentage)])])])
  }

  /** One metric for each positive utilization target, that of the cpu first. */
  predicate MetricsAre(stored: Option<Json>, cpu: int, memory: int) {
    if cpu <= 0 && memory <= 0 then stored.None?
    else
      stored.Some? && stored.value.Arr? &&
      var items := stored.value.items;
      if memory <= 0 then |items| == 1 && MetricIs(items[0], "cpu", cpu)
      else if cpu <= 0 then |items| == 1 && MetricIs(items[0], "memory", memory)
      else |items| == 2 && MetricIs(items[0], "cpu", cpu) && MetricIs(items[1], "memory", memory)
  }

  /** A reference to the target by kind and name; an empty API version is omitted. */
  predicate RefersTo(j: Option<Json>, target: ResourceRef) {
    j == Some(Obj(if target.apiVersion == "" then map["kind" := Str(target.kind), "name" := Str(target.resource)]
                  else map["apiVersion" := Str(target.apiVersion),
                           "kind" := Str(target.kind), "name" := Str(target.resource)]))
  }

  /** A stored autoscaler scales the target between the bounds, with a metric for each positive utilization target. */
  predicate AutoscalerIs(doc: Json, target: ResourceRef, a: Autoscaling) {
    HasSpec(doc) && RefersTo(Get(SpecOf(doc), "scaleTargetRef"), target) &&
    Get(SpecOf(doc), "maxReplicas") == Some(Num(a.maxReplicas)) &&
    Get(SpecOf(doc), "minReplicas") == (if a.minReplicas > 0 then Some(Num(a.minReplicas)) else None) &&
    MetricsAre(Get(SpecOf(doc), "metrics"), a.targetCpu, a.targetMemory)
  }

  lemma MetricsIff(stored: Option<Json>, a: Autoscaling)
    ensures MetricsAre(stored, a.targetCpu, a.targetMemory) <==>
            stored == if Metrics(a) == [] then None else Some(Arr(Metrics(a)))
  {
    if MetricsAre(stored, a.targetCpu, a.targetMemory) && stored.Some? {
      assert stored.value.items == Metrics(a);
    }
  }

  lemma RefersIff(stored: Option<Json>, target: ResourceRef)
    ensures RefersTo(stored, target) <==> stored == Some(ScaleTarget(target))
  {
    assert target.apiVersion == "" ==>
        ScaleTarget(target).fields == map["kind" := Str(target.kind), "name" := Str(target.resource)];
    assert target.apiVersion != "" ==>
        ScaleTarget(target).fields == map["apiVersion" := Str(target.apiVersion),
                                          "kind" := Str(target.kind), "name" := Str(target.resource)];
  }

  lemma AutoscalerStored(target: ResourceRef, a: Autoscaling, doc: Json)
    ensures Stores(doc, HpaFields(target, a, Metrics(a))) <==> AutoscalerIs(doc, target, a)
  {
    assert HpaFields(target, a, Metrics(a)).Keys == {"scaleTargetRef", "maxReplicas", "minReplicas", "metrics"};
    MetricsIff(Get(SpecOf(doc), "metrics"), a);
    RefersIff(Get(SpecOf(doc), "scaleTargetRef"), target);
  }

  /** A positive number or a text has been given. */
  predicate Given(v: IntOrString) {
    v.intVal > 0 || v.strVal != ""
  }

  /** The text or the number, as its kind says. */
  predicate ValueIs(j: Option<Json>, v: IntOrString) {
    j == Some(if v.isString then Str(v.strVal) else Num(v.intVal))
  }

  /** A stored budget has this selector, and the minimum if it is given, else the maximum. */
  predicate BudgetIs(doc: Json, selector: Json, minAvailable: IntOrString, maxUnavailable: IntOrString) {
    HasSpec(doc) && Get(SpecOf(doc), "selector") == Some(selector) &&
    if Given(minAvailable) then
      ValueIs(Get(SpecOf(doc), "minAvailable"), minAvailable) && Get(SpecOf(doc), "maxUnavailable").None?
    else
      Get(SpecOf(doc), "minAvailable").None? && ValueIs(Get(SpecOf(doc), "maxUnavailable"), maxUnavailable)
  }

  lemma BudgetStored(selector: Json, minAvailable: IntOrString, maxUnavailable: IntOrString, doc: Json)
    requires Given(minAvailable) || Given(maxUnavailable)
    ensures Stores(doc, PdbFields(selector, minAvailable, maxUnavailable)) <==>
            BudgetIs(doc, selector, minAvailable, maxUnavailable)
  {
    assert PdbFields(selector, minAvailable, maxUnavailable).Keys == {"selector", "minAvailable", "maxUnavailable"};
  }

  /** The listed ports in order, each with its number and its other fields. */
  predicate PortsAre(stored: Option<Json>, ports: seq<ServicePort>) {
    stored.Some? && stored.value.Arr? && |stored.value.items| == |ports| &&
    forall i | 0 <= i < |ports| :: stored.value.items[i] == Obj(ports[i].extra["port" := Num(ports[i].port)])
  }

  lemma PortsIff(stored: Option<Json>, ports: seq<ServicePort>)
    ensures PortsAre(stored, ports) <==> stored == Some(EncodePorts(ports))
  {
    if PortsAre(stored, ports) {
      assert stored.value.items == EncodePorts(ports).items;
    }
  }

  /** A stored Service selects the target's pods under the listed ports. */
  predicate ServiceIs(doc: Json, target: ResourceRef, ports: seq<ServicePort>, serviceType: string) {
    HasSpec(doc) && Get(SpecOf(doc), "selector") == Some(Obj(map["app" := Str(target.resource)])) &&
    PortsAre(Get(SpecOf(doc), "ports"), ports) &&
    Get(SpecOf(doc), "type") == (if serviceType == "" then None else Some(Str(serviceType)))
  }

  lemma ServiceStored(target: ResourceRef, ports: seq<ServicePort>, serviceType: string, doc: Json)
    ensures Stores(doc, ServiceFields(target, ports, serviceType)) <==> ServiceIs(doc, target, ports, serviceType)
  {
    assert ServiceFields(target, ports, serviceType).Keys == {"selector", "ports", "type"};
    PortsIff(Get(SpecOf(doc), "ports"), ports);
  }

  /** A stored Ingress has these rules, and a TLS entry for the hosts exactly if a secret is named. */
  predicate IngressIs(doc: Json, rules: seq<Rule>, hosts: seq<string>, secretName: string) {
    HasSpec(doc) && Get(SpecOf(doc), "rules") == Some(EncodeRules(rules)) &&
    Get(SpecOf(doc), "tls") == (if secretName == "" then None else Some(EncodeTls(hosts, secretName)))
  }

  lemma IngressStored(rules: seq<Rule>, hosts: seq<string>, secretName: string, doc: Json)
    ensures Stores(doc, IngressFields(rules, hosts, secretName)) <==> IngressIs(doc, rules, hosts, secretName)
  {
    assert IngressFields(rules, hosts, secretName).Keys == {"rules", "tls"};
  }

  /** The listed modes in order, or ReadWriteOnce alone if none is listed. */
  predicate ModesAre(stored: Option<Json>, modes: seq<string>) {
    stored.Some? && stored.value.Arr? &&
    if modes == [] then stored.value.items == [Str("ReadWriteOnce")]
    else |stored.value.items| == |modes| && forall i | 0 <= i < |modes| :: stored.value.items[i] == Str(modes[i])
  }

  lemma ModesIff(stored: Option<Json>, vol: VolumeSpec)
    ensures ModesAre(stored, vol.accessModes) <==> stored == Some(EncodeStrings(AccessModes(vol)))
  {
    if ModesAre(stored, vol.accessModes) {
      assert stored.value.items == EncodeStrings(AccessModes(vol)).items;
    }
  }

  /** A stored claim asks for exactly the size, the modes and the class of a volume. */
  predicate ClaimIs(doc: Json, vol: VolumeSpec, storageClassName: string) {
    HasSpec(doc) && vol.quantity.Some? &&
    Get(SpecOf(doc), "resources") == Some(Obj(map["requests" := Obj(map["storage" := vol.quantity.value])])) &&
    ModesAre(Get(SpecOf(doc), "accessModes"), vol.accessModes) &&
    Get(SpecOf(doc), "storageClassName") == (if storageClassName == "" then None else Some(Str(storageClassName)))
  }

  lemma ClaimStored(vol: VolumeSpec, storageClassName: string, doc: Json)
    requires vol.quantity.Some?
    ensures Stores(doc, PvcFields(AccessModes(vol), vol.quantity.value, storageClassName)) <==>
            ClaimIs(doc, vol, storageClassName)
  {
    assert PvcFields(AccessModes(vol), vol.quantity.value, storageClassName).Keys ==
             {"resources", "accessModes", "storageClassName"};
    ModesIff(Get(SpecOf(doc), "accessModes"), vol);
  }

  /** A stored Role has these rules. */
  predicate RoleIs(doc: Json, rules: seq<Json>) {
    doc.Obj? && Get(doc.fields, "rules") == Some(if rules == [] then Null else Arr(rules))
  }

  lemma RoleFixedIff(rules: seq<Json>, doc: Json)
    ensures Apply(RoleEdit(rules), Some(doc)) == Some(doc) <==> RoleIs(doc, rules)
  {
    var fields := RoleEdit(rules).members;
    assert fields.Keys == {"rules"};
    FieldsFixedIff(fields, doc);
  }

  /** A stored binding gives the Role to one service account. */
  predicate BindingIs(doc: Json, roleName: string, account: string, namespace: string) {
    doc.Obj? &&
    Get(doc.fields, "roleRef") ==
      Some(Obj(map["apiGroup" := Str("rbac.authorization.k8s.io"),
                   "kind" := Str("Role"), "name" := Str(roleName)])) &&
    Get(doc.fields, "subjects") ==
      Some(Arr([Obj(map["kind" := Str("ServiceAccount"), "name" := Str(account), "namespace" := Str(namespace)])]))
  }

  lemma BindingFixedIff(roleName: string, account: string, namespace: string, doc: Json)
    ensures Apply(RoleBindingEdit(roleName, account, namespace), Some(doc)) == Some(doc) <==>
            BindingIs(doc, roleName, account, namespace)
  {
    var fields := RoleBindingEdit(roleName, account, namespace).members;
    assert fields.Keys == {"roleRef", "subjects"};
    FieldsFixedIff(fields, doc);
  }

  // ----- Single controllers at rest

  function HpaKey(ck: CrKey): LeafKey {
    LeafKey(Hpa, ck.namespace, LeafName(ck, "-hpa"))
  }

  function PdbKey(ck: CrKey): LeafKey {
    LeafKey(Pdb, ck.namespace, LeafName(ck, "-pdb"))
  }

  function ServiceKey(ck: CrKey, net: Spec): LeafKey {
    LeafKey(Service, ck.namespace, net.targetRef.resource)
  }

  function IngressKey(ck: CrKey): LeafKey {
    LeafKey(Ingress, ck.namespace, LeafName(ck, "-ingress"))
  }

  function RoleKey(ck: CrKey): LeafKey {
    LeafKey(Role, ck.namespace, RoleName(ck))
  }

  function BindingKey(ck: CrKey): LeafKey {
    LeafKey(RoleBinding, ck.namespace, LeafName(ck, "-rb"))
  }

  /** The object is there, and the controller of `ck` owns it. */
  predicate Owned(c: State, key: LeafKey, ck: CrKey) {
    key in c.leaves && c.leaves[key].owner == Some(CrOwner(ck))
  }

  lemma HpaAtRest(types: Types, c: State, ck: CrKey)
    requires Live(c, ForResource(ck, HpaController)) && c.crs[ck].spec.ComputeSpec?
    requires NoHatchesFor(c.crs[ck].spec.hatches, "HorizontalPodAutoscaler")
    ensures var spec := c.crs[ck].spec;
            AtRest(types, c, ForResource(ck, HpaController)) <==>
            if spec.autoscaling.maxReplicas == 0 then HpaKey(ck) !in c.leaves
            else Owned(c, HpaKey(ck), ck) && AutoscalerIs(c.leaves[HpaKey(ck)].doc, spec.targetRef, spec.autoscaling)
  {
    var spec := c.crs[ck].spec;
    SingleAtRestIff(types, c, ForResource(ck, HpaController));
    if HpaKey(ck) in c.leaves {
      SpecFixedIff(HpaFields(spec.targetRef, spec.autoscaling, Metrics(spec.autoscaling)), c.leaves[HpaKey(ck)].doc);
      AutoscalerStored(spec.targetRef, spec.autoscaling, c.leaves[HpaKey(ck)].doc);
    }
  }

  lemma PdbAtRest(types: Types, c: State, ck: CrKey)
    requires Live(c, ForResource(ck, PdbController)) && c.crs[ck].spec.ComputeSpec?
    requires NoHatchesFor(c.crs[ck].spec.hatches, "PodDisruptionBudget")
    ensures var spec := c.crs[ck].spec;
            AtRest(types, c, ForResource(ck, PdbController)) <==>
            if !Given(spec.minAvailable) && !Given(spec.maxUnavailable) then PdbKey(ck) !in c.leaves
            else Owned(c, PdbKey(ck), ck) &&
                 BudgetIs(c.leaves[PdbKey(ck)].doc, PdbSelector(c.deployments, ck.namespace, spec.targetRef),
                          spec.minAvailable, spec.maxUnavailable)
  {
    var spec := c.crs[ck].spec;
    var selector := PdbSelector(c.deployments, ck.namespace, spec.targetRef);
    SingleAtRestIff(types, c, ForResource(ck, PdbController));
    if PdbKey(ck) in c.leaves && (Given(spec.minAvailable) || Given(spec.maxUnavailable)) {
      SpecFixedIff(PdbFields(selector, spec.minAvailable, spec.maxUnavailable), c.leaves[PdbKey(ck)].doc);
      BudgetStored(selector, spec.minAvailable, spec.maxUnavailable, c.leaves[PdbKey(ck)].doc);
    }
  }

  lemma ServiceAtRest(types: Types, c: State, ck: CrKey)
    requires Live(c, ForResource(ck, ServiceController)) && c.crs[ck].spec.NetworkingSpec?
    requires NoHatchesFor(c.crs[ck].spec.hatches, "Service")
    ensures var net := c.crs[ck].spec;
            AtRest(types, c, ForResource(ck, ServiceController)) <==>
            if net.ports == [] then ServiceKey(ck, net) !in c.leaves
            else Owned(c, ServiceKey(ck, net), ck) &&
                 ServiceIs(c.leaves[ServiceKey(ck, net)].doc, net.targetRef, net.ports, net.serviceType)
  {
    var net := c.crs[ck].spec;
    SingleAtRestIff(types, c, ForResource(ck, ServiceController));
    if ServiceKey(ck, net) in c.leaves {
      SpecFixedIff(ServiceFields(net.targetRef, net.ports, net.serviceType), c.leaves[ServiceKey(ck, net)].doc);
      ServiceStored(net.targetRef, net.ports, net.serviceType, c.leaves[ServiceKey(ck, net)].doc);
    }
  }

  lemma IngressAtRest(types: Types, c: State, ck: CrKey)
    requires Live(c, ForResource(ck, IngressController)) && c.crs[ck].spec.NetworkingSpec?
    requires NoHatchesFor(c.crs[ck].spec.hatches, "Ingress")
    ensures var net := c.crs[ck].spec;
            AtRest(types, c, ForResource(ck, IngressController)) <==>
            if net.publicRoutes == net.privateRoutes == [] && net.tlsSecretName == "" then IngressKey(ck) !in c.leaves
            else Owned(c, IngressKey(ck), ck) &&
                 IngressIs(c.leaves[IngressKey(ck)].doc, Rules(net), TlsHosts(Rules(net)), net.tlsSecretName)
  {
    IngressPlan(c, ck);
    SingleAtRestIff(types, c, ForResource(ck, IngressController));
    if IngressKey(ck) in c.leaves {
      IngressFixedIff(c.crs[ck].spec, c.leaves[IngressKey(ck)].doc);
    }
  }

  lemma IngressPlan(c: State, ck: CrKey)
    requires Live(c, ForResource(ck, IngressController)) && c.crs[ck].spec.NetworkingSpec?
    ensures var net := c.crs[ck].spec;
            PlanIn(c, ForResource(ck, IngressController)) ==
            [if net.publicRoutes == net.privateRoutes == [] && net.tlsSecretName == "" then Erase(IngressKey(ck))
             else Write(IngressKey(ck), IngressEdit(Rules(net), TlsHosts(Rules(net)), net.tlsSecretName))]
  {
  }

  lemma IngressFixedIff(net: Spec, doc: Json)
    requires net.NetworkingSpec?
    ensures Apply(IngressEdit(Rules(net), TlsHosts(Rules(net)), net.tlsSecretName), Some(doc)) == Some(doc) <==>
            IngressIs(doc, Rules(net), TlsHosts(Rules(net)), net.tlsSecretName)
  {
    SpecFixedIff(IngressFields(Rules(net), TlsHosts(Rules(net)), net.tlsSecretName), doc);
    IngressStored(Rules(net), TlsHosts(Rules(net)), net.tlsSecretName, doc);
  }

  lemma RoleAtRest(types: Types, c: State, ck: CrKey)
    requires Live(c, ForResource(ck, RoleController)) && c.crs[ck].spec.SecuritySpec?
    requires NoHatchesFor(c.crs[ck].spec.hatches, "Role")
    ensures var spec := c.crs[ck].spec;
            AtRest(types, c, ForResource(ck, RoleController)) <==>
            if !spec.createRole then RoleKey(ck) !in c.leaves
            else Owned(c, RoleKey(ck), ck) && RoleIs(c.leaves[RoleKey(ck)].doc, spec.rules)
  {
    var spec := c.crs[ck].spec;
    SingleAtRestIff(types, c, ForResource(ck, RoleController));
    if RoleKey(ck) in c.leaves {
      RoleFixedIff(spec.rules, c.leaves[RoleKey(ck)].doc);
    }
  }

  lemma BindingAtRest(types: Types, c: State, ck: CrKey)
    requires Live(c, ForResource(ck, RoleBindingController)) && c.crs[ck].spec.SecuritySpec?
    requires NoHatchesFor(c.crs[ck].spec.hatches, "RoleBinding")
    ensures var spec := c.crs[ck].spec;
            AtRest(types, c, ForResource(ck, RoleBindingController)) <==>
            if !spec.createRole then BindingKey(ck) !in c.leaves
            else Owned(c, BindingKey(ck), ck) &&
                 BindingIs(c.leaves[BindingKey(ck)].doc, RoleName(ck), spec.targetRef.resource, ck.namespace)
  {
    var spec := c.crs[ck].spec;
    SingleAtRestIff(types, c, ForResource(ck, RoleBindingController));
    if BindingKey(ck) in c.leaves {
      BindingFixedIff(RoleName(ck), spec.targetRef.resource, ck.namespace, c.leaves[BindingKey(ck)].doc);
    }
  }

  // ----- Single requests to the Deployment writers

  /** The resource finds its target, which is a Deployment. */
  predicate FindsTarget(c: State, ck: CrKey) {
    ck in c.crs && c.crs[ck].spec.targetRef.resource != "" && c.crs[ck].spec.targetRef.kind == "Deployment" &&
    ObjectKey(ck.namespace, c.crs[ck].spec.targetRef.resource) in c.deployments
  }

  /** None of the five scheduling settings is given. */
  predicate Unscheduled(s: Scheduling) {
    s.nodeSelector == map[] && s.affinity.nodeAffinity.None? && s.affinity.podAffinity.None? &&
    s.affinity.podAntiAffinity.None? && s.spread == []
  }

  /**
   One request to the Compute writer: without a target, or without any scheduling setting, it has no
   effect; else, unhatched, it replaces the three scheduling fields of the target and nothing else.
   */
  lemma SchedulingOutcome(types: Types, c: State, ck: CrKey)
    requires ck in c.crs ==> c.crs[ck].spec.ComputeSpec?
    ensures var r := Reconcile(types, c, ForResource(ck, SchedulingController));
            if !FindsTarget(c, ck) || Unscheduled(c.crs[ck].spec.scheduling) then r == Outcome(c, true)
            else
              NoHatchesFor(c.crs[ck].spec.hatches, "Deployment") ==>
              var s := c.crs[ck].spec.scheduling;
              var d := ObjectKey(ck.namespace, c.crs[ck].spec.targetRef.resource);
              d in r.state.deployments &&
              var pod := r.state.deployments[d].pod;
              r == Outcome(c.(deployments := c.deployments[d := c.deployments[d].(pod := pod)]), true) &&
              pod == c.deployments[d].pod.(
                nodeSelector := s.nodeSelector, affinity := pod.affinity, spread := s.spread) &&
              AffinityIs(pod.affinity, s.affinity)
  {
    if FindsTarget(c, ck) {
      IsSetIff(c.crs[ck].spec.scheduling);
      if !Unscheduled(c.crs[ck].spec.scheduling) && NoHatchesFor(c.crs[ck].spec.hatches, "Deployment") {
        ActsOnTarget(types, c, ck, SchedulingController);
        ScheduleMeans(c.deployments[Target(ck, c.crs[ck].spec)].pod, c.crs[ck].spec.scheduling);
      }
    }
  }

  /** An unhatched request that finds its target stores its edit there. */
  lemma ActsOnTarget(types: Types, c: State, ck: CrKey, ctl: Controller)
    requires WritesDeployments(ctl) && FindsTarget(c, ck) && NoHatchesFor(c.crs[ck].spec.hatches, "Deployment")
    ensures var spec := c.crs[ck].spec;
            var d := ObjectKey(ck.namespace, spec.targetRef.resource);
            var e := DeploymentEdit(ck, spec, ctl, c.deployments[d]);
            Reconcile(types, c, ForResource(ck, ctl)) ==
            Outcome(if e.None? then c else c.(deployments := c.deployments[d := e.value]), true)
  {
    DeploymentRequest(types, c, ForResource(ck, ctl));
  }

  /**
   One request to the Storage writer: without a target it has no effect; else, unhatched, it changes
   volumes and mounts of the target, and these name by name as listed.
   */
  lemma VolumesOutcome(types: Types, c: State, ck: CrKey, n: string)
    requires ck in c.crs ==> c.crs[ck].spec.StorageSpec?
    ensures var r := Reconcile(types, c, ForResource(ck, VolumesController));
            if !FindsTarget(c, ck) then r == Outcome(c, true)
            else
              NoHatchesFor(c.crs[ck].spec.hatches, "Deployment") ==>
              var d := ObjectKey(ck.namespace, c.crs[ck].spec.targetRef.resource);
              d in r.state.deployments &&
              r == Outcome(c.(deployments := c.deployments[d := r.state.deployments[d]]), true) &&
              AttachedTo(r.state.deployments[d], c.deployments[d], ck.name, c.crs[ck].spec.volumes, n)
  {
    if FindsTarget(c, ck) {
      var spec := c.crs[ck].spec;
      if NoHatchesFor(spec.hatches, "Deployment") {
        ActsOnTarget(types, c, ck, VolumesController);
        AttachMeans(c.deployments[Target(ck, spec)].pod, ck.name, spec.volumes, n);
      }
    }
  }

  /** Outside volumes and first mounts the Deployment is as before, and what they hold under `n` is as listed. */
  predicate AttachedTo(after: Deployment, before: Deployment, storage: string, vols: seq<VolumeSpec>, n: string) {
    var p, q := before.pod, after.pod;
    after == before.(pod := p.(volumes := q.volumes, containers := q.containers)) &&
    |q.containers| == |p.containers| &&
    (p.containers != [] ==>
       q.containers[1..] == p.containers[1..] && q.containers[0].extra == p.containers[0].extra) &&
    match Last(vols, n)
    case None =>
      Lookup(q.volumes, n) == Lookup(p.volumes, n) &&
      (p.containers != [] ==> Lookup(q.containers[0].mounts, n) == Lookup(p.containers[0].mounts, n))
    case Some(v) =>
      Lookup(q.volumes, n) == Some(map["persistentVolumeClaim" := Obj(map["claimName" := Str(storage + "-" + n)])]) &&
      (p.containers != [] ==>
         Lookup(q.containers[0].mounts, n).Some? && Lookup(q.containers[0].mounts, n).value.path == v.mountPath)
  }

  /** A Compute is at rest if and only if its target, if there is one, has all its settings, if there is any. */
  lemma SchedulingAtRest(types: Types, c: State, ck: CrKey)
    requires Live(c, ForResource(ck, SchedulingController)) && c.crs[ck].spec.ComputeSpec?
    requires NoHatchesFor(c.crs[ck].spec.hatches, "Deployment")
    ensures var s := c.crs[ck].spec.scheduling;
            AtRest(types, c, ForResource(ck, SchedulingController)) <==>
            !FindsTarget(c, ck) || Unscheduled(s) ||
            var pod := c.deployments[ObjectKey(ck.namespace, c.crs[ck].spec.targetRef.resource)].pod;
            pod.nodeSelector == s.nodeSelector && AffinityIs(pod.affinity, s.affinity) && pod.spread == s.spread
  {
    var s := c.crs[ck].spec.scheduling;
    var d := ObjectKey(ck.namespace, c.crs[ck].spec.targetRef.resource);
    SchedulingOutcome(types, c, ck);
    if FindsTarget(c, ck) && !Unscheduled(s) {
      var after := Reconcile(types, c, ForResource(ck, SchedulingController)).state.deployments[d];
      if AffinityIs(c.deployments[d].pod.affinity, s.affinity) {
        AffinityUnique(after.pod.affinity, c.deployments[d].pod.affinity, s.affinity);
      }
      assert c.deployments[d := after] == c.deployments <==> after == c.deployments[d] by {
        assert c.deployments[d := after][d] == after;
      }
    }
  }

  lemma AffinityUnique(x: Option<Json>, y: Option<Json>, a: Affinity)
    requires AffinityIs(x, a) && AffinityIs(y, a)
    ensures x == y
  {
    forall k
      ensures Get(x.value.fields, k) == Get(y.value.fields, k)
    {
      if k !in {"nodeAffinity", "podAffinity", "podAntiAffinity"} {
        assert k !in x.value.fields && k !in y.value.fields;
      }
    }
    SameEntries(x.value.fields, y.value.fields);
  }

  // ----- Requests without a target

  /** The request is for a resource that is gone or names no target. */
  predicate Aimless(c: State, r: Request) {
    r.ForResource? && (r.ck !in c.crs || c.crs[r.ck].spec.targetRef.resource == "")
  }

  /** No run of such requests changes anything. */
  lemma {:induction false} AimlessRun(types: Types, c: State, rs: seq<Request>)
    requires forall r | r in rs :: Aimless(c, r)
    ensures Run(StepOf(types), c, rs) == c && forall r | r in rs :: Reconcile(types, c, r).ok
  {
    if rs != [] {
      assert Aimless(c, rs[0]) && Reconcile(types, c, rs[0]) == Outcome(c, true);
      assert StepOf(types)(c, rs[0]) == c;
      AimlessRun(types, c, rs[1..]);
      assert forall r :: r in rs <==> r == rs[0] || r in rs[1..];
    }
  }

  // ----- Referential integrity

  lemma HeldClaim(leaves: map<LeafKey, Leaf>, ck: CrKey, storageClassName: string, vol: VolumeSpec)
    requires HoldsVolume(leaves, ck, storageClassName, vol)
    ensures var claim := PvcKey(ck, vol.name);
            claim in leaves && leaves[claim].owner == Some(CrOwner(ck)) &&
            ClaimIs(leaves[claim].doc, vol, storageClassName)
  {
    var doc := leaves[PvcKey(ck, vol.name)].doc;
    SpecFixedIff(PvcFields(AccessModes(vol), vol.quantity.value, storageClassName), doc);
    ClaimStored(vol, storageClassName, doc);
  }

  /**
   After a pass that succeeds, at rest or not, the claim of each listed volume belongs to the Storage
   and asks for what the last volume of that name asks for.
   */
  lemma PassStoresClaims(types: Types, ck: CrKey, hs: seq<Hatch>, storageClassName: string, vols: seq<VolumeSpec>,
                         leaves: map<LeafKey, Leaf>, n: string)
    requires NoHatchesFor(hs, "PersistentVolumeClaim") && Last(vols, n).Some?
    requires Exec(types, CrOwner(ck), hs, PvcOps(ck, storageClassName, vols), leaves).ok
    ensures var after := Exec(types, CrOwner(ck), hs, PvcOps(ck, storageClassName, vols), leaves).leaves;
            var claim := LeafKey(Pvc, ck.namespace, ck.name + "-" + n);
            claim in after && after[claim].owner == Some(CrOwner(ck)) &&
            ClaimIs(after[claim].doc, Last(vols, n).value, storageClassName)
  {
    var after := Exec(types, CrOwner(ck), hs, PvcOps(ck, storageClassName, vols), leaves).leaves;
    PvcLastWins(types, ck, hs, storageClassName, vols, leaves, n);
    LastListed(vols, n);
    HeldClaim(after, ck, storageClassName, Last(vols, n).value);
  }

  /**
   At rest a listed volume has a stored claim of the Storage, which asks for exactly the size, the
   modes and the class of the last volume listed under that name; duplicate names are allowed.
   */
  lemma ClaimsStored(types: Types, c: State, ck: CrKey, vol: VolumeSpec)
    requires Live(c, ForResource(ck, PvcController)) && c.crs[ck].spec.StorageSpec? && vol in c.crs[ck].spec.volumes
    requires NoHatchesFor(c.crs[ck].spec.hatches, "PersistentVolumeClaim")
    ensures var claim := PvcKey(ck, vol.name);
            var last := Last(c.crs[ck].spec.volumes, vol.name);
            AtRest(types, c, ForResource(ck, PvcController)) ==>
            Owned(c, claim, ck) && last.Some? &&
            ClaimIs(c.leaves[claim].doc, last.value, c.crs[ck].spec.storageClassName)
  {
    if AtRest(types, c, ForResource(ck, PvcController)) {
      var spec := c.crs[ck].spec;
      LeafRequest(types, c, ForResource(ck, PvcController));
      LastListed(spec.volumes, vol.name);
      PassStoresClaims(types, ck, spec.hatches, spec.storageClassName, spec.volumes, c.leaves, vol.name);
    }
  }

  /**
   Every claim put on a Deployment names an existing claim of the same Storage, and every managed
   mount names a volume of the Deployment; duplicate volume names are allowed.
   */
  lemma ClaimsExist(types: Types, c: State, ck: CrKey, vol: VolumeSpec)
    requires Live(c, ForResource(ck, PvcController)) && c.crs[ck].spec.StorageSpec? && vol in c.crs[ck].spec.volumes
    requires NoHatchesFor(c.crs[ck].spec.hatches, "Deployment")
    requires NoHatchesFor(c.crs[ck].spec.hatches, "PersistentVolumeClaim")
    requires c.crs[ck].spec.targetRef.kind == "Deployment" && Target(ck, c.crs[ck].spec) in c.deployments
    ensures var pod := c.deployments[Target(ck, c.crs[ck].spec)].pod;
            var claim := PvcKey(ck, vol.name);
            AtRest(types, c, ForResource(ck, PvcController)) && AtRest(types, c, ForResource(ck, VolumesController)) ==>
            Lookup(pod.volumes, vol.name) ==
              Some(map["persistentVolumeClaim" := Obj(map["claimName" := Str(ck.name + "-" + vol.name)])]) &&
            claim.name == ck.name + "-" + vol.name && Owned(c, claim, ck) &&
            (pod.containers != [] ==>
               Lookup(pod.containers[0].mounts, vol.name).Some? && Last(c.crs[ck].spec.volumes, vol.name).Some? &&
               Lookup(pod.containers[0].mounts, vol.name).value.path ==
                 Last(c.crs[ck].spec.volumes, vol.name).value.mountPath)
  {
    if AtRest(types, c, ForResource(ck, PvcController)) && AtRest(types, c, ForResource(ck, VolumesController)) {
      TargetHolds(types, c, ForResource(ck, VolumesController));
      ClaimsStored(types, c, ck, vol);
    }
  }

  lemma RoleRefNames(roleName: string)
    ensures Member(RoleRef(roleName), "name") == Str(roleName) && Member(RoleRef(roleName), "kind") == Str("Role")
  {
  }

  lemma RoleAndBinding(types: Types, c: State, ck: CrKey)
    requires Live(c, ForResource(ck, RoleController)) && c.crs[ck].spec.SecuritySpec?
    requires NoHatchesFor(c.crs[ck].spec.hatches, "RoleBinding")
    ensures var spec := c.crs[ck].spec;
            AtRest(types, c, ForResource(ck, RoleController)) &&
            AtRest(types, c, ForResource(ck, RoleBindingController)) ==>
            (RoleKey(ck) in c.leaves <==> spec.createRole) && (BindingKey(ck) in c.leaves <==> spec.createRole) &&
            (spec.createRole ==>
               BindingIs(c.leaves[BindingKey(ck)].doc, RoleName(ck), spec.targetRef.resource, ck.namespace))
  {
    if AtRest(types, c, ForResource(ck, RoleController)) {
      SingleHolds(types, c, ForResource(ck, RoleController));
      BindingAtRest(types, c, ck);
      if c.crs[ck].spec.createRole {
        assert RoleKey(ck) in c.leaves;
      } else {
        assert RoleKey(ck) !in c.leaves - {RoleKey(ck)};
      }
    }
  }

  /**
   A RoleBinding exists exactly when its Role does; it then refers to the Role by kind and name, and
   its one subject is the service account named after the target.
   */
  lemma RoleBindingIffRole(types: Types, c: State, ck: CrKey)
    requires Live(c, ForResource(ck, RoleController)) && c.crs[ck].spec.SecuritySpec?
    requires NoHatchesFor(c.crs[ck].spec.hatches, "RoleBinding")
    ensures var account := c.crs[ck].spec.targetRef.resource;
            AtRest(types, c, ForResource(ck, RoleController)) &&
            AtRest(types, c, ForResource(ck, RoleBindingController)) ==>
            (BindingKey(ck) in c.leaves <==> RoleKey(ck) in c.leaves) &&
            (RoleKey(ck) in c.leaves <==> c.crs[ck].spec.createRole) &&
            (BindingKey(ck) in c.leaves ==>
               var doc := c.leaves[BindingKey(ck)].doc;
               Member(Member(doc, "roleRef"), "name") == Str(RoleKey(ck).name) &&
               Member(Member(doc, "roleRef"), "kind") == Str("Role") &&
               Member(doc, "subjects") ==
                 Arr([Obj(map["kind" := Str("ServiceAccount"), "name" := Str(account),
                              "namespace" := Str(ck.namespace)])]))
  {
    RoleAndBinding(types, c, ck);
    RoleRefNames(RoleName(ck));
  }

  lemma SingleHolds(types: Types, c: State, r: Request)
    requires Live(c, r) && !WritesDeployments(r.ctl) && AtRest(types, c, r) && |PlanIn(c, r)| == 1
    ensures ExecOp(types, CrOwner(r.ck), c.crs[r.ck].spec.hatches, PlanIn(c, r)[0], c.leaves) ==
              LeafOutcome(c.leaves, true)
  {
    LeafRequest(types, c, r);
    ExecSingle(types, CrOwner(r.ck), c.crs[r.ck].spec.hatches, PlanIn(c, r), c.leaves);
  }

  predicate OffersPort(ports: Json, number: Json) {
    exists p :: p in ItemsOf(ports) && Member(p, "port") == number
  }

  lemma StoredPorts(net: Spec, port: int)
    requires net.NetworkingSpec?
    ensures OffersPort(EncodePorts(net.ports), Num(port)) <==> HasPort(net, port)
  {
    var items := ItemsOf(EncodePorts(net.ports));
    assert |items| == |net.ports| && forall i: nat :: i < |items| ==> items[i] == EncodePort(net.ports[i]);
    if sp :| sp in net.ports && sp.port == port {
      var i :| 0 <= i < |net.ports| && net.ports[i] == sp;
      assert items[i] in items && Member(items[i], "port") == Num(port);
    }
  }

  /** Some rule of a stored rule list has the path item. */
  predicate PathStored(rules: Json, p: Json) {
    exists r :: r in ItemsOf(rules) && PathIn(r, p)
  }

  lemma PathStoredIff(rules: seq<Rule>, p: Json)
    ensures PathStored(EncodeRules(rules), p) <==> exists r, q :: r in rules && q in r.paths && p == EncodePath(q)
  {
    if j :| j in ItemsOf(EncodeRules(rules)) && PathIn(j, p) {
      RuleStored(rules, j);
      var r :| r in rules && j == EncodeRule(r);
      RuleFields(r, p);
    }
    if r, q :| r in rules && q in r.paths && p == EncodePath(q) {
      RuleStored(rules, EncodeRule(r));
      RuleFields(r, p);
    }
  }

  lemma BackendsInRules(net: Spec, r: Rule, q: Path)
    requires net.NetworkingSpec? && r in Rules(net) && q in r.paths
    ensures BackendService(EncodePath(q)) == Str(net.targetRef.resource) && BackendNumber(EncodePath(q)) == Num(q.port)
  {
    PathFields(q);
    if Routes(net) != [] {
      FlattenBackends(Routes(net), net.targetRef.resource, BackendPort(net), r, q);
    }
  }

  /**
   Over marshalled rules and ports: every path goes to the target, and to offered ports exactly in
   the known cases.
   */
  lemma StoredBackends(net: Spec)
    requires net.NetworkingSpec? && net.ports != []
    ensures forall p | PathStored(EncodeRules(Rules(net)), p) :: BackendService(p) == Str(net.targetRef.resource)
    ensures (forall p | PathStored(EncodeRules(Rules(net)), p) ::
               OffersPort(EncodePorts(net.ports), BackendNumber(p))) <==>
            Routes(net) != [] || HasPort(net, 80)
  {
    BackendPortsExistIff(net);
    forall p | PathStored(EncodeRules(Rules(net)), p)
      ensures BackendService(p) == Str(net.targetRef.resource)
      ensures Routes(net) != [] || HasPort(net, 80) ==> OffersPort(EncodePorts(net.ports), BackendNumber(p))
    {
      PathStoredIff(Rules(net), p);
      var r, q :| r in Rules(net) && q in r.paths && p == EncodePath(q);
      BackendsInRules(net, r, q);
      StoredPorts(net, q.port);
    }
    if Routes(net) == [] && !HasPort(net, 80) {
      var only := Rules(net)[0];
      assert only in Rules(net) && only.paths[0] in only.paths;
      PathStoredIff(Rules(net), EncodePath(only.paths[0]));
      PathFields(only.paths[0]);
      StoredPorts(net, 80);
    }
  }

  /**
   With ports and an Ingress, at rest every path item of the stored Ingress names the stored Service,
   and all their port numbers occur among its stored ports if and only if there is a route or the
   Service happens to have port 80.
   */
  lemma BackendsExist(types: Types, c: State, ck: CrKey)
    requires Live(c, ForResource(ck, IngressController)) && c.crs[ck].spec.NetworkingSpec?
    requires NoHatchesFor(c.crs[ck].spec.hatches, "Ingress") &&
             NoHatchesFor(c.crs[ck].spec.hatches, "Service")
    requires c.crs[ck].spec.ports != [] && HasIngress(c.crs[ck].spec)
    ensures var net := c.crs[ck].spec;
            var ingress, service := IngressKey(ck), ServiceKey(ck, net);
            AtRest(types, c, ForResource(ck, IngressController)) &&
            AtRest(types, c, ForResource(ck, ServiceController)) ==>
            ingress in c.leaves && service in c.leaves &&
            var rules := Get(SpecOf(c.leaves[ingress].doc), "rules").GetOr(Null);
            var ports := Get(SpecOf(c.leaves[service].doc), "ports").GetOr(Null);
            (forall p | PathStored(rules, p) :: BackendService(p) == Str(service.name)) &&
            ((forall p | PathStored(rules, p) :: OffersPort(ports, BackendNumber(p))) <==>
             Routes(net) != [] || HasPort(net, 80))
  {
    if AtRest(types, c, ForResource(ck, IngressController)) && AtRest(types, c, ForResource(ck, ServiceController)) {
      var net := c.crs[ck].spec;
      IngressAtRest(types, c, ck);
      ServiceAtRest(types, c, ck);
      PortsIff(Get(SpecOf(c.leaves[ServiceKey(ck, net)].doc), "ports"), net.ports);
      StoredBackends(net);
    }
  }

  /** With a route and ports, every stored path goes to the target, on one of the stored ports. */
  lemma RoutesReachPorts(types: Types, c: State, ck: CrKey)
    requires Live(c, ForResource(ck, IngressController)) && c.crs[ck].spec.NetworkingSpec?
    requires NoHatchesFor(c.crs[ck].spec.hatches, "Ingress") &&
             NoHatchesFor(c.crs[ck].spec.hatches, "Service")
    requires c.crs[ck].spec.ports != [] && Routes(c.crs[ck].spec) != []
    requires AtRest(types, c, ForResource(ck, IngressController))
    requires AtRest(types, c, ForResource(ck, ServiceController))
    ensures IngressKey(ck) in c.leaves && ServiceKey(ck, c.crs[ck].spec) in c.leaves
    ensures RoutedTo(c.leaves[IngressKey(ck)].doc, c.leaves[ServiceKey(ck, c.crs[ck].spec)].doc,
                     c.crs[ck].spec.targetRef.resource)
  {
    BackendsExist(types, c, ck);
  }

  /** Every path of the Ingress goes to the named Service, on a port of this Service document. */
  ghost predicate RoutedTo(ingress: Json, service: Json, name: string) {
    forall p | PathStored(Get(SpecOf(ingress), "rules").GetOr(Null), p) ::
      BackendService(p) == Str(name) && OffersPort(Get(SpecOf(service), "ports").GetOr(Null), BackendNumber(p))
  }

  /** With a route, at rest the stored Ingress serves exactly the hosts and paths that the routes contribute. */
  lemma RoutesServed(types: Types, c: State, ck: CrKey, host: string, path: string)
    requires Live(c, ForResource(ck, IngressController)) && c.crs[ck].spec.NetworkingSpec? &&
             Routes(c.crs[ck].spec) != []
    requires NoHatchesFor(c.crs[ck].spec.hatches, "Ingress")
    ensures var net := c.crs[ck].spec;
            AtRest(types, c, ForResource(ck, IngressController)) ==>
            IngressKey(ck) in c.leaves &&
            (StoredServes(Get(SpecOf(c.leaves[IngressKey(ck)].doc), "rules").GetOr(Null), host, path) <==>
             Contributes(net.publicRoutes, host, path) || Contributes(net.privateRoutes, host, path))
  {
    var net := c.crs[ck].spec;
    IngressAtRest(types, c, ck);
    StoredServesIff(Rules(net), host, path);
    ServedIffContributed(net, host, path);
  }

  lemma RuleItemAt(rules: seq<Rule>, k: nat)
    requires k < |rules|
    ensures |ItemsOf(EncodeRules(rules))| == |rules| && ItemsOf(EncodeRules(rules))[k] == EncodeRule(rules[k])
  {
  }

  /** The stored rules, place by place: those of the public routes and then of the private ones. */
  lemma StoredRuleAt(net: Spec, n: nat, i: nat)
    requires net.NetworkingSpec? && n < |net.publicRoutes + net.privateRoutes|
    requires i < |(net.publicRoutes + net.privateRoutes)[n].hostnames| || i == 0
    ensures var routes := net.publicRoutes + net.privateRoutes;
            var items := ItemsOf(EncodeRules(Rules(net)));
            |items| == RuleCount(routes) && RuleCount(routes[..n]) + i < |items| &&
            RuleItemIs(items[RuleCount(routes[..n]) + i],
                       if routes[n].hostnames == [] then "" else routes[n].hostnames[i],
                       routes[n].paths, net.targetRef.resource, if net.ports == [] then 80 else net.ports[0].port)
  {
    var routes, port := net.publicRoutes + net.privateRoutes, if net.ports == [] then 80 else net.ports[0].port;
    RulesAt(net, n, i);
    RuleItemAt(Rules(net), RuleCount(routes[..n]) + i);
    RuleMarshalled(Rules(net)[RuleCount(routes[..n]) + i], routes[n].paths, net.targetRef.resource, port);
  }

  /** Without routes the one stored rule sends every path of every host to port 80 of the target. */
  lemma StoredDefault(net: Spec)
    requires net.NetworkingSpec? && net.publicRoutes == net.privateRoutes == []
    ensures var items := ItemsOf(EncodeRules(Rules(net)));
            |items| == 1 && RuleItemIs(items[0], "", [], net.targetRef.resource, 80)
  {
    DefaultRule(net);
    RuleMarshalled(Rules(net)[0], [], net.targetRef.resource, 80);
  }

  /** The stored TLS entry lists the non-empty hostnames of all routes in order. */
  lemma StoredTls(net: Spec)
    requires net.NetworkingSpec? && net.tlsSecretName != ""
    ensures TlsIs(Some(EncodeTls(TlsHosts(Rules(net)), net.tlsSecretName)),
                  NonEmpty(Hostnames(net.publicRoutes + net.privateRoutes)), net.tlsSecretName)
  {
    if Routes(net) != [] {
      TlsHostsExact(Routes(net), net.targetRef.resource, BackendPort(net));
    } else {
      assert Rules(net)[..0] == [];
    }
    TlsMarshalled(TlsHosts(Rules(net)), net.tlsSecretName);
  }

  // ----- PodDisruptionBudgets

  /**
   The PDB controller reads the Deployment but does not watch it: once the selector it read has
   changed, a budget that was at rest no longer is, and only another trigger can repair it.
   */
  lemma PdbGoesStale(types: Types, c: State, ck: CrKey, ds: map<ObjectKey, Deployment>)
    requires Live(c, ForResource(ck, PdbController)) && c.crs[ck].spec.ComputeSpec?
    requires NoHatchesFor(c.crs[ck].spec.hatches, "PodDisruptionBudget")
    requires Given(c.crs[ck].spec.minAvailable) || Given(c.crs[ck].spec.maxUnavailable)
    ensures AtRest(types, c, ForResource(ck, PdbController)) ==>
            (AtRest(types, c.(deployments := ds), ForResource(ck, PdbController)) <==>
             PdbSelector(ds, ck.namespace, c.crs[ck].spec.targetRef) ==
               PdbSelector(c.deployments, ck.namespace, c.crs[ck].spec.targetRef))
  {
    PdbAtRest(types, c, ck);
    PdbAtRest(types, c.(deployments := ds), ck);
  }

  /** A Compute that keeps one pod of the Deployment `web`, whose selector names one version. */
  function WebSelector(version: string): Json {
    Obj(map["matchLabels" := Obj(map["app" := Str(version)])])
  }

  function WebDeployments(version: string): map<ObjectKey, Deployment> {
    map[ObjectKey("prod", "web") := Blank().(spec := map["selector" := WebSelector(version)])]
  }

  function WebSpec(): Spec {
    ComputeSpec(ResourceRef("web", "Deployment", "apps/v1", "prod"), [], Autoscaling(0, 0, 0, 0),
                Scheduling(map[], Affinity(None, None, None), []), IntOrString(false, 1, ""), IntOrString(false, 0, ""))
  }

  function WebBudget(version: string): Json {
    Obj(map["spec" := Obj(map["selector" := WebSelector(version), "minAvailable" := Num(1)])])
  }

  lemma WebBudgetIs(version: string)
    ensures BudgetIs(WebBudget(version), WebSelector(version), WebSpec().minAvailable, WebSpec().maxUnavailable)
  {
  }

  function WebState(version: string): State {
    var ck := CrKey(Compute, "prod", "web");
    State(map[], map[ck := Cr(None, WebSpec())], WebDeployments(version),
          map[PdbKey(ck) := Leaf(Some(CrOwner(ck)), WebBudget(version))])
  }

  lemma WebSelectorRead(version: string)
    ensures PdbSelector(WebDeployments(version), "prod", WebSpec().targetRef) == WebSelector(version)
  {
  }

  lemma WebSelectorsDiffer()
    ensures WebSelector("v1") != WebSelector("v2")
  {
    assert WebSelector("v1").fields["matchLabels"].fields["app"] !=
             WebSelector("v2").fields["matchLabels"].fields["app"];
  }

  /** For example, once the pods of `web` are labelled v2, the budget that selects v1 is no longer at rest. */
  lemma WebBudgetGoesStale(types: Types)
    ensures var pdb := ForResource(CrKey(Compute, "prod", "web"), PdbController);
            AtRest(types, WebState("v1"), pdb) &&
            !AtRest(types, WebState("v1").(deployments := WebDeployments("v2")), pdb)
  {
    var ck := CrKey(Compute, "prod", "web");
    WebSelectorRead("v1");
    WebSelectorRead("v2");
    WebSelectorsDiffer();
    WebBudgetIs("v1");
    PdbAtRest(types, WebState("v1"), ck);
    PdbGoesStale(types, WebState("v1"), ck, WebDeployments("v2"));
  }
}
