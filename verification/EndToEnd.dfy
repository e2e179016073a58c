/**
 From a Workload to the objects that its children manage, through both layers: what is stored when
 the requests on the way are at rest, in terms of the Workload alone.
 */
module EndToEnd {
  import opened Wrappers
  import opened JsonTree
  import opened EscapeHatch
  import opened NamedList
  import opened Specs
  import opened VolumeUpsert
  import opened DeploymentWriters
  import opened IngressRules
  import opened Cluster
  import opened LeafFrames
  import opened Convergence
  import opened Quiescence
  import opened References

  /**
   A Workload request is at rest if and only if its child is as the Workload says: absent if the
   capability has no target of its own, else owned by the Workload, with the capability's settings
   under the Workload's target.
   */
  lemma ChildAtRestIff(types: Types, c: State, w: string, cap: Capability)
    requires w in c.workloads && c.workloads[w].targetRef.namespace != ""
    ensures var ws := c.workloads[w];
            var key := ChildKey(w, ws, cap);
            AtRest(types, c, Child(w, cap)) <==>
            if ws.Of(cap).targetRef.resource == "" then key !in c.crs
            else key in c.crs && c.crs[key].owner == Some(WorkloadOwner(w)) &&
                 c.crs[key].spec.targetRef == ws.targetRef &&
                 c.crs[key].spec.(targetRef := ws.Of(cap).targetRef) == ws.Of(cap)
  {
    var ws := c.workloads[w];
    var key := ChildKey(w, ws, cap);
    var child := Cr(Some(WorkloadOwner(w)), Desired(ws, cap));
    if ws.Of(cap).targetRef.resource == "" {
      assert c.crs - {key} == c.crs <==> key !in c.crs;
    } else {
      assert c.crs[key := child] == c.crs <==> Get(c.crs, key) == Some(child);
      if key in c.crs && c.crs[key].spec.targetRef == ws.targetRef &&
         c.crs[key].spec.(targetRef := ws.Of(cap).targetRef) == ws.Of(cap) {
        assert c.crs[key].spec == c.crs[key].spec.(targetRef := ws.Of(cap).targetRef).(targetRef := ws.targetRef);
      }
    }
  }

  /** The child at `key` is absent if its capability has no target, else the Workload's, with these settings. */
  predicate ChildIs(crs: map<CrKey, Cr>, key: CrKey, w: string, settings: Spec, target: ResourceRef) {
    if settings.targetRef.resource == "" then key !in crs
    else key in crs && crs[key].owner == Some(Owner("Workload", w)) && crs[key].spec == settings.(targetRef := target)
  }

  /** The five children of a Workload at rest, one by one. */
  lemma WorkloadChildren(types: Types, c: State, w: string)
    requires w in c.workloads && c.workloads[w].targetRef.namespace != ""
    ensures var ws := c.workloads[w];
            var (ns, target) := (ws.targetRef.namespace, ws.targetRef);
            (AtRest(types, c, Child(w, Compute)) <==>
             ChildIs(c.crs, CrKey(Compute, ns, w + "-compute"), w, ws.compute, target)) &&
            (AtRest(types, c, Child(w, Storage)) <==>
             ChildIs(c.crs, CrKey(Storage, ns, w + "-storage"), w, ws.storage, target)) &&
            (AtRest(types, c, Child(w, Networking)) <==>
             ChildIs(c.crs, CrKey(Networking, ns, w + "-networking"), w, ws.networking, target)) &&
            (AtRest(types, c, Child(w, Observability)) <==>
             ChildIs(c.crs, CrKey(Observability, ns, w + "-observability"), w, ws.observability, target)) &&
            (AtRest(types, c, Child(w, Security)) <==>
             ChildIs(c.crs, CrKey(Security, ns, w + "-security"), w, ws.security, target))
  {
    forall cap
      ensures AtRest(types, c, Child(w, cap)) <==>
              ChildIs(c.crs, ChildOf(c, w, cap), w, c.workloads[w].Of(cap), c.workloads[w].targetRef)
    {
      OneChild(types, c, w, cap);
    }
  }

  lemma OneChild(types: Types, c: State, w: string, cap: Capability)
    requires w in c.workloads && c.workloads[w].targetRef.namespace != ""
    ensures AtRest(types, c, Child(w, cap)) <==>
            ChildIs(c.crs, ChildOf(c, w, cap), w, c.workloads[w].Of(cap), c.workloads[w].targetRef)
  {
    var ws := c.workloads[w];
    var key := ChildOf(c, w, cap);
    ChildAtRestIff(types, c, w, cap);
    if key in c.crs {
      var spec := c.crs[key].spec;
      assert spec.targetRef == ws.targetRef ==>
          spec == spec.(targetRef := ws.Of(cap).targetRef).(targetRef := ws.targetRef);
    }
  }

  /**
   A Workload request fails if and only if it would write a child that another controller holds, and
   then changes nothing; without a Workload, or without a namespace, it has no effect.
   */
  lemma ChildFailsIff(types: Types, c: State, w: string, cap: Capability)
    ensures var r := Reconcile(types, c, Child(w, cap));
            if w !in c.workloads || c.workloads[w].targetRef.namespace == "" then r == Outcome(c, true)
            else
              var key := ChildOf(c, w, cap);
              (!r.ok <==> c.workloads[w].Of(cap).targetRef.resource != "" && key in c.crs &&
                          c.crs[key].owner !in {None, Some(Owner("Workload", w))}) &&
              (!r.ok ==> r.state == c) &&
              r.state == c.(crs := r.state.crs) && forall k | k != key :: Get(r.state.crs, k) == Get(c.crs, k)
  {
  }

  /** The capability of the Workload is switched on, and the Workload says where its target is. */
  predicate Enabled(c: State, w: string, cap: Capability) {
    w in c.workloads && c.workloads[w].targetRef.namespace != "" && c.workloads[w].targetRef.resource != "" &&
    c.workloads[w].Of(cap).targetRef.resource != ""
  }

  function ChildOf(c: State, w: string, cap: Capability): CrKey
    requires w in c.workloads
  {
    ChildKey(w, c.workloads[w], cap)
  }

  /** An enabled child at rest is live, with the settings of the Workload. */
  lemma EnabledChild(types: Types, c: State, w: string, cap: Capability)
    requires Enabled(c, w, cap) && AtRest(types, c, Child(w, cap))
    ensures ChildOf(c, w, cap) in c.crs && c.crs[ChildOf(c, w, cap)].spec == Desired(c.workloads[w], cap)
  {
    ChildAtRestIff(types, c, w, cap);
    var spec := c.crs[ChildOf(c, w, cap)].spec;
    assert spec == spec.(targetRef := c.workloads[w].Of(cap).targetRef).(targetRef := c.workloads[w].targetRef);
  }

  /**
   The autoscaler of a Workload scales the Workload's target within its bounds, or is absent if there
   is no upper one.
   */
  lemma WorkloadScales(types: Types, c: State, w: string)
    requires Enabled(c, w, Compute) && c.workloads[w].compute.ComputeSpec?
    requires NoHatchesFor(c.workloads[w].compute.hatches, "HorizontalPodAutoscaler")
    ensures var ws := c.workloads[w];
            var a := ws.compute.autoscaling;
            var hpa := LeafKey(Hpa, ws.targetRef.namespace, w + "-compute-hpa");
            AtRest(types, c, Child(w, Compute)) ==>
            (AtRest(types, c, ForResource(ChildOf(c, w, Compute), HpaController)) <==>
             if a.maxReplicas == 0 then hpa !in c.leaves
             else hpa in c.leaves && c.leaves[hpa].owner == Some(Owner("Compute", w + "-compute")) &&
                  AutoscalerIs(c.leaves[hpa].doc, ws.targetRef, a))
  {
    if AtRest(types, c, Child(w, Compute)) {
      EnabledChild(types, c, w, Compute);
      HpaAtRest(types, c, ChildOf(c, w, Compute));
      assert w + "-compute" + "-hpa" == w + "-compute-hpa";
    }
  }

  /** The disruption budget of a Workload covers the pods that its target selects. */
  lemma WorkloadIsBudgeted(types: Types, c: State, w: string)
    requires Enabled(c, w, Compute) && c.workloads[w].compute.ComputeSpec?
    requires NoHatchesFor(c.workloads[w].compute.hatches, "PodDisruptionBudget")
    ensures var ws := c.workloads[w];
            var pdb := LeafKey(Pdb, ws.targetRef.namespace, w + "-compute-pdb");
            AtRest(types, c, Child(w, Compute)) ==>
            (AtRest(types, c, ForResource(ChildOf(c, w, Compute), PdbController)) <==>
             if !Given(ws.compute.minAvailable) && !Given(ws.compute.maxUnavailable) then pdb !in c.leaves
             else pdb in c.leaves && c.leaves[pdb].owner == Some(Owner("Compute", w + "-compute")) &&
                  BudgetIs(c.leaves[pdb].doc, SelectorOf(c, ws.targetRef),
                           ws.compute.minAvailable, ws.compute.maxUnavailable))
  {
    if AtRest(types, c, Child(w, Compute)) {
      EnabledChild(types, c, w, Compute);
      PdbAtRest(types, c, ChildOf(c, w, Compute));
      assert w + "-compute" + "-pdb" == w + "-compute-pdb";
      SelectorRead(c, c.workloads[w].targetRef);
    }
  }

  /** The selector of the target, if it is a Deployment that is there and has one, else one on its name. */
  function SelectorOf(c: State, target: ResourceRef): Json {
    var d := ObjectKey(target.namespace, target.resource);
    if target.kind == "Deployment" && d in c.deployments && "selector" in c.deployments[d].spec
    then c.deployments[d].spec["selector"]
    else Obj(map["matchLabels" := Obj(map["app" := Str(target.resource)])])
  }

  lemma SelectorRead(c: State, target: ResourceRef)
    ensures PdbSelector(c.deployments, target.namespace, target) == SelectorOf(c, target)
  {
  }

  /**
   The Compute of a Workload is at rest exactly if the target has all scheduling settings of the
   Workload, or if the Workload has none.
   */
  lemma WorkloadIsScheduled(types: Types, c: State, w: string)
    requires Enabled(c, w, Compute) && c.workloads[w].compute.ComputeSpec?
    requires NoHatchesFor(c.workloads[w].compute.hatches, "Deployment")
    ensures var ws := c.workloads[w];
            var s := ws.compute.scheduling;
            var d := ObjectKey(ws.targetRef.namespace, ws.targetRef.resource);
            ws.targetRef.kind == "Deployment" && d in c.deployments && AtRest(types, c, Child(w, Compute)) ==>
            (AtRest(types, c, ForResource(ChildOf(c, w, Compute), SchedulingController)) <==>
             s.nodeSelector != map[] || s.affinity.nodeAffinity.Some? || s.affinity.podAffinity.Some? ||
             s.affinity.podAntiAffinity.Some? || s.spread != [] ==>
             var pod := c.deployments[d].pod;
             pod.nodeSelector == s.nodeSelector && AffinityIs(pod.affinity, s.affinity) && pod.spread == s.spread)
  {
    if AtRest(types, c, Child(w, Compute)) {
      EnabledChild(types, c, w, Compute);
      SchedulingAtRest(types, c, ChildOf(c, w, Compute));
    }
  }

  /**
   A volume of a Workload is a claim named after the Workload's Storage: it is stored and asks for
   what the Workload lists last under that name, it is put on the Deployment, and it is mounted.
   */
  lemma WorkloadIsStored(types: Types, c: State, w: string, vol: VolumeSpec)
    requires Enabled(c, w, Storage) && c.workloads[w].storage.StorageSpec? && vol in c.workloads[w].storage.volumes
    requires NoHatchesFor(c.workloads[w].storage.hatches, "Deployment") &&
             NoHatchesFor(c.workloads[w].storage.hatches, "PersistentVolumeClaim")
    ensures var ws := c.workloads[w];
            var ck := ChildOf(c, w, Storage);
            var claim := LeafKey(Pvc, ws.targetRef.namespace, w + "-storage-" + vol.name);
            var last := Last(ws.storage.volumes, vol.name);
            var d := ObjectKey(ws.targetRef.namespace, ws.targetRef.resource);
            AtRest(types, c, Child(w, Storage)) && AtRest(types, c, ForResource(ck, PvcController)) ==>
            claim in c.leaves && c.leaves[claim].owner == Some(Owner("Storage", w + "-storage")) &&
            last.Some? && ClaimIs(c.leaves[claim].doc, last.value, ws.storage.storageClassName) &&
            (ws.targetRef.kind == "Deployment" && d in c.deployments &&
             AtRest(types, c, ForResource(ck, VolumesController)) ==>
             var pod := c.deployments[d].pod;
             Lookup(pod.volumes, vol.name) ==
               Some(map["persistentVolumeClaim" := Obj(map["claimName" := Str(claim.name)])]) &&
             (pod.containers != [] ==> Lookup(pod.containers[0].mounts, vol.name).Some? &&
                                       Lookup(pod.containers[0].mounts, vol.name).value.path == last.value.mountPath))
  {
    var ck := ChildOf(c, w, Storage);
    if AtRest(types, c, Child(w, Storage)) && AtRest(types, c, ForResource(ck, PvcController)) {
      EnabledChild(types, c, w, Storage);
      ClaimsStored(types, c, ck, vol);
      assert ClaimName(w + "-storage", vol.name) == w + "-storage-" + vol.name;
      if Target(ck, c.crs[ck].spec) in c.deployments && c.crs[ck].spec.targetRef.kind == "Deployment" {
        ClaimsExist(types, c, ck, vol);
      }
    }
  }

  lemma NetworkingChild(types: Types, c: State, w: string)
    requires Enabled(c, w, Networking) && c.workloads[w].networking.NetworkingSpec?
    requires AtRest(types, c, Child(w, Networking))
    ensures var ck := ChildOf(c, w, Networking);
            ck in c.crs && c.crs[ck].spec == Desired(c.workloads[w], Networking) && c.crs[ck].spec.NetworkingSpec? &&
            Routes(c.crs[ck].spec) == Routes(c.workloads[w].networking) &&
            IngressKey(ck) == LeafKey(Ingress, c.workloads[w].targetRef.namespace, w + "-networking-ingress")
  {
    EnabledChild(types, c, w, Networking);
    assert w + "-networking" + "-ingress" == w + "-networking-ingress";
  }

  /** With a route, the Ingress of a Workload serves exactly what the Workload's routes contribute. */
  lemma WorkloadIsServed(types: Types, c: State, w: string, host: string, path: string)
    requires Enabled(c, w, Networking) && c.workloads[w].networking.NetworkingSpec? &&
             Routes(c.workloads[w].networking) != []
    requires NoHatchesFor(c.workloads[w].networking.hatches, "Ingress")
    ensures var ws := c.workloads[w];
            var ck := ChildOf(c, w, Networking);
            var ingress := LeafKey(Ingress, ws.targetRef.namespace, w + "-networking-ingress");
            AtRest(types, c, Child(w, Networking)) && AtRest(types, c, ForResource(ck, IngressController)) ==>
            ingress in c.leaves &&
            (StoredServes(Get(SpecOf(c.leaves[ingress].doc), "rules").GetOr(Null), host, path) <==>
             Contributes(ws.networking.publicRoutes, host, path) ||
             Contributes(ws.networking.privateRoutes, host, path))
  {
    if AtRest(types, c, Child(w, Networking)) {
      NetworkingChild(types, c, w);
      RoutesServed(types, c, ChildOf(c, w, Networking), host, path);
    }
  }

  /**
   With a route and ports, every path of it goes to the Service named after the Workload's target, on
   one of its ports.
   */
  lemma WorkloadIsRouted(types: Types, c: State, w: string)
    requires Enabled(c, w, Networking) && c.workloads[w].networking.NetworkingSpec? &&
             Routes(c.workloads[w].networking) != []
    requires NoHatchesFor(c.workloads[w].networking.hatches, "Ingress")
    requires NoHatchesFor(c.workloads[w].networking.hatches, "Service") && c.workloads[w].networking.ports != []
    ensures var ws := c.workloads[w];
            var ck := ChildOf(c, w, Networking);
            var ingress := LeafKey(Ingress, ws.targetRef.namespace, w + "-networking-ingress");
            var service := LeafKey(Service, ws.targetRef.namespace, ws.targetRef.resource);
            AtRest(types, c, Child(w, Networking)) && AtRest(types, c, ForResource(ck, IngressController)) &&
            AtRest(types, c, ForResource(ck, ServiceController)) ==>
            ingress in c.leaves && service in c.leaves &&
            RoutedTo(c.leaves[ingress].doc, c.leaves[service].doc, ws.targetRef.resource)
  {
    var ck := ChildOf(c, w, Networking);
    if AtRest(types, c, Child(w, Networking)) && AtRest(types, c, ForResource(ck, IngressController)) &&
       AtRest(types, c, ForResource(ck, ServiceController)) {
      NetworkingChild(types, c, w);
      RoutesReachPorts(types, c, ck);
    }
  }

  /**
   The Service of a Workload selects the pods of the target under the listed ports, or is absent if
   there are none.
   */
  lemma WorkloadIsExposed(types: Types, c: State, w: string)
    requires Enabled(c, w, Networking) && c.workloads[w].networking.NetworkingSpec?
    requires NoHatchesFor(c.workloads[w].networking.hatches, "Service")
    ensures var ws := c.workloads[w];
            var net := ws.networking;
            var service := LeafKey(Service, ws.targetRef.namespace, ws.targetRef.resource);
            AtRest(types, c, Child(w, Networking)) ==>
            (AtRest(types, c, ForResource(ChildOf(c, w, Networking), ServiceController)) <==>
             if net.ports == [] then service !in c.leaves
             else service in c.leaves && c.leaves[service].owner == Some(Owner("Networking", w + "-networking")) &&
                  ServiceIs(c.leaves[service].doc, ws.targetRef, net.ports, net.serviceType))
  {
    if AtRest(types, c, Child(w, Networking)) {
      EnabledChild(types, c, w, Networking);
      ServiceAtRest(types, c, ChildOf(c, w, Networking));
    }
  }

  /** The items of the stored rules of an Ingress. */
  function StoredRules(ingress: Json): seq<Json> {
    ItemsOf(Get(SpecOf(ingress), "rules").GetOr(Null))
  }

  /**
   The Ingress of a Workload is there exactly with a route or a TLS secret. Its TLS entry names the
   secret and the non-empty hostnames in order; without routes it has the one default rule.
   */
  lemma WorkloadHasIngress(types: Types, c: State, w: string)
    requires Enabled(c, w, Networking) && c.workloads[w].networking.NetworkingSpec?
    requires NoHatchesFor(c.workloads[w].networking.hatches, "Ingress")
    ensures var ws := c.workloads[w];
            var (net, target) := (ws.networking, ws.targetRef);
            var ingress := LeafKey(Ingress, target.namespace, w + "-networking-ingress");
            AtRest(types, c, Child(w, Networking)) &&
            AtRest(types, c, ForResource(ChildOf(c, w, Networking), IngressController)) ==>
            (ingress in c.leaves <==>
             net.publicRoutes != [] || net.privateRoutes != [] || net.tlsSecretName != "") &&
            (ingress in c.leaves ==>
               var doc := c.leaves[ingress].doc;
               c.leaves[ingress].owner == Some(Owner("Networking", w + "-networking")) &&
               TlsIs(Get(SpecOf(doc), "tls"), NonEmpty(Hostnames(net.publicRoutes + net.privateRoutes)),
                     net.tlsSecretName) &&
               (net.publicRoutes == net.privateRoutes == [] ==>
                  |StoredRules(doc)| == 1 && RuleItemIs(StoredRules(doc)[0], "", [], target.resource, 80)))
  {
    var ck := ChildOf(c, w, Networking);
    if AtRest(types, c, Child(w, Networking)) && AtRest(types, c, ForResource(ck, IngressController)) {
      NetworkingChild(types, c, w);
      IngressContents(types, c, ck);
    }
  }

  /** The same for the Ingress of any Networking. */
  lemma IngressContents(types: Types, c: State, ck: CrKey)
    requires Live(c, ForResource(ck, IngressController)) && c.crs[ck].spec.NetworkingSpec?
    requires NoHatchesFor(c.crs[ck].spec.hatches, "Ingress") && AtRest(types, c, ForResource(ck, IngressController))
    ensures var net := c.crs[ck].spec;
            (IngressKey(ck) in c.leaves <==>
             net.publicRoutes != [] || net.privateRoutes != [] || net.tlsSecretName != "") &&
            (IngressKey(ck) in c.leaves ==>
               var doc := c.leaves[IngressKey(ck)].doc;
               c.leaves[IngressKey(ck)].owner == Some(CrOwner(ck)) &&
               StoredRules(doc) == ItemsOf(EncodeRules(Rules(net))) &&
               TlsIs(Get(SpecOf(doc), "tls"), NonEmpty(Hostnames(net.publicRoutes + net.privateRoutes)),
                     net.tlsSecretName) &&
               (net.publicRoutes == net.privateRoutes == [] ==>
                  |StoredRules(doc)| == 1 && RuleItemIs(StoredRules(doc)[0], "", [], net.targetRef.resource, 80)))
  {
    var net := c.crs[ck].spec;
    IngressAtRest(types, c, ck);
    if net.tlsSecretName != "" {
      StoredTls(net);
    }
    if net.publicRoutes == net.privateRoutes == [] {
      StoredDefault(net);
    }
  }

  /**
   The stored rules of a Workload, place by place: for the n-th route, public ones first, and its
   i-th hostname, one rule with an item for each path in listed order.
   */
  lemma WorkloadRuleAt(types: Types, c: State, w: string, n: nat, i: nat)
    requires Enabled(c, w, Networking) && c.workloads[w].networking.NetworkingSpec?
    requires NoHatchesFor(c.workloads[w].networking.hatches, "Ingress")
    requires n < |Routes(c.workloads[w].networking)|
    requires i < |Routes(c.workloads[w].networking)[n].hostnames| || i == 0
    ensures var ws := c.workloads[w];
            var net := ws.networking;
            var routes := net.publicRoutes + net.privateRoutes;
            var ingress := LeafKey(Ingress, ws.targetRef.namespace, w + "-networking-ingress");
            AtRest(types, c, Child(w, Networking)) &&
            AtRest(types, c, ForResource(ChildOf(c, w, Networking), IngressController)) ==>
            ingress in c.leaves &&
            var items := StoredRules(c.leaves[ingress].doc);
            |items| == RuleCount(routes) && RuleCount(routes[..n]) + i < |items| &&
            RuleItemIs(items[RuleCount(routes[..n]) + i],
                       if routes[n].hostnames == [] then "" else routes[n].hostnames[i],
                       routes[n].paths, ws.targetRef.resource, if net.ports == [] then 80 else net.ports[0].port)
  {
    var ck := ChildOf(c, w, Networking);
    if AtRest(types, c, Child(w, Networking)) && AtRest(types, c, ForResource(ck, IngressController)) {
      NetworkingChild(types, c, w);
      IngressContents(types, c, ck);
      StoredRuleAt(c.crs[ck].spec, n, i);
    }
  }

  /**
   The Role of a Workload has its rules, and the binding gives it to the service account named after
   the Workload's target.
   */
  lemma WorkloadIsBound(types: Types, c: State, w: string)
    requires Enabled(c, w, Security) && c.workloads[w].security.SecuritySpec?
    requires NoHatchesFor(c.workloads[w].security.hatches, "Role")
    requires NoHatchesFor(c.workloads[w].security.hatches, "RoleBinding")
    ensures var ws := c.workloads[w];
            var ck := ChildOf(c, w, Security);
            var role := LeafKey(Role, ws.targetRef.namespace, w + "-security-role");
            var binding := LeafKey(RoleBinding, ws.targetRef.namespace, w + "-security-rb");
            AtRest(types, c, Child(w, Security)) && AtRest(types, c, ForResource(ck, RoleController)) &&
            AtRest(types, c, ForResource(ck, RoleBindingController)) ==>
            (role in c.leaves <==> ws.security.createRole) && (binding in c.leaves <==> ws.security.createRole) &&
            (ws.security.createRole ==>
               c.leaves[role].owner == c.leaves[binding].owner == Some(Owner("Security", w + "-security")) &&
               RoleIs(c.leaves[role].doc, ws.security.rules) &&
               BindingIs(c.leaves[binding].doc, role.name, ws.targetRef.resource, ws.targetRef.namespace))
  {
    if AtRest(types, c, Child(w, Security)) {
      EnabledChild(types, c, w, Security);
      assert w + "-security" + "-role" == w + "-security-role" && w + "-security" + "-rb" == w + "-security-rb";
      RoleAtRest(types, c, ChildOf(c, w, Security));
      BindingAtRest(types, c, ChildOf(c, w, Security));
    }
  }
}
