/**
 Escape hatches on a Deployment, the one object with two writers: two hatches that set one field come
 to rest together exactly if they set it to the same value.
 */
module DeploymentHatches {
  import opened Wrappers
  import opened JsonTree
  import opened Decoding
  import opened EscapeHatch
  import opened Specs
  import opened Deployments
  import opened StaleReads
  import opened Cluster
  import opened Fixpoints
  import opened Convergence
  import opened Quiescence

  // ----- One hatched write

  /** A merge hatch that sets the number of replicas. */
  function ReplicasPatch(n: int): Json {
    Obj(map["spec" := Obj(map["replicas" := Num(n)])])
  }

  function ReplicasHatch(n: int): seq<Hatch> {
    OneMerge("Deployment", ReplicasPatch(n))
  }

  function WithReplicas(d: Deployment, n: int): Deployment {
    d.(spec := d.spec["replicas" := Num(n)])
  }

  /** The number of replicas is a pointer, so no number is omitted; and every document decodes. */
  ghost predicate ReplicasDecode(types: Types) {
    Accepting(types, "Deployment") && types.places("Deployment")([Field("spec"), Field("replicas")]).omits.None?
  }

  lemma ReplicasHatched(types: Types, d: Deployment, n: int)
    requires ReplicasDecode(types)
    ensures ApplyHatches(types, "Deployment", ReplicasHatch(n), Encode(d)) == Success(Encode(WithReplicas(d, n)))
  {
    var doc := Encode(d);
    var m := doc.fields["spec"].fields;
    OneMergeApplied(types, "Deployment", ReplicasPatch(n), doc);
    MergedField(types, "Deployment", doc, "spec", "replicas", Num(n));
    assert Overlay(types.places("Deployment"), [Field("spec"), Field("replicas")], Get(m, "replicas"), Num(n)) ==
             Some(Num(n));
    ReplicasEncoded(d, n);
  }

  lemma ReplicasEncoded(d: Deployment, n: int)
    ensures Encode(d).Obj? && "spec" in Encode(d).fields && Encode(d).fields["spec"].Obj?
    ensures Encode(WithReplicas(d, n)) ==
            Obj(Encode(d).fields["spec" := Obj(Encode(d).fields["spec"].fields["replicas" := Num(n)])])
  {
    var t := Obj(d.template["spec" := EncodePod(d.pod)]);
    assert d.spec["replicas" := Num(n)]["template" := t] == d.spec["template" := t]["replicas" := Num(n)];
    var spec := d.spec["template" := t]["replicas" := Num(n)];
    assert d.top["spec" := Obj(d.spec["template" := t])]["spec" := Obj(spec)] == d.top["spec" := Obj(spec)];
  }

  // ----- The diff of a hatched write stores it

  lemma CarriesSame(m: map<string, Json>, m': map<string, Json>)
    requires forall k | k in m' :: Get(m, k) == Some(m'[k]) ||
                                   (k in m && m[k].Obj? && m'[k].Obj? && Carries(m[k], m'[k])) ||
                                   (NoNulls(m'[k]) && !(k in m && m[k].Obj? && m'[k].Obj?))
    ensures Carries(Obj(m), Obj(m'))
  {
  }

  lemma LabelsAreClean(m: map<string, string>)
    ensures NoNulls(EncodeLabels(m))
  {
  }

  lemma PodCarries(p: PodSpec, q: PodSpec)
    requires |p.containers| == |q.containers|
    requires q.affinity == p.affinity || (q.affinity.Some? && q.affinity.value.Obj? && NoNulls(q.affinity.value))
    requires q.extra == p.extra
    ensures Carries(EncodePod(p), EncodePod(q))
  {
    var m, m' := EncodePod(p).fields, EncodePod(q).fields;
    forall k | k in m'
      ensures Get(m, k) == Some(m'[k]) ||
              (k in m && m[k].Obj? && m'[k].Obj? && Carries(m[k], m'[k])) ||
              (NoNulls(m'[k]) && !(k in m && m[k].Obj? && m'[k].Obj?))
    {
      PodFields(p, k);
      PodFields(q, k);
      if k == "nodeSelector" {
        LabelsAreClean(q.nodeSelector);
      }
      if k == "nodeSelector" || k == "affinity" {
        if m'[k].Obj? && k in m && m[k].Obj? && Get(m, k) != Some(m'[k]) {
          CleanCarries(m[k], m'[k]);
        }
      }
    }
    CarriesSame(m, m');
  }

  lemma EditCarries(ck: CrKey, spec: Spec, ctl: Controller, d: Deployment)
    requires DeploymentEdit(ck, spec, ctl, d).Some?
    ensures var e := DeploymentEdit(ck, spec, ctl, d).value;
            e == d.(pod := e.pod) && Carries(EncodePod(d.pod), EncodePod(e.pod))
  {
    var e := DeploymentEdit(ck, spec, ctl, d).value;
    if ctl.SchedulingController? {
      AffinityIsClean(spec.scheduling.affinity);
    }
    PodCarries(d.pod, e.pod);
  }

  /** Setting the replicas along with the pod adds no null either. */
  lemma ReplicasCarried(d: Deployment, p: PodSpec, n: int)
    requires Carries(EncodePod(d.pod), EncodePod(p))
    ensures Carries(Encode(d), Encode(WithReplicas(d.(pod := p), n)))
  {
    var e := WithReplicas(d.(pod := p), n);
    var t, t' := d.template["spec" := EncodePod(d.pod)], d.template["spec" := EncodePod(p)];
    CarriesSame(t, t');
    CarriesSame(d.spec["template" := Obj(t)], e.spec["template" := Obj(t')]);
    CarriesSame(d.top["spec" := Obj(d.spec["template" := Obj(t)])],
                d.top["spec" := Obj(e.spec["template" := Obj(t')])]);
  }

  /** So the hatched write stores exactly its edit, with the replicas set. */
  lemma HatchedWrite(types: Types, ck: CrKey, spec: Spec, ctl: Controller, d: Deployment, n: int)
    requires ReplicasDecode(types) && DeploymentEdit(ck, spec, ctl, d).Some?
    ensures var e := DeploymentEdit(ck, spec, ctl, d).value;
            PatchDeployment(types, ReplicasHatch(n), d, e) == Some(WithReplicas(e, n))
  {
    var e := DeploymentEdit(ck, spec, ctl, d).value;
    EditCarries(ck, spec, ctl, d);
    ReplicasHatched(types, e, n);
    ReplicasCarried(d, e.pod, n);
    DiffRoundTrip(Encode(d), Encode(WithReplicas(e, n)));
    RoundTrip(WithReplicas(e, n));
  }

  // ----- Nulls

  /**
   A null that a hatch puts where the Deployment had nothing goes into the merge diff as the removal
   of a member that is not there: the request succeeds and stores the Deployment without it.
   */
  lemma NullIsNotStored(types: Types, hatches: seq<Hatch>, d: Deployment, k: string)
    requires k !in d.spec && k != "template"
    requires ApplyHatches(types, "Deployment", hatches, Encode(d)) == Success(Encode(d.(spec := d.spec[k := Null])))
    ensures PatchDeployment(types, hatches, d, d) == Some(d)
  {
    var e := d.(spec := d.spec[k := Null]);
    var t := Obj(d.template["spec" := EncodePod(d.pod)]);
    var a, b := d.spec["template" := t], e.spec["template" := t];
    var m := Merge(Obj(a), Diff(Obj(a), Obj(b)));
    forall j
      ensures Get(m.fields, j) == Get(a, j)
    {
      LandFields(Obj(a), Obj(a), Obj(b), j);
    }
    SameEntries(m.fields, a);
    LandUnder(d.top, d.top, "spec", Obj(a), Obj(a), Obj(b));
    RoundTrip(d);
  }

  // ----- Rest

  /** The request acts on the Deployment at `key`, under a hatch that sets `n` replicas. */
  predicate Replicates(c: State, r: Request, key: ObjectKey, n: int) {
    r.ForResource? && r.ck in c.crs && WritesDeployments(r.ctl) && c.crs[r.ck].spec.hatches == ReplicasHatch(n) &&
    Acts(c.deployments, r.ck, c.crs[r.ck].spec, r.ctl) && Target(r.ck, c.crs[r.ck].spec) == key
  }

  /** The Deployment is as the writer itself wants it. */
  predicate EditDone(c: State, r: Request, d: Deployment)
    requires r.ForResource? && r.ck in c.crs
  {
    DeploymentEdit(r.ck, c.crs[r.ck].spec, r.ctl, d) == Some(d)
  }

  /** A request that acts on its target stores what the patch leaves of its edit. */
  lemma ActingRequest(types: Types, c: State, r: Request)
    requires r.ForResource? && r.ck in c.crs && WritesDeployments(r.ctl)
    requires Acts(c.deployments, r.ck, c.crs[r.ck].spec, r.ctl)
    ensures var spec := c.crs[r.ck].spec;
            var key := Target(r.ck, spec);
            var e := DeploymentEdit(r.ck, spec, r.ctl, c.deployments[key]).value;
            Reconcile(types, c, r) == PatchOutcome(types, c, key, spec.hatches, e)
  {
    assert Reconcile(types, c, r) == ReconcileDeployment(types, c, r.ck, c.crs[r.ck].spec, r.ctl);
  }

  lemma StoresNothingNew(c: State, key: ObjectKey, d: Deployment)
    requires key in c.deployments
    ensures StoreIfAny(c, key, Some(d)) == Outcome(c, true) <==> d == c.deployments[key]
  {
    assert c.deployments[key := d][key] == d;
  }

  /** A hatched writer is at rest if and only if its own edit is done and the replicas are as its hatch says. */
  lemma WriterAtRestIff(types: Types, c: State, r: Request, key: ObjectKey, n: int)
    requires ReplicasDecode(types) && Replicates(c, r, key, n)
    ensures AtRest(types, c, r) <==>
            EditDone(c, r, c.deployments[key]) && Get(c.deployments[key].spec, "replicas") == Some(Num(n))
  {
    var spec, d := c.crs[r.ck].spec, c.deployments[key];
    var e := DeploymentEdit(r.ck, spec, r.ctl, d).value;
    ActingRequest(types, c, r);
    StoresNothingNew(c, key, WithReplicas(e, n));
    assert AtRest(types, c, r) <==> WithReplicas(e, n) == d by {
      HatchedWrite(types, r.ck, spec, r.ctl, d, n);
    }
    EditCarries(r.ck, spec, r.ctl, d);
    SameWithReplicas(d, e, n);
  }

  lemma SameWithReplicas(d: Deployment, e: Deployment, n: int)
    requires e == d.(pod := e.pod)
    ensures WithReplicas(e, n) == d <==> e == d && Get(d.spec, "replicas") == Some(Num(n))
  {
    if WithReplicas(e, n) == d {
      assert d.spec["replicas"] == Num(n) && e.pod == d.pod;
    }
  }

  function Put(c: State, key: ObjectKey, d: Deployment): State {
    c.(deployments := c.deployments[key := d])
  }

  /**
   Two hatched writers of one Deployment whose own edits do not disturb each other can be at rest
   together, on some Deployment, if and only if their hatches set the same number.
   */
  lemma RestTogetherIff(types: Types, c: State, r: Request, r': Request, key: ObjectKey, m: int, n: int)
    requires ReplicasDecode(types) && Replicates(c, r, key, m) && Replicates(c, r', key, n)
    requires WriteApart(r.ck, c.crs[r.ck].spec, r.ctl, r'.ck, c.crs[r'.ck].spec, r'.ctl)
    ensures (exists d :: AtRest(types, Put(c, key, d), r) && AtRest(types, Put(c, key, d), r')) <==> m == n
  {
    forall d
      ensures AtRest(types, Put(c, key, d), r) <==> EditDone(c, r, d) && Get(d.spec, "replicas") == Some(Num(m))
      ensures AtRest(types, Put(c, key, d), r') <==> EditDone(c, r', d) && Get(d.spec, "replicas") == Some(Num(n))
    {
      WriterAtRestIff(types, Put(c, key, d), r, key, m);
      WriterAtRestIff(types, Put(c, key, d), r', key, n);
    }
    var d := BothWritten(c, r, r', c.deployments[key], n);
    if m == n {
      assert AtRest(types, Put(c, key, d), r) && AtRest(types, Put(c, key, d), r');
    }
  }

  /** Some Deployment with these replicas satisfies both writers. */
  lemma BothWritten(c: State, r: Request, r': Request, d0: Deployment, n: int) returns (d: Deployment)
    requires r.ForResource? && r'.ForResource? && r.ck in c.crs && r'.ck in c.crs
    requires DeploymentEdit(r.ck, c.crs[r.ck].spec, r.ctl, d0).Some? &&
             DeploymentEdit(r'.ck, c.crs[r'.ck].spec, r'.ctl, d0).Some?
    requires WriteApart(r.ck, c.crs[r.ck].spec, r.ctl, r'.ck, c.crs[r'.ck].spec, r'.ctl)
    ensures EditDone(c, r, d) && EditDone(c, r', d) && Get(d.spec, "replicas") == Some(Num(n))
  {
    var s, s' := c.crs[r.ck].spec, c.crs[r'.ck].spec;
    var e := DeploymentEdit(r.ck, s, r.ctl, WithReplicas(d0, n)).value;
    EditTwice(r.ck, s, r.ctl, WithReplicas(d0, n));
    d := DeploymentEdit(r'.ck, s', r'.ctl, e).value;
    EditTwice(r'.ck, s', r'.ctl, e);
    EditsIndependent(r.ck, s, r.ctl, r'.ck, s', r'.ctl, e);
  }

  // ----- For example

  /** A Compute and a Storage on the Deployment `web`, with hatches for `m` and `n` replicas. */
  function WebCluster(m: int, n: int): State {
    var target := ResourceRef("web", "Deployment", "apps/v1", "prod");
    var compute := ComputeSpec(target, ReplicasHatch(m), Autoscaling(0, 0, 0, 0),
                               Scheduling(map["disk" := "ssd"], Affinity(None, None, None), []),
                               IntOrString(false, 0, ""), IntOrString(false, 0, ""));
    var storage := StorageSpec(target, ReplicasHatch(n), "", [VolumeSpec("data", "1Gi", None, "/data", [])]);
    var d := Deployment(PodSpec([], [], map[], None, [], map[]), map[], map[], map[]);
    State(map[],
          map[CrKey(Compute, "prod", "web") := Cr(None, compute), CrKey(Storage, "prod", "web") := Cr(None, storage)],
          map[ObjectKey("prod", "web") := d], map[])
  }

  /** With three replicas each they can be at rest together; with three and five they never are, whatever is stored. */
  lemma WebReplicasFight(types: Types)
    requires ReplicasDecode(types)
    ensures var key := ObjectKey("prod", "web");
            var compute := ForResource(CrKey(Compute, "prod", "web"), SchedulingController);
            var storage := ForResource(CrKey(Storage, "prod", "web"), VolumesController);
            (exists d :: AtRest(types, Put(WebCluster(3, 3), key, d), compute) &&
                         AtRest(types, Put(WebCluster(3, 3), key, d), storage)) &&
            !(exists d :: AtRest(types, Put(WebCluster(3, 5), key, d), compute) &&
                          AtRest(types, Put(WebCluster(3, 5), key, d), storage))
  {
    var key := ObjectKey("prod", "web");
    var compute := ForResource(CrKey(Compute, "prod", "web"), SchedulingController);
    var storage := ForResource(CrKey(Storage, "prod", "web"), VolumesController);
    WebReplicates(3, 3);
    WebReplicates(3, 5);
    RestTogetherIff(types, WebCluster(3, 3), compute, storage, key, 3, 3);
    RestTogetherIff(types, WebCluster(3, 5), compute, storage, key, 3, 5);
  }

  lemma WebReplicates(m: int, n: int)
    ensures Replicates(WebCluster(m, n), ForResource(CrKey(Compute, "prod", "web"), SchedulingController),
                       ObjectKey("prod", "web"), m)
    ensures Replicates(WebCluster(m, n), ForResource(CrKey(Storage, "prod", "web"), VolumesController),
                       ObjectKey("prod", "web"), n)
  {
  }
}
