/**
 The watches of the Deployment writers: a change of a Deployment matters to exactly the resources
 that the watch map enqueues and that have something to write.
 */
module Watches {
  import opened JsonTree
  import opened EscapeHatch
  import opened Specs
  import opened VolumeUpsert
  import opened Deployments
  import opened DeploymentWriters
  import opened Cluster
  import opened LeafFrames
  import opened Histories
  import opened Convergence
  import opened References

  /** The writer does the same whether the Deployment `d` is as it is or as `x`, and leaves it alone in both cases. */
  predicate Indifferent(types: Types, c: State, ck: CrKey, ctl: Controller, d: ObjectKey, x: Deployment) {
    var changed := c.(deployments := c.deployments[d := x]);
    var r, r' := Reconcile(types, c, ForResource(ck, ctl)), Reconcile(types, changed, ForResource(ck, ctl));
    r'.ok == r.ok && r'.state == r.state.(deployments := r.state.deployments[d := x])
  }

  /** The resource has a setting to schedule, or a volume to attach. */
  predicate HasWork(ctl: Controller, spec: Spec) {
    match (ctl, spec)
    case (SchedulingController, ComputeSpec(_, _, _, s, _, _)) => !Unscheduled(s)
    case (VolumesController, StorageSpec(_, _, _, vols)) => vols != []
    case (_, _) => false
  }

  /** The resource is of the kind that its controller reconciles. */
  predicate OfItsKind(c: State, ck: CrKey, ctl: Controller) {
    ck in c.crs ==>
      (ctl.SchedulingController? && c.crs[ck].spec.ComputeSpec?) ||
      (ctl.VolumesController? && c.crs[ck].spec.StorageSpec?)
  }

  lemma AttachNothing(p: PodSpec, storage: string)
    ensures AttachVolumes(p, storage, []) == p
  {
    if p.containers != [] {
      assert p.containers[0 := p.containers[0].(mounts := PutAll(p.containers[0].mounts, [], MountWriter()))] ==
             p.containers;
    }
  }

  /** A writer without work leaves everything as it is. */
  lemma NoWork(types: Types, c: State, ck: CrKey, ctl: Controller)
    requires WritesDeployments(ctl) && OfItsKind(c, ck, ctl)
    requires ck in c.crs ==> NoHatchesFor(c.crs[ck].spec.hatches, "Deployment") && !HasWork(ctl, c.crs[ck].spec)
    ensures Reconcile(types, c, ForResource(ck, ctl)) == Outcome(c, true)
  {
    if ctl.SchedulingController? {
      SchedulingOutcome(types, c, ck);
    } else if ck in c.crs {
      var spec := c.crs[ck].spec;
      DeploymentRequest(types, c, ForResource(ck, ctl));
      NothingWritten(c.deployments, ck, spec, ctl);
      if Target(ck, spec) in c.deployments {
        AttachNothing(c.deployments[Target(ck, spec)].pod, ck.name);
      }
    }
  }

  /** A Deployment on which the writer has an effect. */
  function Unsettled(spec: Spec, d: Deployment): Deployment {
    match spec
    case ComputeSpec(_, _, _, s, _, _) => d.(pod := d.pod.(spread := s.spread + [Null]))
    case _ => d.(pod := d.pod.(volumes := []))
  }

  lemma UnsettledMatters(types: Types, c: State, ck: CrKey, ctl: Controller, d: ObjectKey)
    requires WritesDeployments(ctl) && d in c.deployments && OfItsKind(c, ck, ctl) && LooksUp(c, ck, d)
    requires NoHatchesFor(c.crs[ck].spec.hatches, "Deployment") && HasWork(ctl, c.crs[ck].spec)
    ensures !Indifferent(types, c, ck, ctl, d, Unsettled(c.crs[ck].spec, c.deployments[d]))
  {
    var spec := c.crs[ck].spec;
    var x := Unsettled(spec, c.deployments[d]);
    var changed := c.(deployments := c.deployments[d := x]);
    var after := Reconcile(types, changed, ForResource(ck, ctl)).state.deployments;
    if ctl.SchedulingController? {
      SchedulingOutcome(types, changed, ck);
      assert after[d].pod.spread != x.pod.spread;
    } else {
      VolumesOutcome(types, changed, ck, spec.volumes[0].name);
      LastListed(spec.volumes, spec.volumes[0].name);
      assert after[d].pod.volumes != x.pod.volumes;
    }
  }

  /**
   An unhatched writer depends on the Deployment if and only if the watch map enqueues it for that
   Deployment and it has work: the watch misses nobody, and enqueues only those who look there.
   */
  lemma DependsIff(types: Types, c: State, ck: CrKey, ctl: Controller, d: ObjectKey)
    requires WritesDeployments(ctl) && d in c.deployments && OfItsKind(c, ck, ctl)
    requires ck in c.crs ==> NoHatchesFor(c.crs[ck].spec.hatches, "Deployment")
    ensures (exists x :: !Indifferent(types, c, ck, ctl, d, x)) <==>
            ck in c.crs && ck.namespace == d.namespace && c.crs[ck].spec.targetRef.resource != "" &&
            c.crs[ck].spec.targetRef.kind == "Deployment" && c.crs[ck].spec.targetRef.resource == d.name &&
            HasWork(ctl, c.crs[ck].spec)
  {
    if LooksUp(c, ck, d) && HasWork(ctl, c.crs[ck].spec) {
      UnsettledMatters(types, c, ck, ctl, d);
    } else {
      forall x
        ensures Indifferent(types, c, ck, ctl, d, x)
      {
        if LooksUp(c, ck, d) {
          NoWork(types, c, ck, ctl);
          NoWork(types, c.(deployments := c.deployments[d := x]), ck, ctl);
        } else {
          WatchMissesNobody(types, c, ck, ctl, d, x);
        }
      }
    }
  }
}
