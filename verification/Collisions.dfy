/**
 When the derived keys of two requests collide. Most leaf names are injective in the resource they
 derive from; only Services (named after the target), claims (storage and volume name joined by a
 dash) and the target Deployments themselves can be shared.
 */
module Collisions {
  import opened Wrappers
  import opened JsonTree
  import opened Specs
  import opened Cluster
  import opened LeafFrames
  import opened Convergence

  /** The API server stores specs of the kind the key names. */
  predicate Typed(cap: Capability, spec: Spec) {
    match cap
    case Compute => spec.ComputeSpec?
    case Storage => spec.StorageSpec?
    case Networking => spec.NetworkingSpec?
    case Observability => spec.ObservabilitySpec?
    case Security => spec.SecuritySpec?
  }

  predicate SameService(r: Request, s: Spec, r': Request, s': Spec)
    requires r.ForResource? && r'.ForResource?
  {
    r.ctl.ServiceController? && r'.ctl.ServiceController? && s.NetworkingSpec? && s'.NetworkingSpec? &&
    r.ck.namespace == r'.ck.namespace && s.targetRef.resource == s'.targetRef.resource
  }

  predicate SharedClaim(ck: CrKey, s: Spec, ck': CrKey, s': Spec)
    requires s.StorageSpec? && s'.StorageSpec?
  {
    ck.namespace == ck'.namespace &&
    exists u, v :: u in s.volumes && v in s'.volumes && u.quantity.Some? && v.quantity.Some? &&
                   NamesMeet(ck.name, u.name, ck'.name, v.name)
  }

  predicate SharedVolumeName(s: Spec, s': Spec) {
    s.StorageSpec? && s'.StorageSpec? && exists u, v :: u in s.volumes && v in s'.volumes && u.name == v.name
  }

  lemma PvcFootprint(ck: CrKey, s: Spec, k: LeafKey)
    requires s.StorageSpec?
    ensures k in Footprint(ck, s, PvcController) <==>
            exists v :: v in s.volumes && v.quantity.Some? && k == PvcKey(ck, v.name)
  {
    PvcKeysOf(ck, s.storageClassName, s.volumes, k);
  }

  /** The one key of a controller that writes a single leaf. */
  function KeyFor(ck: CrKey, s: Spec, ctl: Controller): Option<LeafKey> {
    match (ctl, s)
    case (HpaController, ComputeSpec(_, _, _, _, _, _)) => Some(LeafKey(Hpa, ck.namespace, LeafName(ck, "-hpa")))
    case (PdbController, ComputeSpec(_, _, _, _, _, _)) => Some(LeafKey(Pdb, ck.namespace, LeafName(ck, "-pdb")))
    case (ServiceController, NetworkingSpec(target, _, _, _, _, _, _)) =>
      Some(LeafKey(Service, ck.namespace, target.resource))
    case (IngressController, NetworkingSpec(_, _, _, _, _, _, _)) =>
      Some(LeafKey(Ingress, ck.namespace, LeafName(ck, "-ingress")))
    case (RoleController, SecuritySpec(_, _, _, _)) => Some(LeafKey(Role, ck.namespace, LeafName(ck, "-role")))
    case (RoleBindingController, SecuritySpec(_, _, _, _)) =>
      Some(LeafKey(RoleBinding, ck.namespace, LeafName(ck, "-rb")))
    case (_, _) => None
  }

  lemma SingleFootprint(ck: CrKey, s: Spec, ctl: Controller)
    requires !ctl.PvcController?
    ensures Footprint(ck, s, ctl) == match KeyFor(ck, s, ctl) case None => {} case Some(k) => {k}
  {
    var plan := Plan(ck, s, ctl, Null);
    if plan != [] {
      assert plan[1..] == [];
      assert KeysOf(plan) == KeyOf(plan[0]) + KeysOf([]);
    }
  }

  lemma SuffixInjective(a: string, b: string, suffix: string)
    ensures a + suffix == b + suffix <==> a == b
  {
    assert (a + suffix)[..|a + suffix| - |suffix|] == a;
    assert (b + suffix)[..|b + suffix| - |suffix|] == b;
  }

  lemma SingleKeysDiffer(r: Request, s: Spec, r': Request, s': Spec)
    requires r.ForResource? && r'.ForResource? && r != r' && Typed(r.ck.cap, s) && Typed(r'.ck.cap, s')
    requires KeyFor(r.ck, s, r.ctl).Some? && KeyFor(r'.ck, s', r'.ctl).Some?
    ensures KeyFor(r.ck, s, r.ctl) == KeyFor(r'.ck, s', r'.ctl) <==> SameService(r, s, r', s')
  {
    if r.ctl == r'.ctl {
      assert r.ck.cap == r'.ck.cap;
      SuffixInjective(r.ck.name, r'.ck.name, "-hpa");
      SuffixInjective(r.ck.name, r'.ck.name, "-pdb");
      SuffixInjective(r.ck.name, r'.ck.name, "-ingress");
      SuffixInjective(r.ck.name, r'.ck.name, "-role");
      SuffixInjective(r.ck.name, r'.ck.name, "-rb");
    }
  }

  /**
   Two requests for resources of the right kinds stay apart exactly when they name no common
   Service, derive no common claim, and are not two Computes, or two Storages with a volume name in
   common, on one Deployment.
   */
  lemma ApartIff(r: Request, s: Spec, r': Request, s': Spec)
    requires r.ForResource? && r'.ForResource? && r != r' && Typed(r.ck.cap, s) && Typed(r'.ck.cap, s')
    ensures Apart(r, s, r', s') <==>
            !SameService(r, s, r', s') &&
            !(r.ctl.PvcController? && r'.ctl.PvcController? && s.StorageSpec? && s'.StorageSpec? &&
              SharedClaim(r.ck, s, r'.ck, s')) &&
            !(WritesDeployments(r.ctl) && r.ctl == r'.ctl && Target(r.ck, s) == Target(r'.ck, s') &&
              (r.ctl.VolumesController? ==> SharedVolumeName(s, s')))
  {
    var f, f' := Footprint(r.ck, s, r.ctl), Footprint(r'.ck, s', r'.ctl);
    if r.ctl.PvcController? || r'.ctl.PvcController? {
      PvcFootprintsMeet(r, s, r', s');
    } else {
      SingleFootprint(r.ck, s, r.ctl);
      SingleFootprint(r'.ck, s', r'.ctl);
      if KeyFor(r.ck, s, r.ctl).Some? && KeyFor(r'.ck, s', r'.ctl).Some? {
        SingleKeysDiffer(r, s, r', s');
      }
    }
  }

  lemma PvcFootprintsMeet(r: Request, s: Spec, r': Request, s': Spec)
    requires r.ForResource? && r'.ForResource? && (r.ctl.PvcController? || r'.ctl.PvcController?)
    ensures Footprint(r.ck, s, r.ctl) !! Footprint(r'.ck, s', r'.ctl) <==>
            !(r.ctl.PvcController? && r'.ctl.PvcController? && s.StorageSpec? && s'.StorageSpec? &&
              SharedClaim(r.ck, s, r'.ck, s'))
  {
    var f, f' := Footprint(r.ck, s, r.ctl), Footprint(r'.ck, s', r'.ctl);
    ClaimsOnly(r, s);
    ClaimsOnly(r', s');
    if r.ctl.PvcController? && r'.ctl.PvcController? && s.StorageSpec? && s'.StorageSpec? {
      forall k | k in f && k in f'
        ensures SharedClaim(r.ck, s, r'.ck, s')
      {
        PvcFootprint(r.ck, s, k);
        PvcFootprint(r'.ck, s', k);
        var u :| u in s.volumes && u.quantity.Some? && k == PvcKey(r.ck, u.name);
        var v :| v in s'.volumes && v.quantity.Some? && k == PvcKey(r'.ck, v.name);
        ClaimNamesMeetIff(r.ck.name, u.name, r'.ck.name, v.name);
        assert NamesMeet(r.ck.name, u.name, r'.ck.name, v.name);
      }
      if u, v :| SharedClaim(r.ck, s, r'.ck, s') && u in s.volumes && v in s'.volumes &&
                 u.quantity.Some? && v.quantity.Some? && NamesMeet(r.ck.name, u.name, r'.ck.name, v.name) {
        ClaimNamesMeetIff(r.ck.name, u.name, r'.ck.name, v.name);
        PvcFootprint(r.ck, s, PvcKey(r.ck, u.name));
        PvcFootprint(r'.ck, s', PvcKey(r.ck, u.name));
        assert PvcKey(r.ck, u.name) in f && PvcKey(r.ck, u.name) in f';
      }
    }
  }

  /** Claims are touched by the claim controller on Storages, and by nobody else. */
  lemma ClaimsOnly(r: Request, s: Spec)
    requires r.ForResource?
    ensures r.ctl.PvcController? && !s.StorageSpec? ==> Footprint(r.ck, s, r.ctl) == {}
    ensures forall k | k in Footprint(r.ck, s, r.ctl) :: k.kind.Pvc? <==> r.ctl.PvcController?
  {
    if !r.ctl.PvcController? {
      SingleFootprint(r.ck, s, r.ctl);
    } else if s.StorageSpec? {
      forall k | k in Footprint(r.ck, s, r.ctl)
        ensures k.kind.Pvc?
      {
        PvcFootprint(r.ck, s, k);
      }
    }
  }
}
