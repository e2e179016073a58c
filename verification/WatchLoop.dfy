/**
 Several Storages on one Deployment. Each patch re-triggers, through the Deployment watch, every
 Storage that targets the Deployment.
 */
module WatchLoop {
  import opened Wrappers
  import opened JsonTree
  import opened NamedList
  import opened Specs
  import opened VolumeUpsert
  import opened Deployments
  import opened DeploymentWriters
  import opened StaleReads
  import opened Schedules

  datatype Claimant = Claimant(name: string, volumes: seq<VolumeSpec>)

  /** A reconcile of one Storage on a fresh read. */
  function Pass(d: Deployment, s: Claimant): Deployment {
    AttachTo(d, s.name, s.volumes)
  }

  /** The diff of a fresh read stores exactly the pass, so a pass without effect sends an empty diff. */
  lemma PassLands(d: Deployment, s: Claimant)
    ensures Land(d, d, Pass(d, s)) == Some(Pass(d, s))
  {
    LandStorage(d, d, s.name, s.volumes);
  }

  predicate SharesName(s: Claimant, t: Claimant) {
    exists u, v :: u in s.volumes && v in t.volumes && u.name == v.name
  }

  ghost predicate SettledIn(d: Deployment, s: Claimant) {
    Settled(d.pod.volumes, s.volumes, ClaimWriter(s.name)) &&
    (d.pod.containers != [] ==> Settled(d.pod.containers[0].mounts, s.volumes, MountWriter()))
  }

  lemma FixedIff(d: Deployment, s: Claimant)
    ensures Pass(d, s) == d <==> SettledIn(d, s)
  {
    WritersAbsorb(s.name);
    FixedIffSettled(d.pod.volumes, s.volumes, ClaimWriter(s.name));
    if d.pod.containers != [] {
      FixedIffSettled(d.pod.containers[0].mounts, s.volumes, MountWriter());
      var cs := d.pod.containers;
      assert MountFirst(cs, s.volumes) == cs <==> PutAll(cs[0].mounts, s.volumes, MountWriter()) == cs[0].mounts;
    }
  }

  /** A second pass of the same Storage has no effect. */
  lemma PassTwice(d: Deployment, s: Claimant)
    ensures Pass(Pass(d, s), s) == Pass(d, s)
  {
    AttachTwice(d.pod, s.name, s.volumes);
  }

  /** A pass fixes its Storage for good: Storages with other volume names cannot undo it. */
  lemma StaysFixed(d: Deployment, s: Claimant, t: Claimant)
    requires Pass(d, s) == d && !SharesName(s, t)
    ensures Pass(Pass(d, t), s) == Pass(d, t)
  {
    FixedIff(d, s);
    WritersAbsorb(s.name);
    WritersAbsorb(t.name);
    DisjointKeepsSettled(d.pod.volumes, s.volumes, ClaimWriter(s.name), t.volumes, ClaimWriter(t.name));
    if d.pod.containers != [] {
      DisjointKeepsSettled(d.pod.containers[0].mounts, s.volumes, MountWriter(), t.volumes, MountWriter());
    }
    FixedIff(Pass(d, t), s);
  }

  ghost predicate PairwiseDisjoint(ss: set<Claimant>) {
    forall s, t :: s in ss && t in ss && s != t ==> !SharesName(s, t)
  }

  ghost function Unsettled(ss: set<Claimant>, d: Deployment): set<Claimant> {
    set s | s in ss && Pass(d, s) != d
  }

  lemma SmallerSet<T>(a: set<T>, b: set<T>)
    requires a < b
    ensures |a| < |b|
  {
    assert |b - a| > 0;
    assert b == a + (b - a);
  }

  lemma EffectivePassSettles(ss: set<Claimant>, d: Deployment, s: Claimant)
    requires PairwiseDisjoint(ss) && s in ss && Pass(d, s) != d
    ensures |Unsettled(ss, Pass(d, s))| < |Unsettled(ss, d)|
  {
    var e := Pass(d, s);
    PassTwice(d, s);
    forall t | t in ss && Pass(d, t) == d
      ensures Pass(e, t) == e
    {
      StaysFixed(d, t, s);
    }
    assert s in Unsettled(ss, d) && s !in Unsettled(ss, e);
    SmallerSet(Unsettled(ss, e), Unsettled(ss, d));
  }

  /**
   With pairwise disjoint volume names the watch loop terminates: at most one effective patch per
   Storage over any run, however the watch schedules them.
   */
  lemma WatchLoopTerminates(ss: set<Claimant>, d: Deployment, schedule: seq<Claimant>)
    requires PairwiseDisjoint(ss) && forall s :: s in schedule ==> s in ss
    ensures Effective(Pass, d, schedule) <= |ss|
  {
    var rank: Deployment -> nat := e => |Unsettled(ss, e)|;
    forall e: Deployment, s: Claimant | s in ss && Pass(e, s) != e
      ensures rank(Pass(e, s)) < rank(e)
    {
      EffectivePassSettles(ss, e, s);
    }
    EffectiveBounded(Pass, e => true, s => s in ss, rank, d, schedule);
    SubsetSize(Unsettled(ss, d), ss);
  }

  lemma SubsetSize<T>(a: set<T>, b: set<T>)
    requires a <= b
    ensures |a| <= |b|
  {
    assert b == a + (b - a);
  }

  /** Two Storages of different names that share a volume name fight: no Deployment satisfies both. */
  lemma SharedNameNeverSettles(d: Deployment, s: Claimant, t: Claimant)
    requires s.name != t.name && SharesName(s, t)
    ensures Pass(d, s) != d || Pass(d, t) != d
  {
    if Pass(d, s) == d && Pass(d, t) == d {
      FixedIff(d, s);
      FixedIff(d, t);
      var u, v :| u in s.volumes && v in t.volumes && u.name == v.name;
      LastListed(s.volumes, u.name);
      LastListed(t.volumes, v.name);
      var mine, theirs := ClaimName(s.name, u.name), ClaimName(t.name, v.name);
      assert ClaimSource(mine) == ClaimSource(theirs);
      assert ClaimSource(mine)["persistentVolumeClaim"].fields["claimName"] == Str(mine);
      ClaimNamesDiffer(s.name, t.name, u.name);
    }
  }

  /** Claim names are injective in the Storage name, for one volume name. */
  lemma ClaimNamesDiffer(s: string, t: string, volume: string)
    ensures ClaimName(s, volume) == ClaimName(t, volume) <==> s == t
  {
    var x, y := ClaimName(s, volume), ClaimName(t, volume);
    assert x[..|x| - |volume| - 1] == s;
    assert y[..|y| - |volume| - 1] == t;
  }

  ghost predicate DistinctNames(ss: set<Claimant>) {
    forall s, t :: s in ss && t in ss && s != t ==> s.name != t.name
  }

  ghost predicate AllFixed(d: Deployment, ss: set<Claimant>) {
    forall s :: s in ss ==> Pass(d, s) == d
  }

  ghost function PassAll(ss: set<Claimant>, d: Deployment): Deployment {
    if ss == {} then d else var s :| s in ss; Pass(PassAll(ss - {s}, d), s)
  }

  lemma {:induction false} PassAllSettles(ss: set<Claimant>, d: Deployment)
    requires PairwiseDisjoint(ss)
    ensures AllFixed(PassAll(ss, d), ss)
  {
    if ss != {} {
      var t :| t in ss && PassAll(ss, d) == Pass(PassAll(ss - {t}, d), t);
      PassAllSettles(ss - {t}, d);
      forall s | s in ss
        ensures Pass(PassAll(ss, d), s) == PassAll(ss, d)
      {
        if s == t {
          PassTwice(PassAll(ss - {t}, d), t);
        } else {
          StaysFixed(PassAll(ss - {t}, d), s, t);
        }
      }
    }
  }

  /** Storages of distinct names can all come to rest on a Deployment exactly when no two share a volume name. */
  lemma CanSettleIffDisjoint(ss: set<Claimant>)
    requires DistinctNames(ss)
    ensures (exists d: Deployment :: AllFixed(d, ss)) <==> PairwiseDisjoint(ss)
  {
    if PairwiseDisjoint(ss) {
      PassAllSettles(ss, Blank());
      assert AllFixed(PassAll(ss, Blank()), ss);
    }
    forall d: Deployment, s, t | s in ss && t in ss && s != t && SharesName(s, t)
      ensures Pass(d, s) != d || Pass(d, t) != d
    {
      SharedNameNeverSettles(d, s, t);
    }
  }

  // ----- Stale reads between two Storages

  /**
   A list that one Storage changed and another, from a stale read, may overwrite, ends right exactly if
   one of them had nothing to do.
   */
  lemma StaleListIff<V(!new)>(xs: seq<Named<V>>, mine: seq<VolumeSpec>, w: VolumeUpsert.Writer<V>,
                              theirs: seq<VolumeSpec>, w': VolumeUpsert.Writer<V>)
    requires Absorbing(w) && Absorbing(w')
    requires forall u, v | u in mine && v in theirs :: u.name != v.name
    ensures Winner(PutAll(xs, mine, w), xs, PutAll(xs, theirs, w')) == PutAll(PutAll(xs, mine, w), theirs, w') <==>
            Settled(xs, mine, w) || Settled(xs, theirs, w')
  {
    var ys := PutAll(xs, mine, w);
    FixedIffSettled(xs, mine, w);
    FixedIffSettled(xs, theirs, w');
    if Settled(xs, theirs, w') {
      DisjointKeepsSettled(xs, theirs, w', mine, w);
      FixedIffSettled(ys, theirs, w');
    } else if PutAll(xs, theirs, w') == PutAll(ys, theirs, w') {
      forall v | v in mine
        ensures Lookup(xs, v.name) == Lookup(ys, v.name)
      {
        LastListed(theirs, v.name);
        LookupPutAll(xs, theirs, w', v.name);
        LookupPutAll(ys, theirs, w', v.name);
      }
      forall v | v in mine
        ensures Last(mine, v.name).Some? && Lookup(xs, v.name) == Some(w(Last(mine, v.name).value, Lookup(xs, v.name)))
      {
        LastListed(mine, v.name);
        LookupPutAll(xs, mine, w, v.name);
      }
    }
  }

  ghost predicate VolumesSettled(d: Deployment, s: Claimant) {
    Settled(d.pod.volumes, s.volumes, ClaimWriter(s.name))
  }

  ghost predicate MountsSettled(d: Deployment, s: Claimant) {
    d.pod.containers != [] ==> Settled(d.pod.containers[0].mounts, s.volumes, MountWriter())
  }

  /**
   When both Storages read the same Deployment and write one after the other, the second diff adds
   its work to that of the first if and only if, for the volumes and for the mounts, one of the two
   found its part already done.
   */
  lemma StaleDiffHarmlessIff(d: Deployment, s: Claimant, t: Claimant)
    requires !SharesName(s, t)
    ensures Land(Pass(d, s), d, Pass(d, t)) == Some(Pass(Pass(d, s), t)) <==>
            (VolumesSettled(d, s) || VolumesSettled(d, t)) && (MountsSettled(d, s) || MountsSettled(d, t))
  {
    var cs := d.pod.containers;
    WritersAbsorb(s.name);
    WritersAbsorb(t.name);
    LandStorage(Pass(d, s), d, t.name, t.volumes);
    StaleListIff(d.pod.volumes, s.volumes, ClaimWriter(s.name), t.volumes, ClaimWriter(t.name));
    if cs != [] {
      StaleListIff(cs[0].mounts, s.volumes, MountWriter(), t.volumes, MountWriter());
      StaleContainers(cs, s.volumes, t.volumes);
    }
  }

  function WithMounts(cs: seq<Container>, ms: seq<Mount>): seq<Container>
    requires cs != []
  {
    cs[0 := cs[0].(mounts := ms)]
  }

  lemma WithMountsInjective(cs: seq<Container>, ms: seq<Mount>, ns: seq<Mount>)
    requires cs != []
    ensures WithMounts(cs, ms) == WithMounts(cs, ns) <==> ms == ns
    ensures WithMounts(cs, cs[0].mounts) == cs
  {
    assert WithMounts(cs, ms)[0].mounts == ms && WithMounts(cs, ns)[0].mounts == ns;
  }

  lemma StaleContainers(cs: seq<Container>, mine: seq<VolumeSpec>, theirs: seq<VolumeSpec>)
    requires cs != []
    ensures var ms, w := cs[0].mounts, MountWriter();
            Winner(MountFirst(cs, mine), cs, MountFirst(cs, theirs)) == MountFirst(MountFirst(cs, mine), theirs) <==>
            Winner(PutAll(ms, mine, w), ms, PutAll(ms, theirs, w)) == PutAll(PutAll(ms, mine, w), theirs, w)
  {
    var ms, w := cs[0].mounts, MountWriter();
    var a, b, c := PutAll(ms, mine, w), PutAll(ms, theirs, w), PutAll(PutAll(ms, mine, w), theirs, w);
    assert MountFirst(cs, mine) == WithMounts(cs, a) && MountFirst(cs, theirs) == WithMounts(cs, b);
    assert MountFirst(MountFirst(cs, mine), theirs) == WithMounts(cs, c);
    WithMountsInjective(cs, b, ms);
    WithMountsInjective(cs, a, c);
    WithMountsInjective(cs, b, c);
  }

  /**
   If the second Storage changes the volumes, every volume that it does not list is as it was before
   the first one wrote.
   */
  lemma StaleStorageOverwrites(d: Deployment, s: Claimant, t: Claimant, n: string)
    requires !VolumesSettled(d, t) && Last(t.volumes, n).None?
    ensures var landed := Land(Pass(d, s), d, Pass(d, t));
            landed.Some? && Lookup(landed.value.pod.volumes, n) == Lookup(d.pod.volumes, n)
  {
    WritersAbsorb(t.name);
    FixedIffSettled(d.pod.volumes, t.volumes, ClaimWriter(t.name));
    LandStorage(Pass(d, s), d, t.name, t.volumes);
    LookupPutAll(d.pod.volumes, t.volumes, ClaimWriter(t.name), n);
  }

  /**
   So a volume that only the first Storage lists is lost if it was not there before, although a
   serial run would have it.
   */
  lemma VolumeLost(d: Deployment, s: Claimant, t: Claimant, n: string)
    requires !VolumesSettled(d, t) && Last(s.volumes, n).Some? && Last(t.volumes, n).None? &&
             Lookup(d.pod.volumes, n).None?
    ensures var landed := Land(Pass(d, s), d, Pass(d, t));
            landed.Some? && Lookup(landed.value.pod.volumes, n).None?
    ensures Lookup(Pass(Pass(d, s), t).pod.volumes, n) ==
              Some(map["persistentVolumeClaim" := Obj(map["claimName" := Str(s.name + "-" + n)])])
  {
    StaleStorageOverwrites(d, s, t, n);
    AttachMeans(d.pod, s.name, s.volumes, n);
    AttachMeans(Pass(d, s).pod, t.name, t.volumes, n);
  }

  function Blank(): Deployment {
    Deployment(PodSpec([], [], map[], None, [], map[]), map[], map[], map[])
  }

  function OneVolume(storage: string, volume: string): Claimant {
    Claimant(storage, [VolumeSpec(volume, "1Gi", None, "/" + volume, [])])
  }

  lemma OneVolumeListed(storage: string, volume: string, n: string)
    ensures Last(OneVolume(storage, volume).volumes, n).Some? <==> n == volume
    ensures !VolumesSettled(Blank(), OneVolume(storage, volume))
  {
    var vols := OneVolume(storage, volume).volumes;
    assert vols[..0] == [] && vols[0] in vols && vols[0].name == volume;
  }

  /** Storages a and b with one volume each, on a Deployment without volumes: the volume of a is gone. */
  lemma DataVolumeLost()
    ensures var s, t := OneVolume("a", "data"), OneVolume("b", "logs");
            var landed := Land(Pass(Blank(), s), Blank(), Pass(Blank(), t));
            landed.Some? && Lookup(landed.value.pod.volumes, "data").None?
  {
    OneVolumeListed("a", "data", "data");
    OneVolumeListed("b", "logs", "data");
    VolumeLost(Blank(), OneVolume("a", "data"), OneVolume("b", "logs"), "data");
  }
}
