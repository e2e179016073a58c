/**
 The two controllers that write target Deployments: the Storage writer (volumes and the mounts of
 the first container) and the Compute writer (scheduling fields). Both read the Deployment, edit
 their copy, and send the merge diff of the two, with no check that the read is still current.
 */
module DeploymentWriters {
  import opened Wrappers
  import opened JsonTree
  import opened NamedList
  import opened Specs
  import opened VolumeUpsert
  import opened Deployments

  // ----- The Storage writer's edit

  function ClaimName(storage: string, volume: string): string {
    storage + "-" + volume
  }

  function ClaimSource(claim: string): Source {
    map["persistentVolumeClaim" := Obj(map["claimName" := Str(claim)])]
  }

  function ClaimWriter(storage: string): Writer<Source> {
    (vol: VolumeSpec, o: Option<Source>) => ClaimSource(ClaimName(storage, vol.name))
  }

  function MountWriter(): Writer<MountBody> {
    (vol: VolumeSpec, m: Option<MountBody>) =>
      if m.Some? then m.value.(path := vol.mountPath) else MountBody(vol.mountPath, map[])
  }

  lemma WritersAbsorb(storage: string)
    ensures Absorbing(ClaimWriter(storage)) && Absorbing(MountWriter())
  {
  }

  function MountFirst(cs: seq<Container>, vols: seq<VolumeSpec>): seq<Container> {
    if cs == [] then [] else cs[0 := cs[0].(mounts := PutAll(cs[0].mounts, vols, MountWriter()))]
  }

  function AttachVolumes(p: PodSpec, storage: string, vols: seq<VolumeSpec>): PodSpec {
    p.(volumes := PutAll(p.volumes, vols, ClaimWriter(storage)), containers := MountFirst(p.containers, vols))
  }

  /**
   What an attach pass means, name by name: a listed volume is a claim of the Storage and is mounted
   at its last listed path with the other mount fields kept; every other volume and mount that can
   be looked up, every other container and every other pod field is as it was.
   */
  lemma AttachMeans(p: PodSpec, storage: string, vols: seq<VolumeSpec>, n: string)
    ensures var q := AttachVolumes(p, storage, vols);
            q == p.(volumes := q.volumes, containers := q.containers) &&
            Lookup(q.volumes, n) ==
              (if Last(vols, n).None? then Lookup(p.volumes, n)
               else Some(map["persistentVolumeClaim" := Obj(map["claimName" := Str(storage + "-" + n)])])) &&
            |q.containers| == |p.containers| &&
            (p.containers != [] ==>
               q.containers[1..] == p.containers[1..] && q.containers[0].extra == p.containers[0].extra &&
               Lookup(q.containers[0].mounts, n) ==
               match Last(vols, n)
               case None => Lookup(p.containers[0].mounts, n)
               case Some(v) =>
                 var before := Lookup(p.containers[0].mounts, n);
                 Some(MountBody(v.mountPath, if before.Some? then before.value.extra else map[])))
  {
    WritersAbsorb(storage);
    LastListed(vols, n);
    LookupPutAll(p.volumes, vols, ClaimWriter(storage), n);
    if p.containers != [] {
      LookupPutAll(p.containers[0].mounts, vols, MountWriter(), n);
    }
  }

  // ----- The Compute writer's edit

  function AffinityJson(a: Affinity): Json {
    Obj((if a.nodeAffinity.Some? then map["nodeAffinity" := a.nodeAffinity.value] else map[])
        + (if a.podAffinity.Some? then map["podAffinity" := a.podAffinity.value] else map[])
        + (if a.podAntiAffinity.Some? then map["podAntiAffinity" := a.podAntiAffinity.value] else map[]))
  }

  function Schedule(p: PodSpec, s: Scheduling): PodSpec {
    if s.IsSet() then p.(nodeSelector := s.nodeSelector, affinity := Some(AffinityJson(s.affinity)), spread := s.spread)
    else p
  }

  /** A stored affinity has exactly the three terms that are given. */
  predicate AffinityIs(stored: Option<Json>, a: Affinity) {
    stored.Some? && stored.value.Obj? &&
    stored.value.fields.Keys <= {"nodeAffinity", "podAffinity", "podAntiAffinity"} &&
    Get(stored.value.fields, "nodeAffinity") == a.nodeAffinity &&
    Get(stored.value.fields, "podAffinity") == a.podAffinity &&
    Get(stored.value.fields, "podAntiAffinity") == a.podAntiAffinity
  }

  lemma AffinityMeans(a: Affinity)
    ensures AffinityIs(Some(AffinityJson(a)), a)
  {
    var j := AffinityJson(a).fields;
    assert forall k :: k in j ==> k == "nodeAffinity" || k == "podAffinity" || k == "podAntiAffinity";
  }

  lemma IsSetIff(s: Scheduling)
    ensures s.IsSet() <==>
            s.nodeSelector != map[] || s.affinity.nodeAffinity.Some? || s.affinity.podAffinity.Some? ||
            s.affinity.podAntiAffinity.Some? || s.spread != []
  {
    assert s.nodeSelector == map[] <==> |s.nodeSelector| == 0;
  }

  /**
   What a scheduling pass means: with any of the five settings given, the three fields of the pod are
   replaced, by empty values too; with none given, and everywhere else in the pod, nothing changes.
   */
  lemma ScheduleMeans(p: PodSpec, s: Scheduling)
    ensures var q := Schedule(p, s);
            q == p.(nodeSelector := q.nodeSelector, affinity := q.affinity, spread := q.spread) &&
            if s.nodeSelector == map[] && s.affinity == Affinity(None, None, None) && s.spread == [] then q == p
            else q.nodeSelector == s.nodeSelector && AffinityIs(q.affinity, s.affinity) && q.spread == s.spread
  {
    IsSetIff(s);
    AffinityMeans(s.affinity);
  }
}
