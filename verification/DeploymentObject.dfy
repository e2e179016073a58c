/**
 Deployments in the memory of a controller, whose slices are written in place: the snapshot that the
 Storage writer takes first, and its nested find-by-name, else append loops.
 */
module DeploymentObjects {
  import opened Wrappers
  import opened JsonTree
  import opened NamedList
  import opened Specs
  import opened VolumeUpsert
  import opened Deployments
  import opened DeploymentWriters
  import DeepCopies

  /** append: a new array, since the old one is full. */
  method Append<T(0)>(a: array<T>, x: T) returns (b: array<T>)
    ensures fresh(b) && b[..] == a[..] + [x]
  {
    b := new T[a.Length + 1](i requires 0 <= i < a.Length + 1 reads a => if i < a.Length then a[i] else x);
  }

  method ArrayOf<T(0)>(xs: seq<T>) returns (a: array<T>)
    ensures fresh(a) && a[..] == xs
  {
    a := new T[|xs|](i requires 0 <= i < |xs| => xs[i]);
  }

  /** A container in a controller's memory; a nil slice is an array of length 0. */
  class ContainerObject {
    var mounts: array<Mount>
    const extra: ContainerRest

    function Value(): Container
      reads this, mounts
    {
      Container(mounts[..], extra)
    }

    constructor (mounts: array<Mount>, extra: ContainerRest)
      ensures this.mounts == mounts && this.extra == extra
    {
      this.mounts, this.extra := mounts, extra;
    }

    method DeepCopy() returns (out: ContainerObject)
      ensures fresh(out) && fresh(out.mounts) && out.Value() == Value()
    {
      var ms := DeepCopies.CopyArray(mounts);
      out := new ContainerObject(ms, extra);
    }

    /** The inner mount loop: write the path of the first mount of the name in place, or append one. */
    method MountVolume(vol: VolumeSpec)
      modifies this`mounts, mounts
      ensures mounts[..] == PutVolume(old(mounts[..]), vol, MountWriter())
      ensures mounts == old(mounts) || fresh(mounts)
    {
      var mountExists := false;
      for i := 0 to mounts.Length
        invariant mounts == old(mounts) && mounts[..] == old(mounts[..]) && !mountExists
        invariant forall j :: 0 <= j < i ==> mounts[j].name != vol.name
      {
        if mounts[i].name == vol.name {
          FindUnique(mounts[..], vol.name, i);
          mounts[i] := mounts[i].(value := mounts[i].value.(path := vol.mountPath));
          mountExists := true;
          break;
        }
      }
      if !mountExists {
        FindUnique(mounts[..], vol.name, mounts.Length);
        mounts := Append(mounts, Named(vol.name, MountBody(vol.mountPath, map[])));
      }
    }
  }

  /**
   A Deployment in a controller's memory, whose slices are written in place. Containers after the
   first one are never written, so they are values.
   */
  class DeploymentObject {
    var volumes: array<Volume>
    const first: ContainerObject?
    const others: seq<Container>
    var nodeSelector: map<string, string>
    var affinity: Option<Json>
    var spread: seq<Json>
    const rest: Deployment

    /** The first container and its mounts. */
    ghost function First(): set<object>
      reads first
    {
      if first == null then {} else var c: ContainerObject := first; {c, c.mounts}
    }

    function Containers(): seq<Container>
      reads First()
    {
      if first == null then [] else [first.Value()] + others
    }

    function Pod(): PodSpec
      reads this, volumes, First()
    {
      PodSpec(volumes[..], Containers(), nodeSelector, affinity, spread, rest.pod.extra)
    }

    function Value(): Deployment
      reads this, volumes, First()
    {
      rest.(pod := Pod())
    }

    constructor (volumes: array<Volume>, first: ContainerObject?, others: seq<Container>,
                 nodeSelector: map<string, string>, affinity: Option<Json>, spread: seq<Json>, rest: Deployment)
      ensures this.volumes == volumes && this.first == first && this.others == others && this.rest == rest
      ensures this.nodeSelector == nodeSelector && this.affinity == affinity && this.spread == spread
    {
      this.volumes, this.first, this.others, this.rest := volumes, first, others, rest;
      this.nodeSelector, this.affinity, this.spread := nodeSelector, affinity, spread;
    }

    /** A new Deployment, a new array for each slice, and a new first container. */
    method DeepCopy() returns (out: DeploymentObject)
      ensures out.Value() == Value()
      ensures fresh(out) && fresh(out.volumes) && fresh(out.First())
    {
      var vs := DeepCopies.CopyArray(volumes);
      var c: ContainerObject? := null;
      if first != null {
        c := first.DeepCopy();
      }
      out := new DeploymentObject(vs, c, others, nodeSelector, affinity, spread, rest);
    }

    method SetScheduling(s: Scheduling)
      modifies this`nodeSelector, this`affinity, this`spread
      ensures var affinity := Some(AffinityJson(s.affinity));
              var pod := old(Pod()).(nodeSelector := s.nodeSelector, affinity := affinity, spread := s.spread);
              Value() == old(Value()).(pod := pod)
    {
      nodeSelector := s.nodeSelector;
      affinity := Some(AffinityJson(s.affinity));
      spread := s.spread;
    }

    /** The inner volume loop: write the source of the first volume of the name in place, or append one. */
    method AttachVolume(vol: VolumeSpec, pvcName: string)
      modifies this`volumes, volumes
      ensures var source := map["persistentVolumeClaim" := Obj(map["claimName" := Str(pvcName)])];
              volumes[..] == PutNamed(old(volumes[..]), vol.name, source)
      ensures if Lookup(old(volumes[..]), vol.name).Some? then volumes == old(volumes) else fresh(volumes)
    {
      var volumeExists := false;
      for i := 0 to volumes.Length
        invariant volumes == old(volumes) && volumes[..] == old(volumes[..]) && !volumeExists
        invariant forall j :: 0 <= j < i ==> volumes[j].name != vol.name
      {
        if volumes[i].name == vol.name {
          FindUnique(volumes[..], vol.name, i);
          volumes[i] := Named(vol.name, ClaimSource(pvcName));
          volumeExists := true;
          break;
        }
      }
      if !volumeExists {
        FindUnique(volumes[..], vol.name, volumes.Length);
        volumes := Append(volumes, Named(vol.name, ClaimSource(pvcName)));
      }
    }

    /** One round of the outer loop. */
    method AttachOne(storage: string, vol: VolumeSpec)
      modifies this`volumes, volumes, First()
      ensures volumes == old(volumes) || fresh(volumes)
      ensures first != null ==> first.mounts == old(first.mounts) || fresh(first.mounts)
      ensures volumes[..] == PutVolume(old(volumes[..]), vol, ClaimWriter(storage))
      ensures first != null ==> first.mounts[..] == PutVolume(old(first.mounts[..]), vol, MountWriter())
    {
      AttachVolume(vol, ClaimName(storage, vol.name));
      if first != null {
        first.MountVolume(vol);
      }
    }

    /**
     The nested loops, list by list; what they write is the volumes and the mounts of the first
     container, old or new.
     */
    method AttachAll(storage: string, vols: seq<VolumeSpec>)
      modifies this`volumes, volumes, First()
      ensures volumes[..] == PutAll(old(volumes[..]), vols, ClaimWriter(storage))
      ensures first != null ==> first.mounts[..] == PutAll(old(first.mounts[..]), vols, MountWriter())
    {
      for k := 0 to |vols|
        invariant volumes == old(volumes) || fresh(volumes)
        invariant first != null ==> first.mounts == old(first.mounts) || fresh(first.mounts)
        invariant volumes[..] == PutAll(old(volumes[..]), vols[..k], ClaimWriter(storage))
        invariant first != null ==> first.mounts[..] == PutAll(old(first.mounts[..]), vols[..k], MountWriter())
      {
        PutAllStep(old(volumes[..]), vols, ClaimWriter(storage), k);
        if first != null {
          PutAllStep(old(first.mounts[..]), vols, MountWriter(), k);
        }
        AttachOne(storage, vols[k]);
      }
      assert vols[..|vols|] == vols;
    }

    /** The same as one edit of the pod. */
    method Attach(storage: string, vols: seq<VolumeSpec>)
      modifies this`volumes, volumes, First()
      ensures Value() == old(Value()).(pod := AttachVolumes(old(Pod()), storage, vols))
    {
      AttachAll(storage, vols);
    }
  }

  /** What a client decodes: new arrays and a new first container. */
  method Load(d: Deployment) returns (o: DeploymentObject)
    ensures o.Value() == d
    ensures fresh(o) && fresh(o.volumes) && fresh(o.First())
  {
    var vs := ArrayOf(d.pod.volumes);
    var c: ContainerObject? := null;
    var others := [];
    if d.pod.containers != [] {
      var ms := ArrayOf(d.pod.containers[0].mounts);
      c := new ContainerObject(ms, d.pod.containers[0].extra);
      others := d.pod.containers[1..];
    }
    o := new DeploymentObject(vs, c, others, d.pod.nodeSelector, d.pod.affinity, d.pod.spread, d);
  }

  /**
   The snapshot is taken before the loops run, and none of their in-place writes reaches it. Over a
   shallow one the overwritten volume sources would change in both, and no diff would show them.
   */
  method SnapshotThenAttach(deploy: DeploymentObject, storage: string, vols: seq<VolumeSpec>)
    returns (originalDeploy: DeploymentObject)
    modifies deploy`volumes, deploy.volumes, deploy.First()
    ensures originalDeploy.Value() == old(deploy.Value())
    ensures deploy.Value() == old(deploy.Value()).(pod := AttachVolumes(old(deploy.Pod()), storage, vols))
  {
    originalDeploy := deploy.DeepCopy();
    deploy.Attach(storage, vols);
  }

  /** Likewise before the scheduling fields are assigned. */
  method SnapshotThenSchedule(deploy: DeploymentObject, s: Scheduling) returns (originalDeploy: DeploymentObject)
    requires s.IsSet()
    modifies deploy`nodeSelector, deploy`affinity, deploy`spread
    ensures originalDeploy.Value() == old(deploy.Value())
    ensures deploy.Value() == old(deploy.Value()).(pod := Schedule(old(deploy.Pod()), s))
  {
    originalDeploy := deploy.DeepCopy();
    deploy.SetScheduling(s);
  }
}
