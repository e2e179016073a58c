/**
 Generated deep copies of nested specs on the heap, where slices and maps alias. A nil slice is a
 null array; a slice of structs is a list of objects that the slice alone refers to; a map is an
 object that holds its entries. Every copy is equal to its source and made of new objects only.
 */
module DeepCopies {
  import opened Wrappers
  import opened JsonTree
  import EscapeHatch
  import Specs

  // ----- Slices and maps

  ghost function SliceValue<T>(a: array?<T>): Option<seq<T>>
    reads a
  {
    if a == null then None else Some(a[..])
  }

  ghost function SliceRepr<T>(a: array?<T>): set<object> {
    if a == null then {} else {a}
  }

  /** make and copy. */
  method CopyArray<T(0)>(a: array<T>) returns (b: array<T>)
    ensures b[..] == a[..] && fresh(b)
  {
    b := new T[a.Length];
    for i := 0 to a.Length
      invariant b[..i] == a[..i] && fresh(b)
    {
      b[i] := a[i];
    }
    assert b[..] == b[..a.Length] && a[..] == a[..a.Length];
  }

  /** A new array with the same elements, or nil. */
  method CopySlice<T(0)>(a: array?<T>) returns (b: array?<T>)
    ensures SliceValue(b) == SliceValue(a) && fresh(SliceRepr(b))
  {
    if a == null {
      return null;
    }
    b := CopyArray(a);
  }

  /** Both nil, or of one length. */
  predicate SameShape<T>(a: Option<seq<T>>, b: Option<seq<T>>) {
    a.Some? == b.Some? && |a.GetOr([])| == |b.GetOr([])|
  }

  class StringMap {
    var entries: map<string, string>

    constructor ()
      ensures entries == map[]
    {
      entries := map[];
    }
  }

  ghost function MapValue(m: StringMap?): Option<map<string, string>>
    reads m
  {
    if m == null then None else Some(m.entries)
  }

  ghost function MapRepr(m: StringMap?): set<object> {
    if m == null then {} else {m}
  }

  /** A new map, filled entry by entry in the arbitrary order of a range loop, or nil. */
  method CopyMap(m: StringMap?) returns (copy: StringMap?)
    ensures MapValue(copy) == MapValue(m) && fresh(MapRepr(copy))
  {
    if m == null {
      return null;
    }
    copy := new StringMap();
    var rest := m.entries.Keys;
    while rest != {}
      invariant rest <= m.entries.Keys && fresh(copy)
      invariant copy.entries == map k | k in m.entries && k !in rest :: m.entries[k]
      decreases |rest|
    {
      var key :| key in rest;
      copy.entries := copy.entries[key := m.entries[key]];
      rest := rest - {key};
    }
    assert copy.entries == m.entries;
  }

  // ----- GatewayRoute and IngressSpec

  datatype RouteValue = RouteValue(hostnames: Option<seq<string>>, paths: Option<seq<string>>)

  class Route {
    var hostnames: array?<string>
    var paths: array?<string>

    ghost function Repr(): set<object>
      reads this
    {
      {this} + SliceRepr(hostnames) + SliceRepr(paths)
    }

    ghost function Value(): RouteValue
      reads this, hostnames, paths
    {
      RouteValue(SliceValue(hostnames), SliceValue(paths))
    }

    constructor ()
      ensures hostnames == null && paths == null
    {
      hostnames, paths := null, null;
    }

    /** The shallow assignment first, then a new array for each slice that is not nil. */
    method DeepCopyInto(out: Route)
      requires out != this
      modifies out
      ensures out.Value() == Value() && Value() == old(Value()) && Repr() == old(Repr())
      ensures fresh(out.Repr() - {out})
    {
      out.hostnames, out.paths := hostnames, paths;
      if hostnames != null {
        out.hostnames := CopySlice(hostnames);
      }
      if paths != null {
        out.paths := CopySlice(paths);
      }
    }

    method DeepCopy() returns (out: Route)
      ensures fresh(out.Repr()) && out.Value() == Value()
    {
      out := new Route();
      DeepCopyInto(out);
    }
  }

  /** The routes lie within `area`, and no two of them share an object. */
  ghost predicate SeparateRoutes(rs: seq<Route>, area: set<object>)
    reads rs
  {
    (forall i :: 0 <= i < |rs| ==> rs[i].Repr() <= area) &&
    (forall i, j :: 0 <= i < j < |rs| ==> rs[i].Repr() !! rs[j].Repr())
  }

  lemma OneMoreRoute(rs: seq<Route>, area: set<object>, r: Route)
    requires SeparateRoutes(rs, area) && r.Repr() !! area
    ensures SeparateRoutes(rs + [r], area + r.Repr())
  {
  }

  lemma JoinRoutes(a: seq<Route>, within: set<object>, b: seq<Route>, beside: set<object>)
    requires SeparateRoutes(a, within) && SeparateRoutes(b, beside) && within !! beside
    ensures SeparateRoutes(a + b, within + beside)
  {
    forall i, j | 0 <= i < |a| && 0 <= j < |b|
      ensures a[i].Repr() !! b[j].Repr()
    {
      assert a[i].Repr() <= within && b[j].Repr() <= beside;
    }
  }

  /** Each element is copied into a new one; no slice is shared at either depth, nor between elements. */
  method CopyRoutes(rs: seq<Route>) returns (copy: seq<Route>, ghost area: set<object>)
    ensures |copy| == |rs| && fresh(area) && SeparateRoutes(copy, area)
    ensures forall i :: 0 <= i < |rs| ==> copy[i].Value() == rs[i].Value()
  {
    copy, area := [], {};
    for n := 0 to |rs|
      invariant |copy| == n && fresh(area) && SeparateRoutes(copy, area)
      invariant forall i :: 0 <= i < n ==> copy[i].Value() == rs[i].Value()
    {
      var out := rs[n].DeepCopy();
      OneMoreRoute(copy, area, out);
      copy, area := copy + [out], area + out.Repr();
    }
  }

  /** Equal, element by element, at any depth. */
  ghost predicate SameRoutes(a: Option<seq<Route>>, b: Option<seq<Route>>)
    reads *
  {
    SameShape(a, b) && forall i :: 0 <= i < |a.GetOr([])| ==> a.GetOr([])[i].Value() == b.GetOr([])[i].Value()
  }

  method CopyRoutesField(rs: Option<seq<Route>>) returns (copy: Option<seq<Route>>, ghost area: set<object>)
    ensures SameRoutes(copy, rs) && fresh(area) && SeparateRoutes(copy.GetOr([]), area)
  {
    copy, area := None, {};
    if rs.Some? {
      var routes, within := CopyRoutes(rs.value);
      copy, area := Some(routes), within;
    }
  }

  method CopyBoth(a: Option<seq<Route>>, b: Option<seq<Route>>)
    returns (c: Option<seq<Route>>, d: Option<seq<Route>>, ghost area: set<object>)
    ensures SameRoutes(c, a) && SameRoutes(d, b)
    ensures fresh(area) && SeparateRoutes(c.GetOr([]) + d.GetOr([]), area)
  {
    ghost var first, second;
    c, first := CopyRoutesField(a);
    d, second := CopyRoutesField(b);
    JoinRoutes(c.GetOr([]), first, d.GetOr([]), second);
    area := first + second;
  }

  class IngressSpec {
    var privateRoutes: Option<seq<Route>>
    var publicRoutes: Option<seq<Route>>
    var tls: string

    ghost predicate Equals(that: IngressSpec)
      reads *
    {
      SameRoutes(privateRoutes, that.privateRoutes) && SameRoutes(publicRoutes, that.publicRoutes) && tls == that.tls
    }

    /** All routes, public and private, lie within `area` and pairwise share nothing. */
    ghost predicate Within(area: set<object>)
      reads this, privateRoutes.GetOr([]), publicRoutes.GetOr([])
    {
      SeparateRoutes(privateRoutes.GetOr([]) + publicRoutes.GetOr([]), area)
    }

    /** An equal copy; all its routes, public and private, are new and pairwise share nothing. */
    method DeepCopyInto(out: IngressSpec) returns (ghost area: set<object>)
      requires out != this
      modifies out
      ensures out.Equals(this) && fresh(area) && out.Within(area)
    {
      out.tls := tls;
      out.privateRoutes, out.publicRoutes, area := CopyBoth(privateRoutes, publicRoutes);
    }

    /** Whatever is later written through a copy, to any slice or element of it, the source keeps its value. */
    method WriteThroughCopy()
      ensures forall r | r in privateRoutes.GetOr([]) + publicRoutes.GetOr([]) :: r.Value() == old(r.Value())
    {
      var out := new IngressSpec;
      ghost var area := DeepCopyInto(out);
      modify out, area;
    }
  }

  // ----- VolumeSpec and StorageSpec

  datatype VolumeValue = VolumeValue(name: string, size: string, mountPath: string, accessModes: Option<seq<string>>)

  class VolumeSpec {
    var name: string
    var size: string
    var mountPath: string
    var accessModes: array?<string>

    ghost function Repr(): set<object>
      reads this
    {
      {this} + SliceRepr(accessModes)
    }

    ghost function Value(): VolumeValue
      reads this, accessModes
    {
      VolumeValue(name, size, mountPath, SliceValue(accessModes))
    }

    constructor ()
      ensures accessModes == null
    {
      accessModes := null;
    }

    method DeepCopyInto(out: VolumeSpec)
      requires out != this
      modifies out
      ensures out.Value() == Value() && Value() == old(Value()) && Repr() == old(Repr())
      ensures fresh(out.Repr() - {out})
    {
      out.name, out.size, out.mountPath, out.accessModes := name, size, mountPath, accessModes;
      if accessModes != null {
        out.accessModes := CopySlice(accessModes);
      }
    }

    method DeepCopy() returns (out: VolumeSpec)
      ensures fresh(out.Repr()) && out.Value() == Value()
    {
      out := new VolumeSpec();
      DeepCopyInto(out);
    }
  }

  /** The volumes lie within `area`, and no two of them share an object. */
  ghost predicate SeparateVolumes(vs: seq<VolumeSpec>, area: set<object>)
    reads vs
  {
    (forall i :: 0 <= i < |vs| ==> vs[i].Repr() <= area) &&
    (forall i, j :: 0 <= i < j < |vs| ==> vs[i].Repr() !! vs[j].Repr())
  }

  lemma OneMoreVolume(vs: seq<VolumeSpec>, area: set<object>, v: VolumeSpec)
    requires SeparateVolumes(vs, area) && v.Repr() !! area
    ensures SeparateVolumes(vs + [v], area + v.Repr())
  {
  }

  method CopyVolumes(vs: seq<VolumeSpec>) returns (copy: seq<VolumeSpec>, ghost area: set<object>)
    ensures |copy| == |vs| && fresh(area) && SeparateVolumes(copy, area)
    ensures forall i :: 0 <= i < |vs| ==> copy[i].Value() == vs[i].Value()
  {
    copy, area := [], {};
    for n := 0 to |vs|
      invariant |copy| == n && fresh(area) && SeparateVolumes(copy, area)
      invariant forall i :: 0 <= i < n ==> copy[i].Value() == vs[i].Value()
    {
      var out := vs[n].DeepCopy();
      OneMoreVolume(copy, area, out);
      copy, area := copy + [out], area + out.Repr();
    }
  }

  method CopyVolumesField(vs: Option<seq<VolumeSpec>>) returns (copy: Option<seq<VolumeSpec>>, ghost area: set<object>)
    ensures SameShape(copy, vs)
    ensures forall i :: 0 <= i < |vs.GetOr([])| ==> copy.GetOr([])[i].Value() == vs.GetOr([])[i].Value()
    ensures fresh(area) && SeparateVolumes(copy.GetOr([]), area)
  {
    copy, area := None, {};
    if vs.Some? {
      var volumes, within := CopyVolumes(vs.value);
      copy, area := Some(volumes), within;
    }
  }

  class StorageSpec {
    var targetRef: Specs.ResourceRef
    var storageClassName: string
    var volumes: Option<seq<VolumeSpec>>
    var hatches: array?<EscapeHatch.Hatch>

    ghost predicate Equals(that: StorageSpec)
      reads *
    {
      targetRef == that.targetRef && storageClassName == that.storageClassName &&
      SameShape(volumes, that.volumes) &&
      (forall i :: 0 <= i < |volumes.GetOr([])| ==>
         volumes.GetOr([])[i].Value() == that.volumes.GetOr([])[i].Value()) &&
      SliceValue(hatches) == SliceValue(that.hatches)
    }

    ghost predicate Within(area: set<object>)
      reads this, volumes.GetOr([])
    {
      SeparateVolumes(volumes.GetOr([]), area)
    }

    /** An equal copy; its volumes, their access modes and its hatches are new and pairwise share nothing. */
    method DeepCopyInto(out: StorageSpec) returns (ghost area: set<object>)
      requires out != this
      modifies out
      ensures out.Equals(this)
      ensures fresh(area) && out.Within(area)
      ensures fresh(SliceRepr(out.hatches)) && SliceRepr(out.hatches) !! area
    {
      out.targetRef, out.storageClassName := targetRef, storageClassName;
      var copy;
      copy, area := CopyVolumesField(volumes);
      var hs := CopySlice(hatches);
      out.volumes, out.hatches := copy, hs;
    }

    /** Whatever is later written through a copy, the source keeps its value. */
    method WriteThroughCopy()
      ensures forall v | v in volumes.GetOr([]) :: v.Value() == old(v.Value())
      ensures SliceValue(hatches) == old(SliceValue(hatches))
    {
      var out := new StorageSpec;
      ghost var area := DeepCopyInto(out);
      modify out, area, SliceRepr(out.hatches);
    }
  }

  // ----- SchedulingSpec and ComputeSpec

  datatype SchedulingValue = SchedulingValue(
    nodeSelector: Option<map<string, string>>,
    affinity: Json,
    spread: Option<seq<Json>>)

  class SchedulingSpec {
    var nodeSelector: StringMap?
    var affinity: Json
    var spread: array?<Json>

    ghost function Repr(): set<object>
      reads this
    {
      {this} + MapRepr(nodeSelector) + SliceRepr(spread)
    }

    ghost function Value(): SchedulingValue
      reads this, nodeSelector, spread
    {
      SchedulingValue(MapValue(nodeSelector), affinity, SliceValue(spread))
    }

    constructor ()
      ensures nodeSelector == null && spread == null
    {
      nodeSelector, spread := null, null;
    }

    method DeepCopyInto(out: SchedulingSpec)
      requires out != this
      modifies out
      ensures out.Value() == Value() && Value() == old(Value()) && Repr() == old(Repr())
      ensures fresh(out.Repr() - {out})
    {
      out.nodeSelector, out.affinity, out.spread := nodeSelector, affinity, spread;
      if nodeSelector != null {
        out.nodeSelector := CopyMap(nodeSelector);
      }
      if spread != null {
        out.spread := CopySlice(spread);
      }
    }
  }

  /** The scheduling settings are a struct inside the struct: an object that belongs to it for good. */
  class ComputeSpec {
    var targetRef: Specs.ResourceRef
    var autoscaling: Specs.Autoscaling
    const scheduling: SchedulingSpec
    var minAvailable: Specs.IntOrString
    var maxUnavailable: Specs.IntOrString
    var hatches: array?<EscapeHatch.Hatch>

    constructor ()
      ensures fresh(scheduling.Repr()) && hatches == null
    {
      scheduling := new SchedulingSpec();
      hatches := null;
    }

    ghost predicate Equals(that: ComputeSpec)
      reads *
    {
      targetRef == that.targetRef && autoscaling == that.autoscaling &&
      scheduling.Value() == that.scheduling.Value() &&
      minAvailable == that.minAvailable && maxUnavailable == that.maxUnavailable &&
      SliceValue(hatches) == SliceValue(that.hatches)
    }

    /** An equal copy that shares neither the map nor a slice. */
    method DeepCopyInto(out: ComputeSpec)
      requires out != this && out.scheduling != scheduling
      modifies out, out.scheduling
      ensures out.Equals(this) && scheduling.Value() == old(scheduling.Value())
      ensures fresh(out.scheduling.Repr() - {out.scheduling}) && fresh(SliceRepr(out.hatches))
    {
      out.targetRef, out.autoscaling, out.hatches := targetRef, autoscaling, hatches;
      scheduling.DeepCopyInto(out.scheduling);
      out.minAvailable, out.maxUnavailable := minAvailable, maxUnavailable;
      if hatches != null {
        out.hatches := CopySlice(hatches);
      }
    }

    /** Whatever is later written through a copy, the source keeps its value. */
    method WriteThroughCopy()
      ensures scheduling.Value() == old(scheduling.Value()) && SliceValue(hatches) == old(SliceValue(hatches))
    {
      var out := new ComputeSpec();
      DeepCopyInto(out);
      modify out, out.scheduling.Repr(), SliceRepr(out.hatches);
    }
  }

  // ----- NetworkingSpec

  class ServiceSpec {
    var ports: array?<Json>
    var serviceType: string

    method DeepCopyInto(out: ServiceSpec)
      requires out != this
      modifies out
      ensures SliceValue(out.ports) == SliceValue(ports) && out.serviceType == serviceType
      ensures fresh(SliceRepr(out.ports))
    {
      out.ports, out.serviceType := ports, serviceType;
      if ports != null {
        out.ports := CopySlice(ports);
      }
    }
  }

  class NetworkingSpec {
    var targetRef: Specs.ResourceRef
    const service: ServiceSpec
    const ingress: IngressSpec
    var hatches: array?<EscapeHatch.Hatch>

    constructor ()
      ensures fresh(service) && fresh(ingress) && hatches == null
    {
      service, ingress, hatches := new ServiceSpec, new IngressSpec, null;
    }

    ghost function Structs(): set<object> {
      {this, service, ingress}
    }

    ghost predicate Equals(that: NetworkingSpec)
      reads *
    {
      targetRef == that.targetRef &&
      SliceValue(service.ports) == SliceValue(that.service.ports) &&
      service.serviceType == that.service.serviceType &&
      ingress.Equals(that.ingress) && SliceValue(hatches) == SliceValue(that.hatches)
    }

    /** An equal copy: ports, hatches, routes and what the routes hold are new. */
    method DeepCopyInto(out: NetworkingSpec) returns (ghost area: set<object>)
      requires Structs() !! out.Structs()
      modifies out.Structs()
      ensures out.Equals(this)
      ensures fresh(SliceRepr(out.service.ports)) && fresh(SliceRepr(out.hatches))
      ensures fresh(area) && out.ingress.Within(area)
    {
      var hs := CopySlice(hatches);
      out.targetRef, out.hatches := targetRef, hs;
      service.DeepCopyInto(out.service);
      area := ingress.DeepCopyInto(out.ingress);
    }
  }
}
