/**
 Deployments as the controllers see them (typed, with every field they do not manage kept in
 `extra` maps) and as the API server exchanges them (documents).
 */
module Deployments {
  import opened Wrappers
  import opened JsonTree
  import opened NamedList

  type Source = m: map<string, Json> | "name" !in m witness map[]
  type MountRest = m: map<string, Json> | "name" !in m && "mountPath" !in m witness map[]
  type ContainerRest = m: map<string, Json> | "volumeMounts" !in m witness map[]
  type PodRest = m: map<string, Json> | m.Keys !! PodKeys() witness map[]
  type SpecRest = m: map<string, Json> | "template" !in m witness map[]
  type TemplateRest = m: map<string, Json> | "spec" !in m witness map[]
  type TopRest = m: map<string, Json> | "spec" !in m witness map[]

  datatype MountBody = MountBody(path: string, extra: MountRest)
  type Volume = Named<Source>
  type Mount = Named<MountBody>
  datatype Container = Container(mounts: seq<Mount>, extra: ContainerRest)

  datatype PodSpec = PodSpec(
    volumes: seq<Volume>,
    containers: seq<Container>,
    nodeSelector: map<string, string>,
    affinity: Option<Json>,
    spread: seq<Json>,
    extra: PodRest)

  datatype Deployment = Deployment(pod: PodSpec, template: TemplateRest, spec: SpecRest, top: TopRest) {
    function Selector(): Option<Json> {
      Get(spec, "selector")
    }
  }

  function PodKeys(): set<string> {
    {"volumes", "containers", "nodeSelector", "affinity", "topologySpreadConstraints"}
  }

  // ----- Marshalling

  function EncodeVolume(v: Volume): Json {
    Obj(v.value["name" := Str(v.name)])
  }

  function EncodeMount(m: Mount): Json {
    Obj(m.value.extra["name" := Str(m.name)]["mountPath" := Str(m.value.path)])
  }

  function EncodeContainer(c: Container): Json {
    Obj(if c.mounts == [] then c.extra else c.extra["volumeMounts" := EncodeAll(c.mounts, EncodeMount)])
  }

  function EncodeAll<T>(xs: seq<T>, f: T -> Json): Json {
    Arr(seq(|xs|, i requires 0 <= i < |xs| => f(xs[i])))
  }

  function EncodeLabels(m: map<string, string>): Json {
    Obj(map k | k in m :: Str(m[k]))
  }

  /** One field of a marshalled pod spec; empty optional fields are omitted, a nil container list is null. */
  function PodField(p: PodSpec, k: string): Option<Json> {
    if k == "volumes" then (if p.volumes == [] then None else Some(EncodeAll(p.volumes, EncodeVolume)))
    else if k == "containers" then Some(if p.containers == [] then Null else EncodeAll(p.containers, EncodeContainer))
    else if k == "nodeSelector" then (if p.nodeSelector == map[] then None else Some(EncodeLabels(p.nodeSelector)))
    else if k == "affinity" then p.affinity
    else if k == "topologySpreadConstraints" then (if p.spread == [] then None else Some(Arr(p.spread)))
    else Get(p.extra, k)
  }

  function EncodePod(p: PodSpec): Json {
    Obj(map k | k in PodKeys() + p.extra.Keys && PodField(p, k).Some? :: PodField(p, k).value)
  }

  function Encode(d: Deployment): Json {
    Obj(d.top["spec" := Obj(d.spec["template" := Obj(d.template["spec" := EncodePod(d.pod)])])])
  }

  // ----- Unmarshalling (strict: what no Deployment marshals to is rejected)

  function DecodeVolume(j: Json): Option<Volume> {
    if j.Obj? && "name" in j.fields && j.fields["name"].Str? then
      Some(Named(j.fields["name"].s, j.fields - {"name"}))
    else None
  }

  function DecodeMount(j: Json): Option<Mount> {
    if j.Obj? && "name" in j.fields && j.fields["name"].Str? &&
       "mountPath" in j.fields && j.fields["mountPath"].Str? then
      Some(Named(j.fields["name"].s, MountBody(j.fields["mountPath"].s, j.fields - {"name", "mountPath"})))
    else None
  }

  function DecodeAll<T>(xs: seq<Json>, f: Json -> Option<T>): Option<seq<T>> {
    if xs == [] then Some([])
    else match (f(xs[0]), DecodeAll(xs[1..], f))
      case (Some(y), Some(ys)) => Some([y] + ys)
      case (_, _) => None
  }

  /** An optional array; an absent one is empty. */
  function DecodeList<T>(j: Option<Json>, f: Json -> Option<T>): Option<seq<T>> {
    if j.None? then Some([]) else if j.value.Arr? then DecodeAll(j.value.items, f) else None
  }

  function DecodeContainer(j: Json): Option<Container> {
    if !j.Obj? then None
    else match DecodeList(Get(j.fields, "volumeMounts"), DecodeMount)
      case None => None
      case Some(ms) => Some(Container(ms, j.fields - {"volumeMounts"}))
  }

  function DecodeLabels(j: Json): Option<map<string, string>> {
    if j.Obj? && forall k | k in j.fields :: j.fields[k].Str?
    then Some(map k | k in j.fields :: j.fields[k].s)
    else None
  }

  /** Topology spread constraints are kept as they are. */
  function DecodeOpaque(j: Json): Option<Json> {
    Some(j)
  }

  function DecodeContainers(j: Option<Json>): Option<seq<Container>> {
    if j.None? then None else if j.value.Null? then Some([]) else DecodeList(j, DecodeContainer)
  }

  function DecodePod(j: Json): Option<PodSpec> {
    if !j.Obj? then None
    else
      var m := j.fields;
      var volumes := DecodeList(Get(m, "volumes"), DecodeVolume);
      var containers := DecodeContainers(Get(m, "containers"));
      var nodeSelector := DecodeLabels(Get(m, "nodeSelector").GetOr(Obj(map[])));
      var spread := DecodeList(Get(m, "topologySpreadConstraints"), DecodeOpaque);
      if volumes.None? || containers.None? || nodeSelector.None? || spread.None? then None
      else Some(PodSpec(volumes.value, containers.value, nodeSelector.value, Get(m, "affinity"), spread.value,
                        m - PodKeys()))
  }

  function Decode(j: Json): Option<Deployment> {
    var spec := Member(j, "spec");
    var template := Member(spec, "template");
    match DecodePod(Member(template, "spec"))
    case None => None
    case Some(pod) =>
      Some(Deployment(pod, Fields(template) - {"spec"}, Fields(spec) - {"template"}, Fields(j) - {"spec"}))
  }

  // ----- Round trip

  lemma {:induction false} AllRoundTrip<T>(xs: seq<T>, f: T -> Json, g: Json -> Option<T>)
    requires forall x | x in xs :: g(f(x)) == Some(x)
    ensures DecodeAll(EncodeAll(xs, f).items, g) == Some(xs)
  {
    if xs != [] {
      AllRoundTrip(xs[1..], f, g);
      assert EncodeAll(xs, f).items[1..] == EncodeAll(xs[1..], f).items;
      assert [xs[0]] + xs[1..] == xs;
    }
  }

  lemma VolumeRoundTrip(v: Volume)
    ensures DecodeVolume(EncodeVolume(v)) == Some(v)
  {
    assert v.value["name" := Str(v.name)] - {"name"} == v.value;
  }

  lemma MountRoundTrip(m: Mount)
    ensures DecodeMount(EncodeMount(m)) == Some(m)
  {
    var f := EncodeMount(m).fields;
    assert f["name"] == Str(m.name);
    assert f - {"name", "mountPath"} == m.value.extra;
  }

  lemma ContainerRoundTrip(c: Container)
    ensures DecodeContainer(EncodeContainer(c)) == Some(c)
  {
    if c.mounts != [] {
      forall m | m in c.mounts {
        MountRoundTrip(m);
      }
      AllRoundTrip(c.mounts, EncodeMount, DecodeMount);
    }
    assert EncodeContainer(c).fields - {"volumeMounts"} == c.extra;
  }

  lemma PodFields(p: PodSpec, k: string)
    ensures Get(EncodePod(p).fields, k) == PodField(p, k)
  {
  }

  lemma PodListsRoundTrip(p: PodSpec)
    ensures DecodeList(PodField(p, "volumes"), DecodeVolume) == Some(p.volumes)
    ensures DecodeContainers(PodField(p, "containers")) == Some(p.containers)
  {
    forall v | v in p.volumes {
      VolumeRoundTrip(v);
    }
    AllRoundTrip(p.volumes, EncodeVolume, DecodeVolume);
    forall c | c in p.containers {
      ContainerRoundTrip(c);
    }
    AllRoundTrip(p.containers, EncodeContainer, DecodeContainer);
  }

  lemma {:induction false} OpaqueRoundTrip(xs: seq<Json>)
    ensures DecodeAll(xs, DecodeOpaque) == Some(xs)
  {
    if xs != [] {
      OpaqueRoundTrip(xs[1..]);
      assert [xs[0]] + xs[1..] == xs;
    }
  }

  lemma PodSchedulingRoundTrip(p: PodSpec)
    ensures DecodeLabels(PodField(p, "nodeSelector").GetOr(Obj(map[]))) == Some(p.nodeSelector)
    ensures DecodeList(PodField(p, "topologySpreadConstraints"), DecodeOpaque) == Some(p.spread)
  {
    var l := PodField(p, "nodeSelector").GetOr(Obj(map[])).fields;
    assert (map k | k in l :: l[k].s) == p.nodeSelector;
    OpaqueRoundTrip(p.spread);
  }

  lemma PodRoundTrip(p: PodSpec)
    ensures DecodePod(EncodePod(p)) == Some(p)
  {
    var m := EncodePod(p).fields;
    forall k {
      PodFields(p, k);
    }
    PodListsRoundTrip(p);
    PodSchedulingRoundTrip(p);
    assert m - PodKeys() == p.extra;
  }

  /** Unmarshalling undoes marshalling, so documents determine Deployments. */
  lemma RoundTrip(d: Deployment)
    ensures Decode(Encode(d)) == Some(d)
  {
    PodRoundTrip(d.pod);
    var template := d.template["spec" := EncodePod(d.pod)];
    var spec := d.spec["template" := Obj(template)];
    var top := d.top["spec" := Obj(spec)];
    assert template - {"spec"} == d.template;
    assert spec - {"template"} == d.spec;
    assert top - {"spec"} == d.top;
    assert top["spec"] == Obj(spec) && spec["template"] == Obj(template);
  }

  // ----- The marshalled members

  /** An element of the array that a member holds. */
  function ItemAt(j: Json, k: string, i: nat): Option<Json> {
    if Member(j, k).Arr? && i < |Member(j, k).items| then Some(Member(j, k).items[i]) else None
  }

  /** Where a marshalled Deployment keeps what its writers change. */
  lemma PodMarshalled(d: Deployment, i: nat, j: nat)
    ensures var pod := Member(Member(Member(Encode(d), "spec"), "template"), "spec");
            pod.Obj? &&
            (i < |d.pod.volumes| ==>
               var v := d.pod.volumes[i];
               ItemAt(pod, "volumes", i) == Some(Obj(v.value["name" := Str(v.name)]))) &&
            (i < |d.pod.spread| ==> ItemAt(pod, "topologySpreadConstraints", i) == Some(d.pod.spread[i])) &&
            Get(pod.fields, "affinity") == d.pod.affinity &&
            (forall k | k in d.pod.nodeSelector :: Member(Member(pod, "nodeSelector"), k) == Str(d.pod.nodeSelector[k]))
    ensures var pod := Member(Member(Member(Encode(d), "spec"), "template"), "spec");
            i < |d.pod.containers| && j < |d.pod.containers[i].mounts| ==>
            var mount := d.pod.containers[i].mounts[j];
            ItemAt(ItemAt(pod, "containers", i).GetOr(Null), "volumeMounts", j) ==
              Some(Obj(mount.value.extra["name" := Str(mount.name)]["mountPath" := Str(mount.value.path)]))
  {
    assert Member(Member(Member(Encode(d), "spec"), "template"), "spec") == EncodePod(d.pod);
    PodFields(d.pod, "volumes");
    PodFields(d.pod, "containers");
    PodFields(d.pod, "nodeSelector");
    PodFields(d.pod, "affinity");
    PodFields(d.pod, "topologySpreadConstraints");
    if i < |d.pod.volumes| {
      assert ItemAt(EncodePod(d.pod), "volumes", i) == Some(EncodeVolume(d.pod.volumes[i]));
    }
    if i < |d.pod.containers| && j < |d.pod.containers[i].mounts| {
      var c := d.pod.containers[i];
      assert ItemAt(EncodePod(d.pod), "containers", i) == Some(EncodeContainer(c));
      assert ItemAt(EncodeContainer(c), "volumeMounts", j) == Some(EncodeMount(c.mounts[j]));
    }
  }
}
