/**
 What a create-or-update leaves in the object it writes, what survives of the stored object, and
 examples of escape hatches on leaves: one that never settles, one that does, one that removes a field.
 */
module Leaves {
  import opened Wrappers
  import opened JsonTree
  import opened TreeEdit
  import opened Decoding
  import opened JsonPatch
  import opened EscapeHatch
  import opened Specs
  import opened Cluster
  import opened LeafFrames

  /** The document after a controller's assignments. */
  function After(e: Edit, doc: Json): Json {
    Apply(e, Some(doc)).GetOr(Null)
  }

  /** An unhatched write stores exactly the assignments, under the controller's owner, or fails on a foreign owner. */
  lemma UnhatchedWrite(types: Types, owner: Owner, hs: seq<Hatch>, key: LeafKey, managed: Edit,
                       leaves: map<LeafKey, Leaf>)
    requires NoHatchesFor(hs, KindName(key.kind)) && managed.Into?
    ensures var r := ExecOp(types, owner, hs, Write(key, managed), leaves);
            var stored := if key in leaves then leaves[key].doc else Obj(map[]);
            (r.ok <==> key in leaves ==> leaves[key].owner in {None, Some(owner)}) &&
            r.leaves == if r.ok then leaves[key := Leaf(Some(owner), After(managed, stored))] else leaves
  {
    var stored := if key in leaves then leaves[key].doc else Obj(map[]);
    NoHatchesNoChange(types, KindName(key.kind), hs, After(managed, stored));
  }

  /** An assignment to a field of the spec acts on that field and on nothing else of the object. */
  lemma SpecFieldAfter(fields: map<string, Edit>, doc: Json, k: string)
    ensures Get(SpecOf(After(SpecEdit(fields), doc)), k) ==
            if k in fields then Apply(fields[k], Get(SpecOf(doc), k)) else Get(SpecOf(doc), k)
    ensures k != "spec" ==> Get(Fields(After(SpecEdit(fields), doc)), k) == Get(Fields(doc), k)
    ensures After(SpecEdit(fields), doc).Obj? && Member(After(SpecEdit(fields), doc), "spec").Obj?
  {
    IntoMember(map["spec" := Into(fields)], "spec", Some(doc));
    IntoMember(map["spec" := Into(fields)], k, Some(doc));
    IntoMember(fields, k, Get(Fields(doc), "spec"));
  }

  lemma FixedField(fields: map<string, Edit>, k: string, doc: Json)
    requires Apply(SpecEdit(fields), Some(doc)) == Some(doc) && k in fields && fields[k].Set?
    ensures Get(SpecOf(doc), k) == fields[k].place
  {
    SpecFieldAfter(fields, doc, k);
  }

  /** A document with a spec below which a field can be assigned. */
  predicate HasSpec(doc: Json) {
    doc.Obj? && Member(doc, "spec").Obj?
  }

  /** The document holds every assigned value below spec. */
  predicate Stores(doc: Json, fields: map<string, Edit>) {
    HasSpec(doc) && forall k | k in fields :: fields[k].Set? && Get(SpecOf(doc), k) == fields[k].place
  }

  /** A document on which assignments below spec do nothing is one that holds every assigned value. */
  lemma SpecFixedIff(fields: map<string, Edit>, doc: Json)
    requires forall k | k in fields :: fields[k].Set?
    ensures Apply(SpecEdit(fields), Some(doc)) == Some(doc) <==> Stores(doc, fields)
  {
    var once := After(SpecEdit(fields), doc);
    SpecFieldAfter(fields, doc, "spec");
    if Apply(SpecEdit(fields), Some(doc)) == Some(doc) {
      forall k | k in fields
        ensures Get(SpecOf(doc), k) == fields[k].place
      {
        FixedField(fields, k, doc);
      }
    } else if Stores(doc, fields) {
      forall k
        ensures Get(once.fields, k) == Get(doc.fields, k)
      {
        SpecFieldAfter(fields, doc, k);
        if k == "spec" {
          SameSpec(fields, doc);
        }
      }
      SameEntries(once.fields, doc.fields);
    }
  }

  lemma SameSpec(fields: map<string, Edit>, doc: Json)
    requires Stores(doc, fields)
    ensures Member(After(SpecEdit(fields), doc), "spec") == Member(doc, "spec")
  {
    var once := SpecOf(After(SpecEdit(fields), doc));
    forall k
      ensures Get(once, k) == Get(SpecOf(doc), k)
    {
      SpecFieldAfter(fields, doc, k);
    }
    SameEntries(once, SpecOf(doc));
    SpecFieldAfter(fields, doc, "spec");
  }

  /** The same for assignments at the top of the object. */
  lemma FieldsFixedIff(fields: map<string, Edit>, doc: Json)
    requires forall k | k in fields :: fields[k].Set?
    ensures Apply(Into(fields), Some(doc)) == Some(doc) <==>
            doc.Obj? && forall k | k in fields :: Get(doc.fields, k) == fields[k].place
  {
    var once := Apply(Into(fields), Some(doc)).value;
    if once == doc {
      forall k | k in fields
        ensures Get(doc.fields, k) == fields[k].place
      {
        IntoMember(fields, k, Some(doc));
      }
    } else if doc.Obj? && forall k | k in fields :: Get(doc.fields, k) == fields[k].place {
      forall k
        ensures Get(once.fields, k) == Get(doc.fields, k)
      {
        IntoMember(fields, k, Some(doc));
      }
      SameEntries(once.fields, doc.fields);
    }
  }

  // ----- Escape hatches

  lemma ServiceEditAssigns(target: ResourceRef, ports: seq<ServicePort>, serviceType: string)
    ensures AssignsOnly(ServiceEdit(target, ports, serviceType))
  {
    var below := ServiceEdit(target, ports, serviceType).members["spec"];
    assert forall k | k in below.members :: below.members[k].Set?;
    assert AssignsOnly(below);
  }

  /**
   The Service controller does not set externalIPs, so a hatch that appends to that array never
   settles: whatever is stored, a pass stores something else, and so does the next one.
   */
  lemma ExternalIpNeverSettles(types: Types, target: ResourceRef, ports: seq<ServicePort>, serviceType: string,
                               ip: Json, stored: Json)
    ensures var managed := ServiceEdit(target, ports, serviceType);
            var hatch := OneOp("Service", Add([Name("spec"), Name("externalIPs"), End], ip));
            var first := MutateThenHatch(types, "Service", managed, hatch, Some(stored));
            first.Success? ==>
              var second := MutateThenHatch(types, "Service", managed, hatch, Some(first.value));
              first.value != stored && (second.Success? ==> second != first)
  {
    var managed := ServiceEdit(target, ports, serviceType);
    var op := Add([Name("spec"), Name("externalIPs"), End], ip);
    ServiceEditAssigns(target, ports, serviceType);
    assert op.path[1..] == [Name("externalIPs"), End] && op.path[1..][1..] == [End];
    assert Sub(Sub(managed, op.path[0]), op.path[1..][0]) == Keep;
    assert MovesUnset(managed, op, op.path);
    var first := MutateThenHatch(types, "Service", managed, OneOp("Service", op), Some(stored));
    if first.Success? {
      MovedOnce(types, "Service", managed, op, Some(stored));
      if MutateThenHatch(types, "Service", managed, OneOp("Service", op), Some(first.value)).Success? {
        MovedOnce(types, "Service", managed, op, Some(first.value));
      }
    }
  }

  /** It does set ports, so the same operation on that array cannot fail and settles at once. */
  lemma PortHatchSettles(types: Types, target: ResourceRef, ports: seq<ServicePort>, serviceType: string,
                         port: Json, stored: Json)
    requires Accepting(types, "Service")
    ensures var managed := ServiceEdit(target, ports, serviceType);
            var hatch := OneOp("Service", Add([Name("spec"), Name("ports"), End], port));
            var first := MutateThenHatch(types, "Service", managed, hatch, Some(stored));
            first.Success? && MutateThenHatch(types, "Service", managed, hatch, Some(first.value)) == first
  {
    var managed := ServiceEdit(target, ports, serviceType);
    var op := Add([Name("spec"), Name("ports"), End], port);
    assert op.path[1..] == [Name("ports"), End] && op.path[1..][1..] == [End];
    assert managed.members["spec"].members["ports"] == SetTo(EncodePorts(ports));
    assert CanApply(SetTo(EncodePorts(ports)), op, [End]);
    assert CanApply(managed.members["spec"], op, op.path[1..]);
    assert CanApply(managed, op, op.path);
    CanApplySucceeds(managed, op, op.path, Some(stored), Apply(managed, Some(stored)).value);
    OneOpSure(types, "Service", managed, op);
    MutateThenHatchIdempotent(types, "Service", managed, OneOp("Service", op), Some(stored));
  }

  /**
   A hatch that replaces externalIPs by null, or by what the field omits, removes the field; the next
   pass finds nothing to replace, so the request fails from then on.
   */
  lemma NullExternalIpsFailsAgain(types: Types, target: ResourceRef, ports: seq<ServicePort>, serviceType: string,
                                  v: Json, stored: Json)
    requires Get(SpecOf(stored), "externalIPs").Some?
    requires Vanishes(types.places("Service")([Field("spec"), Field("externalIPs")]), SpecOf(stored)["externalIPs"], v)
    ensures var managed := ServiceEdit(target, ports, serviceType);
            var hatch := OneOp("Service", Replace([Name("spec"), Name("externalIPs")], v));
            var first := MutateThenHatch(types, "Service", managed, hatch, Some(stored));
            first.Success? ==> MutateThenHatch(types, "Service", managed, hatch, Some(first.value)).Failure?
  {
    var managed := ServiceEdit(target, ports, serviceType);
    var op := Replace([Name("spec"), Name("externalIPs")], v);
    ServiceEditAssigns(target, ports, serviceType);
    ExternalIpsUnset(target, ports, serviceType, op, stored);
    if MutateThenHatch(types, "Service", managed, OneOp("Service", op), Some(stored)).Success? {
      LostFails(types, "Service", managed, op, Some(stored));
    }
  }

  lemma ExternalIpsUnset(target: ResourceRef, ports: seq<ServicePort>, serviceType: string, op: Op, stored: Json)
    requires op.path == [Name("spec"), Name("externalIPs")] && Get(SpecOf(stored), "externalIPs").Some?
    ensures Unset(ServiceEdit(target, ports, serviceType), op.path)
    ensures ValueOf(Some(stored), op.path) == Get(SpecOf(stored), "externalIPs")
    ensures [] + HopsOf(op.path) == [Field("spec"), Field("externalIPs")]
  {
    var c := ServiceEdit(target, ports, serviceType);
    assert op.path[1..] == [Name("externalIPs")] && op.path[1..][1..] == [];
    assert Sub(Sub(c, op.path[0]), op.path[1..][0]) == Keep;
    assert ChildAt(Some(stored), op.path[0]) == Get(Fields(stored), "spec");
    assert HopsOf(op.path[1..]) == [Field("externalIPs")] + HopsOf([]);
    var spec := ChildAt(Some(stored), op.path[0]);
    assert ValueOf(Some(stored), op.path) == ValueOf(spec, op.path[1..]) == ChildAt(spec, op.path[1..][0]);
  }

  /** minReplicas is a pointer with omitempty; nothing else matters here. */
  function AutoscalerTypes(): Types {
    Types((kind, n) => true,
          kind => at => Place(if at == [Field("spec"), Field("minReplicas")] then Omitted else Ignored, None))
  }

  /** A hatch that replaces the lower bound of an autoscaler by null removes it. */
  lemma NullRemovesMinReplicas(low: int, high: int)
    ensures var hatch := OneOp("HorizontalPodAutoscaler", Replace([Name("spec"), Name("minReplicas")], Null));
            ApplyHatches(AutoscalerTypes(), "HorizontalPodAutoscaler", hatch,
                         Obj(map["spec" := Obj(map["minReplicas" := Num(low), "maxReplicas" := Num(high)])])) ==
            Success(Obj(map["spec" := Obj(map["maxReplicas" := Num(high)])]))
  {
    var kind := "HorizontalPodAutoscaler";
    var m := map["minReplicas" := Num(low), "maxReplicas" := Num(high)];
    var doc := Obj(map["spec" := Obj(m)]);
    var op := Replace([Name("spec"), Name("minReplicas")], Null);
    OneOpApplied(AutoscalerTypes(), kind, op, doc);
    assert op.path[1..] == [Name("minReplicas")];
    assert ApplyOp(op, doc) == Some(Obj(doc.fields["spec" := Obj(m["minReplicas" := Null])]));
    ReplacedField(AutoscalerTypes(), kind, doc, "spec", "minReplicas", Null);
    assert m - {"minReplicas"} == map["maxReplicas" := Num(high)];
    assert doc.fields["spec" := Obj(m - {"minReplicas"})] == map["spec" := Obj(map["maxReplicas" := Num(high)])];
  }

  /** externalIPs is a slice with omitempty; nothing else matters here. */
  function ServiceTypes(): Types {
    Types((kind, n) => true,
          kind => at =>
            if at == [Field("spec"), Field("externalIPs")] then Place(Omitted, Some(Arr([]))) else Place(Ignored, None))
  }

  /** A merge hatch that sets the list to the empty list removes it as well, without any null. */
  lemma EmptyListRemovesExternalIps(ip: string, port: int)
    ensures var hatch := OneMerge("Service", Obj(map["spec" := Obj(map["externalIPs" := Arr([])])]));
            ApplyHatches(ServiceTypes(), "Service", hatch,
                         ServiceDoc(map["externalIPs" := Arr([Str(ip)]), "port" := Num(port)])) ==
            Success(ServiceDoc(map["port" := Num(port)]))
  {
    var m := map["externalIPs" := Arr([Str(ip)]), "port" := Num(port)];
    OneMergeApplied(ServiceTypes(), "Service", Obj(map["spec" := Obj(map["externalIPs" := Arr([])])]), ServiceDoc(m));
    MergedField(ServiceTypes(), "Service", ServiceDoc(m), "spec", "externalIPs", Arr([]));
    EmptyListOmitted(Arr([Str(ip)]));
    assert m - {"externalIPs"} == map["port" := Num(port)];
    assert ServiceDoc(m).fields["spec" := Obj(m - {"externalIPs"})] == map["spec" := Obj(m - {"externalIPs"})];
  }

  function ServiceDoc(spec: map<string, Json>): Json {
    Obj(map["spec" := Obj(spec)])
  }

  lemma EmptyListOmitted(stored: Json)
    requires stored.Arr? && stored.items != []
    ensures Overlay(ServiceTypes().places("Service"), [Field("spec"), Field("externalIPs")], Some(stored),
                    Arr([])).None?
  {
  }
}
