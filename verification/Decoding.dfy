/**
 `json.Unmarshal` of a document into an object that already has a value. The decode is an overlay:
 struct fields and array elements that the document does not mention keep their old values. A null
 empties a pointer, slice or map, and does nothing to any other field. Objects are represented by
 the documents they marshal to, so a field is gone once it holds a value that omitempty omits.
 */
module Decoding {
  import opened Wrappers
  import opened JsonTree
  import opened TreeEdit

  /** A step from the root of a Go type to one of its fields, or to the elements of a slice. */
  datatype Hop = Field(name: string) | Item

  /** What a null does to the field at a place. */
  datatype NullRule =
    | Ignored   // a scalar or a struct: nothing
    | Omitted   // a pointer, slice or map with omitempty: the marshalled field goes
    | Kept      // any other field with an empty value: it is marshalled as null

  /** The empty values, of which omitempty omits the one that has the type of the field. */
  predicate IsEmpty(j: Json) {
    j in {Str(""), Num(0), Bool(false), Arr([]), Obj(map[])}
  }

  type Empty = j: Json | IsEmpty(j) witness Str("")

  /** A field of a Go type: what a null does to it, and the value, if any, that marshals to nothing there. */
  datatype Place = Place(onNull: NullRule, omits: Option<Empty>)

  type Places = seq<Hop> -> Place

  /** The whole object is a struct. */
  function Root(places: Places): Places {
    at => if at == [] then Place(Ignored, None) else places(at)
  }

  /**
   The field at a place once `n` has been decoded into it; None is a field that marshals to nothing.
   A value that was there already shows that it does marshal, whatever the table of places says.
   An empty map is decoded into the entries that are there.
   */
  function Overlay(places: Places, at: seq<Hop>, x: Option<Json>, n: Json): Option<Json>
    decreases n
  {
    if places(at).omits == Some(n) then (if x == Some(n) || (n.Obj? && x.Some? && x.value.Obj?) then x else None)
    else match n
      case Null =>
        (match places(at).onNull
         case Ignored => x
         case Omitted => if x == Some(Null) then x else None
         case Kept => Some(Null))
      case Obj(m) =>
        var xm := Fields(x.GetOr(Null));
        Some(Obj(
               map k | k in xm.Keys + m.Keys && (k in m ==> Overlay(places, at + [Field(k)], Get(xm, k), m[k]).Some?) ::
                 if k in m then Overlay(places, at + [Field(k)], Get(xm, k), m[k]).value else xm[k]))
      case Arr(xs) =>
        Some(Arr(seq(|xs|, i requires 0 <= i < |xs| => Overlay(places, at + [Item], Element(x, i), xs[i]).GetOr(Null))))
      case _ => Some(n)
  }

  /** A whole object decoded into. */
  function Decoded(places: Places, o: Json, n: Json): Json {
    Overlay(Root(places), [], Some(o), n).value
  }

  lemma OverlayMember(places: Places, at: seq<Hop>, x: Option<Json>, m: map<string, Json>, k: string)
    requires m != map[] || places(at).omits != Some(Obj(map[]))
    ensures Overlay(places, at, x, Obj(m)).Some? && Overlay(places, at, x, Obj(m)).value.Obj?
    ensures Get(Overlay(places, at, x, Obj(m)).value.fields, k) ==
            if k in m then Overlay(places, at + [Field(k)], Get(Fields(x.GetOr(Null)), k), m[k])
            else Get(Fields(x.GetOr(Null)), k)
  {
    assert m != map[] ==> !IsEmpty(Obj(m));
  }

  /** Decoding an object's own document changes nothing. */
  lemma {:induction false} OverlaySelf(places: Places, at: seq<Hop>, o: Json)
    ensures Overlay(places, at, Some(o), o) == Some(o)
    decreases o
  {
    if places(at).omits != Some(o) {
      match o
      case Obj(m) =>
        forall k
          ensures Get(Overlay(places, at, Some(o), o).value.fields, k) == Get(m, k)
        {
          if k in m {
            OverlaySelf(places, at + [Field(k)], m[k]);
          }
        }
        SameEntries(Overlay(places, at, Some(o), o).value.fields, m);
      case Arr(xs) =>
        forall i: nat | i < |xs|
          ensures Overlay(places, at, Some(o), o).value.items[i] == xs[i]
        {
          OverlaySelf(places, at + [Item], xs[i]);
        }
        assert Overlay(places, at, Some(o), o).value.items == xs;
      case _ =>
    }
  }

  // ----- What the decode loses

  /** No member of `o` is missing from `n`, wherever both have an object at the same place. */
  predicate KeepsKeys(o: Json, n: Json)
    decreases n
  {
    match (o, n)
    case (Obj(om), Obj(nm)) => om.Keys <= nm.Keys && forall k | k in om :: KeepsKeys(om[k], nm[k])
    case (Arr(os), Arr(ns)) => forall i: nat | i < |os| && i < |ns| :: KeepsKeys(os[i], ns[i])
    case (_, _) => true
  }

  /**
   Every null and every empty value of `n` is marshalled where it stands: the place does not omit it,
   or it was there before.
   */
  predicate ReadsBack(places: Places, at: seq<Hop>, x: Option<Json>, n: Json)
    decreases n
  {
    if places(at).omits == Some(n) then x == Some(n)
    else match n
      case Null => x == Some(Null) || places(at).onNull.Kept?
      case Obj(m) => forall k | k in m :: ReadsBack(places, at + [Field(k)], Get(Fields(x.GetOr(Null)), k), m[k])
      case Arr(xs) => forall i: nat | i < |xs| :: ElementReadsBack(places, at, x, n, i)
      case _ => true
  }

  /** An element is never left out; one without a value is marshalled as null. */
  predicate ElementReadsBack(places: Places, at: seq<Hop>, x: Option<Json>, n: Json, i: nat)
    requires n.Arr? && i < |n.items|
    decreases n, 0
  {
    if n.items[i].Null? then !places(at + [Item]).onNull.Ignored? || Element(x, i).GetOr(Null).Null?
    else ReadsBack(places, at + [Item], Element(x, i), n.items[i])
  }

  /**
   The decode yields exactly the patched document if and only if the patch dropped no key anywhere
   in the tree and each of its nulls and empty values can be read back.
   */
  lemma {:induction false} OverlayExact(places: Places, at: seq<Hop>, x: Option<Json>, n: Json)
    ensures Overlay(places, at, x, n) == Some(n) <==> KeepsKeys(x.GetOr(Null), n) && ReadsBack(places, at, x, n)
    decreases n
  {
    if places(at).omits == Some(n) {
      KeepsOwnKeys(n);
    } else {
      match n
      case Obj(m) =>
        var xm, r := Fields(x.GetOr(Null)), Overlay(places, at, x, n).value.fields;
        forall k | k in m
          ensures Get(r, k) == Some(m[k]) <==>
                  KeepsKeys(Get(xm, k).GetOr(Null), m[k]) && ReadsBack(places, at + [Field(k)], Get(xm, k), m[k])
        {
          OverlayExact(places, at + [Field(k)], Get(xm, k), m[k]);
        }
        ExactObject(x.GetOr(Null), m, r);
      case Arr(xs) =>
        var ys, r := Items(x), Overlay(places, at, x, n).value.items;
        forall i: nat | i < |xs|
          ensures r[i] == xs[i] <==> (i < |ys| ==> KeepsKeys(ys[i], xs[i])) && ElementReadsBack(places, at, x, n, i)
        {
          OverlayExact(places, at + [Item], Element(x, i), xs[i]);
        }
        if forall i: nat | i < |xs| :: r[i] == xs[i] {
          assert r == xs;
        }
      case _ =>
    }
  }

  lemma KeepsOwnKeys(n: Json)
    requires IsEmpty(n)
    ensures KeepsKeys(n, n)
  {
  }

  /**
   The members of a decoded object are those of the document exactly when it dropped none and each
   came out as it is.
   */
  lemma ExactObject(o: Json, m: map<string, Json>, r: map<string, Json>)
    requires forall k | k in r :: k in m || k in Fields(o)
    requires forall k | k in Fields(o) && k !in m :: k in r
    ensures r == m <==> (o.Obj? ==> o.fields.Keys <= m.Keys) && forall k | k in m :: Get(r, k) == Some(m[k])
  {
    if (o.Obj? ==> o.fields.Keys <= m.Keys) && forall k | k in m :: Get(r, k) == Some(m[k]) {
      assert r == m;
    }
  }

  datatype Step = Key(k: string) | Index(i: nat)

  /** The value at the end of a path, if there is one. */
  function ValueAt(j: Json, path: seq<Step>): Option<Json> {
    if path == [] then Some(j)
    else match (path[0], j)
      case (Key(k), Obj(m)) => if k in m then ValueAt(m[k], path[1..]) else None
      case (Index(i), Arr(xs)) => if i < |xs| then ValueAt(xs[i], path[1..]) else None
      case (_, _) => None
  }

  function Hops(path: seq<Step>): seq<Hop> {
    if path == [] then []
    else [match path[0] case Key(k) => Field(k) case Index(_) => Item] + Hops(path[1..])
  }

  /**
   The decode acts at every place by itself: wherever both documents have an object, the new one is
   decoded into the old.
   */
  lemma {:induction false} OverlayAt(places: Places, at: seq<Hop>, o: Json, n: Json, path: seq<Step>)
    requires BothObjects(o, n, path)
    ensures Overlay(places, at, Some(o), n).Some?
    ensures ValueAt(Overlay(places, at, Some(o), n).value, path) ==
            Overlay(places, at + Hops(path), ValueAt(o, path), ValueAt(n, path).value)
    ensures Overlay(places, at + Hops(path), ValueAt(o, path), ValueAt(n, path).value).Some?
    decreases |path|
  {
    if path == [] {
      assert at + Hops(path) == at;
    } else {
      match path[0]
      case Key(k) =>
        OverlayAt(places, at + [Field(k)], o.fields[k], n.fields[k], path[1..]);
        OverlayMember(places, at, Some(o), n.fields, k);
        assert at + Hops(path) == at + [Field(k)] + Hops(path[1..]);
      case Index(i) =>
        OverlayAt(places, at + [Item], o.items[i], n.items[i], path[1..]);
        assert !IsEmpty(n);
        assert at + Hops(path) == at + [Item] + Hops(path[1..]);
    }
  }

  /** Both documents have an object at the end of the path. */
  predicate BothObjects(o: Json, n: Json, path: seq<Step>) {
    ValueAt(o, path).Some? && ValueAt(o, path).value.Obj? && ValueAt(n, path).Some? && ValueAt(n, path).value.Obj?
  }

  /**
   Decoding `v` over `before` leaves a field that is not marshalled: a null or an empty value where
   such a value is omitted.
   */
  predicate Vanishes(place: Place, before: Json, v: Json) {
    if v.Null? then place.onNull.Omitted? && !before.Null?
    else place.omits == Some(v) && before != v && !(v.Obj? && before.Obj?)
  }

  lemma VanishesIff(places: Places, at: seq<Hop>, before: Json, v: Json)
    ensures Overlay(places, at, Some(before), v).None? <==> Vanishes(places(at), before, v)
  {
  }

  lemma DecodedMember(places: Places, o: Json, n: Json, path: seq<Step>, k: string)
    requires BothObjects(o, n, path)
    ensures ValueAt(Decoded(places, o, n), path).Some? && ValueAt(Decoded(places, o, n), path).value.Obj?
    ensures var patched := ValueAt(n, path).value.fields;
            var before := Get(ValueAt(o, path).value.fields, k);
            Get(ValueAt(Decoded(places, o, n), path).value.fields, k) ==
            if k in patched then Overlay(Root(places), Hops(path) + [Field(k)], before, patched[k]) else before
  {
    var at, x, m := Hops(path), ValueAt(o, path), ValueAt(n, path).value.fields;
    OverlayAt(Root(places), [], o, n, path);
    assert [] + Hops(path) == at;
    if m != map[] || Root(places)(at).omits != Some(Obj(map[])) {
      OverlayMember(Root(places), at, x, m, k);
    }
  }

  /**
   At any depth, a member of the old object is missing after the decode if and only if the patched
   document holds a null or an empty value there, at a place that omits it.
   */
  lemma MissingIff(places: Places, o: Json, n: Json, path: seq<Step>, k: string)
    requires BothObjects(o, n, path) && k in ValueAt(o, path).value.fields
    ensures ValueAt(Decoded(places, o, n), path).Some? && ValueAt(Decoded(places, o, n), path).value.Obj?
    ensures var before, patched := ValueAt(o, path).value.fields, ValueAt(n, path).value.fields;
            k !in ValueAt(Decoded(places, o, n), path).value.fields <==>
            k in patched && Vanishes(places(Hops(path) + [Field(k)]), before[k], patched[k])
  {
    DecodedMember(places, o, n, path, k);
    var patched := ValueAt(n, path).value.fields;
    if k in patched {
      VanishesIff(Root(places), Hops(path) + [Field(k)], ValueAt(o, path).value.fields[k], patched[k]);
    }
  }

  /** A member that the patch dropped, at any depth, still holds its old value after the decode. */
  lemma DroppedKeepsOldValue(places: Places, o: Json, n: Json, path: seq<Step>, k: string)
    requires BothObjects(o, n, path) && k in ValueAt(o, path).value.fields && k !in ValueAt(n, path).value.fields
    ensures ValueAt(Decoded(places, o, n), path).Some?
    ensures Get(Fields(ValueAt(Decoded(places, o, n), path).value), k) == Some(ValueAt(o, path).value.fields[k])
  {
    DecodedMember(places, o, n, path, k);
  }

  // ----- The decode as an edit

  /** Decoding a value over the old one, as an edit of the place. */
  function OverlayEdit(places: Places, at: seq<Hop>, n: Json): Edit
    decreases n
  {
    if places(at).omits == Some(n) then Clear(if n.Obj? then AnyObject else Value(n))
    else match n
      case Null =>
        (match places(at).onNull
         case Ignored => Keep
         case Omitted => Clear(Value(Null))
         case Kept => Set(Some(Null)))
      case Obj(m) => Into(map k | k in m :: OverlayEdit(places, at + [Field(k)], m[k]))
      case Arr(xs) => Elems(seq(|xs|, i requires 0 <= i < |xs| => OverlayEdit(places, at + [Item], xs[i])), false)
      case _ => Set(Some(n))
  }

  lemma {:induction false} OverlayIsEdit(places: Places, at: seq<Hop>, x: Option<Json>, n: Json)
    ensures Apply(OverlayEdit(places, at, n), x) == Overlay(places, at, x, n)
    decreases n
  {
    if places(at).omits != Some(n) {
      var e := OverlayEdit(places, at, n);
      match n
      case Obj(m) =>
        forall k
          ensures Get(Apply(e, x).value.fields, k) == Get(Overlay(places, at, x, n).value.fields, k)
        {
          if k in m {
            OverlayIsEdit(places, at + [Field(k)], Get(Fields(x.GetOr(Null)), k), m[k]);
          }
          IntoMember(e.members, k, x);
          OverlayMember(places, at, x, m, k);
        }
        SameEntries(Apply(e, x).value.fields, Overlay(places, at, x, n).value.fields);
      case Arr(xs) =>
        forall i: nat | i < |xs|
          ensures Apply(e, x).value.items[i] == Overlay(places, at, x, n).value.items[i]
        {
          OverlayIsEdit(places, at + [Item], Element(x, i), xs[i]);
        }
        assert Apply(e, x).value.items == Overlay(places, at, x, n).value.items;
      case _ =>
    }
  }

  /**
   The edits that patches make of a document before it is decoded: no length is fixed but by setting
   an array whole.
   */
  predicate IsRaw(e: Edit) {
    match e
    case Clear(_) => false
    case Into(m) => forall k | k in m :: IsRaw(m[k])
    case Elems(es, open) => open && es != [] && forall i | 0 <= i < |es| :: IsRaw(es[i]) && es[i] != Set(None)
    case _ => true
  }

  lemma {:induction false} RawCompose(e2: Edit, e1: Edit)
    requires IsRaw(e2) && IsRaw(e1)
    ensures IsRaw(Compose(e2, e1))
    ensures e2 != Set(None) && e1 != Set(None) ==> Compose(e2, e1) != Set(None)
    decreases e2
  {
    var c := Compose(e2, e1);
    if e2.Into? && e1.Into? {
      forall k | k in c.members
        ensures IsRaw(c.members[k])
      {
        if k in e1.members && k in e2.members {
          RawCompose(e2.members[k], e1.members[k]);
        }
      }
    } else if e2.Elems? && e1.Elems? {
      forall i | 0 <= i < |c.items|
        ensures IsRaw(c.items[i]) && c.items[i] != Set(None)
      {
        if i < |e1.items| && i < |e2.items| {
          RawCompose(e2.items[i], e1.items[i]);
        }
      }
    }
  }

  /** A raw edit of an object that makes no member where there was none. */
  predicate MakesNoMember(m: map<string, Edit>) {
    forall k | k in m :: m[k] == Keep || m[k] == Set(None)
  }

  /** Patching a value and then decoding the result over it, as one edit: an emptied place comes back. */
  function DecodeOf(places: Places, at: seq<Hop>, raw: Edit): Edit
    decreases raw
  {
    match raw
    case Set(v) => if v.None? then Keep else OverlayEdit(places, at, v.value)
    case Into(m) =>
      if places(at).omits == Some(Obj(map[])) && MakesNoMember(m) then Clear(AnyObject)
      else Into(map k | k in m :: DecodeOf(places, at + [Field(k)], m[k]))
    case Elems(es, open) =>
      Elems(seq(|es|, i requires 0 <= i < |es| => DecodeOf(places, at + [Item], es[i])), open)
    case _ => Keep
  }

  /** The decode of a patched place over the place itself. */
  function OverlayOver(places: Places, at: seq<Hop>, x: Option<Json>, y: Option<Json>): Option<Json> {
    if y.None? then x else Overlay(places, at, x, y.value)
  }

  lemma {:induction false} DecodeIsEdit(places: Places, at: seq<Hop>, raw: Edit, x: Option<Json>)
    requires IsRaw(raw)
    ensures Apply(DecodeOf(places, at, raw), x) == OverlayOver(places, at, x, Apply(raw, x))
    decreases raw
  {
    match raw
    case Keep =>
      if x.Some? {
        OverlaySelf(places, at, x.value);
      }
    case Set(v) =>
      if v.Some? {
        OverlayIsEdit(places, at, x, v.value);
      }
    case Into(m) =>
      var xm := Fields(x.GetOr(Null));
      forall k | k in m
        ensures Apply(DecodeOf(places, at + [Field(k)], m[k]), Get(xm, k)) ==
                OverlayOver(places, at + [Field(k)], Get(xm, k), Apply(m[k], Get(xm, k)))
      {
        DecodeIsEdit(places, at + [Field(k)], m[k], Get(xm, k));
      }
      if places(at).omits == Some(Obj(map[])) && MakesNoMember(m) {
        DecodeNoMember(places, at, m, x);
      } else {
        DecodeInto(places, at, m, x);
      }
    case Elems(es, _) =>
      forall i: nat | i < |es|
        ensures Apply(DecodeOf(places, at + [Item], es[i]), Element(x, i)) ==
                OverlayOver(places, at + [Item], Element(x, i), Apply(es[i], Element(x, i)))
      {
        DecodeIsEdit(places, at + [Item], es[i], Element(x, i));
      }
      DecodeElems(places, at, es, x);
  }

  /**
   Only removing members of an object, if there is one, has no effect; where there is none, an empty
   map is marshalled to nothing.
   */
  lemma DecodeNoMember(places: Places, at: seq<Hop>, m: map<string, Edit>, x: Option<Json>)
    requires places(at).omits == Some(Obj(map[])) && MakesNoMember(m)
    ensures Apply(Clear(AnyObject), x) == OverlayOver(places, at, x, Apply(Into(m), x))
  {
    var xm, f := Fields(x.GetOr(Null)), Apply(Into(m), x).value.fields;
    forall k
      ensures k in f ==> k in xm && f[k] == xm[k]
    {
      IntoMember(m, k, x);
    }
    if f == map[] {
      assert Apply(Into(m), x) == Some(Obj(map[]));
    } else {
      var r := Overlay(places, at, x, Obj(f)).value.fields;
      forall k
        ensures Get(r, k) == Get(xm, k)
      {
        OverlayMember(places, at, x, f, k);
        if k in f {
          OverlaySelf(places, at + [Field(k)], f[k]);
        }
      }
      SameEntries(r, xm);
    }
  }

  lemma RawMakes(e: Edit, x: Option<Json>)
    requires IsRaw(e) && e != Keep && e != Set(None)
    ensures Apply(e, x).Some?
  {
  }

  /** Otherwise the patched object is not empty, or may be. */
  lemma PatchedHasMember(m: map<string, Edit>, x: Option<Json>)
    requires !MakesNoMember(m) && IsRaw(Into(m))
    ensures Apply(Into(m), x).value.fields != map[]
  {
    var k :| k in m && m[k] != Keep && m[k] != Set(None);
    RawMakes(m[k], Get(Fields(x.GetOr(Null)), k));
    IntoMember(m, k, x);
    assert k in Apply(Into(m), x).value.fields;
  }

  lemma DecodeInto(places: Places, at: seq<Hop>, m: map<string, Edit>, x: Option<Json>)
    requires IsRaw(Into(m)) && !(places(at).omits == Some(Obj(map[])) && MakesNoMember(m))
    requires forall k | k in m ::
               Apply(DecodeOf(places, at + [Field(k)], m[k]), Get(Fields(x.GetOr(Null)), k)) ==
               OverlayOver(places, at + [Field(k)], Get(Fields(x.GetOr(Null)), k),
                           Apply(m[k], Get(Fields(x.GetOr(Null)), k)))
    ensures Apply(DecodeOf(places, at, Into(m)), x) == OverlayOver(places, at, x, Apply(Into(m), x))
  {
    var xm := Fields(x.GetOr(Null));
    var patched := Apply(Into(m), x).value.fields;
    if !MakesNoMember(m) {
      PatchedHasMember(m, x);
    }
    OverlayMember(places, at, x, patched, "");
    var got, want :=
      Apply(DecodeOf(places, at, Into(m)), x).value.fields, Overlay(places, at, x, Obj(patched)).value.fields;
    forall k
      ensures Get(got, k) == Get(want, k)
    {
      IntoMember(DecodeOf(places, at, Into(m)).members, k, x);
      IntoMember(m, k, x);
      OverlayMember(places, at, x, patched, k);
      if k !in m && k in xm {
        OverlaySelf(places, at + [Field(k)], xm[k]);
      }
    }
    SameEntries(got, want);
  }

  lemma DecodeElems(places: Places, at: seq<Hop>, es: seq<Edit>, x: Option<Json>)
    requires es != [] && forall i: nat | i < |es| ::
               IsRaw(es[i]) && es[i] != Set(None) &&
               Apply(DecodeOf(places, at + [Item], es[i]), Element(x, i)) ==
               OverlayOver(places, at + [Item], Element(x, i), Apply(es[i], Element(x, i)))
    ensures Apply(DecodeOf(places, at, Elems(es, true)), x) == OverlayOver(places, at, x, Apply(Elems(es, true), x))
  {
    var patched := Apply(Elems(es, true), x).value.items;
    assert !IsEmpty(Arr(patched));
    var got, want :=
      Apply(DecodeOf(places, at, Elems(es, true)), x).value.items, Overlay(places, at, x, Arr(patched)).value.items;
    assert |got| == |want|;
    forall i: nat | i < |got|
      ensures got[i] == want[i]
    {
      if i >= |es| {
        OverlaySelf(places, at + [Item], Items(x)[i]);
      }
    }
    assert got == want;
  }
}
