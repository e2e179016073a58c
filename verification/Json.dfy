/**
 JSON documents as trees, the merge patch of section 2 of RFC 7396, and the difference of two
 documents as a merge patch, which is what `client.MergeFrom` sends to the API server.
 Arrays are atomic for both operations, as the RFC requires.
 */
module JsonTree {
  import opened Wrappers

  datatype Json =
    | Null
    | Bool(b: bool)
    | Num(n: int)
    | Str(s: string)
    | Arr(items: seq<Json>)
    | Obj(fields: map<string, Json>)

  /** The members of an object; any other value counts as the empty object. */
  function Fields(j: Json): map<string, Json> {
    if j.Obj? then j.fields else map[]
  }

  /** The member `k` of `j`, or null when `j` has none. */
  function Member(j: Json, k: string): Json {
    Get(Fields(j), k).GetOr(Null)
  }

  /** MergePatch(Target, Patch) of section 2 of RFC 7396. */
  function Merge(t: Json, p: Json): Json
    decreases p
  {
    match p
    case Obj(pm) =>
      var tm := Fields(t);
      Obj(map k | k in tm.Keys + pm.Keys && !(k in pm && pm[k].Null?) ::
        if k in pm then Merge(Member(t, k), pm[k]) else tm[k])
    case _ => p
  }

  function MergeAll(t: Json, ps: seq<Json>): Json {
    if ps == [] then t else Merge(MergeAll(t, ps[..|ps| - 1]), ps[|ps| - 1])
  }

  /** The merge patch that a client derives from the document it read (`a`) and its edit of it (`b`). */
  function Diff(a: Json, b: Json): Json
    requires a.Obj? && b.Obj?
    decreases b
  {
    Obj(map k | k in a.fields.Keys + b.fields.Keys && Get(a.fields, k) != Get(b.fields, k) ::
      if k !in b.fields then Null
      else if k in a.fields && a.fields[k].Obj? && b.fields[k].Obj? then Diff(a.fields[k], b.fields[k])
      else b.fields[k])
  }

  /** No null outside arrays: the documents that a merge patch can write into an empty place. */
  predicate NoNulls(j: Json) {
    match j
    case Null => false
    case Obj(m) => forall k | k in m :: NoNulls(m[k])
    case _ => true
  }

  /** Every null of `b` already stands at the same place of `a`, inside a member that did not change. */
  predicate Carries(a: Json, b: Json)
    requires a.Obj? && b.Obj?
    decreases b
  {
    forall k | k in b.fields ::
      if k in a.fields && a.fields[k] == b.fields[k] then true
      else if k in a.fields && a.fields[k].Obj? && b.fields[k].Obj? then Carries(a.fields[k], b.fields[k])
      else NoNulls(b.fields[k])
  }

  /** Writing `v` where no object stands keeps it whole exactly when it holds no null. */
  lemma {:induction false} MergeIntoNothing(t: Json, v: Json)
    requires !t.Obj? && !v.Null?
    ensures Merge(t, v) == v <==> NoNulls(v)
    decreases v
  {
    if v.Obj? {
      forall k | k in v.fields && !v.fields[k].Null?
        ensures Merge(Null, v.fields[k]) == v.fields[k] <==> NoNulls(v.fields[k])
      {
        MergeIntoNothing(Null, v.fields[k]);
      }
      assert forall k :: k in v.fields && !v.fields[k].Null? ==> Merge(t, v).fields[k] == Merge(Null, v.fields[k]);
      if NoNulls(v) {
        forall k | k in v.fields
          ensures k in Merge(t, v).fields && Merge(t, v).fields[k] == v.fields[k]
        {
          assert NoNulls(v.fields[k]);
        }
        assert Merge(t, v).fields == v.fields;
      }
    }
  }

  /** The same patch a second time changes nothing (a special case of TreeEdit.MergeAllIdempotent). */
  lemma {:induction false} MergeTwice(t: Json, p: Json)
    ensures Merge(Merge(t, p), p) == Merge(t, p)
    decreases p
  {
    if p.Obj? {
      forall k | k in p.fields && !p.fields[k].Null?
        ensures Merge(Merge(Member(t, k), p.fields[k]), p.fields[k]) == Merge(Member(t, k), p.fields[k])
      {
        MergeTwice(Member(t, k), p.fields[k]);
      }
      assert Merge(Merge(t, p), p).fields == Merge(t, p).fields;
    }
  }

  /**
   The diff round trip: sending the diff of an edit to the document it was read from stores the
   edit, if and only if every null of the edit was already there.
   */
  lemma {:induction false} DiffRoundTrip(a: Json, b: Json)
    requires a.Obj? && b.Obj?
    ensures Merge(a, Diff(a, b)) == b <==> Carries(a, b)
    decreases b
  {
    var m := Merge(a, Diff(a, b));
    forall k | k in b.fields
      ensures Get(m.fields, k) == Some(b.fields[k]) <==>
              (if k in a.fields && a.fields[k] == b.fields[k] then true
               else if k in a.fields && a.fields[k].Obj? && b.fields[k].Obj? then Carries(a.fields[k], b.fields[k])
               else NoNulls(b.fields[k]))
    {
      var v := b.fields[k];
      if Get(a.fields, k) == Some(v) {
        assert k !in Diff(a, b).fields && m.fields[k] == v;
      } else if Member(a, k).Obj? && v.Obj? {
        assert Diff(a, b).fields[k] == Diff(a.fields[k], v);
        DiffRoundTrip(a.fields[k], v);
        assert m.fields[k] == Merge(a.fields[k], Diff(a.fields[k], v));
      } else {
        assert Diff(a, b).fields[k] == v;
        if !v.Null? {
          assert m.fields[k] == Merge(Member(a, k), v);
          if v.Obj? {
            MergeIntoNothing(Member(a, k), v);
          }
        }
      }
    }
    forall k | k !in b.fields
      ensures k !in m.fields
    {
    }
    if Carries(a, b) {
      assert m.fields == b.fields;
    }
  }

  /** An edit that is already stored absorbs its own diff, whoever sends it again. */
  lemma DiffAbsorbed(a: Json, b: Json)
    requires a.Obj? && b.Obj? && Carries(a, b)
    ensures Merge(b, Diff(a, b)) == b
  {
    DiffRoundTrip(a, b);
    MergeTwice(a, Diff(a, b));
  }

  /** What a diff does to one member of the document it lands on; it depends on that member alone. */
  function LandField(x: Option<Json>, a: Option<Json>, b: Option<Json>): Option<Json> {
    if a == b then x
    else match b
      case None => None
      case Some(bv) =>
        if a.Some? && a.value.Obj? && bv.Obj? then Some(Merge(x.GetOr(Null), Diff(a.value, bv)))
        else if bv.Null? then None
        else Some(Merge(x.GetOr(Null), bv))
  }

  lemma LandFields(x: Json, a: Json, b: Json, k: string)
    requires a.Obj? && b.Obj?
    ensures Get(Fields(Merge(x, Diff(a, b))), k) == LandField(Get(Fields(x), k), Get(a.fields, k), Get(b.fields, k))
  {
  }

  /**
   A member that nobody else wrote, or that already holds the edit, ends as the edit wants it,
   however old the document was from which the diff was taken.
   */
  lemma LandSettles(x: Option<Json>, a: Option<Json>, b: Option<Json>)
    requires x == a || x == b
    requires a == b || b.None? || NoNulls(b.value)
    ensures LandField(x, a, b) == b
  {
    if a != b && b.Some? && b.value.Obj? {
      if a.Some? && a.value.Obj? {
        CleanCarries(a.value, b.value);
        DiffRoundTrip(a.value, b.value);
        DiffAbsorbed(a.value, b.value);
      } else {
        MergeIntoNothing(Null, b.value);
        MergeIntoClean(x.GetOr(Null), b.value);
      }
    }
  }

  lemma {:induction false} CleanCarries(a: Json, b: Json)
    requires a.Obj? && b.Obj? && NoNulls(b)
    ensures Carries(a, b)
    decreases b
  {
    forall k | k in b.fields && k in a.fields && a.fields[k].Obj? && b.fields[k].Obj?
      ensures Carries(a.fields[k], b.fields[k])
    {
      CleanCarries(a.fields[k], b.fields[k]);
    }
  }

  lemma MergeIntoClean(x: Json, v: Json)
    requires v.Obj? && NoNulls(v)
    requires x == v || !x.Obj?
    ensures Merge(x, v) == v
  {
    MergeIntoNothing(Null, v);
    MergeTwice(Null, v);
    if !x.Obj? {
      MergeIntoNothing(x, v);
    }
  }
}
