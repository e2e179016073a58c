/**
 Edits of one place of a document tree. A controller's assignments to the fields it manages, a
 merge patch, and the decoding of a patched document over the old object are all edits of this
 kind, and edits are closed under composition (merge patches are not: no merge patch says
 "replace this object by that one"). That closure is what makes whole lists of patches, and
 create-or-update passes that run on their own earlier result, idempotent.
 */
module TreeEdit {
  import opened Wrappers
  import opened JsonTree

  datatype Edit =
    | Keep                               // leave the place alone
    | Set(place: Option<Json>)           // put this value there, or empty the place
    | Clear(unless: Stays)               // empty the place, unless it holds such a value
    | Into(members: map<string, Edit>)   // edit members of the object there; any other value counts as {}
    | Elems(items: seq<Edit>, open: bool)
      // edit the first elements of the array there; further elements stay if open, and go otherwise

  /** What clearing a place leaves there: one value that counts as nothing, or any object. */
  datatype Stays = Value(v: Childless) | AnyObject

  /** Values without members or elements. */
  type Childless = j: Json | !j.Obj? && (j.Arr? ==> j.items == []) witness Null

  predicate StaysThere(s: Stays, j: Json) {
    match s
    case Value(v) => j == v
    case AnyObject => j.Obj?
  }

  function Apply(e: Edit, x: Option<Json>): Option<Json>
    decreases e
  {
    match e
    case Keep => x
    case Set(v) => v
    case Clear(s) => if x.Some? && StaysThere(s, x.value) then x else None
    case Into(m) =>
      var xm := Fields(x.GetOr(Null));
      Some(Obj(map k | k in xm.Keys + m.Keys && (k in m ==> Apply(m[k], Get(xm, k)).Some?) ::
        if k in m then Apply(m[k], Get(xm, k)).value else xm[k]))
    case Elems(es, open) =>
      Some(Arr(seq(Length(es, open, x), i requires 0 <= i < Length(es, open, x) =>
        if i < |es| then Apply(es[i], Element(x, i)).GetOr(Null) else Items(x)[i])))
  }

  /** How many elements the array at a place has after an edit of its elements; to stay open, an edit has an element. */
  function Length(es: seq<Edit>, open: bool, x: Option<Json>): nat {
    if open && es != [] && |Items(x)| > |es| then |Items(x)| else |es|
  }

  /** The elements of the array at a place; any other value counts as the empty array. */
  function Items(x: Option<Json>): seq<Json> {
    if x.Some? && x.value.Arr? then x.value.items else []
  }

  function Element(x: Option<Json>, i: nat): Option<Json> {
    if i < |Items(x)| then Some(Items(x)[i]) else None
  }

  /** An edit of an object acts on each member by itself. */
  lemma IntoMember(m: map<string, Edit>, k: string, x: Option<Json>)
    ensures Get(Apply(Into(m), x).value.fields, k) ==
            if k in m then Apply(m[k], Get(Fields(x.GetOr(Null)), k)) else Get(Fields(x.GetOr(Null)), k)
  {
  }

  /** One edit that does the work of `e1` and then `e2`. */
  function Compose(e2: Edit, e1: Edit): Edit
    decreases e2
  {
    match (e2, e1)
    case (Keep, _) => e1
    case (_, Keep) => e2
    case (Set(_), _) => e2
    case (_, Set(v)) => Set(Apply(e2, v))
    case (Clear(s2), Clear(s1)) => if s2 == s1 then e1 else Set(None)
    case (Clear(s2), Into(_)) => if s2.AnyObject? then e1 else Set(None)
    case (Clear(_), Elems(s1, _)) => Set(if s1 == [] then Apply(e2, Some(Arr([]))) else None)
    case (Into(_), Clear(s1)) => if s1.AnyObject? then e2 else Set(Apply(e2, None))
    case (Into(m2), Into(m1)) =>
      Into(map k | k in m1.Keys + m2.Keys ::
        if k !in m2 then m1[k] else if k !in m1 then m2[k] else Compose(m2[k], m1[k]))
    case (Elems(s2, open2), Elems(s1, open1)) =>
      var n := if open2 && s2 != [] && |s1| > |s2| then |s1| else |s2|;
      Elems(seq(n, i requires 0 <= i < n =>
        if i >= |s2| then s1[i]
        else if i < |s1| then Compose(s2[i], s1[i])
        else if open1 && s1 != [] then s2[i]
        else Set(Apply(s2[i], None))), open1 && s1 != [] && open2)
    case (_, _) => Set(Apply(e2, None))
  }

  function ApplyAll(es: seq<Edit>, x: Option<Json>): Option<Json> {
    if es == [] then x else Apply(es[|es| - 1], ApplyAll(es[..|es| - 1], x))
  }

  function ComposeAll(es: seq<Edit>): Edit {
    if es == [] then Keep else Compose(es[|es| - 1], ComposeAll(es[..|es| - 1]))
  }

  /** Edits other than Keep and Clear cannot tell an empty place from a null. */
  lemma NullCountsAsNothing(e: Edit)
    requires !e.Keep? && !e.Clear?
    ensures Apply(e, Some(Null)) == Apply(e, None)
  {
    if e.Elems? {
      SameElements(e, Some(Null), None);
    }
  }

  lemma SameElements(e: Edit, x: Option<Json>, y: Option<Json>)
    requires e.Elems? && Items(x) == Items(y)
    ensures Apply(e, x) == Apply(e, y)
  {
    assert forall i: nat :: Element(x, i) == Element(y, i);
    assert Apply(e, x).value.items == Apply(e, y).value.items;
  }

  /** Composition is faithful at every place of every document. */
  lemma {:induction false} ComposeMeans(e2: Edit, e1: Edit, x: Option<Json>)
    ensures Apply(Compose(e2, e1), x) == Apply(e2, Apply(e1, x))
    decreases e2
  {
    if e2.Into? && e1.Into? {
      var xm := Fields(x.GetOr(Null));
      forall k | k in e2.members && k in e1.members
        ensures Apply(Compose(e2.members[k], e1.members[k]), Get(xm, k)) ==
                Apply(e2.members[k], Apply(e1.members[k], Get(xm, k)))
      {
        ComposeMeans(e2.members[k], e1.members[k], Get(xm, k));
      }
      ComposeInto(e2, e1, x);
    } else if e2.Elems? && e1.Elems? {
      forall i: nat | i < |e2.items| && i < |e1.items|
        ensures Apply(Compose(e2.items[i], e1.items[i]), Element(x, i)) ==
                Apply(e2.items[i], Apply(e1.items[i], Element(x, i)))
      {
        ComposeMeans(e2.items[i], e1.items[i], Element(x, i));
      }
      ComposeElems(e2, e1, x);
    } else if e2.Elems? && (e1.Into? || e1.Clear?) {
      SameElements(e2, Apply(e1, x), None);
    }
  }

  lemma ComposeInto(e2: Edit, e1: Edit, x: Option<Json>)
    requires e2.Into? && e1.Into?
    requires forall k | k in e2.members && k in e1.members ::
               Apply(Compose(e2.members[k], e1.members[k]), Get(Fields(x.GetOr(Null)), k)) ==
               Apply(e2.members[k], Apply(e1.members[k], Get(Fields(x.GetOr(Null)), k)))
    ensures Apply(Compose(e2, e1), x) == Apply(e2, Apply(e1, x))
  {
    var once, twice := Apply(Compose(e2, e1), x).value.fields, Apply(e2, Apply(e1, x)).value.fields;
    forall k
      ensures Get(once, k) == Get(twice, k)
    {
      ComposeAt(e2.members, e1.members, Compose(e2, e1).members, x, k);
    }
    SameEntries(once, twice);
  }

  lemma ComposeAt(m2: map<string, Edit>, m1: map<string, Edit>, m: map<string, Edit>, x: Option<Json>, k: string)
    requires k in m <==> k in m1 || k in m2
    requires k in m ==> m[k] == if k !in m2 then m1[k] else if k !in m1 then m2[k] else Compose(m2[k], m1[k])
    requires k in m2 && k in m1 ==> Apply(Compose(m2[k], m1[k]), Get(Fields(x.GetOr(Null)), k)) ==
                                    Apply(m2[k], Apply(m1[k], Get(Fields(x.GetOr(Null)), k)))
    ensures Get(Apply(Into(m), x).value.fields, k) == Get(Apply(Into(m2), Apply(Into(m1), x)).value.fields, k)
  {
    IntoMember(m, k, x);
    IntoMember(m1, k, x);
    IntoMember(m2, k, Apply(Into(m1), x));
  }

  lemma ComposeElems(e2: Edit, e1: Edit, x: Option<Json>)
    requires e2.Elems? && e1.Elems?
    requires forall i: nat | i < |e2.items| && i < |e1.items| ::
               Apply(Compose(e2.items[i], e1.items[i]), Element(x, i)) ==
               Apply(e2.items[i], Apply(e1.items[i], Element(x, i)))
    ensures Apply(Compose(e2, e1), x) == Apply(e2, Apply(e1, x))
  {
    var once, twice := Apply(Compose(e2, e1), x).value.items, Apply(e2, Apply(e1, x)).value.items;
    assert |once| == |twice|;
    forall i: nat | i < |once|
      ensures once[i] == twice[i]
    {
      if i < |e2.items| && i < |e1.items| {
        ComposeElement(e2.items[i], Apply(e1.items[i], Element(x, i)));
      }
    }
    assert once == twice;
  }

  /** An element that an edit leaves empty is stored as null, and the next edit reads it alike. */
  lemma ComposeElement(e: Edit, y: Option<Json>)
    ensures Apply(e, Some(y.GetOr(Null))).GetOr(Null) == Apply(e, y).GetOr(Null)
  {
    if y.None? && !e.Keep? && !e.Clear? {
      NullCountsAsNothing(e);
    }
  }

  lemma {:induction false} ComposeAllMeans(es: seq<Edit>, x: Option<Json>)
    ensures Apply(ComposeAll(es), x) == ApplyAll(es, x)
  {
    if es != [] {
      ComposeAllMeans(es[..|es| - 1], x);
      ComposeMeans(es[|es| - 1], ComposeAll(es[..|es| - 1]), x);
    }
  }

  /** Every edit is idempotent at every place. */
  lemma {:induction false} ApplyIdempotent(e: Edit, x: Option<Json>)
    ensures Apply(e, Apply(e, x)) == Apply(e, x)
    decreases e
  {
    match e
    case Keep =>
    case Set(_) =>
    case Clear(_) =>
    case Into(m) =>
      var xm := Fields(x.GetOr(Null));
      forall k | k in m {
        ApplyIdempotent(m[k], Get(xm, k));
      }
      var once, twice := Apply(e, x).value.fields, Apply(e, Apply(e, x)).value.fields;
      forall k
        ensures Get(once, k) == Get(twice, k)
      {
        assert Get(once, k) == if k in m then Apply(m[k], Get(xm, k)) else Get(xm, k);
      }
      SameEntries(once, twice);
    case Elems(es, open) =>
      forall i: nat | i < Length(es, open, x)
        ensures Apply(e, Apply(e, x)).value.items[i] == Apply(e, x).value.items[i]
      {
        if i < |es| {
          ApplyIdempotent(es[i], Element(x, i));
          ComposeElement(es[i], Apply(es[i], Element(x, i)));
        }
      }
      assert Apply(e, Apply(e, x)).value.items == Apply(e, x).value.items;
  }

  /** Hence every list of edits is idempotent as a whole. */
  lemma ApplyAllIdempotent(es: seq<Edit>, x: Option<Json>)
    ensures ApplyAll(es, ApplyAll(es, x)) == ApplyAll(es, x)
  {
    ComposeAllMeans(es, x);
    ComposeAllMeans(es, ApplyAll(es, x));
    ApplyIdempotent(ComposeAll(es), x);
  }

  /** Merge patches are edits: a null member empties its place. */
  function MergeEdit(p: Json): Edit
    decreases p
  {
    match p
    case Obj(m) => Into(map k | k in m :: if m[k].Null? then Set(None) else MergeEdit(m[k]))
    case _ => Set(Some(p))
  }

  lemma {:induction false} MergeIsEdit(t: Option<Json>, p: Json)
    ensures Some(Merge(t.GetOr(Null), p)) == Apply(MergeEdit(p), t)
    decreases p
  {
    if p.Obj? {
      var tm := Fields(t.GetOr(Null));
      forall k
        ensures Get(Merge(t.GetOr(Null), p).fields, k) == Get(Apply(MergeEdit(p), t).value.fields, k)
      {
        if k in p.fields && !p.fields[k].Null? {
          MergeIsEdit(Get(tm, k), p.fields[k]);
        }
      }
      SameEntries(Merge(t.GetOr(Null), p).fields, Apply(MergeEdit(p), t).value.fields);
    }
  }

  lemma {:induction false} MergeAllIsEdit(t: Json, ps: seq<Json>)
    ensures Some(MergeAll(t, ps)) == ApplyAll(seq(|ps|, i requires 0 <= i < |ps| => MergeEdit(ps[i])), Some(t))
  {
    var es := seq(|ps|, i requires 0 <= i < |ps| => MergeEdit(ps[i]));
    if ps != [] {
      var front := ps[..|ps| - 1];
      MergeAllIsEdit(t, front);
      MergeIsEdit(Some(MergeAll(t, front)), ps[|ps| - 1]);
      assert es[..|es| - 1] == seq(|front|, i requires 0 <= i < |front| => MergeEdit(front[i]));
    }
  }

  /** Any list of merge patches applied in sequence is idempotent as a whole. */
  lemma MergeAllIdempotent(t: Json, ps: seq<Json>)
    ensures MergeAll(MergeAll(t, ps), ps) == MergeAll(t, ps)
  {
    MergeAllIsEdit(t, ps);
    MergeAllIsEdit(MergeAll(t, ps), ps);
    ApplyAllIdempotent(seq(|ps|, i requires 0 <= i < |ps| => MergeEdit(ps[i])), Some(t));
  }

  /** The place is empty, or holds what counts as nothing there. */
  predicate HoldsNothing(s: Stays, x: Option<Json>) {
    x.None? || x.value.Null? || StaysThere(s, x.value)
  }

  /** `x` and `y` agree on everything that `e` decides. */
  ghost predicate Agree(e: Edit, x: Option<Json>, y: Option<Json>)
    decreases e
  {
    match e
    case Keep => true
    case Set(_) => x == y
    case Clear(s) => HoldsNothing(s, x) && HoldsNothing(s, y)
    case Into(m) => forall k | k in m :: Agree(m[k], Get(Fields(x.GetOr(Null)), k), Get(Fields(y.GetOr(Null)), k))
    case Elems(es, open) =>
      ((open && es != []) || |Items(x)| == |Items(y)|) &&
      forall i: nat | i < |es| :: Agree(es[i], Element(x, i), Element(y, i))
  }

  /** Two documents that an edit leaves alone agree on everything it decides. */
  lemma {:induction false} FixedAgree(e: Edit, x: Option<Json>, y: Option<Json>)
    requires Apply(e, x) == x && Apply(e, y) == y
    ensures Agree(e, x, y)
    decreases e
  {
    match e
    case Keep =>
    case Set(_) =>
    case Clear(_) =>
    case Into(m) =>
      var xm, ym := Fields(x.GetOr(Null)), Fields(y.GetOr(Null));
      forall k | k in m
        ensures Agree(m[k], Get(xm, k), Get(ym, k))
      {
        assert Get(Apply(e, x).value.fields, k) == Apply(m[k], Get(xm, k));
        assert Get(Apply(e, y).value.fields, k) == Apply(m[k], Get(ym, k));
        FixedAgree(m[k], Get(xm, k), Get(ym, k));
      }
    case Elems(es, _) =>
      forall i: nat | i < |es|
        ensures Agree(es[i], Element(x, i), Element(y, i))
      {
        assert Items(x)[i] == Apply(es[i], Element(x, i)).GetOr(Null);
        assert Items(y)[i] == Apply(es[i], Element(y, i)).GetOr(Null);
        if es[i] != Set(None) && !es[i].Clear? {
          FixedAgree(es[i], Element(x, i), Element(y, i));
        }
      }
  }
}
