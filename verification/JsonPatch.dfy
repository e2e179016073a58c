/**
 Three operations of JSON Patch (section 4 of RFC 6902), and when such an operation is an edit: it
 is not only if it inserts an element into, or removes one from, an array that nobody sets.
 */
module JsonPatch {
  import opened Wrappers
  import opened JsonTree
  import opened TreeEdit
  import opened Decoding

  /**
   A reference token (section 4 of RFC 6901), as read by the container that the Go type has at its
   place: the name of a member, the index of an element, or the position behind the last element.
   */
  datatype Token = Name(name: string) | At(index: nat) | End

  datatype Op =
    | Add(path: seq<Token>, value: Json)
    | Remove(path: seq<Token>)
    | Replace(path: seq<Token>, value: Json)

  function ApplyOp(op: Op, doc: Json): Option<Json> {
    if op.Remove? && op.path == [] then None else ApplyAt(op, op.path, doc)
  }

  /** `op` at `path` inside `doc`; every container on the way must exist. */
  function ApplyAt(op: Op, path: seq<Token>, doc: Json): Option<Json>
    requires op.Remove? ==> path != []
    decreases |path|
  {
    if path == [] then Some(op.value)
    else if |path| == 1 then ApplyInside(op, path[0], doc)
    else match (doc, path[0])
      case (Obj(m), Name(n)) =>
        if n !in m then None
        else (match ApplyAt(op, path[1..], m[n])
              case None => None
              case Some(v) => Some(Obj(m[n := v])))
      case (Arr(xs), At(i)) =>
        if i >= |xs| then None
        else (match ApplyAt(op, path[1..], xs[i])
              case None => None
              case Some(v) => Some(Arr(xs[i := v])))
      case (_, _) => None
  }

  /** `op` on the member or element of `doc` that the last token names. */
  function ApplyInside(op: Op, t: Token, doc: Json): Option<Json> {
    match (doc, t)
    case (Obj(m), Name(n)) =>
      if op.Add? then Some(Obj(m[n := op.value]))
      else if n !in m then None
      else if op.Remove? then Some(Obj(m - {n}))
      else Some(Obj(m[n := op.value]))
    case (Arr(xs), End) => if op.Add? then Some(Arr(xs + [op.value])) else None
    case (Arr(xs), At(i)) =>
      if op.Add? then (if i <= |xs| then Some(Arr(xs[..i] + [op.value] + xs[i..])) else None)
      else if i >= |xs| then None
      else if op.Remove? then Some(Arr(xs[..i] + xs[i + 1..]))
      else Some(Arr(xs[i := op.value]))
    case (_, _) => None
  }

  function ApplyOps(ops: seq<Op>, doc: Json): Option<Json> {
    if ops == [] then Some(doc)
    else match ApplyOp(ops[0], doc)
      case None => None
      case Some(d) => ApplyOps(ops[1..], d)
  }

  // ----- What operations do

  /** The value that a token names inside the value at a place. */
  function ChildAt(x: Option<Json>, t: Token): Option<Json> {
    match t
    case Name(n) => Get(Fields(x.GetOr(Null)), n)
    case At(i) => Element(x, i)
    case End => None
  }

  /** The value that a path names. */
  function ValueOf(x: Option<Json>, path: seq<Token>): Option<Json>
    decreases |path|
  {
    if path == [] then x else ValueOf(ChildAt(x, path[0]), path[1..])
  }

  /** All but the last token. */
  function Parent(path: seq<Token>): seq<Token>
    requires path != []
  {
    path[..|path| - 1]
  }

  function LastToken(path: seq<Token>): Token
    requires path != []
  {
    path[|path| - 1]
  }

  /** The container has what a remove or replace names, or room for what an add names. */
  predicate Finds(op: Op, container: Option<Json>, t: Token) {
    container.Some? &&
    match (container.value, t)
    case (Obj(m), Name(n)) => op.Add? || n in m
    case (Arr(xs), At(i)) => i < |xs| || (op.Add? && i == |xs|)
    case (Arr(_), End) => op.Add?
    case (_, _) => false
  }

  lemma ParentBelow(path: seq<Token>)
    requires |path| > 1
    ensures Parent(path) != [] && Parent(path)[0] == path[0] && Parent(path)[1..] == Parent(path[1..])
    ensures LastToken(path) == LastToken(path[1..])
  {
  }

  /** Below the root an operation succeeds if and only if its container exists and finds the target. */
  lemma {:induction false} ApplyAtSucceedsIff(op: Op, path: seq<Token>, doc: Json)
    requires path != []
    ensures ApplyAt(op, path, doc).Some? <==> Finds(op, ValueOf(Some(doc), Parent(path)), LastToken(path))
    decreases |path|
  {
    if |path| > 1 {
      ParentBelow(path);
      match (doc, path[0])
      case (Obj(m), Name(n)) =>
        if n in m {
          ApplyAtSucceedsIff(op, path[1..], m[n]);
        } else {
          NothingBelowNothing(Parent(path[1..]));
        }
      case (Arr(xs), At(i)) =>
        if i < |xs| {
          ApplyAtSucceedsIff(op, path[1..], xs[i]);
        } else {
          NothingBelowNothing(Parent(path[1..]));
        }
      case (_, _) =>
        assert ChildAt(Some(doc), path[0]).None?;
        NothingBelowNothing(Parent(path[1..]));
    }
  }

  lemma {:induction false} NothingBelowNothing(path: seq<Token>)
    ensures ValueOf(None, path).None?
    decreases |path|
  {
    if path != [] {
      NothingBelowNothing(path[1..]);
    }
  }

  /** A whole document can be set but not removed. */
  lemma OpSucceedsIff(op: Op, doc: Json)
    ensures ApplyOp(op, doc).Some? <==>
            if op.path == [] then !op.Remove?
            else Finds(op, ValueOf(Some(doc), Parent(op.path)), LastToken(op.path))
    ensures op.path == [] && !op.Remove? ==> ApplyOp(op, doc) == Some(op.value)
  {
    if op.path != [] {
      ApplyAtSucceedsIff(op, op.path, doc);
    }
  }

  /**
   A container after the operation, place by place: a member set or taken out and the others as they
   were, an element replaced, or an element put in or taken out with those behind it moved by one.
   */
  ghost predicate Changed(op: Op, before: Json, t: Token, after: Json) {
    if t.Name? then
      before.Obj? && after.Obj? && Get(after.fields, t.name) == (if op.Remove? then None else Some(op.value)) &&
      forall k | k != t.name :: Get(after.fields, k) == Get(before.fields, k)
    else
      before.Arr? && after.Arr? &&
      ChangedItems(op, before.items, if t.At? then t.index else |before.items|, after.items)
  }

  predicate ChangedItems(op: Op, before: seq<Json>, i: nat, after: seq<Json>) {
    |after| == |before| + (match op case Add(_, _) => 1 case Remove(_) => -1 case Replace(_, _) => 0) &&
    (forall k | 0 <= k < |before| :: k < i ==> k < |after| && after[k] == before[k]) &&
    (!op.Remove? ==> i < |after| && after[i] == op.value) &&
    (op.Add? ==> forall k | i <= k < |before| :: after[k + 1] == before[k]) &&
    (op.Remove? ==> forall k | i <= k < |after| :: after[k] == before[k + 1]) &&
    (op.Replace? ==> forall k | i < k < |after| :: after[k] == before[k])
  }

  lemma {:induction false} OpChanges(op: Op, path: seq<Token>, doc: Json)
    requires path != [] && ApplyAt(op, path, doc).Some?
    ensures ValueOf(Some(doc), Parent(path)).Some? && ValueOf(ApplyAt(op, path, doc), Parent(path)).Some?
    ensures Changed(op, ValueOf(Some(doc), Parent(path)).value, LastToken(path),
                    ValueOf(ApplyAt(op, path, doc), Parent(path)).value)
    decreases |path|
  {
    if |path| > 1 {
      ParentBelow(path);
      OpChanges(op, path[1..], ChildAt(Some(doc), path[0]).value);
    } else {
      assert ApplyAt(op, path, doc) == ApplyInside(op, path[0], doc);
    }
  }

  /** The paths part ways before either ends. */
  predicate Diverge(p: seq<Token>, q: seq<Token>)
    decreases |p|
  {
    p != [] && q != [] && (p[0] != q[0] || Diverge(p[1..], q[1..]))
  }

  /** Outside that container nothing changes. */
  lemma {:induction false} OpFrame(op: Op, path: seq<Token>, doc: Json, q: seq<Token>)
    requires path != [] && ApplyAt(op, path, doc).Some? && Diverge(Parent(path), q)
    ensures ValueOf(ApplyAt(op, path, doc), q) == ValueOf(Some(doc), q)
    decreases |path|
  {
    ParentBelow(path);
    if path[0] == q[0] {
      OpFrame(op, path[1..], ChildAt(Some(doc), path[0]).value, q[1..]);
    } else {
      assert ChildAt(ApplyAt(op, path, doc), q[0]) == ChildAt(Some(doc), q[0]);
    }
  }

  /** The operations of a patch run in order, and the patch fails with the first that fails. */
  lemma {:induction false} OpsInOrder(a: seq<Op>, op: Op, b: seq<Op>, doc: Json)
    ensures ApplyOps(a + [op] + b, doc) ==
            var before := ApplyOps(a, doc);
            if before.None? || ApplyOp(op, before.value).None? then None
            else ApplyOps(b, ApplyOp(op, before.value).value)
    decreases |a|
  {
    var all := a + [op] + b;
    if a == [] {
      assert all[0] == op && all[1..] == b;
    } else {
      assert all[0] == a[0] && all[1..] == a[1..] + [op] + b;
      if ApplyOp(a[0], doc).Some? {
        OpsInOrder(a[1..], op, b, ApplyOp(a[0], doc).value);
      }
    }
  }

  // ----- Operations as edits

  /** What is known of that value once `c` has edited the place. */
  function Sub(c: Edit, t: Token): Edit {
    match c
    case Set(v) => Set(ChildAt(v, t))
    case Into(m) => if !t.Name? then Set(None) else if t.name in m then m[t.name] else Keep
    case _ => Keep
  }

  /** The operation inserts an element into an array, or removes one, if it succeeds at all. */
  predicate MovesElements(op: Op, path: seq<Token>) {
    path != [] &&
    if |path| == 1 then !path[0].Name? && (op.Add? || (op.Remove? && path[0].At?))
    else !path[0].End? && MovesElements(op, path[1..])
  }

  /** `c` sets no value at the container that the path ends in, nor above it. */
  predicate Spares(c: Edit, path: seq<Token>)
    requires path != []
    decreases |path|
  {
    if |path| == 1 then !c.Set? && !c.Into? else Spares(Sub(c, path[0]), path[1..])
  }

  /** The operation moves elements of an array that `c` does not set. */
  predicate MovesUnset(c: Edit, op: Op, path: seq<Token>) {
    MovesElements(op, path) && Spares(c, path)
  }

  function ItemEdit(i: nat, e: Edit): Edit {
    Elems(seq(i + 1, k requires 0 <= k < i + 1 => if k == i then e else Keep), true)
  }

  /** The operation as an edit of documents that `c` has just edited. */
  function RawEdit(c: Edit, op: Op, path: seq<Token>): Edit
    requires (op.Remove? ==> path != []) && !MovesUnset(c, op, path)
    decreases |path|
  {
    if path == [] then Set(Some(op.value))
    else if |path| == 1 then
      match path[0]
      case Name(n) => Into(map[n := Set(if op.Remove? then None else Some(op.value))])
      case _ => if op.Replace? && path[0].At? then ItemEdit(path[0].index, Set(Some(op.value)))
                else if c.Set? && c.place.Some? && ApplyAt(op, path, c.place.value).Some?
                then Set(ApplyAt(op, path, c.place.value))
                else Keep
    else match path[0]
      case Name(n) => Into(map[n := RawEdit(Sub(c, path[0]), op, path[1..])])
      case At(i) => ItemEdit(i, RawEdit(Sub(c, path[0]), op, path[1..]))
      case End => Keep
  }

  lemma {:induction false} RawEditIsRaw(c: Edit, op: Op, path: seq<Token>)
    requires (op.Remove? ==> path != []) && !MovesUnset(c, op, path)
    ensures IsRaw(RawEdit(c, op, path)) && RawEdit(c, op, path) != Set(None)
    decreases |path|
  {
    if |path| > 1 && !path[0].End? {
      RawEditIsRaw(Sub(c, path[0]), op, path[1..]);
    }
  }

  /** The value from which `Sub(c, t)` makes the one that `t` names in a document made by `c`. */
  function Origin(c: Edit, t: Token, x: Option<Json>): Option<Json> {
    if c.Into? && t.Name? then Get(Fields(x.GetOr(Null)), t.name) else ChildAt(Apply(c, x), t)
  }

  lemma SubMakes(c: Edit, t: Token, x: Option<Json>)
    ensures Apply(Sub(c, t), Origin(c, t, x)) == ChildAt(Apply(c, x), t)
  {
    if c.Into? && t.Name? {
      IntoMember(c.members, t.name, x);
    }
  }

  lemma EditMember(m: map<string, Json>, n: string, e: Edit, v: Option<Json>)
    requires Apply(e, Get(m, n)) == v
    ensures Apply(Into(map[n := e]), Some(Obj(m))) == Some(Obj(if v.Some? then m[n := v.value] else m - {n}))
  {
    var r := Apply(Into(map[n := e]), Some(Obj(m))).value.fields;
    forall k
      ensures Get(r, k) == Get(if v.Some? then m[n := v.value] else m - {n}, k)
    {
      IntoMember(map[n := e], k, Some(Obj(m)));
    }
    SameEntries(r, if v.Some? then m[n := v.value] else m - {n});
  }

  lemma EditItem(xs: seq<Json>, i: nat, e: Edit, v: Json)
    requires i < |xs| && Apply(e, Some(xs[i])) == Some(v)
    ensures Apply(ItemEdit(i, e), Some(Arr(xs))) == Some(Arr(xs[i := v]))
  {
    assert Apply(ItemEdit(i, e), Some(Arr(xs))).value.items == xs[i := v];
  }

  /** On a document that `c` has made, an operation that moves no unset elements is its edit. */
  lemma {:induction false} OpIsEdit(c: Edit, op: Op, path: seq<Token>, x: Option<Json>, doc: Json)
    requires (op.Remove? ==> path != []) && !MovesUnset(c, op, path)
    requires Apply(c, x) == Some(doc) && ApplyAt(op, path, doc).Some?
    ensures Apply(RawEdit(c, op, path), Some(doc)) == ApplyAt(op, path, doc)
    decreases |path|
  {
    if |path| == 1 {
      match path[0]
      case Name(n) =>
        var v := if op.Remove? then None else Some(op.value);
        EditMember(doc.fields, n, Set(v), v);
      case At(i) =>
        if op.Replace? {
          EditItem(doc.items, i, Set(Some(op.value)), op.value);
        }
      case End =>
    } else if |path| > 1 {
      SubMakes(c, path[0], x);
      var inner := RawEdit(Sub(c, path[0]), op, path[1..]);
      match path[0]
      case Name(n) =>
        OpIsEdit(Sub(c, path[0]), op, path[1..], Origin(c, path[0], x), doc.fields[n]);
        EditMember(doc.fields, n, inner, ApplyAt(op, path[1..], doc.fields[n]));
      case At(i) =>
        OpIsEdit(Sub(c, path[0]), op, path[1..], Origin(c, path[0], x), doc.items[i]);
        EditItem(doc.items, i, inner, ApplyAt(op, path[1..], doc.items[i]).value);
      case End =>
    }
  }

  // ----- Operations that move elements

  /** The elements of the array that the path ends in. */
  function ArrayAt(x: Option<Json>, path: seq<Token>): seq<Json>
    requires path != []
    decreases |path|
  {
    if |path| == 1 then Items(x) else ArrayAt(ChildAt(x, path[0]), path[1..])
  }

  /** The edits that a mutate function makes: assignments to fields, at any depth. */
  predicate AssignsOnly(e: Edit) {
    match e
    case Keep => true
    case Set(_) => true
    case Into(m) => forall k | k in m :: AssignsOnly(m[k])
    case _ => false
  }

  lemma {:induction false} SetSparesNothing(v: Option<Json>, path: seq<Token>)
    requires path != []
    ensures !Spares(Set(v), path)
    decreases |path|
  {
    if |path| > 1 {
      SetSparesNothing(ChildAt(v, path[0]), path[1..]);
    }
  }

  /** Assignments leave the arrays that they spare as they are. */
  lemma {:induction false} SparedArray(c: Edit, path: seq<Token>, x: Option<Json>)
    requires path != [] && AssignsOnly(c) && Spares(c, path)
    ensures ArrayAt(Apply(c, x), path) == ArrayAt(x, path)
    decreases |path|
  {
    if |path| > 1 && c.Into? {
      if path[0].Name? {
        IntoMember(c.members, path[0].name, x);
        SparedArray(Sub(c, path[0]), path[1..], ChildAt(x, path[0]));
      } else {
        SetSparesNothing(None, path[1..]);
      }
    } else if c.Set? {
      SetSparesNothing(c.place, path);
    }
  }

  /** A place without a value and a null hold the same arrays. */
  lemma {:induction false} NullHoldsNoArray(x: Option<Json>, path: seq<Token>)
    requires path != []
    ensures ArrayAt(Some(x.GetOr(Null)), path) == ArrayAt(x, path)
  {
    if |path| > 1 && x.None? {
      assert ChildAt(Some(Null), path[0]) == ChildAt(None, path[0]);
    }
  }

  /** A container on the way of an operation is not empty. */
  lemma PatchedInside(op: Op, path: seq<Token>, doc: Json)
    requires |path| > 1 && ApplyAt(op, path, doc).Some?
    ensures !IsEmpty(ApplyAt(op, path, doc).value)
  {
    var n := ApplyAt(op, path, doc).value;
    match path[0]
    case Name(k) => assert k in n.fields;
    case At(i) => assert n.items != [];
    case End =>
  }

  /** After the decode the array is one element longer, or one shorter, than before the operation. */
  lemma {:induction false} MovedLength(places: Places, at: seq<Hop>, op: Op, path: seq<Token>, doc: Json)
    requires MovesElements(op, path) && ApplyAt(op, path, doc).Some?
    ensures !ApplyAt(op, path, doc).value.Null?
    ensures |ArrayAt(Overlay(places, at, Some(doc), ApplyAt(op, path, doc).value), path)| ==
            |ArrayAt(Some(doc), path)| + (if op.Add? then 1 else -1)
    decreases |path|
  {
    if |path| > 1 {
      var n := ApplyAt(op, path, doc).value;
      PatchedInside(op, path, doc);
      match path[0]
      case Name(k) =>
        MovedLength(places, at + [Field(k)], op, path[1..], doc.fields[k]);
        OverlayMember(places, at, Some(doc), n.fields, k);
      case At(i) =>
        MovedLength(places, at + [Item], op, path[1..], doc.items[i]);
        NullHoldsNoArray(Overlay(places, at + [Item], Some(doc.items[i]), n.items[i]), path[1..]);
      case End =>
    }
  }

  // ----- Operations that lose their target

  function HopsOf(path: seq<Token>): seq<Hop> {
    if path == [] then [] else [if path[0].Name? then Field(path[0].name) else Item] + HopsOf(path[1..])
  }

  /** `c` leaves the place that the path names alone. */
  predicate Unset(c: Edit, path: seq<Token>)
    decreases |path|
  {
    if path == [] then c.Keep? else Unset(Sub(c, path[0]), path[1..])
  }

  lemma {:induction false} SetIsSet(v: Option<Json>, path: seq<Token>)
    ensures !Unset(Set(v), path)
    decreases |path|
  {
    if path != [] {
      SetIsSet(ChildAt(v, path[0]), path[1..]);
    }
  }

  /** A value that assignments leave alone is the stored one. */
  lemma {:induction false} UnsetValue(c: Edit, path: seq<Token>, x: Option<Json>)
    requires AssignsOnly(c) && Unset(c, path)
    ensures ValueOf(Apply(c, x), path) == ValueOf(x, path)
    decreases |path|
  {
    if path != [] && c.Into? {
      if path[0].Name? {
        IntoMember(c.members, path[0].name, x);
        UnsetValue(Sub(c, path[0]), path[1..], ChildAt(x, path[0]));
      } else {
        SetIsSet(None, path[1..]);
      }
    } else if c.Set? {
      SetIsSet(c.place, path);
    }
  }

  /**
   The operation replaces a field that `c` does not set by what the field omits, so that the next one
   finds no field.
   */
  predicate LosesTarget(places: Places, at: seq<Hop>, c: Edit, op: Op, path: seq<Token>, x: Option<Json>) {
    op.Replace? && path != [] && path[|path| - 1].Name? && Unset(c, path) &&
    ValueOf(x, path).Some? && Vanishes(places(at + HopsOf(path)), ValueOf(x, path).value, op.value)
  }

  lemma LosesBelow(places: Places, at: seq<Hop>, c: Edit, op: Op, path: seq<Token>, doc: Json)
    requires |path| > 1
    ensures var hop := if path[0].Name? then Field(path[0].name) else Item;
            LosesTarget(places, at, c, op, path, Some(doc)) <==>
            LosesTarget(places, at + [hop], Sub(c, path[0]), op, path[1..], ChildAt(Some(doc), path[0]))
  {
    var hop := if path[0].Name? then Field(path[0].name) else Item;
    assert at + HopsOf(path) == at + [hop] + HopsOf(path[1..]);
  }

  /** What the decode and then the assignments `c` make of a document that `c` had made before the operation. */
  function Again(places: Places, at: seq<Hop>, c: Edit, op: Op, path: seq<Token>, doc: Json): Option<Json>
    requires (op.Remove? ==> path != []) && ApplyAt(op, path, doc).Some?
  {
    Apply(c, Overlay(places, at, Some(doc), ApplyAt(op, path, doc).value))
  }

  /** An operation that moves no unset elements and does not lose its target succeeds again. */
  lemma {:induction false} OpAgain(places: Places, at: seq<Hop>, c: Edit, op: Op, path: seq<Token>, x: Option<Json>,
                                   doc: Json)
    requires path != [] && AssignsOnly(c) && Apply(c, x) == Some(doc) && ApplyAt(op, path, doc).Some?
    requires !MovesUnset(c, op, path) && !LosesTarget(places, at, c, op, path, Some(doc))
    ensures Again(places, at, c, op, path, doc).Some?
    ensures ApplyAt(op, path, Again(places, at, c, op, path, doc).value).Some?
    decreases |path|
  {
    if c.Set? {
    } else if |path| == 1 {
      assert path == [path[0]];
      OpAgainInside(places, at, c, op, path[0], x, doc);
    } else {
      var n := ApplyAt(op, path, doc).value;
      PatchedInside(op, path, doc);
      SubMakes(c, path[0], x);
      LosesBelow(places, at, c, op, path, doc);
      match path[0]
      case Name(k) =>
        OpAgain(places, at + [Field(k)], Sub(c, path[0]), op, path[1..], Origin(c, path[0], x), doc.fields[k]);
        OverlayMember(places, at, Some(doc), n.fields, k);
        AgainChild(c, k, Overlay(places, at, Some(doc), n).value);
      case At(i) =>
        assert c.Keep?;
        OpAgain(places, at + [Item], Keep, op, path[1..], Some(doc.items[i]), doc.items[i]);
      case End =>
    }
  }

  lemma AgainChild(c: Edit, k: string, y: Json)
    requires AssignsOnly(c) && !c.Set? && y.Obj?
    ensures Apply(c, Some(y)).Some? && Apply(c, Some(y)).value.Obj?
    ensures Get(Apply(c, Some(y)).value.fields, k) == Apply(Sub(c, Name(k)), Get(y.fields, k))
  {
    if c.Into? {
      IntoMember(c.members, k, Some(y));
    }
  }

  lemma OpAgainInside(places: Places, at: seq<Hop>, c: Edit, op: Op, t: Token, x: Option<Json>, doc: Json)
    requires AssignsOnly(c) && !c.Set? && Apply(c, x) == Some(doc) && ApplyAt(op, [t], doc).Some?
    requires !MovesUnset(c, op, [t]) && !LosesTarget(places, at, c, op, [t], Some(doc))
    ensures Again(places, at, c, op, [t], doc).Some?
    ensures ApplyAt(op, [t], Again(places, at, c, op, [t], doc).value).Some?
  {
    var n := ApplyAt(op, [t], doc).value;
    match t
    case Name(k) =>
      var y := Overlay(places, at, Some(doc), n);
      if !op.Add? {
        TargetKept(places, at, c, op, k, x, doc);
      }
      if n.fields != map[] || places(at).omits != Some(Obj(map[])) {
        OverlayMember(places, at, Some(doc), n.fields, k);
      }
      AgainChild(c, k, y.value);
    case At(i) =>
      assert !IsEmpty(n);
    case End =>
  }

  /** After the decode and the assignments the member is there for the next remove or replace. */
  lemma TargetKept(places: Places, at: seq<Hop>, c: Edit, op: Op, k: string, x: Option<Json>, doc: Json)
    requires AssignsOnly(c) && !c.Set? && Apply(c, x) == Some(doc) && !op.Add? && ApplyAt(op, [Name(k)], doc).Some?
    requires !LosesTarget(places, at, c, op, [Name(k)], Some(doc))
    ensures var y := Overlay(places, at, Some(doc), ApplyAt(op, [Name(k)], doc).value);
            y.Some? && y.value.Obj? && Apply(Sub(c, Name(k)), Get(y.value.fields, k)).Some?
  {
    var n := ApplyAt(op, [Name(k)], doc).value;
    var y := Overlay(places, at, Some(doc), n);
    SubMakes(c, Name(k), x);
    if n.fields != map[] || places(at).omits != Some(Obj(map[])) {
      OverlayMember(places, at, Some(doc), n.fields, k);
    }
    if op.Replace? {
      assert [Name(k)][1..] == [] && at + HopsOf([Name(k)]) == at + [Field(k)];
      assert Unset(c, [Name(k)]) == Sub(c, Name(k)).Keep? && ValueOf(Some(doc), [Name(k)]) == Some(doc.fields[k]);
      VanishesIff(places, at + [Field(k)], doc.fields[k], op.value);
    }
  }

  /** An operation that loses its target fails the next time. */
  lemma {:induction false} OpGone(places: Places, at: seq<Hop>, c: Edit, op: Op, path: seq<Token>, x: Option<Json>,
                                  doc: Json)
    requires LosesTarget(places, at, c, op, path, Some(doc))
    requires AssignsOnly(c) && Apply(c, x) == Some(doc) && ApplyAt(op, path, doc).Some?
    ensures Again(places, at, c, op, path, doc).None? ||
            ApplyAt(op, path, Again(places, at, c, op, path, doc).value).None?
    decreases |path|
  {
    var n := ApplyAt(op, path, doc).value;
    if c.Set? {
      SetIsSet(c.place, path);
    } else if |path| == 1 {
      var k := path[0].name;
      assert k in n.fields;
      assert path[1..] == [] && at + HopsOf(path) == at + [Field(k)];
      assert Unset(c, path) == Sub(c, Name(k)).Keep? && ValueOf(Some(doc), path) == Some(doc.fields[k]);
      VanishesIff(places, at + [Field(k)], doc.fields[k], op.value);
      OverlayMember(places, at, Some(doc), n.fields, k);
      AgainChild(c, k, Overlay(places, at, Some(doc), n).value);
    } else {
      PatchedInside(op, path, doc);
      SubMakes(c, path[0], x);
      LosesBelow(places, at, c, op, path, doc);
      match path[0]
      case Name(k) =>
        OpGone(places, at + [Field(k)], Sub(c, path[0]), op, path[1..], Origin(c, path[0], x), doc.fields[k]);
        OverlayMember(places, at, Some(doc), n.fields, k);
        AgainChild(c, k, Overlay(places, at, Some(doc), n).value);
      case At(i) =>
        OpGone(places, at + [Item], Keep, op, path[1..], Some(doc.items[i]), doc.items[i]);
      case End =>
    }
  }

  // ----- Operations that cannot fail

  /** The edit puts something at the place, whatever was there. */
  predicate Makes(e: Edit) {
    e.Into? || e.Elems? || (e.Set? && e.place.Some?)
  }

  /** The operation succeeds on every document that `c` makes. */
  predicate CanApply(c: Edit, op: Op, path: seq<Token>)
    requires op.Remove? ==> path != []
    decreases |path|
  {
    if path == [] then true
    else match c
      case Set(v) => v.Some? && ApplyAt(op, path, v.value).Some?
      case Into(m) =>
        path[0].Name? &&
        if |path| == 1 then op.Add? || (path[0].name in m && Makes(m[path[0].name]))
        else path[0].name in m && CanApply(m[path[0].name], op, path[1..])
      case _ => false
  }

  lemma {:induction false} CanApplySucceeds(c: Edit, op: Op, path: seq<Token>, x: Option<Json>, doc: Json)
    requires (op.Remove? ==> path != []) && CanApply(c, op, path) && Apply(c, x) == Some(doc)
    ensures ApplyAt(op, path, doc).Some? && !MovesUnset(c, op, path)
    decreases |path|
  {
    if c.Set? && path != [] {
      SetSparesNothing(c.place, path);
    } else if c.Into? && path != [] {
      var k := path[0].name;
      IntoMember(c.members, k, x);
      if |path| > 1 {
        var below := Get(Fields(x.GetOr(Null)), k);
        CanApplyMakes(c.members[k], op, path[1..]);
        MakesSome(c.members[k], below);
        CanApplySucceeds(c.members[k], op, path[1..], below, Apply(c.members[k], below).value);
      } else if !op.Add? {
        MakesSome(c.members[k], Get(Fields(x.GetOr(Null)), k));
      }
    }
  }

  lemma CanApplyMakes(c: Edit, op: Op, path: seq<Token>)
    requires path != [] && CanApply(c, op, path)
    ensures Makes(c)
  {
  }

  lemma MakesSome(e: Edit, x: Option<Json>)
    requires Makes(e)
    ensures Apply(e, x).Some?
  {
  }
}
