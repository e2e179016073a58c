/**
 The escape-hatch engine: a fail-fast fold of the patches that name the target kind. After each
 patch the new JSON is decoded into the object that produced the old JSON. Patches of any kind that
 do not move elements of an unset array act, once decoded, as edits; so whole passes of
 mutate-then-hatch are idempotent exactly up to such moves.
 */
module EscapeHatch {
  import opened Wrappers
  import opened JsonTree
  import opened TreeEdit
  import opened Decoding
  import opened JsonPatch

  /**
   The Go types of the kinds: which documents decode into a kind, and what each of its fields does
   with a null and with its empty value. Every theorem holds for any such table.
   */
  datatype Types = Types(accepts: (string, Json) -> bool, places: string -> Places)

  /** `asMerge` and `asOps` are what the payload text parses to under each of the two decoders. */
  datatype Hatch = Hatch(kind: string, patchType: string, asMerge: Option<Json>, asOps: Option<seq<Op>>)

  datatype HatchError = MalformedPatch | PatchFailed | UnsupportedPatchType | Undecodable

  // ----- The engine

  /** The JSON that the patch of one hatch produces. */
  function Patched(h: Hatch, doc: Json): Result<Json, HatchError> {
    if h.patchType == "JSONPatch" then
      match h.asOps
      case None => Failure(MalformedPatch)
      case Some(ops) => (match ApplyOps(ops, doc)
                         case None => Failure(PatchFailed)
                         case Some(d) => Success(d))
    else if h.patchType == "JSONMergePatch" then
      match h.asMerge
      case None => Failure(MalformedPatch)
      case Some(p) => Success(Merge(doc, p))
    else Failure(UnsupportedPatchType)
  }

  function ApplyHatch(types: Types, kind: string, h: Hatch, doc: Json): Result<Json, HatchError> {
    match Patched(h, doc)
    case Failure(e) => Failure(e)
    case Success(n) =>
      if types.accepts(kind, n) then Success(Decoded(types.places(kind), doc, n)) else Failure(Undecodable)
  }

  /** The specification of the engine: a fold that stops at the first failure. */
  function ApplyHatches(types: Types, kind: string, hatches: seq<Hatch>, doc: Json): Result<Json, HatchError> {
    if hatches == [] then Success(doc)
    else if hatches[0].kind != kind then ApplyHatches(types, kind, hatches[1..], doc)
    else match ApplyHatch(types, kind, hatches[0], doc)
      case Failure(e) => Failure(e)
      case Success(d) => ApplyHatches(types, kind, hatches[1..], d)
  }

  /** An object of the API as a controller holds it in memory. */
  class KubeObject {
    var doc: Json

    constructor (doc: Json)
      ensures this.doc == doc
    {
      this.doc := doc;
    }

    method DeepCopyObject() returns (o: KubeObject)
      ensures fresh(o) && o.doc == doc
    {
      o := new KubeObject(doc);
    }
  }

  /**
   All or nothing: a fresh object holding the fold, or the error of the first hatch that fails;
   the caller's object is not written in either case.
   */
  method ApplyEscapeHatches(types: Types, obj: KubeObject, hatches: seq<Hatch>, targetKind: string)
    returns (r: Result<KubeObject, HatchError>)
    ensures r.Success? <==> ApplyHatches(types, targetKind, hatches, obj.doc).Success?
    ensures r.Success? ==> fresh(r.value) && Success(r.value.doc) == ApplyHatches(types, targetKind, hatches, obj.doc)
    ensures r.Failure? ==> Failure(r.error) == ApplyHatches(types, targetKind, hatches, obj.doc)
    ensures obj.doc == old(obj.doc)
  {
    var patchedObj := obj.DeepCopyObject();
    var i := 0;
    while i < |hatches|
      invariant i <= |hatches| && fresh(patchedObj)
      invariant ApplyHatches(types, targetKind, hatches, obj.doc) ==
                ApplyHatches(types, targetKind, hatches[i..], patchedObj.doc)
    {
      var hatch := hatches[i];
      assert hatches[i..][1..] == hatches[i + 1..];
      i := i + 1;
      if hatch.kind != targetKind {
        continue;
      }
      var originalJSON := patchedObj.doc;
      var patchedJSON;
      if hatch.patchType == "JSONPatch" {
        if hatch.asOps.None? {
          return Failure(MalformedPatch);
        }
        var applied := ApplyOps(hatch.asOps.value, originalJSON);
        if applied.None? {
          return Failure(PatchFailed);
        }
        patchedJSON := applied.value;
      } else if hatch.patchType == "JSONMergePatch" {
        if hatch.asMerge.None? {
          return Failure(MalformedPatch);
        }
        patchedJSON := Merge(originalJSON, hatch.asMerge.value);
      } else {
        return Failure(UnsupportedPatchType);
      }
      if !types.accepts(targetKind, patchedJSON) {
        return Failure(Undecodable);
      }
      patchedObj.doc := Decoded(types.places(targetKind), patchedObj.doc, patchedJSON);
    }
    return Success(patchedObj);
  }

  /** Applying two lists is applying the first and then, unless it failed, the second. */
  lemma {:induction false} HatchesAppend(types: Types, kind: string, h1: seq<Hatch>, h2: seq<Hatch>, doc: Json)
    ensures ApplyHatches(types, kind, h1 + h2, doc) ==
            match ApplyHatches(types, kind, h1, doc)
            case Failure(e) => Failure(e)
            case Success(d) => ApplyHatches(types, kind, h2, d)
  {
    if h1 == [] {
      assert h1 + h2 == h2;
    } else {
      assert (h1 + h2)[1..] == h1[1..] + h2;
      if h1[0].kind != kind {
        HatchesAppend(types, kind, h1[1..], h2, doc);
      } else if ApplyHatch(types, kind, h1[0], doc).Success? {
        HatchesAppend(types, kind, h1[1..], h2, ApplyHatch(types, kind, h1[0], doc).value);
      }
    }
  }

  /**
   What one hatch of the kind does after the hatches `a` before it have succeeded: exactly when it
   fails, with which error, and that a failure stops the pass; else what `b` behind it starts from.
   */
  lemma HatchOutcome(types: Types, kind: string, a: seq<Hatch>, h: Hatch, b: seq<Hatch>, doc: Json, d: Json)
    requires ApplyHatches(types, kind, a, doc) == Success(d) && h.kind == kind
    ensures ApplyHatches(types, kind, a + [h] + b, doc) ==
            if h.patchType == "JSONPatch" then
              if h.asOps.None? then Failure(MalformedPatch)
              else if ApplyOps(h.asOps.value, d).None? then Failure(PatchFailed)
              else DecodedAndOn(types, kind, d, ApplyOps(h.asOps.value, d).value, b)
            else if h.patchType == "JSONMergePatch" then
              if h.asMerge.None? then Failure(MalformedPatch)
              else DecodedAndOn(types, kind, d, Merge(d, h.asMerge.value), b)
            else Failure(UnsupportedPatchType)
  {
    assert a + [h] + b == a + ([h] + b);
    HatchesAppend(types, kind, a, [h] + b, doc);
    assert ([h] + b)[1..] == b;
  }

  /** The rest of the pass once a patch has made `n` of `d`. */
  function DecodedAndOn(types: Types, kind: string, d: Json, n: Json, rest: seq<Hatch>): Result<Json, HatchError> {
    if types.accepts(kind, n) then ApplyHatches(types, kind, rest, Decoded(types.places(kind), d, n))
    else Failure(Undecodable)
  }

  function OfKind(hatches: seq<Hatch>, kind: string): seq<Hatch> {
    if hatches == [] then []
    else (if hatches[0].kind == kind then [hatches[0]] else []) + OfKind(hatches[1..], kind)
  }

  /** Only the hatches of the target kind matter, so a malformed hatch of another kind is harmless. */
  lemma {:induction false} OnlyOwnKindMatters(types: Types, kind: string, hatches: seq<Hatch>, doc: Json)
    ensures ApplyHatches(types, kind, hatches, doc) == ApplyHatches(types, kind, OfKind(hatches, kind), doc)
  {
    if hatches != [] {
      if hatches[0].kind != kind {
        assert OfKind(hatches, kind) == OfKind(hatches[1..], kind);
        OnlyOwnKindMatters(types, kind, hatches[1..], doc);
      } else {
        assert OfKind(hatches, kind)[1..] == OfKind(hatches[1..], kind);
        if ApplyHatch(types, kind, hatches[0], doc).Success? {
          OnlyOwnKindMatters(types, kind, hatches[1..], ApplyHatch(types, kind, hatches[0], doc).value);
        }
      }
    }
  }

  // ----- Reapplication on an earlier result

  /** The patch of one operation, as an edit of documents that `c` has just edited; None if it moves unset elements. */
  function OpOn(c: Edit, op: Op): Option<Edit> {
    if op.Remove? && op.path == [] then Some(Keep)
    else if MovesUnset(c, op, op.path) then None
    else Some(RawEdit(c, op, op.path))
  }

  /** The same for the operations that follow an edit `raw` of such a document. */
  function OpsOn(c: Edit, raw: Edit, ops: seq<Op>): Option<Edit>
    decreases |ops|
  {
    if ops == [] then Some(raw)
    else match OpOn(Compose(raw, c), ops[0])
      case None => None
      case Some(e) => OpsOn(c, Compose(e, raw), ops[1..])
  }

  /** The same for the patch of a hatch; what a patch that always fails would do does not matter. */
  function RawOn(c: Edit, h: Hatch): Option<Edit> {
    if h.patchType == "JSONPatch" && h.asOps.Some? then OpsOn(c, Keep, h.asOps.value)
    else if h.patchType == "JSONMergePatch" && h.asMerge.Some? then Some(MergeEdit(h.asMerge.value))
    else Some(Keep)
  }

  /** A patch of a whole object, and the decode. */
  function RootEdit(places: Places, raw: Edit): Edit {
    DecodeOf(Root(places), [], raw)
  }

  /** The edit `c` and then all hatches of a kind, as one edit; None if an operation moves unset elements. */
  function Whole(types: Types, kind: string, c: Edit, hatches: seq<Hatch>): Option<Edit>
    decreases |hatches|
  {
    if hatches == [] then Some(c)
    else if hatches[0].kind != kind then Whole(types, kind, c, hatches[1..])
    else match RawOn(c, hatches[0])
      case None => None
      case Some(raw) => Whole(types, kind, Compose(RootEdit(types.places(kind), raw), c), hatches[1..])
  }

  /** No operation of a hatch inserts into or removes from an array that neither `c` nor an earlier hatch sets. */
  predicate Steady(types: Types, kind: string, c: Edit, hatches: seq<Hatch>) {
    Whole(types, kind, c, hatches).Some?
  }

  lemma {:induction false} MergeEditIsRaw(p: Json)
    ensures IsRaw(MergeEdit(p)) && MergeEdit(p) != Set(None)
    decreases p
  {
    if p.Obj? {
      forall k | k in p.fields
        ensures IsRaw(MergeEdit(p).members[k])
      {
        MergeEditIsRaw(p.fields[k]);
      }
    }
  }

  lemma {:induction false} OpsAreEdit(c: Edit, raw: Edit, ops: seq<Op>, x: Option<Json>, doc: Json, n: Json)
    requires IsRaw(raw) && OpsOn(c, raw, ops).Some?
    requires Apply(c, x) == Some(doc) && Apply(raw, Some(doc)) == Some(n) && ApplyOps(ops, n).Some?
    ensures IsRaw(OpsOn(c, raw, ops).value)
    ensures Apply(OpsOn(c, raw, ops).value, Some(doc)) == ApplyOps(ops, n)
    decreases |ops|
  {
    if ops != [] {
      var made := Compose(raw, c);
      var e := RawEdit(made, ops[0], ops[0].path);
      ComposeMeans(raw, c, x);
      RawEditIsRaw(made, ops[0], ops[0].path);
      OpIsEdit(made, ops[0], ops[0].path, x, n);
      RawCompose(e, raw);
      ComposeMeans(e, raw, Some(doc));
      OpsAreEdit(c, Compose(e, raw), ops[1..], x, doc, ApplyOp(ops[0], n).value);
    }
  }

  /** A patch, merge or JSON Patch, as an edit of the document it is applied to. */
  lemma PatchIsEdit(c: Edit, h: Hatch, x: Option<Json>, doc: Json)
    requires RawOn(c, h).Some? && Apply(c, x) == Some(doc) && Patched(h, doc).Success?
    ensures IsRaw(RawOn(c, h).value)
    ensures Apply(RawOn(c, h).value, Some(doc)) == Some(Patched(h, doc).value)
  {
    if h.patchType == "JSONPatch" {
      OpsAreEdit(c, Keep, h.asOps.value, x, doc, doc);
    } else {
      MergeEditIsRaw(h.asMerge.value);
      MergeIsEdit(Some(doc), h.asMerge.value);
    }
  }

  /** A patch and the decode of its result, as an edit. */
  lemma HatchIsEdit(types: Types, kind: string, c: Edit, h: Hatch, x: Option<Json>, doc: Json)
    requires RawOn(c, h).Some? && Apply(c, x) == Some(doc) && ApplyHatch(types, kind, h, doc).Success?
    ensures Apply(RootEdit(types.places(kind), RawOn(c, h).value), Some(doc)) ==
              Some(ApplyHatch(types, kind, h, doc).value)
  {
    PatchIsEdit(c, h, x, doc);
    DecodeIsEdit(Root(types.places(kind)), [], RawOn(c, h).value, Some(doc));
  }

  /** Steady hatches, and the decodes between them, are one edit together with the edit that made their document. */
  lemma {:induction false} HatchesAreEdit(types: Types, kind: string, c: Edit, hatches: seq<Hatch>, x: Option<Json>,
                                          doc: Json)
    requires Steady(types, kind, c, hatches) && Apply(c, x) == Some(doc)
    requires ApplyHatches(types, kind, hatches, doc).Success?
    ensures Apply(Whole(types, kind, c, hatches).value, x) == Some(ApplyHatches(types, kind, hatches, doc).value)
    decreases |hatches|
  {
    if hatches != [] {
      if hatches[0].kind != kind {
        HatchesAreEdit(types, kind, c, hatches[1..], x, doc);
      } else {
        var e := RootEdit(types.places(kind), RawOn(c, hatches[0]).value);
        HatchIsEdit(types, kind, c, hatches[0], x, doc);
        ComposeMeans(e, c, x);
        HatchesAreEdit(types, kind, Compose(e, c), hatches[1..], x, ApplyHatch(types, kind, hatches[0], doc).value);
      }
    }
  }

  // ----- Hatches that cannot fail

  /** Every document decodes into the kind. */
  ghost predicate Accepting(types: Types, kind: string) {
    forall n :: types.accepts(kind, n)
  }

  /** Each operation succeeds on every document that `c` and the operations before it make. */
  predicate OpsCertain(c: Edit, raw: Edit, ops: seq<Op>)
    decreases |ops|
  {
    ops == [] ||
    (!(ops[0].Remove? && ops[0].path == []) && CanApply(Compose(raw, c), ops[0], ops[0].path) &&
     OpOn(Compose(raw, c), ops[0]).Some? && OpsCertain(c, Compose(OpOn(Compose(raw, c), ops[0]).value, raw), ops[1..]))
  }

  predicate PatchCertain(c: Edit, h: Hatch) {
    (h.patchType == "JSONPatch" && h.asOps.Some? && OpsCertain(c, Keep, h.asOps.value)) ||
    (h.patchType == "JSONMergePatch" && h.asMerge.Some?)
  }

  /**
   No hatch of the kind can fail before its decode: merge patches, and operations on what `c` or an
   earlier hatch puts there, or that add members to it.
   */
  predicate Certain(types: Types, kind: string, c: Edit, hatches: seq<Hatch>)
    decreases |hatches|
  {
    hatches == [] ||
    (if hatches[0].kind != kind then Certain(types, kind, c, hatches[1..])
     else PatchCertain(c, hatches[0]) && RawOn(c, hatches[0]).Some? &&
          Certain(types, kind, Compose(RootEdit(types.places(kind), RawOn(c, hatches[0]).value), c), hatches[1..]))
  }

  /** No hatch of the kind can fail at all. */
  ghost predicate Sure(types: Types, kind: string, c: Edit, hatches: seq<Hatch>) {
    Certain(types, kind, c, hatches) && (OfKind(hatches, kind) == [] || Accepting(types, kind))
  }

  lemma {:induction false} OpsSucceed(c: Edit, raw: Edit, ops: seq<Op>, x: Option<Json>, doc: Json, n: Json)
    requires OpsCertain(c, raw, ops) && Apply(c, x) == Some(doc) && Apply(raw, Some(doc)) == Some(n)
    ensures ApplyOps(ops, n).Some? && OpsOn(c, raw, ops).Some?
    decreases |ops|
  {
    if ops != [] {
      var made := Compose(raw, c);
      ComposeMeans(raw, c, x);
      CanApplySucceeds(made, ops[0], ops[0].path, x, n);
      OpIsEdit(made, ops[0], ops[0].path, x, n);
      ComposeMeans(OpOn(made, ops[0]).value, raw, Some(doc));
      OpsSucceed(c, Compose(OpOn(made, ops[0]).value, raw), ops[1..], x, doc, ApplyOp(ops[0], n).value);
    }
  }

  /** Hatches that cannot fail are steady, and succeed on every document that `c` makes. */
  lemma {:induction false} SureSucceeds(types: Types, kind: string, c: Edit, hatches: seq<Hatch>, x: Option<Json>,
                                        doc: Json)
    requires Sure(types, kind, c, hatches) && Apply(c, x) == Some(doc)
    ensures Steady(types, kind, c, hatches) && ApplyHatches(types, kind, hatches, doc).Success?
    decreases |hatches|
  {
    if hatches != [] {
      var h := hatches[0];
      if h.kind != kind {
        SureSucceeds(types, kind, c, hatches[1..], x, doc);
      } else {
        var e := RootEdit(types.places(kind), RawOn(c, h).value);
        if h.patchType == "JSONPatch" {
          OpsSucceed(c, Keep, h.asOps.value, x, doc, doc);
        }
        HatchIsEdit(types, kind, c, h, x, doc);
        ComposeMeans(e, c, x);
        SureSucceeds(types, kind, Compose(e, c), hatches[1..], x, ApplyHatch(types, kind, h, doc).value);
      }
    }
  }

  // ----- Mutate, then hatch

  /** One pass of create-or-update over what is stored. */
  function MutateThenHatch(types: Types, kind: string, managed: Edit, hatches: seq<Hatch>, stored: Option<Json>)
    : Result<Json, HatchError>
  {
    ApplyHatches(types, kind, hatches, Apply(managed, stored).GetOr(Null))
  }

  /**
   Create-or-update runs mutate-then-hatch on its own earlier result. With steady hatches, merge or
   JSON Patch, whatever their nulls and arrays, a second pass that succeeds stores what the first one
   stored; with hatches that cannot fail both passes succeed.
   */
  lemma MutateThenHatchIdempotent(types: Types, kind: string, managed: Edit, hatches: seq<Hatch>, stored: Option<Json>)
    requires Steady(types, kind, managed, hatches) && Apply(managed, stored).Some? && !managed.Clear?
    ensures var first := MutateThenHatch(types, kind, managed, hatches, stored);
            first.Success? ==>
              Apply(managed, Some(first.value)).Some? &&
              var second := MutateThenHatch(types, kind, managed, hatches, Some(first.value));
              second.Success? ==> second == first
    ensures var first := MutateThenHatch(types, kind, managed, hatches, stored);
            Sure(types, kind, managed, hatches) ==>
              first.Success? && MutateThenHatch(types, kind, managed, hatches, Some(first.value)) == first
  {
    var first := MutateThenHatch(types, kind, managed, hatches, stored);
    if Sure(types, kind, managed, hatches) {
      SureSucceeds(types, kind, managed, hatches, stored, Apply(managed, stored).value);
    }
    if first.Success? {
      HatchesAreEdit(types, kind, managed, hatches, stored, Apply(managed, stored).value);
      ApplyIdempotent(Whole(types, kind, managed, hatches).value, stored);
      var again := Apply(managed, Some(first.value));
      if Sure(types, kind, managed, hatches) {
        SureSucceeds(types, kind, managed, hatches, Some(first.value), again.value);
      }
      if ApplyHatches(types, kind, hatches, again.value).Success? {
        HatchesAreEdit(types, kind, managed, hatches, Some(first.value), again.value);
      }
    }
  }

  /** No JSON Patch of the kind inserts into or removes from any array. */
  predicate MovesNothing(hatches: seq<Hatch>, kind: string) {
    forall h, op | h in hatches && h.kind == kind && h.patchType == "JSONPatch" &&
                   h.asOps.Some? && op in h.asOps.value ::
      !MovesElements(op, op.path)
  }

  /**
   In particular all merge hatches are steady, and so is every JSON Patch that moves no elements,
   whatever `c` sets.
   */
  lemma {:induction false} MovesNothingIsSteady(types: Types, kind: string, c: Edit, hatches: seq<Hatch>)
    requires MovesNothing(hatches, kind)
    ensures Steady(types, kind, c, hatches)
    decreases |hatches|
  {
    if hatches != [] {
      assert hatches[0] in hatches && forall h | h in hatches[1..] :: h in hatches;
      if hatches[0].kind == kind {
        if hatches[0].patchType == "JSONPatch" && hatches[0].asOps.Some? {
          OpsMoveNothing(c, Keep, hatches[0].asOps.value);
        }
        MovesNothingIsSteady(types, kind, Compose(RootEdit(types.places(kind), RawOn(c, hatches[0]).value), c),
                             hatches[1..]);
      } else {
        MovesNothingIsSteady(types, kind, c, hatches[1..]);
      }
    }
  }

  lemma {:induction false} OpsMoveNothing(c: Edit, raw: Edit, ops: seq<Op>)
    requires forall op | op in ops :: !MovesElements(op, op.path)
    ensures OpsOn(c, raw, ops).Some?
    decreases |ops|
  {
    if ops != [] {
      assert ops[0] in ops && forall op | op in ops[1..] :: op in ops;
      OpsMoveNothing(c, Compose(OpOn(Compose(raw, c), ops[0]).value, raw), ops[1..]);
    }
  }

  function OneOp(kind: string, op: Op): seq<Hatch> {
    [Hatch(kind, "JSONPatch", None, Some([op]))]
  }

  lemma OneOpApplied(types: Types, kind: string, op: Op, doc: Json)
    ensures var r := ApplyHatches(types, kind, OneOp(kind, op), doc);
            r.Success? <==> ApplyOp(op, doc).Some? && types.accepts(kind, ApplyOp(op, doc).value)
    ensures var r := ApplyHatches(types, kind, OneOp(kind, op), doc);
            r.Success? ==> r.value == Decoded(types.places(kind), doc, ApplyOp(op, doc).value)
  {
    var h := OneOp(kind, op)[0];
    assert OneOp(kind, op)[1..] == [];
    assert [op][1..] == [];
    assert ApplyOps([op], doc) == ApplyOp(op, doc);
    assert Patched(h, doc) == if ApplyOp(op, doc).None? then Failure(PatchFailed) else Success(ApplyOp(op, doc).value);
  }

  /**
   The exact condition for one operation, where every document decodes: after a pass that succeeded,
   the second one succeeds and stores the same if and only if the operation neither inserts into or
   removes from an array that the controller leaves alone, nor replaces a field that the controller
   leaves alone by what the field omits, so that the second pass finds nothing to replace.
   */
  lemma SettlesIff(types: Types, kind: string, managed: Edit, op: Op, stored: Option<Json>)
    requires AssignsOnly(managed) && Apply(managed, stored).Some? && Accepting(types, kind)
    ensures var first := MutateThenHatch(types, kind, managed, OneOp(kind, op), stored);
            first.Success? ==>
              var second := MutateThenHatch(types, kind, managed, OneOp(kind, op), Some(first.value));
              (second == first <==>
               !MovesUnset(managed, op, op.path) && !LosesTarget(types.places(kind), [], managed, op, op.path, stored))
  {
    var first := MutateThenHatch(types, kind, managed, OneOp(kind, op), stored);
    if first.Success? {
      var second := MutateThenHatch(types, kind, managed, OneOp(kind, op), Some(first.value));
      OneOpApplied(types, kind, op, Apply(managed, stored).value);
      OneOpApplied(types, kind, op, Apply(managed, Some(first.value)).GetOr(Null));
      if MovesUnset(managed, op, op.path) {
        MovedOnce(types, kind, managed, op, stored);
        if second.Success? {
          MovedOnce(types, kind, managed, op, Some(first.value));
        }
      } else if LosesTarget(types.places(kind), [], managed, op, op.path, stored) {
        LostFails(types, kind, managed, op, stored);
      } else {
        if op.path != [] {
          NotLostSucceeds(types, kind, managed, op, stored);
        }
        OneOpSteady(types, kind, managed, op);
        MutateThenHatchIdempotent(types, kind, managed, OneOp(kind, op), stored);
      }
    }
  }

  lemma TargetStored(places: Places, managed: Edit, op: Op, stored: Option<Json>)
    requires AssignsOnly(managed)
    ensures LosesTarget(Root(places), [], managed, op, op.path, Apply(managed, stored)) <==>
            LosesTarget(places, [], managed, op, op.path, stored)
  {
    if Unset(managed, op.path) {
      UnsetValue(managed, op.path, stored);
    }
  }

  /** An operation that has lost its target fails on the result of the pass that lost it. */
  lemma LostFails(types: Types, kind: string, managed: Edit, op: Op, stored: Option<Json>)
    requires AssignsOnly(managed) && Apply(managed, stored).Some?
    requires LosesTarget(types.places(kind), [], managed, op, op.path, stored)
    requires MutateThenHatch(types, kind, managed, OneOp(kind, op), stored).Success?
    ensures var first := MutateThenHatch(types, kind, managed, OneOp(kind, op), stored);
            MutateThenHatch(types, kind, managed, OneOp(kind, op), Some(first.value)).Failure?
  {
    var doc := Apply(managed, stored).value;
    var places := types.places(kind);
    OneOpApplied(types, kind, op, doc);
    TargetStored(places, managed, op, stored);
    OpGone(Root(places), [], managed, op, op.path, stored, doc);
    NoValueFails(op);
    OneOpApplied(types, kind, op, Again(Root(places), [], managed, op, op.path, doc).GetOr(Null));
  }

  lemma NoValueFails(op: Op)
    requires op.path != []
    ensures ApplyAt(op, op.path, Null).None?
  {
  }

  /** One that moves no unset elements, and has not, succeeds again. */
  lemma NotLostSucceeds(types: Types, kind: string, managed: Edit, op: Op, stored: Option<Json>)
    requires AssignsOnly(managed) && Apply(managed, stored).Some? && Accepting(types, kind)
    requires op.path != [] && !MovesUnset(managed, op, op.path)
    requires !LosesTarget(types.places(kind), [], managed, op, op.path, stored)
    requires MutateThenHatch(types, kind, managed, OneOp(kind, op), stored).Success?
    ensures var first := MutateThenHatch(types, kind, managed, OneOp(kind, op), stored);
            MutateThenHatch(types, kind, managed, OneOp(kind, op), Some(first.value)).Success?
  {
    var doc := Apply(managed, stored).value;
    var places := types.places(kind);
    OneOpApplied(types, kind, op, doc);
    TargetStored(places, managed, op, stored);
    OpAgain(Root(places), [], managed, op, op.path, stored, doc);
    OneOpApplied(types, kind, op, Again(Root(places), [], managed, op, op.path, doc).value);
  }

  lemma OneOpSteady(types: Types, kind: string, managed: Edit, op: Op)
    requires !MovesUnset(managed, op, op.path)
    ensures Steady(types, kind, managed, OneOp(kind, op))
  {
    var e := OpOn(Compose(Keep, managed), op).value;
    assert OpsOn(managed, Keep, [op]) == OpsOn(managed, Compose(e, Keep), [op][1..]);
    var raw := RawOn(managed, OneOp(kind, op)[0]).value;
    assert OneOp(kind, op)[1..] == [];
    assert Whole(types, kind, managed, OneOp(kind, op)) ==
           Whole(types, kind, Compose(RootEdit(types.places(kind), raw), managed), OneOp(kind, op)[1..]);
  }

  lemma OneOpSure(types: Types, kind: string, managed: Edit, op: Op)
    requires op.path != [] && CanApply(managed, op, op.path) && !MovesUnset(managed, op, op.path) &&
             Accepting(types, kind)
    ensures Sure(types, kind, managed, OneOp(kind, op))
  {
    OneOpSteady(types, kind, managed, op);
    var e := OpOn(Compose(Keep, managed), op).value;
    assert OpsCertain(managed, Compose(e, Keep), [op][1..]);
    assert OpsCertain(managed, Keep, [op]);
    var raw := RawOn(managed, OneOp(kind, op)[0]).value;
    assert OneOp(kind, op)[1..] == [];
    assert Certain(types, kind, Compose(RootEdit(types.places(kind), raw), managed), OneOp(kind, op)[1..]);
  }

  /** A pass with such an operation changes the length of the array by one, from what was stored. */
  lemma MovedOnce(types: Types, kind: string, managed: Edit, op: Op, stored: Option<Json>)
    requires AssignsOnly(managed) && Apply(managed, stored).Some? && MovesUnset(managed, op, op.path)
    requires MutateThenHatch(types, kind, managed, OneOp(kind, op), stored).Success?
    ensures |ArrayAt(Some(MutateThenHatch(types, kind, managed, OneOp(kind, op), stored).value), op.path)| ==
            |ArrayAt(stored, op.path)| + (if op.Add? then 1 else -1)
  {
    var mutated := Apply(managed, stored).value;
    OneOpApplied(types, kind, op, mutated);
    MovedLength(Root(types.places(kind)), [], op, op.path, mutated);
    SparedArray(managed, op.path, stored);
  }

  // ----- Removing fields

  /** Removing an object member by JSON Patch, at any depth below objects, is undone by the decode. */
  lemma {:induction false} RemoveIsUndone(places: Places, at: seq<Hop>, op: Op, path: seq<Token>, doc: Json)
    requires op.Remove? && path != [] && ApplyAt(op, path, doc).Some?
    requires forall i: nat | i < |path| :: path[i].Name?
    ensures Overlay(places, at, Some(doc), ApplyAt(op, path, doc).value) == Some(doc)
    decreases |path|
  {
    var n := ApplyAt(op, path, doc).value;
    if n.fields != map[] || places(at).omits != Some(Obj(map[])) {
      OverlayMember(places, at, Some(doc), n.fields, path[0].name);
      var r := Overlay(places, at, Some(doc), n).value;
      forall k
        ensures Get(r.fields, k) == Get(doc.fields, k)
      {
        OverlayMember(places, at, Some(doc), n.fields, k);
        if k in doc.fields {
          OverlaySelf(places, at + [Field(k)], doc.fields[k]);
          if |path| > 1 && k == path[0].name {
            RemoveIsUndone(places, at + [Field(k)], op, path[1..], doc.fields[k]);
          }
        }
      }
      SameEntries(r.fields, doc.fields);
    }
  }

  /** A merge patch leaves a null at a member, below objects only, only if one stood there before. */
  lemma {:induction false} MergeAddsNoNull(t: Json, p: Json, path: seq<Step>, k: string)
    requires forall i: nat | i < |path| :: path[i].Key?
    requires ValueAt(Merge(t, p), path).Some? && Get(Fields(ValueAt(Merge(t, p), path).value), k) == Some(Null)
    ensures ValueAt(t, path).Some? && Get(Fields(ValueAt(t, path).value), k) == Some(Null)
    decreases |path|
  {
    if path != [] && p.Obj? {
      var j := path[0].k;
      if j in p.fields && p.fields[j].Obj? {
        MergeAddsNoNull(Member(t, j), p.fields[j], path[1..], k);
      }
    }
  }

  /**
   A merge hatch removes a field that lies below objects only exactly if it sets the field to an
   empty value that the field omits; its nulls remove nothing.
   */
  lemma MergeRemovesIff(places: Places, o: Json, p: Json, path: seq<Step>, k: string)
    requires forall i: nat | i < |path| :: path[i].Key?
    requires BothObjects(o, Merge(o, p), path) && k in ValueAt(o, path).value.fields
    ensures ValueAt(Decoded(places, o, Merge(o, p)), path).Some?
    ensures var before, merged := ValueAt(o, path).value.fields[k], Get(ValueAt(Merge(o, p), path).value.fields, k);
            k !in Fields(ValueAt(Decoded(places, o, Merge(o, p)), path).value) <==>
            merged.Some? && places(Hops(path) + [Field(k)]).omits == merged && merged.value != before &&
            !(merged.value.Obj? && before.Obj?)
  {
    MissingIff(places, o, Merge(o, p), path, k);
    if Get(Fields(ValueAt(Merge(o, p), path).value), k) == Some(Null) {
      MergeAddsNoNull(o, p, path, k);
    }
  }

  /** Below the root it does not matter that the root is a struct. */
  lemma {:induction false} RootBelow(places: Places, at: seq<Hop>, x: Option<Json>, n: Json)
    requires at != []
    ensures Overlay(Root(places), at, x, n) == Overlay(places, at, x, n)
    decreases n
  {
    if places(at).omits != Some(n) {
      match n
      case Obj(m) =>
        forall k
          ensures Get(Overlay(Root(places), at, x, n).value.fields, k) == Get(Overlay(places, at, x, n).value.fields, k)
        {
          if k in m {
            RootBelow(places, at + [Field(k)], Get(Fields(x.GetOr(Null)), k), m[k]);
          }
          OverlayMember(Root(places), at, x, m, k);
          OverlayMember(places, at, x, m, k);
        }
        SameEntries(Overlay(Root(places), at, x, n).value.fields, Overlay(places, at, x, n).value.fields);
      case Arr(xs) =>
        forall i: nat | i < |xs|
          ensures Overlay(Root(places), at, x, n).value.items[i] == Overlay(places, at, x, n).value.items[i]
        {
          RootBelow(places, at + [Item], Element(x, i), xs[i]);
        }
        assert Overlay(Root(places), at, x, n).value.items == Overlay(places, at, x, n).value.items;
      case _ =>
    }
  }

  /** An entry set, or taken out where there is no value. */
  function WithEntry(m: map<string, Json>, k: string, v: Option<Json>): map<string, Json> {
    if v.Some? then m[k := v.value] else m - {k}
  }

  /**
   What a patch does, once decoded, that changes one field of a section (such as spec): the new value
   is decoded into the old one, the field goes if nothing is left of it, and nothing else changes.
   */
  lemma FieldPatched(places: Places, doc: Json, section: string, field: string, v: Json)
    requires doc.Obj? && section in doc.fields && doc.fields[section].Obj?
    ensures var m := doc.fields[section].fields;
            var after := WithEntry(m, field, Overlay(places, [Field(section), Field(field)], Get(m, field), v));
            Decoded(places, doc, Obj(doc.fields[section := Obj(m[field := v])])) ==
              Obj(doc.fields[section := Obj(after)])
  {
    var m := doc.fields[section].fields;
    var after := WithEntry(m, field, Overlay(places, [Field(section), Field(field)], Get(m, field), v));
    RootBelow(places, [Field(section), Field(field)], Get(m, field), v);
    assert [Field(section)] + [Field(field)] == [Field(section), Field(field)];
    EntryDecoded(Root(places), [Field(section)], m, field, v);
    EntryDecoded(Root(places), [], doc.fields, section, Obj(m[field := v]));
    assert [] + [Field(section)] == [Field(section)];
  }

  lemma EntryDecoded(places: Places, at: seq<Hop>, m: map<string, Json>, k: string, v: Json)
    ensures Overlay(places, at, Some(Obj(m)), Obj(m[k := v])) ==
            Some(Obj(WithEntry(m, k, Overlay(places, at + [Field(k)], Get(m, k), v))))
  {
    var n := m[k := v];
    assert k in n;
    OverlayMember(places, at, Some(Obj(m)), n, k);
    var r, after :=
      Overlay(places, at, Some(Obj(m)), Obj(n)).value, WithEntry(m, k, Overlay(places, at + [Field(k)], Get(m, k), v));
    forall j
      ensures Get(r.fields, j) == Get(after, j)
    {
      OverlayMember(places, at, Some(Obj(m)), n, j);
      if j in m && j != k {
        OverlaySelf(places, at + [Field(j)], m[j]);
      }
    }
    SameEntries(r.fields, after);
  }

  /** In particular for a JSON Patch that replaces the field. */
  lemma ReplacedField(types: Types, kind: string, doc: Json, section: string, field: string, v: Json)
    requires doc.Obj? && section in doc.fields && doc.fields[section].Obj? && field in doc.fields[section].fields
    ensures var m := doc.fields[section].fields;
            var r := ApplyHatches(types, kind, OneOp(kind, Replace([Name(section), Name(field)], v)), doc);
            var left := Overlay(types.places(kind), [Field(section), Field(field)], Some(m[field]), v);
            r.Success? ==> r.value == Obj(doc.fields[section := Obj(WithEntry(m, field, left))])
  {
    var m := doc.fields[section].fields;
    var op := Replace([Name(section), Name(field)], v);
    OneOpApplied(types, kind, op, doc);
    assert op.path[1..] == [Name(field)];
    assert ApplyAt(op, op.path[1..], Obj(m)) == Some(Obj(m[field := v]));
    assert ApplyOp(op, doc) == Some(Obj(doc.fields[section := Obj(m[field := v])]));
    FieldPatched(types.places(kind), doc, section, field, v);
  }

  function OneMerge(kind: string, p: Json): seq<Hatch> {
    [Hatch(kind, "JSONMergePatch", Some(p), None)]
  }

  lemma OneMergeApplied(types: Types, kind: string, p: Json, doc: Json)
    ensures ApplyHatches(types, kind, OneMerge(kind, p), doc) ==
            if types.accepts(kind, Merge(doc, p)) then Success(Decoded(types.places(kind), doc, Merge(doc, p)))
            else Failure(Undecodable)
  {
    assert OneMerge(kind, p)[1..] == [];
    assert Patched(OneMerge(kind, p)[0], doc) == Success(Merge(doc, p));
  }

  lemma {:induction false} MergedEntry(m: map<string, Json>, k: string, v: Json)
    requires !v.Null?
    ensures Merge(Obj(m), Obj(map[k := v])) == Obj(m[k := Merge(Get(m, k).GetOr(Null), v)])
  {
    var p := map[k := v];
    var merged := Merge(Obj(m), Obj(p));
    assert merged.fields.Keys == m.Keys + {k};
    assert forall x | x in m.Keys && x != k :: x !in p && merged.fields[x] == m[x];
    assert merged.fields[k] == Merge(Member(Obj(m), k), p[k]);
    assert merged.fields == m[k := Merge(Get(m, k).GetOr(Null), v)];
  }

  /** Or for a merge patch that sets the field to a value without members. */
  lemma MergedField(types: Types, kind: string, doc: Json, section: string, field: string, v: Json)
    requires doc.Obj? && section in doc.fields && doc.fields[section].Obj? && !v.Obj? && !v.Null?
    ensures var m := doc.fields[section].fields;
            var r := ApplyHatches(types, kind, OneMerge(kind, Obj(map[section := Obj(map[field := v])])), doc);
            var left := Overlay(types.places(kind), [Field(section), Field(field)], Get(m, field), v);
            r.Success? ==> r.value == Obj(doc.fields[section := Obj(WithEntry(m, field, left))])
  {
    var p := Obj(map[section := Obj(map[field := v])]);
    OneMergeApplied(types, kind, p, doc);
    MergedEntry(doc.fields, section, Obj(map[field := v]));
    MergedEntry(doc.fields[section].fields, field, v);
    FieldPatched(types.places(kind), doc, section, field, v);
  }
}
