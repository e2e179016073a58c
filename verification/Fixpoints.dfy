/**
 Single reconciles: a second pass of the same request has no effect, and a request that has nothing
 to do still has nothing to do after a request that writes elsewhere.
 */
module Fixpoints {
  import opened Wrappers
  import opened JsonTree
  import opened TreeEdit
  import opened Decoding
  import opened JsonPatch
  import opened EscapeHatch
  import opened Specs
  import opened Deployments
  import opened DeploymentWriters
  import opened StaleReads
  import opened WatchLoop
  import opened Cluster
  import opened LeafFrames

  // ----- One write

  lemma WriteTwice(types: Types, owner: Owner, hs: seq<Hatch>, kind: LeafKind, managed: Edit, stored: Option<Leaf>)
    requires Steady(types, KindName(kind), managed, hs) && managed.Into?
    requires WriteLeaf(types, owner, hs, kind, managed, stored).Some?
    ensures var leaf := WriteLeaf(types, owner, hs, kind, managed, stored);
            var again := WriteLeaf(types, owner, hs, kind, managed, leaf);
            again.None? || again == leaf
  {
    var blank := if stored.Some? then stored.value.doc else Obj(map[]);
    MutateThenHatchIdempotent(types, KindName(kind), managed, hs, Some(blank));
  }

  /** The controllers assign fields, so `SettlesIff` applies to all of their writes. */
  lemma PlansAssign(ck: CrKey, spec: Spec, ctl: Controller, selector: Json, op: LeafOp)
    requires op in Plan(ck, spec, ctl, selector) && op.Write?
    ensures op.managed.Into? && AssignsOnly(op.managed)
  {
    var m := op.managed.members;
    if "spec" in m {
      assert m == map["spec" := m["spec"]] && m["spec"].Into?;
      assert forall k | k in m["spec"].members :: m["spec"].members[k].Set?;
      assert AssignsOnly(m["spec"]);
    } else {
      assert forall k | k in m :: m[k].Set?;
    }
  }

  /**
   Nor can anything less than steadiness do, for one operation: if it moves unset elements, a write
   is never without effect.
   */
  lemma UnsteadyNeverRests(types: Types, owner: Owner, key: LeafKey, managed: Edit, op: Op, leaves: map<LeafKey, Leaf>)
    requires managed.Into? && AssignsOnly(managed) && MovesUnset(managed, op, op.path)
    ensures ExecOp(types, owner, OneOp(KindName(key.kind), op), Write(key, managed), leaves) !=
              LeafOutcome(leaves, true)
  {
    var hs := OneOp(KindName(key.kind), op);
    var leaf := WriteLeaf(types, owner, hs, key.kind, managed, Get(leaves, key));
    if leaf.Some? && leaves[key := leaf.value] == leaves {
      assert leaves[key := leaf.value][key] == leaf.value;
      MovedOnce(types, KindName(key.kind), managed, op, Some(leaves[key].doc));
    }
  }

  /** The field that the operation replaces omits the new value. */
  predicate Omits(place: Place, v: Json) {
    if v.Null? then place.onNull.Omitted? else !v.Obj? && place.omits == Some(v)
  }

  /**
   Nor can an operation that replaces a field that the controller does not set by what the field
   omits, unless that is what the store already has there: with it, too, a write is never without effect.
   */
  lemma LostTargetNeverRests(types: Types, owner: Owner, key: LeafKey, managed: Edit, op: Op,
                             leaves: map<LeafKey, Leaf>)
    requires managed.Into? && AssignsOnly(managed) && op.Replace? && Unset(managed, op.path)
    requires op.path != [] && op.path[|op.path| - 1].Name?
    requires Omits(types.places(KindName(key.kind))(HopsOf(op.path)), op.value)
    requires key in leaves ==> ValueOf(Some(leaves[key].doc), op.path) != Some(op.value)
    ensures ExecOp(types, owner, OneOp(KindName(key.kind), op), Write(key, managed), leaves) !=
              LeafOutcome(leaves, true)
  {
    var kind := KindName(key.kind);
    var leaf := WriteLeaf(types, owner, OneOp(kind, op), key.kind, managed, Get(leaves, key));
    if leaf.Some? && leaves[key := leaf.value] == leaves {
      assert leaves[key := leaf.value][key] == leaf.value;
      var doc := leaves[key].doc;
      assert MutateThenHatch(types, kind, managed, OneOp(kind, op), Some(doc)) == Success(doc);
      OneOpApplied(types, kind, op, Apply(managed, Some(doc)).value);
      UnsetValue(managed, op.path, Some(doc));
      TargetThere(op, op.path, Apply(managed, Some(doc)).value);
      assert [] + HopsOf(op.path) == HopsOf(op.path);
      LostFails(types, kind, managed, op, Some(doc));
    }
  }

  /** A replace that succeeds has found its target. */
  lemma {:induction false} TargetThere(op: Op, path: seq<Token>, doc: Json)
    requires op.Replace? && path != [] && ApplyAt(op, path, doc).Some?
    ensures ValueOf(Some(doc), path).Some?
    decreases |path|
  {
    if |path| > 1 {
      TargetThere(op, path[1..], ChildAt(Some(doc), path[0]).value);
    } else {
      assert path[1..] == [];
    }
  }

  // ----- Plans

  /** No hatch of a written kind moves elements of an array that the write does not set. */
  predicate SteadyPlan(types: Types, hs: seq<Hatch>, ops: seq<LeafOp>) {
    forall op | op in ops && op.Write? :: Steady(types, KindName(op.key.kind), op.managed, hs)
  }

  predicate AssigningPlan(ops: seq<LeafOp>) {
    forall op | op in ops && op.Write? :: op.managed.Into?
  }

  ghost predicate DistinctKeys(ops: seq<LeafOp>) {
    ops != [] ==> KeyOf(ops[0]) !! KeysOf(ops[1..]) && DistinctKeys(ops[1..])
  }

  /** Executing a plan on its own result writes nothing new, even when the plan stops at an error. */
  lemma {:induction false} ExecTwice(types: Types, owner: Owner, hs: seq<Hatch>, ops: seq<LeafOp>,
                                     leaves: map<LeafKey, Leaf>)
    requires DistinctKeys(ops) && SteadyPlan(types, hs, ops) && AssigningPlan(ops)
    ensures var once := Exec(types, owner, hs, ops, leaves).leaves;
            Exec(types, owner, hs, ops, once).leaves == once
  {
    if ops != [] {
      var first := ExecOp(types, owner, hs, ops[0], leaves);
      if first.ok {
        var rest := ops[1..];
        assert ops[0] in ops && forall op | op in rest :: op in ops;
        ExecTwice(types, owner, hs, rest, first.leaves);
        var once := Exec(types, owner, hs, rest, first.leaves).leaves;
        var again := ExecOp(types, owner, hs, ops[0], once);
        forall k | k in KeyOf(ops[0])
          ensures Get(once, k) == Get(first.leaves, k)
        {
          ExecFrame(types, owner, hs, rest, first.leaves, k);
        }
        match ops[0] {
          case Write(key, managed) =>
            assert key in KeyOf(ops[0]);
            WriteTwice(types, owner, hs, key.kind, managed, Get(leaves, key));
            assert Get(once, key) == WriteLeaf(types, owner, hs, key.kind, managed, Get(leaves, key));
          case Erase(key) =>
            assert key in KeyOf(ops[0]);
          case Reject =>
        }
        assert again.leaves == once;
      }
    }
  }

  // ----- Plans whose hatches cannot fail

  /** No hatch of a written kind can fail. */
  ghost predicate SurePlan(types: Types, hs: seq<Hatch>, ops: seq<LeafOp>) {
    forall op | op in ops && op.Write? :: Sure(types, KindName(op.key.kind), op.managed, hs)
  }

  lemma {:induction false} NoHatchesSure(types: Types, kind: string, c: Edit, hs: seq<Hatch>)
    requires NoHatchesFor(hs, kind)
    ensures Sure(types, kind, c, hs)
  {
    if hs != [] {
      assert hs[0] in hs;
      NoHatchesSure(types, kind, c, hs[1..]);
      assert OfKind(hs, kind) == [] + OfKind(hs[1..], kind);
    }
  }

  /** Writes of assignments and rejections only, whose hatches cannot fail; a leaf may be written more than once. */
  ghost predicate SureWrites(types: Types, hs: seq<Hatch>, ops: seq<LeafOp>) {
    SurePlan(types, hs, ops) && AssigningPlan(ops) && forall op | op in ops :: !op.Erase?
  }

  /** The assignments of a write together with its hatches. */
  function WholeOf(types: Types, hs: seq<Hatch>, op: LeafOp): Edit
    requires op.Write?
  {
    Whole(types, KindName(op.key.kind), op.managed, hs).GetOr(op.managed)
  }

  /** What a plan does to one leaf, in order. */
  function EditsAt(types: Types, hs: seq<Hatch>, ops: seq<LeafOp>, key: LeafKey): seq<Edit> {
    if ops == [] then []
    else EditsAt(types, hs, ops[..|ops| - 1], key) + EditOf(types, hs, ops[|ops| - 1], key)
  }

  function EditOf(types: Types, hs: seq<Hatch>, op: LeafOp, key: LeafKey): seq<Edit> {
    if op.Write? && op.key == key then [WholeOf(types, hs, op)] else []
  }

  /** The edit leaves a document where one was. */
  ghost predicate Fills(e: Edit) {
    forall x: Json :: Apply(e, Some(x)).Some?
  }

  /** A write whose hatches cannot fail succeeds on every leaf that the owner may control, and stores its edit. */
  lemma SureWrite(types: Types, owner: Owner, hs: seq<Hatch>, op: LeafOp, stored: Option<Leaf>)
    requires op.Write? && op.managed.Into? && Sure(types, KindName(op.key.kind), op.managed, hs)
    ensures var leaf := WriteLeaf(types, owner, hs, op.key.kind, op.managed, stored);
            (leaf.Some? <==> stored.Some? ==> MayControl(stored.value.owner, owner)) &&
            (leaf.Some? ==> leaf == Assigned(owner, [WholeOf(types, hs, op)], stored))
    ensures Apply(WholeOf(types, hs, op), DocOf(stored)).Some?
  {
    var kind, e := KindName(op.key.kind), WholeOf(types, hs, op);
    var mutated := Apply(op.managed, DocOf(stored)).value;
    SureSucceeds(types, kind, op.managed, hs, DocOf(stored), mutated);
    HatchesAreEdit(types, kind, op.managed, hs, DocOf(stored), mutated);
    assert [e][..0] == [];
    assert ApplyAll([e], DocOf(stored)) == Apply(e, DocOf(stored));
  }

  lemma SureFills(types: Types, hs: seq<Hatch>, op: LeafOp)
    requires op.Write? && op.managed.Into? && Sure(types, KindName(op.key.kind), op.managed, hs)
    ensures Fills(WholeOf(types, hs, op))
  {
    forall x: Json
      ensures Apply(WholeOf(types, hs, op), Some(x)).Some?
    {
      SureWrite(types, Owner("", ""), hs, op, Some(Leaf(None, x)));
    }
  }

  /** A leaf after edits by the owner. */
  function Assigned(owner: Owner, es: seq<Edit>, stored: Option<Leaf>): Option<Leaf> {
    if es == [] then stored else Some(Leaf(Some(owner), ApplyAll(es, DocOf(stored)).GetOr(Null)))
  }

  function DocOf(stored: Option<Leaf>): Option<Json> {
    Some(if stored.Some? then stored.value.doc else Obj(map[]))
  }

  lemma AssignedMore(owner: Owner, es: seq<Edit>, e: Edit, stored: Option<Leaf>)
    requires Fills(e) && forall e' | e' in es :: Fills(e')
    ensures Assigned(owner, es + [e], stored) == Assigned(owner, [e], Assigned(owner, es, stored))
  {
    var x := DocOf(stored);
    assert (es + [e])[..|es|] == es && [e][..0] == [];
    assert ApplyAll(es + [e], x) == Apply(e, ApplyAll(es, x));
    if es != [] {
      FillsAll(es, stored.GetOr(Leaf(None, Obj(map[]))).doc);
      assert DocOf(Assigned(owner, es, stored)) == ApplyAll(es, x);
      assert ApplyAll([e], ApplyAll(es, x)) == Apply(e, ApplyAll(es, x));
    }
  }

  lemma {:induction false} FillsAll(es: seq<Edit>, x: Json)
    requires forall e | e in es :: Fills(e)
    ensures ApplyAll(es, Some(x)).Some?
  {
    if es != [] {
      assert es[|es| - 1] in es && forall e | e in es[..|es| - 1] :: e in es;
      FillsAll(es[..|es| - 1], x);
    }
  }

  lemma SureOp(types: Types, owner: Owner, hs: seq<Hatch>, op: LeafOp, leaves: map<LeafKey, Leaf>, key: LeafKey)
    requires op.Write? && op.managed.Into? && Sure(types, KindName(op.key.kind), op.managed, hs)
    requires ExecOp(types, owner, hs, op, leaves).ok
    ensures Get(ExecOp(types, owner, hs, op, leaves).leaves, key) ==
            Assigned(owner, EditOf(types, hs, op, key), Get(leaves, key))
  {
    SureWrite(types, owner, hs, op, Get(leaves, op.key));
  }

  lemma SureFront(types: Types, hs: seq<Hatch>, ops: seq<LeafOp>)
    requires SureWrites(types, hs, ops) && ops != []
    ensures SureWrites(types, hs, ops[..|ops| - 1])
    ensures var last := ops[|ops| - 1];
            last.Write? ==> last.managed.Into? && Sure(types, KindName(last.key.kind), last.managed, hs)
  {
    assert ops[|ops| - 1] in ops && forall op | op in ops[..|ops| - 1] :: op in ops;
  }

  /** One more operation at the end of a plan that succeeds. */
  lemma ExecLast(types: Types, owner: Owner, hs: seq<Hatch>, ops: seq<LeafOp>, leaves: map<LeafKey, Leaf>)
    requires ops != [] && Exec(types, owner, hs, ops, leaves).ok
    ensures var before := Exec(types, owner, hs, ops[..|ops| - 1], leaves);
            var last := ExecOp(types, owner, hs, ops[|ops| - 1], before.leaves);
            before.ok && last.ok && Exec(types, owner, hs, ops, leaves) == last
  {
    var front, last := ops[..|ops| - 1], ops[|ops| - 1];
    assert ops == front + [last];
    ExecAppend(types, owner, hs, front, [last], leaves);
    ExecSingle(types, owner, hs, [last], Exec(types, owner, hs, front, leaves).leaves);
  }

  /** The closed form of such a plan, if it succeeds: all its edits of a leaf, one after the other. */
  lemma {:induction false} SureRun(types: Types, owner: Owner, hs: seq<Hatch>, ops: seq<LeafOp>,
                                   leaves: map<LeafKey, Leaf>, key: LeafKey)
    requires SureWrites(types, hs, ops) && Exec(types, owner, hs, ops, leaves).ok
    ensures forall e | e in EditsAt(types, hs, ops, key) :: Fills(e)
    ensures Get(Exec(types, owner, hs, ops, leaves).leaves, key) ==
              Assigned(owner, EditsAt(types, hs, ops, key), Get(leaves, key))
  {
    if ops != [] {
      var front, last := ops[..|ops| - 1], ops[|ops| - 1];
      SureFront(types, hs, ops);
      ExecLast(types, owner, hs, ops, leaves);
      SureRun(types, owner, hs, front, leaves, key);
      SureOp(types, owner, hs, last, Exec(types, owner, hs, front, leaves).leaves, key);
      SureMore(types, owner, hs, EditsAt(types, hs, front, key), last, Get(leaves, key), key);
    }
  }

  lemma SureMore(types: Types, owner: Owner, hs: seq<Hatch>, es: seq<Edit>, last: LeafOp, stored: Option<Leaf>,
                 key: LeafKey)
    requires last.Write? && last.managed.Into? && Sure(types, KindName(last.key.kind), last.managed, hs)
    requires forall e | e in es :: Fills(e)
    ensures forall e | e in es + EditOf(types, hs, last, key) :: Fills(e)
    ensures Assigned(owner, es + EditOf(types, hs, last, key), stored) ==
            Assigned(owner, EditOf(types, hs, last, key), Assigned(owner, es, stored))
  {
    if last.key == key {
      SureFills(types, hs, last);
      AssignedMore(owner, es, WholeOf(types, hs, last), stored);
    } else {
      assert es + [] == es;
    }
  }

  /** A second round of the same edits changes nothing. */
  lemma AssignedTwice(owner: Owner, es: seq<Edit>, stored: Option<Leaf>)
    requires forall e | e in es :: Fills(e)
    ensures Assigned(owner, es, Assigned(owner, es, stored)) == Assigned(owner, es, stored)
  {
    if es != [] {
      FillsAll(es, DocOf(stored).value);
      ApplyAllIdempotent(es, DocOf(stored));
    }
  }

  /** Such a plan succeeds exactly when it rejects nothing and no other controller holds a leaf it writes. */
  lemma {:induction false} SureRunSucceedsIff(types: Types, owner: Owner, hs: seq<Hatch>, ops: seq<LeafOp>,
                                              leaves: map<LeafKey, Leaf>)
    requires SureWrites(types, hs, ops)
    ensures Exec(types, owner, hs, ops, leaves).ok <==>
            forall op | op in ops :: op.Write? && (op.key in leaves ==> MayControl(leaves[op.key].owner, owner))
  {
    if ops != [] {
      var first := ExecOp(types, owner, hs, ops[0], leaves);
      assert ops[0] in ops && forall op :: op in ops <==> op == ops[0] || op in ops[1..];
      if ops[0].Write? {
        SureWrite(types, owner, hs, ops[0], Get(leaves, ops[0].key));
      }
      if first.ok {
        SureRunSucceedsIff(types, owner, hs, ops[1..], first.leaves);
      }
    }
  }

  lemma {:induction false} EditsAtWritten(types: Types, hs: seq<Hatch>, ops: seq<LeafOp>, op: LeafOp)
    requires op in ops && op.Write?
    ensures EditsAt(types, hs, ops, op.key) != []
  {
    if op != ops[|ops| - 1] {
      EditsAtWritten(types, hs, ops[..|ops| - 1], op);
    }
  }

  lemma SureRunRepeats(types: Types, owner: Owner, hs: seq<Hatch>, ops: seq<LeafOp>, leaves: map<LeafKey, Leaf>)
    requires SureWrites(types, hs, ops) && Exec(types, owner, hs, ops, leaves).ok
    ensures var once := Exec(types, owner, hs, ops, leaves).leaves;
            Exec(types, owner, hs, ops, once) == LeafOutcome(once, true)
  {
    var once := Exec(types, owner, hs, ops, leaves).leaves;
    SureRunSucceedsIff(types, owner, hs, ops, leaves);
    forall op | op in ops
      ensures op.key in once && once[op.key].owner == Some(owner)
    {
      SureRun(types, owner, hs, ops, leaves, op.key);
      EditsAtWritten(types, hs, ops, op);
    }
    SureRunSucceedsIff(types, owner, hs, ops, once);
    var twice := Exec(types, owner, hs, ops, once).leaves;
    forall key
      ensures Get(twice, key) == Get(once, key)
    {
      SureRun(types, owner, hs, ops, leaves, key);
      SureRun(types, owner, hs, ops, once, key);
      AssignedTwice(owner, EditsAt(types, hs, ops, key), Get(leaves, key));
    }
    SameEntries(twice, once);
  }

  /** Such a plan, too, writes nothing new on its own result, wherever it stops. */
  lemma SureRunTwice(types: Types, owner: Owner, hs: seq<Hatch>, ops: seq<LeafOp>, leaves: map<LeafKey, Leaf>)
    requires SureWrites(types, hs, ops)
    ensures var once := Exec(types, owner, hs, ops, leaves).leaves;
            Exec(types, owner, hs, ops, once).leaves == once
  {
    if Exec(types, owner, hs, ops, leaves).ok {
      SureRunRepeats(types, owner, hs, ops, leaves);
    } else {
      var k := FirstFailure(types, owner, hs, ops, leaves);
      var once := Exec(types, owner, hs, ops, leaves).leaves;
      assert forall op | op in ops[..k] :: op in ops;
      SureRunRepeats(types, owner, hs, ops[..k], leaves);
      assert ops == ops[..k] + ops[k..] && ops[k..][0] == ops[k];
      ExecAppend(types, owner, hs, ops[..k], ops[k..], once);
    }
  }

  // ----- The plans of the controllers

  ghost predicate DistinctVolumes(spec: Spec) {
    spec.StorageSpec? ==> forall i, j :: 0 <= i < j < |spec.volumes| ==> spec.volumes[i].name != spec.volumes[j].name
  }

  lemma {:induction false} PvcOpsDistinct(ck: CrKey, storageClassName: string, vols: seq<VolumeSpec>)
    requires forall i, j :: 0 <= i < j < |vols| ==> vols[i].name != vols[j].name
    ensures DistinctKeys(PvcOps(ck, storageClassName, vols))
  {
    if vols != [] {
      var ops := PvcOps(ck, storageClassName, vols);
      var rest := vols[1..];
      assert ops[1..] == PvcOps(ck, storageClassName, rest);
      PvcOpsDistinct(ck, storageClassName, rest);
      forall k | k in KeyOf(ops[0])
        ensures k !in KeysOf(ops[1..])
      {
        PvcKeysOf(ck, storageClassName, rest, k);
        forall v | v in rest
          ensures k != PvcKey(ck, v.name)
        {
          PvcKeyInjective(ck, vols[0].name, v.name);
        }
      }
    }
  }

  /**
   The hatches under which repeating a pass changes nothing. A Deployment writer has none for
   Deployments. A leaf controller's are steady; the volume names of a Storage are distinct, or the
   hatches of its claims cannot fail.
   */
  ghost predicate Repeatable(types: Types, ck: CrKey, spec: Spec, ctl: Controller, selector: Json) {
    if WritesDeployments(ctl) then NoHatchesFor(spec.hatches, "Deployment")
    else
      SteadyPlan(types, spec.hatches, Plan(ck, spec, ctl, selector)) &&
      (ctl.PvcController? ==> DistinctVolumes(spec) || SurePlan(types, spec.hatches, Plan(ck, spec, ctl, selector)))
  }

  lemma PlanTwice(types: Types, ck: CrKey, spec: Spec, ctl: Controller, selector: Json, leaves: map<LeafKey, Leaf>)
    requires !WritesDeployments(ctl) && Repeatable(types, ck, spec, ctl, selector)
    ensures var plan := Plan(ck, spec, ctl, selector);
            var once := Exec(types, CrOwner(ck), spec.hatches, plan, leaves).leaves;
            Exec(types, CrOwner(ck), spec.hatches, plan, once).leaves == once
  {
    var plan := Plan(ck, spec, ctl, selector);
    forall op | op in plan && op.Write?
      ensures op.managed.Into?
    {
      PlansAssign(ck, spec, ctl, selector, op);
    }
    if ctl.PvcController? && spec.StorageSpec? && !DistinctVolumes(spec) {
      SureRunTwice(types, CrOwner(ck), spec.hatches, plan, leaves);
    } else {
      if ctl.PvcController? && spec.StorageSpec? {
        PvcOpsDistinct(ck, spec.storageClassName, spec.volumes);
      }
      ExecTwice(types, CrOwner(ck), spec.hatches, plan, leaves);
    }
  }

  // ----- What a plan leaves behind

  /** What a plan that succeeds says about the store, by the last of its operations on a leaf. */
  ghost predicate OpHolds(types: Types, leaves: map<LeafKey, Leaf>, owner: Owner, hs: seq<Hatch>, op: LeafOp) {
    match op
    case Erase(key) => key !in leaves
    case Reject => false
    case Write(key, managed) =>
      key in leaves && leaves[key].owner == Some(owner) &&
      var whole := Whole(types, KindName(key.kind), managed, hs);
      whole.Some? && Apply(whole.value, Some(leaves[key].doc)) == Some(leaves[key].doc)
  }

  predicate LastOnItsLeaf(ops: seq<LeafOp>, i: nat)
    requires i < |ops|
  {
    KeyOf(ops[i]) !! KeysOf(ops[i + 1..])
  }

  lemma WrittenHolds(types: Types, owner: Owner, hs: seq<Hatch>, op: LeafOp, leaves: map<LeafKey, Leaf>)
    requires op.Write? ==> op.managed.Into? && Steady(types, KindName(op.key.kind), op.managed, hs)
    requires ExecOp(types, owner, hs, op, leaves).ok
    ensures OpHolds(types, ExecOp(types, owner, hs, op, leaves).leaves, owner, hs, op)
  {
    if op.Write? {
      var kind := KindName(op.key.kind);
      var mutated := Apply(op.managed, DocOf(Get(leaves, op.key))).value;
      HatchesAreEdit(types, kind, op.managed, hs, DocOf(Get(leaves, op.key)), mutated);
      ApplyIdempotent(Whole(types, kind, op.managed, hs).value, DocOf(Get(leaves, op.key)));
    }
  }

  lemma LastOpHolds(types: Types, owner: Owner, hs: seq<Hatch>, ops: seq<LeafOp>, leaves: map<LeafKey, Leaf>, i: nat)
    requires i < |ops| && LastOnItsLeaf(ops, i) && SteadyPlan(types, hs, ops) && AssigningPlan(ops)
    requires Exec(types, owner, hs, ops, leaves).ok
    ensures OpHolds(types, Exec(types, owner, hs, ops, leaves).leaves, owner, hs, ops[i])
  {
    var before := Exec(types, owner, hs, ops[..i], leaves);
    assert ops == ops[..i] + ops[i..] && ops[i..][0] == ops[i] && ops[i..][1..] == ops[i + 1..];
    ExecAppend(types, owner, hs, ops[..i], ops[i..], leaves);
    var next := ExecOp(types, owner, hs, ops[i], before.leaves);
    WrittenHolds(types, owner, hs, ops[i], before.leaves);
    if !ops[i].Reject? {
      assert ops[i].key in KeyOf(ops[i]);
      ExecFrame(types, owner, hs, ops[i + 1..], next.leaves, ops[i].key);
    }
  }

  // ----- Deployments

  /** Without hatches a fresh pass stores exactly the edit. */
  lemma PatchStoresEdit(types: Types, hs: seq<Hatch>, ck: CrKey, spec: Spec, ctl: Controller, d: Deployment)
    requires NoHatchesFor(hs, "Deployment") && DeploymentEdit(ck, spec, ctl, d).Some?
    ensures PatchDeployment(types, hs, d, DeploymentEdit(ck, spec, ctl, d).value) == DeploymentEdit(ck, spec, ctl, d)
  {
    var edited := DeploymentEdit(ck, spec, ctl, d).value;
    NoHatchesNoChange(types, "Deployment", hs, Encode(edited));
    if ctl.SchedulingController? {
      LandCompute(d, d, spec.scheduling);
    } else {
      LandStorage(d, d, ck.name, spec.volumes);
    }
  }

  lemma EditTwice(ck: CrKey, spec: Spec, ctl: Controller, d: Deployment)
    requires DeploymentEdit(ck, spec, ctl, d).Some?
    ensures DeploymentEdit(ck, spec, ctl, DeploymentEdit(ck, spec, ctl, d).value) == DeploymentEdit(ck, spec, ctl, d)
  {
    if ctl.VolumesController? {
      AttachTwice(d.pod, ck.name, spec.volumes);
    }
  }

  /**
   Two writers of a Deployment that write different fields: a Compute and a Storage, or two Storages
   without a common volume.
   */
  predicate WriteApart(ck: CrKey, spec: Spec, ctl: Controller, ck': CrKey, spec': Spec, ctl': Controller) {
    ctl != ctl' ||
    (ctl.VolumesController? &&
     (spec.StorageSpec? && spec'.StorageSpec? ==>
        !SharesName(Claimant(ck.name, spec.volumes), Claimant(ck'.name, spec'.volumes))))
  }

  /** They do not disturb each other. */
  lemma EditsIndependent(ck: CrKey, spec: Spec, ctl: Controller, ck': CrKey, spec': Spec, ctl': Controller,
                         d: Deployment)
    requires WriteApart(ck, spec, ctl, ck', spec', ctl') && DeploymentEdit(ck', spec', ctl', d).Some?
    requires DeploymentEdit(ck, spec, ctl, d) == Some(d)
    ensures var e := DeploymentEdit(ck', spec', ctl', d).value;
            DeploymentEdit(ck, spec, ctl, e) == Some(e)
  {
    var e := DeploymentEdit(ck', spec', ctl', d).value;
    if ctl == ctl' {
      StaysFixed(d, Claimant(ck.name, spec.volumes), Claimant(ck'.name, spec'.volumes));
    } else if ctl.SchedulingController? {
      assert Schedule(e.pod, spec.scheduling) == e.pod;
    } else {
      var p := AttachVolumes(d.pod, ck.name, spec.volumes);
      assert p == d.pod;
      assert AttachVolumes(e.pod, ck.name, spec.volumes) == e.pod;
    }
  }

  lemma EditKeepsSelector(ck: CrKey, spec: Spec, ctl: Controller, d: Deployment)
    requires DeploymentEdit(ck, spec, ctl, d).Some?
    ensures DeploymentEdit(ck, spec, ctl, d).value.Selector() == d.Selector()
  {
  }
}
