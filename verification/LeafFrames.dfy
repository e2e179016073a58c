/**
 What executing a list of leaf operations can and cannot touch: frames, locality, ownership, and
 the effect of a run that stops at its first error.
 */
module LeafFrames {
  import opened Wrappers
  import opened JsonTree
  import opened TreeEdit
  import opened EscapeHatch
  import opened Specs
  import opened VolumeUpsert
  import opened DeploymentWriters
  import opened Cluster

  function KeyOf(op: LeafOp): set<LeafKey> {
    match op
    case Erase(key) => {key}
    case Write(key, _) => {key}
    case Reject => {}
  }

  function KeysOf(ops: seq<LeafOp>): set<LeafKey> {
    if ops == [] then {} else KeyOf(ops[0]) + KeysOf(ops[1..])
  }

  /** Only the keys of the operations can change. */
  lemma {:induction false} ExecFrame(types: Types, owner: Owner, hs: seq<Hatch>, ops: seq<LeafOp>,
                                     leaves: map<LeafKey, Leaf>, key: LeafKey)
    requires key !in KeysOf(ops)
    ensures Get(Exec(types, owner, hs, ops, leaves).leaves, key) == Get(leaves, key)
  {
    if ops != [] {
      var first := ExecOp(types, owner, hs, ops[0], leaves);
      ExecFrame(types, owner, hs, ops[1..], first.leaves, key);
    }
  }

  /** Only the keys of the operations matter. */
  lemma {:induction false} ExecLocal(types: Types, owner: Owner, hs: seq<Hatch>, ops: seq<LeafOp>,
                                     a: map<LeafKey, Leaf>, b: map<LeafKey, Leaf>)
    requires forall k | k in KeysOf(ops) :: Get(a, k) == Get(b, k)
    ensures var x, y := Exec(types, owner, hs, ops, a), Exec(types, owner, hs, ops, b);
            x.ok == y.ok && forall k | k in KeysOf(ops) :: Get(x.leaves, k) == Get(y.leaves, k)
  {
    if ops != [] {
      var x, y := ExecOp(types, owner, hs, ops[0], a), ExecOp(types, owner, hs, ops[0], b);
      assert KeyOf(ops[0]) <= KeysOf(ops);
      match ops[0] {
        case Write(key, _) =>
          assert key in KeyOf(ops[0]);
          assert Get(a, key) == Get(b, key);
        case Erase(key) =>
        case Reject =>
      }
      assert x.ok == y.ok;
      forall k | k in KeysOf(ops)
        ensures Get(x.leaves, k) == Get(y.leaves, k)
      {
        assert Get(a, k) == Get(b, k);
      }
      if x.ok {
        ExecLocal(types, owner, hs, ops[1..], x.leaves, y.leaves);
        forall k | k in KeysOf(ops) && k !in KeysOf(ops[1..])
          ensures Get(Exec(types, owner, hs, ops, a).leaves, k) == Get(Exec(types, owner, hs, ops, b).leaves, k)
        {
          ExecFrame(types, owner, hs, ops[1..], x.leaves, k);
          ExecFrame(types, owner, hs, ops[1..], y.leaves, k);
        }
      }
    }
  }

  /** Executing a plan leaves the store alone exactly when it leaves the entries of its keys alone. */
  lemma FixedElsewhere(types: Types, owner: Owner, hs: seq<Hatch>, ops: seq<LeafOp>,
                       a: map<LeafKey, Leaf>, b: map<LeafKey, Leaf>)
    requires forall k | k in KeysOf(ops) :: Get(a, k) == Get(b, k)
    requires Exec(types, owner, hs, ops, a).leaves == a
    ensures Exec(types, owner, hs, ops, b).leaves == b
    ensures Exec(types, owner, hs, ops, b).ok == Exec(types, owner, hs, ops, a).ok
  {
    ExecLocal(types, owner, hs, ops, a, b);
    var r := Exec(types, owner, hs, ops, b).leaves;
    forall k
      ensures Get(r, k) == Get(b, k)
    {
      if k !in KeysOf(ops) {
        ExecFrame(types, owner, hs, ops, b, k);
      }
    }
    SameEntries(r, b);
  }

  // ----- Ownership

  /** An object controlled by one owner is never rewritten by the write operations of another. */
  lemma {:induction false} WritesRespectOwner(types: Types, owner: Owner, hs: seq<Hatch>, ops: seq<LeafOp>,
                                              leaves: map<LeafKey, Leaf>, key: LeafKey)
    requires key in leaves && leaves[key].owner.Some? && leaves[key].owner.value != owner
    requires forall op | op in ops :: !op.Erase?
    ensures Get(Exec(types, owner, hs, ops, leaves).leaves, key) == Some(leaves[key])
  {
    if ops != [] {
      var first := ExecOp(types, owner, hs, ops[0], leaves);
      assert ops[0] in ops;
      if first.ok {
        WritesRespectOwner(types, owner, hs, ops[1..], first.leaves, key);
      }
    }
  }

  /** Every leaf plan is a single operation or consists of writes. */
  lemma PlanShape(ck: CrKey, spec: Spec, ctl: Controller, selector: Json)
    ensures var plan := Plan(ck, spec, ctl, selector);
            |plan| == 1 || forall op | op in plan :: !op.Erase?
    ensures forall op | op in Plan(ck, spec, ctl, selector), k | k in KeyOf(op) :: k.namespace == ck.namespace
  {
  }

  lemma {:induction false} KeysOfMember(ops: seq<LeafOp>, k: LeafKey)
    ensures k in KeysOf(ops) <==> exists op :: op in ops && k in KeyOf(op)
  {
    if ops != [] {
      KeysOfMember(ops[1..], k);
      assert forall op :: op in ops <==> op == ops[0] || op in ops[1..];
    }
  }

  // ----- Stopping at the first error

  /** The effects of a failed execution are exactly those of the operations before the failing one. */
  lemma {:induction false} FirstFailure(types: Types, owner: Owner, hs: seq<Hatch>, ops: seq<LeafOp>,
                                        leaves: map<LeafKey, Leaf>)
    returns (k: nat)
    requires !Exec(types, owner, hs, ops, leaves).ok
    ensures k < |ops|
    ensures var before := Exec(types, owner, hs, ops[..k], leaves);
            before.ok && Exec(types, owner, hs, ops, leaves).leaves == before.leaves &&
            !ExecOp(types, owner, hs, ops[k], before.leaves).ok
  {
    var first := ExecOp(types, owner, hs, ops[0], leaves);
    if !first.ok {
      k := 0;
      assert ops[..0] == [];
    } else {
      var k' := FirstFailure(types, owner, hs, ops[1..], first.leaves);
      k := k' + 1;
      assert ops[..k][0] == ops[0] && ops[..k][1..] == ops[1..][..k'];
    }
  }

  lemma {:induction false} ExecAppend(types: Types, owner: Owner, hs: seq<Hatch>, a: seq<LeafOp>, b: seq<LeafOp>,
                                      leaves: map<LeafKey, Leaf>)
    ensures var x := Exec(types, owner, hs, a, leaves);
            Exec(types, owner, hs, a + b, leaves) == if x.ok then Exec(types, owner, hs, b, x.leaves) else x
  {
    if a == [] {
      assert a + b == b;
    } else {
      assert (a + b)[1..] == a[1..] + b;
      var first := ExecOp(types, owner, hs, a[0], leaves);
      if first.ok {
        ExecAppend(types, owner, hs, a[1..], b, first.leaves);
      }
    }
  }

  // ----- Persistent volume claims

  /** Claim keys are injective in the volume name within one Storage. */
  lemma PvcKeyInjective(ck: CrKey, u: string, v: string)
    ensures PvcKey(ck, u) == PvcKey(ck, v) <==> u == v
  {
    var x, y := ClaimName(ck.name, u), ClaimName(ck.name, v);
    assert x[|ck.name| + 1..] == u;
    assert y[|ck.name| + 1..] == v;
  }

  /**
   The longer Storage name is the shorter one, a dash and some w; the volume of the shorter is w, a
   dash and the other volume.
   */
  predicate Nested(s: string, u: string, t: string, v: string) {
    |s| < |t| && t[..|s| + 1] == s + "-" && u == t[|s| + 1..] + "-" + v
  }

  /** The same with w named. */
  lemma NestedIff(s: string, u: string, t: string, v: string)
    ensures Nested(s, u, t, v) <==> exists w :: t == s + "-" + w && u == w + "-" + v
  {
    if Nested(s, u, t, v) {
      assert t == t[..|s| + 1] + t[|s| + 1..];
    }
    if w :| t == s + "-" + w && u == w + "-" + v {
      assert t[..|s| + 1] == s + "-" && t[|s| + 1..] == w;
    }
  }

  /** The Storage and volume names of two claims with one name. */
  predicate NamesMeet(s: string, u: string, t: string, v: string) {
    (s == t && u == v) || Nested(s, u, t, v) || Nested(t, v, s, u)
  }

  /** Across Storages two claims share a name exactly if they are the same claim or the names are nested in this way. */
  lemma ClaimNamesMeetIff(s: string, u: string, t: string, v: string)
    ensures ClaimName(s, u) == ClaimName(t, v) <==> NamesMeet(s, u, t, v)
    ensures |s| < |t| ==>
              (ClaimName(s, u) == ClaimName(t, v) <==> exists w :: t == s + "-" + w && u == w + "-" + v)
  {
    if |s| <= |t| {
      ClaimNamesMeetAt(s, u, t, v);
      NestedIff(s, u, t, v);
    } else {
      ClaimNamesMeetAt(t, v, s, u);
    }
  }

  lemma ClaimNamesMeetAt(s: string, u: string, t: string, v: string)
    requires |s| <= |t|
    ensures ClaimName(s, u) == ClaimName(t, v) <==> (s == t && u == v) || Nested(s, u, t, v)
  {
    var x, y := ClaimName(s, u), ClaimName(t, v);
    assert x[..|s|] == s && x[..|s| + 1] == s + "-" && x[|s| + 1..] == u;
    assert y[..|t|] == t && y[|t| + 1..] == v;
    if |s| < |t| {
      assert y[..|s| + 1] == t[..|s| + 1] && y[|s| + 1..] == t[|s| + 1..] + "-" + v;
      assert x == x[..|s| + 1] + x[|s| + 1..] && y == y[..|s| + 1] + y[|s| + 1..];
    }
  }

  /** For example, claim b-c of Storage a and claim c of Storage a-b. */
  lemma PvcKeysCollide(namespace: string)
    ensures PvcKey(CrKey(Storage, namespace, "a"), "b-c") == PvcKey(CrKey(Storage, namespace, "a-b"), "c")
  {
    ClaimNamesMeetIff("a", "b-c", "a-b", "c");
    assert "a-b"[..2] == "a-" && "a-b"[2..] == "b";
  }

  predicate NoHatchesFor(hs: seq<Hatch>, kind: string) {
    forall h | h in hs :: h.kind != kind
  }

  lemma {:induction false} NoHatchesNoChange(types: Types, kind: string, hs: seq<Hatch>, doc: Json)
    requires NoHatchesFor(hs, kind)
    ensures ApplyHatches(types, kind, hs, doc) == Success(doc)
  {
    if hs != [] {
      assert hs[0] in hs;
      NoHatchesNoChange(types, kind, hs[1..], doc);
    }
  }

  /** The claim at `key` belongs to the Storage and holds everything that the volume asks for. */
  predicate HoldsVolume(leaves: map<LeafKey, Leaf>, ck: CrKey, storageClassName: string, vol: VolumeSpec) {
    var key := PvcKey(ck, vol.name);
    vol.quantity.Some? && key in leaves && leaves[key].owner == Some(CrOwner(ck)) &&
    Apply(PvcEdit(AccessModes(vol), vol.quantity.value, storageClassName), Some(leaves[key].doc)) ==
      Some(leaves[key].doc)
  }

  /** The pass over one more volume. */
  lemma PvcOneMore(types: Types, ck: CrKey, hs: seq<Hatch>, storageClassName: string, vols: seq<VolumeSpec>,
                   leaves: map<LeafKey, Leaf>)
    requires vols != []
    ensures var front, op :=
              PvcOps(ck, storageClassName, vols[..|vols| - 1]), PvcOp(ck, storageClassName, vols[|vols| - 1]);
            var x := Exec(types, CrOwner(ck), hs, front, leaves);
            Exec(types, CrOwner(ck), hs, PvcOps(ck, storageClassName, vols), leaves) ==
            if x.ok then ExecOp(types, CrOwner(ck), hs, op, x.leaves) else x
  {
    var front, op := PvcOps(ck, storageClassName, vols[..|vols| - 1]), PvcOp(ck, storageClassName, vols[|vols| - 1]);
    assert PvcOps(ck, storageClassName, vols) == front + [op];
    ExecAppend(types, CrOwner(ck), hs, front, [op], leaves);
    ExecSingle(types, CrOwner(ck), hs, [op], Exec(types, CrOwner(ck), hs, front, leaves).leaves);
  }

  lemma WrittenHoldsVolume(types: Types, ck: CrKey, hs: seq<Hatch>, storageClassName: string, vol: VolumeSpec,
                           leaves: map<LeafKey, Leaf>)
    requires NoHatchesFor(hs, KindName(Pvc))
    requires ExecOp(types, CrOwner(ck), hs, PvcOp(ck, storageClassName, vol), leaves).ok
    ensures HoldsVolume(ExecOp(types, CrOwner(ck), hs, PvcOp(ck, storageClassName, vol), leaves).leaves, ck,
                        storageClassName, vol)
  {
    var e := PvcEdit(AccessModes(vol), vol.quantity.value, storageClassName);
    var stored := Get(leaves, PvcKey(ck, vol.name));
    var blank := if stored.Some? then stored.value.doc else Obj(map[]);
    NoHatchesNoChange(types, KindName(Pvc), hs, Apply(e, Some(blank)).value);
    ApplyIdempotent(e, Some(blank));
  }

  /** On success each derived name holds the spec of the last listed volume of that name. */
  lemma {:induction false} PvcLastWins(types: Types, ck: CrKey, hs: seq<Hatch>, storageClassName: string,
                                       vols: seq<VolumeSpec>, leaves: map<LeafKey, Leaf>, n: string)
    requires NoHatchesFor(hs, KindName(Pvc))
    requires Exec(types, CrOwner(ck), hs, PvcOps(ck, storageClassName, vols), leaves).ok
    requires Last(vols, n).Some?
    ensures HoldsVolume(Exec(types, CrOwner(ck), hs, PvcOps(ck, storageClassName, vols), leaves).leaves,
                        ck, storageClassName, Last(vols, n).value)
  {
    var front, vol := vols[..|vols| - 1], vols[|vols| - 1];
    PvcOneMore(types, ck, hs, storageClassName, vols, leaves);
    var before := Exec(types, CrOwner(ck), hs, PvcOps(ck, storageClassName, front), leaves).leaves;
    PvcKeyInjective(ck, vol.name, n);
    if vol.name == n {
      WrittenHoldsVolume(types, ck, hs, storageClassName, vol, before);
    } else {
      PvcLastWins(types, ck, hs, storageClassName, front, leaves, n);
      LastListed(front, n);
    }
  }

  /** The keys of the pass are the derived names of the volumes whose size parses. */
  lemma {:induction false} PvcKeysOf(ck: CrKey, storageClassName: string, vols: seq<VolumeSpec>, k: LeafKey)
    ensures k in KeysOf(PvcOps(ck, storageClassName, vols)) <==>
            exists v :: v in vols && v.quantity.Some? && k == PvcKey(ck, v.name)
  {
    if vols != [] {
      assert PvcOps(ck, storageClassName, vols)[1..] == PvcOps(ck, storageClassName, vols[1..]);
      PvcKeysOf(ck, storageClassName, vols[1..], k);
      assert forall v :: v in vols <==> v == vols[0] || v in vols[1..];
    }
  }

  /** A volume that an unhatched pass can write: its size parses and nobody else controls its claim. */
  predicate Writable(leaves: map<LeafKey, Leaf>, ck: CrKey, vol: VolumeSpec) {
    var key := LeafKey(Pvc, ck.namespace, ck.name + "-" + vol.name);
    vol.quantity.Some? && (key in leaves ==> leaves[key].owner in {None, Some(CrOwner(ck))})
  }

  /** The pass succeeds exactly when every listed volume can be written in the store it starts from. */
  lemma {:induction false} PvcSucceedsIff(types: Types, ck: CrKey, hs: seq<Hatch>, storageClassName: string,
                                          vols: seq<VolumeSpec>, leaves: map<LeafKey, Leaf>)
    requires NoHatchesFor(hs, KindName(Pvc))
    ensures Exec(types, CrOwner(ck), hs, PvcOps(ck, storageClassName, vols), leaves).ok <==>
            forall v | v in vols :: Writable(leaves, ck, v)
  {
    if vols != [] {
      var front, vol := vols[..|vols| - 1], vols[|vols| - 1];
      PvcOneMore(types, ck, hs, storageClassName, vols, leaves);
      assert forall v :: v in vols <==> v in front || v == vol;
      PvcSucceedsIff(types, ck, hs, storageClassName, front, leaves);
      var before := Exec(types, CrOwner(ck), hs, PvcOps(ck, storageClassName, front), leaves);
      if before.ok {
        WritableLater(types, ck, hs, storageClassName, front, leaves, vol);
        OpSucceedsIff(types, ck, hs, storageClassName, vol, before.leaves);
      }
    }
  }

  lemma OpSucceedsIff(types: Types, ck: CrKey, hs: seq<Hatch>, storageClassName: string, vol: VolumeSpec,
                      leaves: map<LeafKey, Leaf>)
    requires NoHatchesFor(hs, KindName(Pvc))
    ensures ExecOp(types, CrOwner(ck), hs, PvcOp(ck, storageClassName, vol), leaves).ok <==> Writable(leaves, ck, vol)
  {
    if vol.quantity.Some? {
      var stored := Get(leaves, PvcKey(ck, vol.name));
      var blank := if stored.Some? then stored.value.doc else Obj(map[]);
      NoHatchesNoChange(types, KindName(Pvc), hs,
                        Apply(PvcEdit(AccessModes(vol), vol.quantity.value, storageClassName),
                              Some(blank)).GetOr(Null));
    }
  }

  /** Earlier volumes of the pass leave a claim as it was, or make it the Storage's own. */
  lemma WritableLater(types: Types, ck: CrKey, hs: seq<Hatch>, storageClassName: string, front: seq<VolumeSpec>,
                      leaves: map<LeafKey, Leaf>, vol: VolumeSpec)
    requires NoHatchesFor(hs, KindName(Pvc))
    requires Exec(types, CrOwner(ck), hs, PvcOps(ck, storageClassName, front), leaves).ok
    requires forall v | v in front :: Writable(leaves, ck, v)
    ensures Writable(Exec(types, CrOwner(ck), hs, PvcOps(ck, storageClassName, front), leaves).leaves, ck, vol) <==>
            Writable(leaves, ck, vol)
  {
    var ops := PvcOps(ck, storageClassName, front);
    var key := PvcKey(ck, vol.name);
    LastListed(front, vol.name);
    if Last(front, vol.name).Some? {
      PvcLastWins(types, ck, hs, storageClassName, front, leaves, vol.name);
      var v := Last(front, vol.name).value;
      assert Writable(leaves, ck, v);
    } else {
      PvcKeysOf(ck, storageClassName, front, key);
      if key in KeysOf(ops) {
        var v :| v in front && key == PvcKey(ck, v.name);
        PvcKeyInjective(ck, v.name, vol.name);
      } else {
        ExecFrame(types, CrOwner(ck), hs, ops, leaves, key);
      }
    }
  }

  /**
   The PVC pass over a volume list, hatches included: no other key changes; if it fails, there is a
   first volume n that failed and the store holds exactly the effects of the volumes before it.
   */
  lemma PvcPass(types: Types, ck: CrKey, hs: seq<Hatch>, storageClassName: string, vols: seq<VolumeSpec>,
                leaves: map<LeafKey, Leaf>)
    ensures var r := Exec(types, CrOwner(ck), hs, PvcOps(ck, storageClassName, vols), leaves);
            (forall k :: (forall v | v in vols :: k != PvcKey(ck, v.name)) ==> Get(r.leaves, k) == Get(leaves, k)) &&
            (!r.ok ==> exists n: nat :: n < |vols| && StoppedAt(types, ck, hs, storageClassName, vols, leaves, n))
  {
    var ops := PvcOps(ck, storageClassName, vols);
    var r := Exec(types, CrOwner(ck), hs, ops, leaves);
    forall k | forall v | v in vols :: k != PvcKey(ck, v.name)
      ensures Get(r.leaves, k) == Get(leaves, k)
    {
      PvcKeysOf(ck, storageClassName, vols, k);
      if k !in KeysOf(ops) {
        ExecFrame(types, CrOwner(ck), hs, ops, leaves, k);
      }
    }
    if !r.ok {
      var n := FirstFailure(types, CrOwner(ck), hs, ops, leaves);
      assert PvcOps(ck, storageClassName, vols[..n]) == ops[..n];
      assert StoppedAt(types, ck, hs, storageClassName, vols, leaves, n);
    }
  }

  predicate StoppedAt(types: Types, ck: CrKey, hs: seq<Hatch>, storageClassName: string, vols: seq<VolumeSpec>,
                      leaves: map<LeafKey, Leaf>, n: nat)
    requires n < |vols|
  {
    var before := Exec(types, CrOwner(ck), hs, PvcOps(ck, storageClassName, vols[..n]), leaves);
    before.ok && !ExecOp(types, CrOwner(ck), hs, PvcOp(ck, storageClassName, vols[n]), before.leaves).ok &&
    Exec(types, CrOwner(ck), hs, PvcOps(ck, storageClassName, vols), leaves) == LeafOutcome(before.leaves, false)
  }
}
