/**
 The fold that the Storage writer performs on the volumes of a pod and on the volume mounts of its
 first container: for each listed volume, find by name, else append.
 */
module VolumeUpsert {
  import opened Wrappers
  import opened NamedList
  import opened Specs

  /** What is written for a listed volume where a value `o` stood before. */
  type Writer<!V> = (VolumeSpec, Option<V>) -> V

  /** A later write under the same name hides an earlier one. */
  ghost predicate Absorbing<V(!new)>(w: Writer<V>) {
    forall u: VolumeSpec, v: VolumeSpec, o: Option<V> :: u.name == v.name ==> w(v, Some(w(u, o))) == w(v, o)
  }

  function PutVolume<V>(xs: seq<Named<V>>, vol: VolumeSpec, w: Writer<V>): seq<Named<V>> {
    PutNamed(xs, vol.name, w(vol, Lookup(xs, vol.name)))
  }

  function PutAll<V>(xs: seq<Named<V>>, vols: seq<VolumeSpec>, w: Writer<V>): seq<Named<V>> {
    if vols == [] then xs else PutVolume(PutAll(xs, vols[..|vols| - 1], w), vols[|vols| - 1], w)
  }

  lemma PutAllStep<V>(xs: seq<Named<V>>, vols: seq<VolumeSpec>, w: Writer<V>, k: nat)
    requires k < |vols|
    ensures PutAll(xs, vols[..k + 1], w) == PutVolume(PutAll(xs, vols[..k], w), vols[k], w)
  {
    assert vols[..k + 1][..k] == vols[..k];
  }

  /** The last listed volume of a name. */
  function Last(vols: seq<VolumeSpec>, n: string): Option<VolumeSpec> {
    if vols == [] then None
    else if vols[|vols| - 1].name == n then Some(vols[|vols| - 1])
    else Last(vols[..|vols| - 1], n)
  }

  lemma {:induction false} LastListed(vols: seq<VolumeSpec>, n: string)
    ensures Last(vols, n).Some? <==> exists v :: v in vols && v.name == n
    ensures Last(vols, n).Some? ==> Last(vols, n).value in vols && Last(vols, n).value.name == n
  {
    if vols != [] {
      LastListed(vols[..|vols| - 1], n);
      assert forall v :: v in vols <==> v in vols[..|vols| - 1] || v == vols[|vols| - 1];
    }
  }

  /** The names that the fold appends, in order of first appearance. */
  function NewNames(ns: seq<string>, vols: seq<VolumeSpec>): seq<string> {
    if vols == [] then []
    else
      var r := NewNames(ns, vols[..|vols| - 1]);
      var n := vols[|vols| - 1].name;
      if n in ns || n in r then r else r + [n]
  }

  lemma {:induction false} NewNamesExact(ns: seq<string>, vols: seq<VolumeSpec>)
    ensures Distinct(NewNames(ns, vols))
    ensures forall n :: n in NewNames(ns, vols) <==> n !in ns && Last(vols, n).Some?
    ensures |NewNames(ns, vols)| == |(set v | v in vols && v.name !in ns :: v.name)|
  {
    var r := NewNames(ns, vols);
    if vols != [] {
      NewNamesExact(ns, vols[..|vols| - 1]);
    }
    forall n
      ensures n in r <==> n in (set v | v in vols && v.name !in ns :: v.name)
    {
      LastListed(vols, n);
    }
    DistinctSize(r, set v | v in vols && v.name !in ns :: v.name);
  }

  lemma {:induction false} DistinctSize(r: seq<string>, s: set<string>)
    requires Distinct(r) && forall n :: n in r <==> n in s
    ensures |r| == |s|
  {
    if r == [] {
      assert s == {};
    } else {
      var front, last := r[..|r| - 1], r[|r| - 1];
      assert forall n :: n in front <==> n in s - {last};
      DistinctSize(front, s - {last});
    }
  }

  /** Listed names map to the write of their last listing; every other lookup is unchanged. */
  lemma {:induction false} LookupPutAll<V(!new)>(xs: seq<Named<V>>, vols: seq<VolumeSpec>, w: Writer<V>, n: string)
    requires Absorbing(w)
    ensures Lookup(PutAll(xs, vols, w), n) ==
            match Last(vols, n)
            case None => Lookup(xs, n)
            case Some(v) => Some(w(v, Lookup(xs, n)))
  {
    if vols != [] {
      var front, vol := vols[..|vols| - 1], vols[|vols| - 1];
      var ys := PutAll(xs, front, w);
      LookupPutAll(xs, front, w, n);
      LookupPut(ys, vol.name, w(vol, Lookup(ys, vol.name)), n);
      LastListed(front, n);
    }
  }

  /** Original items stay in place, in order, as a prefix; the new names follow. */
  lemma {:induction false} NamesPutAll<V>(xs: seq<Named<V>>, vols: seq<VolumeSpec>, w: Writer<V>)
    ensures Names(PutAll(xs, vols, w)) == Names(xs) + NewNames(Names(xs), vols)
  {
    if vols != [] {
      var front, vol := vols[..|vols| - 1], vols[|vols| - 1];
      var ys := PutAll(xs, front, w);
      NamesPutAll(xs, front, w);
      NamesPut(ys, vol.name, w(vol, Lookup(ys, vol.name)));
      LookupNames(ys, vol.name);
    }
  }

  /** Shadowed items, and items that no listed volume names, are left as they were. */
  lemma {:induction false} OthersUntouched<V>(xs: seq<Named<V>>, vols: seq<VolumeSpec>, w: Writer<V>, i: nat)
    requires i < |xs| && (Shadowed(xs, i) || Last(vols, xs[i].name).None?)
    ensures |PutAll(xs, vols, w)| >= |xs| && PutAll(xs, vols, w)[i] == xs[i]
  {
    if vols != [] {
      var front, vol := vols[..|vols| - 1], vols[|vols| - 1];
      var ys := PutAll(xs, front, w);
      OthersUntouched(xs, front, w, i);
      NamesPutAll(xs, front, w);
      if Shadowed(xs, i) {
        var j :| 0 <= j < i && xs[j].name == xs[i].name;
        assert Names(xs)[j] == Names(ys)[j];
      }
    }
  }

  /** Names stay unique when they were, and the length grows by the number of distinct new names. */
  lemma UniquePutAll<V>(xs: seq<Named<V>>, vols: seq<VolumeSpec>, w: Writer<V>)
    ensures Distinct(Names(xs)) ==> Distinct(Names(PutAll(xs, vols, w)))
    ensures |PutAll(xs, vols, w)| == |xs| + |(set v | v in vols && v.name !in Names(xs) :: v.name)|
  {
    NamesPutAll(xs, vols, w);
    NewNamesExact(Names(xs), vols);
    assert |Names(PutAll(xs, vols, w))| == |PutAll(xs, vols, w)|;
    if Distinct(Names(xs)) {
      var a, b := Names(xs), NewNames(Names(xs), vols);
      forall i, j | 0 <= i < j < |a + b|
        ensures (a + b)[i] != (a + b)[j]
      {
        if i < |a| <= j {
          assert b[j - |a|] in b && a[i] in a;
        }
      }
    }
  }

  /** Every listed name already holds what its last listing writes. */
  ghost predicate Settled<V>(xs: seq<Named<V>>, vols: seq<VolumeSpec>, w: Writer<V>) {
    forall v | v in vols ::
      Last(vols, v.name).Some? && Lookup(xs, v.name) == Some(w(Last(vols, v.name).value, Lookup(xs, v.name)))
  }

  /** The fold changes nothing exactly on the lists that are settled. */
  lemma FixedIffSettled<V(!new)>(xs: seq<Named<V>>, vols: seq<VolumeSpec>, w: Writer<V>)
    requires Absorbing(w)
    ensures PutAll(xs, vols, w) == xs <==> Settled(xs, vols, w)
  {
    var ys := PutAll(xs, vols, w);
    forall v | v in vols
      ensures Last(vols, v.name).Some? && Lookup(ys, v.name) == Some(w(Last(vols, v.name).value, Lookup(xs, v.name)))
    {
      LastListed(vols, v.name);
      LookupPutAll(xs, vols, w, v.name);
    }
    if Settled(xs, vols, w) {
      NamesPutAll(xs, vols, w);
      NewNamesExact(Names(xs), vols);
      forall n
        ensures Lookup(ys, n) == Lookup(xs, n)
        ensures Last(vols, n).Some? ==> n in Names(xs)
      {
        LookupPutAll(xs, vols, w, n);
        LastListed(vols, n);
        LookupNames(xs, n);
      }
      forall v | v in vols
        ensures v.name in Names(xs)
      {
        LastListed(vols, v.name);
      }
      assert (set v | v in vols && v.name !in Names(xs) :: v.name) == {};
      assert |ys| == |Names(ys)| == |xs|;
      forall i: nat | i < |ys| && Shadowed(ys, i)
        ensures ys[i] == xs[i]
      {
        var j :| 0 <= j < i && ys[j].name == ys[i].name;
        assert Names(xs)[j] == Names(ys)[j] && Names(xs)[i] == Names(ys)[i];
        OthersUntouched(xs, vols, w, i);
      }
      SameList(ys, xs);
    }
  }

  /** A second pass changes nothing, for every list and every spec, duplicates included. */
  lemma PutAllIdempotent<V(!new)>(xs: seq<Named<V>>, vols: seq<VolumeSpec>, w: Writer<V>)
    requires Absorbing(w)
    ensures PutAll(PutAll(xs, vols, w), vols, w) == PutAll(xs, vols, w)
  {
    var ys := PutAll(xs, vols, w);
    forall v | v in vols
      ensures Last(vols, v.name).Some? && Lookup(ys, v.name) == Some(w(Last(vols, v.name).value, Lookup(ys, v.name)))
    {
      LastListed(vols, v.name);
      LookupPutAll(xs, vols, w, v.name);
    }
    FixedIffSettled(ys, vols, w);
  }

  /** A pass over volumes of other names leaves a settled list settled. */
  lemma DisjointKeepsSettled<V(!new)>(xs: seq<Named<V>>, mine: seq<VolumeSpec>, w: Writer<V>,
                                      theirs: seq<VolumeSpec>, w': Writer<V>)
    requires Absorbing(w) && Absorbing(w')
    requires forall u, v | u in mine && v in theirs :: u.name != v.name
    requires Settled(xs, mine, w)
    ensures Settled(PutAll(xs, theirs, w'), mine, w)
  {
    forall v | v in mine
      ensures Lookup(PutAll(xs, theirs, w'), v.name) == Lookup(xs, v.name)
    {
      LastListed(theirs, v.name);
      LookupPutAll(xs, theirs, w', v.name);
    }
  }
}
