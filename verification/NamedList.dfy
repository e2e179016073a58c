/**
 Go slices of named items (volumes, volume mounts) that are searched by name from the front.
 `PutNamed` is the find-by-name, else append step of the Storage writer; this module refines a
 fold of such steps to a lookup specification.
 */
module NamedList {
  import opened Wrappers

  datatype Named<+V> = Named(name: string, value: V)

  /** Position of the first item called `n`, or the length of the list. */
  function Find<V>(xs: seq<Named<V>>, n: string): (i: nat)
    ensures i <= |xs|
    ensures i < |xs| ==> xs[i].name == n
    ensures forall j: nat :: j < i ==> xs[j].name != n
  {
    if xs == [] || xs[0].name == n then 0 else 1 + Find(xs[1..], n)
  }

  function Lookup<V>(xs: seq<Named<V>>, n: string): Option<V> {
    var i := Find(xs, n);
    if i < |xs| then Some(xs[i].value) else None
  }

  /** Overwrite the first item called `n`, or append one. */
  function PutNamed<V>(xs: seq<Named<V>>, n: string, v: V): seq<Named<V>> {
    var i := Find(xs, n);
    if i < |xs| then xs[i := Named(n, v)] else xs + [Named(n, v)]
  }

  function Names<V>(xs: seq<Named<V>>): seq<string> {
    seq(|xs|, i requires 0 <= i < |xs| => xs[i].name)
  }

  ghost predicate Distinct(ns: seq<string>) {
    forall i, j :: 0 <= i < j < |ns| ==> ns[i] != ns[j]
  }

  lemma FindUnique<V>(xs: seq<Named<V>>, n: string, i: nat)
    requires i <= |xs| && (i < |xs| ==> xs[i].name == n)
    requires forall j: nat :: j < i ==> xs[j].name != n
    ensures Find(xs, n) == i
  {
  }

  /** Lookups after a put, at every name. */
  lemma LookupPut<V>(xs: seq<Named<V>>, n: string, v: V, m: string)
    ensures Lookup(PutNamed(xs, n, v), m) == if m == n then Some(v) else Lookup(xs, m)
  {
    var i, k := Find(xs, n), Find(xs, m);
    var ys := PutNamed(xs, n, v);
    if m == n {
      FindUnique(ys, n, i);
    } else if i < |xs| || k < |xs| {
      FindUnique(ys, m, k);
    } else {
      FindUnique(ys, m, |ys|);
    }
  }

  lemma NamesPut<V>(xs: seq<Named<V>>, n: string, v: V)
    ensures Names(PutNamed(xs, n, v)) == if Lookup(xs, n).Some? then Names(xs) else Names(xs) + [n]
  {
  }

  /** Only the first item of its name is ever visible; the others are shadowed. */
  ghost predicate Shadowed<V>(xs: seq<Named<V>>, i: nat)
    requires i < |xs|
  {
    exists j :: 0 <= j < i && xs[j].name == xs[i].name
  }

  /** A list is determined by its names, its lookups and its shadowed items. */
  lemma SameList<V>(xs: seq<Named<V>>, ys: seq<Named<V>>)
    requires Names(xs) == Names(ys)
    requires forall n :: Lookup(xs, n) == Lookup(ys, n)
    requires |xs| == |ys| && forall i: nat :: i < |xs| && Shadowed(xs, i) ==> xs[i] == ys[i]
    ensures xs == ys
  {
    forall i: nat | i < |xs|
      ensures xs[i] == ys[i]
    {
      assert Names(xs)[i] == Names(ys)[i];
      if !Shadowed(xs, i) {
        forall j: nat | j < i
          ensures ys[j].name != ys[i].name
        {
          assert Names(xs)[j] == Names(ys)[j];
        }
        FindUnique(xs, xs[i].name, i);
        FindUnique(ys, xs[i].name, i);
        assert Lookup(xs, xs[i].name) == Lookup(ys, xs[i].name);
      }
    }
  }

  lemma LookupNames<V>(xs: seq<Named<V>>, n: string)
    ensures Lookup(xs, n).Some? <==> n in Names(xs)
  {
    var f := Find(xs, n);
    if f < |xs| {
      assert Names(xs)[f] == n;
    }
    forall i | 0 <= i < |xs| && Names(xs)[i] == n
      ensures f < |xs|
    {
      assert xs[i].name == n;
    }
  }
}
