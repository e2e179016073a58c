/**
 Merge diffs taken from stale reads. The API server applies each diff to the Deployment it has
 now; nothing makes it equal to the one the sender read.
 */
module StaleReads {
  import opened Wrappers
  import opened JsonTree
  import opened Specs
  import opened VolumeUpsert
  import opened Deployments
  import opened DeploymentWriters

  /** The Deployment stored once the server has applied to `cur` the diff of an edit of `read`. */
  function Land(cur: Deployment, read: Deployment, edited: Deployment): Option<Deployment> {
    Decode(Merge(Encode(cur), Diff(Encode(read), Encode(edited))))
  }

  lemma NoDiff(x: Json, a: Json)
    requires x.Obj? && a.Obj?
    ensures Merge(x, Diff(a, a)) == x
  {
    assert Diff(a, a) == Obj(map[]);
    assert Merge(x, Obj(map[])).fields == x.fields;
  }

  /** A diff of documents that differ below one member lands below that member. */
  lemma LandUnder(c: map<string, Json>, o: map<string, Json>, k: string, x: Json, a: Json, b: Json)
    requires x.Obj? && a.Obj? && b.Obj?
    ensures Merge(Obj(c[k := x]), Diff(Obj(o[k := a]), Obj(o[k := b]))) == Obj(c[k := Merge(x, Diff(a, b))])
  {
    var cur, read, edited := Obj(c[k := x]), Obj(o[k := a]), Obj(o[k := b]);
    var r := Merge(cur, Diff(read, edited));
    var want := c[k := Merge(x, Diff(a, b))];
    if a == b {
      NoDiff(x, a);
    }
    forall j
      ensures Get(r.fields, j) == Get(want, j)
    {
      LandFields(cur, read, edited, j);
    }
    SameEntries(r.fields, want);
  }

  /** If each field of the pod lands as in `q`, then `q` is stored and the rest of `cur` is untouched. */
  lemma LandPod(cur: Deployment, read: Deployment, p: PodSpec, q: PodSpec)
    requires forall k :: PodField(q, k) == LandField(PodField(cur.pod, k), PodField(read.pod, k), PodField(p, k))
    ensures Land(cur, read, read.(pod := p)) == Some(cur.(pod := q))
  {
    var x, a, b := EncodePod(cur.pod), EncodePod(read.pod), EncodePod(p);
    var m := Merge(x, Diff(a, b));
    forall k
      ensures Get(m.fields, k) == Get(EncodePod(q).fields, k)
    {
      LandFields(x, a, b, k);
      PodFields(cur.pod, k);
      PodFields(read.pod, k);
      PodFields(p, k);
      PodFields(q, k);
    }
    SameEntries(m.fields, EncodePod(q).fields);
    LandUnder(cur.template, read.template, "spec", x, a, b);
    LandUnder(cur.spec, read.spec, "template",
              Obj(cur.template["spec" := x]), Obj(read.template["spec" := a]), Obj(read.template["spec" := b]));
    LandUnder(cur.top, read.top, "spec",
              Obj(cur.spec["template" := Obj(cur.template["spec" := x])]),
              Obj(read.spec["template" := Obj(read.template["spec" := a])]),
              Obj(read.spec["template" := Obj(read.template["spec" := b])]));
    RoundTrip(cur.(pod := q));
  }

  function AttachTo(d: Deployment, storage: string, vols: seq<VolumeSpec>): Deployment {
    d.(pod := AttachVolumes(d.pod, storage, vols))
  }

  function ScheduleOn(d: Deployment, s: Scheduling): Deployment {
    d.(pod := Schedule(d.pod, s))
  }

  /** An array that changed replaces the one on the server whole; one that did not is not sent. */
  function Winner<T(==)>(cur: T, read: T, edited: T): T {
    if edited == read then cur else edited
  }

  /** The Storage diff writes its two lists and nothing else, on whatever the server has by then. */
  lemma LandStorage(cur: Deployment, read: Deployment, storage: string, vols: seq<VolumeSpec>)
    ensures var p := AttachVolumes(read.pod, storage, vols);
            Land(cur, read, AttachTo(read, storage, vols)) ==
            Some(cur.(pod := cur.pod.(volumes := Winner(cur.pod.volumes, read.pod.volumes, p.volumes),
                                      containers := Winner(cur.pod.containers, read.pod.containers, p.containers))))
  {
    var p := AttachVolumes(read.pod, storage, vols);
    var q := cur.pod.(volumes := Winner(cur.pod.volumes, read.pod.volumes, p.volumes),
                      containers := Winner(cur.pod.containers, read.pod.containers, p.containers));
    forall k
      ensures PodField(q, k) == LandField(PodField(cur.pod, k), PodField(read.pod, k), PodField(p, k))
    {
      if k == "volumes" || k == "containers" {
        ListsLand(cur.pod, read.pod, storage, vols);
      } else {
        assert PodField(read.pod, k) == PodField(p, k);
      }
    }
    LandPod(cur, read, p, q);
  }

  lemma ListsLand(cur: PodSpec, read: PodSpec, storage: string, vols: seq<VolumeSpec>)
    ensures var p := AttachVolumes(read, storage, vols);
            var q := cur.(volumes := Winner(cur.volumes, read.volumes, p.volumes),
                          containers := Winner(cur.containers, read.containers, p.containers));
            PodField(q, "volumes") ==
              LandField(PodField(cur, "volumes"), PodField(read, "volumes"), PodField(p, "volumes")) &&
            PodField(q, "containers") ==
              LandField(PodField(cur, "containers"), PodField(read, "containers"), PodField(p, "containers"))
  {
    var p := AttachVolumes(read, storage, vols);
    PodListsRoundTrip(read);
    PodListsRoundTrip(p);
    UniquePutAll(read.volumes, vols, ClaimWriter(storage));
  }

  lemma AffinityIsClean(a: Affinity)
    ensures NoNulls(AffinityJson(a))
  {
    forall k | k in AffinityJson(a).fields
      ensures NoNulls(AffinityJson(a).fields[k])
    {
    }
  }

  predicate SchedulingKey(k: string) {
    k == "nodeSelector" || k == "affinity" || k == "topologySpreadConstraints"
  }

  lemma SchedulingIsClean(p: PodSpec, s: Scheduling, k: string)
    requires s.IsSet() && SchedulingKey(k)
    ensures PodField(Schedule(p, s), k).None? || NoNulls(PodField(Schedule(p, s), k).value)
  {
    if k == "affinity" {
      AffinityIsClean(s.affinity);
    }
  }

  /** The Compute diff writes its three fields and nothing else. */
  lemma LandCompute(cur: Deployment, read: Deployment, s: Scheduling)
    requires ReadOrDone(cur.pod, read.pod, s)
    ensures Land(cur, read, ScheduleOn(read, s)) == Some(ScheduleOn(cur, s))
  {
    var p, q := Schedule(read.pod, s), Schedule(cur.pod, s);
    forall k
      ensures PodField(q, k) == LandField(PodField(cur.pod, k), PodField(read.pod, k), PodField(p, k))
    {
      SchedulingLands(cur.pod, read.pod, s, k);
    }
    LandPod(cur, read, p, q);
  }

  /** Each scheduling field on the server is as it was read, or already as the Compute wants it. */
  predicate ReadOrDone(cur: PodSpec, read: PodSpec, s: Scheduling) {
    (cur.nodeSelector == read.nodeSelector || cur.nodeSelector == s.nodeSelector) &&
    (cur.affinity == read.affinity || cur.affinity == Some(AffinityJson(s.affinity))) &&
    (cur.spread == read.spread || cur.spread == s.spread)
  }

  lemma SameScheduling(cur: PodSpec, read: PodSpec, s: Scheduling, k: string)
    requires s.IsSet() && ReadOrDone(cur, read, s) && SchedulingKey(k)
    ensures PodField(Schedule(cur, s), k) == PodField(Schedule(read, s), k)
    ensures PodField(cur, k) == PodField(read, k) || PodField(cur, k) == PodField(Schedule(read, s), k)
  {
  }

  lemma SchedulingLands(cur: PodSpec, read: PodSpec, s: Scheduling, k: string)
    requires ReadOrDone(cur, read, s)
    ensures PodField(Schedule(cur, s), k) ==
              LandField(PodField(cur, k), PodField(read, k), PodField(Schedule(read, s), k))
  {
    if s.IsSet() && SchedulingKey(k) {
      SchedulingIsClean(read, s, k);
      SameScheduling(cur, read, s, k);
      LandSettles(PodField(cur, k), PodField(read, k), PodField(Schedule(read, s), k));
    }
  }

  // ----- One Compute and one Storage on one Deployment

  datatype Writer = ComputeWriter | StorageWriter

  /** A writer sends the diff of its edit of the `readAt`-th state of the Deployment. */
  datatype Event = Event(who: Writer, readAt: nat)

  datatype Pair = Pair(scheduling: Scheduling, storage: string, volumes: seq<VolumeSpec>) {
    function Edited(who: Writer, d: Deployment): Deployment {
      match who
      case ComputeWriter => ScheduleOn(d, scheduling)
      case StorageWriter => AttachTo(d, storage, volumes)
    }

    /** The writers that acted, one after the other, each on a fresh read. */
    function Serial(d: Deployment, computeActed: bool, storageActed: bool): Deployment {
      var e := if storageActed then Edited(StorageWriter, d) else d;
      if computeActed then Edited(ComputeWriter, e) else e
    }

    function SerialFrom(d: Deployment): (bool, bool) -> Deployment {
      (computeActed: bool, storageActed: bool) => Serial(d, computeActed, storageActed)
    }

    /** A writer reads one state, and the diff of its edit lands on another. */
    function Send(): (Deployment, Deployment, Writer) -> Option<Deployment> {
      (cur: Deployment, read: Deployment, who: Writer) => Land(cur, read, Edited(who, read))
    }
  }

  /** `h` is a history under `events`: each diff is of some earlier state. */
  ghost predicate IsRun<D>(send: (D, D, Writer) -> Option<D>, h: seq<D>, events: seq<Event>) {
    |h| == |events| + 1 &&
    forall n: nat :: n < |events| ==>
      events[n].readAt <= n && send(h[n], h[events[n].readAt], events[n].who) == Some(h[n + 1])
  }

  /** Every diff of an earlier serial state moves a serial state to the serial state with its writer added. */
  ghost predicate Serializes<D(!new)>(send: (D, D, Writer) -> Option<D>, serial: (bool, bool) -> D) {
    forall who: Writer, c: bool, s: bool, c': bool, s': bool :: (c' ==> c) && (s' ==> s) ==>
      send(serial(c, s), serial(c', s'), who) == Some(serial(c || who == ComputeWriter, s || who == StorageWriter))
  }

  function Acted(events: seq<Event>, who: Writer): bool {
    if events == [] then false else events[|events| - 1].who == who || Acted(events[..|events| - 1], who)
  }

  lemma {:induction false} ActedMonotone(events: seq<Event>, who: Writer, n: nat)
    requires n <= |events| && Acted(events[..n], who)
    ensures Acted(events, who)
  {
    if n < |events| {
      assert events[..|events| - 1][..n] == events[..n];
      ActedMonotone(events[..|events| - 1], who, n);
    } else {
      assert events[..n] == events;
    }
  }

  lemma EarlierActs(events: seq<Event>, who: Writer, m: nat, n: nat)
    requires m <= n <= |events|
    ensures Acted(events[..m], who) ==> Acted(events[..n], who)
  {
    assert events[..n][..m] == events[..m];
    if Acted(events[..m], who) {
      ActedMonotone(events[..n], who, m);
    }
  }

  lemma MountTwice(cs: seq<Container>, vols: seq<VolumeSpec>)
    ensures MountFirst(MountFirst(cs, vols), vols) == MountFirst(cs, vols)
  {
    WritersAbsorb("");
    if cs != [] {
      PutAllIdempotent(cs[0].mounts, vols, MountWriter());
    }
  }

  lemma AttachTwice(p: PodSpec, storage: string, vols: seq<VolumeSpec>)
    ensures AttachVolumes(AttachVolumes(p, storage, vols), storage, vols) == AttachVolumes(p, storage, vols)
  {
    WritersAbsorb(storage);
    PutAllIdempotent(p.volumes, vols, ClaimWriter(storage));
    MountTwice(p.containers, vols);
  }

  /** The two lists of a serial state, and the state with the edited lists put in. */
  lemma SerialLists(w: Pair, d: Deployment, c: bool, s: bool)
    ensures var want := AttachVolumes(d.pod, w.storage, w.volumes);
            var e := w.Serial(d, c, s);
            e.pod.volumes == (if s then want.volumes else d.pod.volumes) &&
            e.pod.containers == (if s then want.containers else d.pod.containers) &&
            e.(pod := e.pod.(volumes := want.volumes, containers := want.containers)) == w.Serial(d, c, true)
  {
  }

  lemma SerialEdited(w: Pair, d: Deployment, c: bool, s: bool)
    ensures var want := AttachVolumes(d.pod, w.storage, w.volumes);
            var p := AttachVolumes(w.Serial(d, c, s).pod, w.storage, w.volumes);
            p.volumes == want.volumes && p.containers == want.containers
  {
    SerialLists(w, d, c, s);
    AttachTwice(d.pod, w.storage, w.volumes);
  }

  lemma StorageLands(w: Pair, d: Deployment, c: bool, s: bool, c': bool, s': bool)
    requires s' ==> s
    ensures var read := w.Serial(d, c', s');
            Land(w.Serial(d, c, s), read, w.Edited(StorageWriter, read)) == Some(w.Serial(d, c, true))
  {
    SerialLists(w, d, c, s);
    SerialLists(w, d, c', s');
    SerialEdited(w, d, c', s');
    LandStorage(w.Serial(d, c, s), w.Serial(d, c', s'), w.storage, w.volumes);
  }

  lemma ComputeLands(w: Pair, d: Deployment, c: bool, s: bool, c': bool, s': bool)
    requires c' ==> c
    ensures var read := w.Serial(d, c', s');
            Land(w.Serial(d, c, s), read, w.Edited(ComputeWriter, read)) == Some(w.Serial(d, true, s))
  {
    var cur, read := w.Serial(d, c, s), w.Serial(d, c', s');
    if w.scheduling.IsSet() {
      LandCompute(cur, read, w.scheduling);
    } else {
      NoDiff(Encode(cur), Encode(read));
      RoundTrip(cur);
    }
  }

  lemma DiffsSerialize(w: Pair, d: Deployment)
    ensures Serializes(w.Send(), w.SerialFrom(d))
  {
    forall who: Writer, c: bool, s: bool, c': bool, s': bool | (c' ==> c) && (s' ==> s)
      ensures w.Send()(w.Serial(d, c, s), w.Serial(d, c', s'), who) ==
              Some(w.Serial(d, c || who == ComputeWriter, s || who == StorageWriter))
    {
      match who
      case ComputeWriter => ComputeLands(w, d, c, s, c', s');
      case StorageWriter => StorageLands(w, d, c, s, c', s');
    }
  }

  lemma OneMoreAct(events: seq<Event>, who: Writer, n: nat)
    requires n < |events|
    ensures Acted(events[..n + 1], who) <==> Acted(events[..n], who) || events[n].who == who
  {
    assert events[..n + 1][..n] == events[..n];
  }

  /** In a protocol whose diffs serialize, every state is serial and every event can happen in it. */
  lemma {:induction false} HistorySerializes<D(!new)>(send: (D, D, Writer) -> Option<D>, serial: (bool, bool) -> D,
                                                     h: seq<D>, events: seq<Event>, n: nat)
    requires IsRun(send, h, events) && Serializes(send, serial) && h[0] == serial(false, false) && n <= |events|
    ensures h[n] == serial(Acted(events[..n], ComputeWriter), Acted(events[..n], StorageWriter))
    ensures forall m, who :: 0 <= m <= n ==> send(h[n], h[m], who).Some?
  {
    if n > 0 {
      var e := events[n - 1];
      HistorySerializes(send, serial, h, events, n - 1);
      HistorySerializes(send, serial, h, events, e.readAt);
      EarlierActs(events, ComputeWriter, e.readAt, n - 1);
      EarlierActs(events, StorageWriter, e.readAt, n - 1);
      OneMoreAct(events, ComputeWriter, n - 1);
      OneMoreAct(events, StorageWriter, n - 1);
    }
    forall m, who | 0 <= m <= n
      ensures send(h[n], h[m], who).Some?
    {
      if m < n {
        HistorySerializes(send, serial, h, events, m);
      }
      EarlierActs(events, ComputeWriter, m, n);
      EarlierActs(events, StorageWriter, m, n);
    }
  }

  /**
   No lost update: whatever earlier states the two writers read and however their diffs interleave,
   every state is the result of a serial run of the writers that acted so far, in either order; and
   no run gets stuck, since every diff of every earlier state can be stored.
   */
  lemma NoLostUpdate(w: Pair, h: seq<Deployment>, events: seq<Event>, n: nat)
    requires IsRun(w.Send(), h, events) && n <= |events|
    ensures h[n] == w.Serial(h[0], Acted(events[..n], ComputeWriter), Acted(events[..n], StorageWriter))
    ensures w.Serial(h[0], true, true) == w.Edited(StorageWriter, w.Edited(ComputeWriter, h[0]))
    ensures forall m, who :: 0 <= m <= n ==> w.Send()(h[n], h[m], who).Some?
  {
    DiffsSerialize(w, h[0]);
    HistorySerializes(w.Send(), w.SerialFrom(h[0]), h, events, n);
  }
}
