/** The delta compliance bundle: changes since a base, found against a cache of records. */
module DeltaCompliance {
  import opened Collections
  import opened Policies
  import opened Versions
  import opened ClustersPerPolicy
  import opened CompleteCompliance

  type StatusChanges = map<string, Status>

  /** `pending` holds, per policy, the status each listed cluster changed to. `hub` is the view of a receiver that took
      over the records of the base when the line was opened (or a policy's records when they were first read from the
      base) and has applied, in order, every delta flushed since; `openings` is what it started from. */
  datatype Delta = Delta(pending: seq<Entry<StatusChanges>>, cache: map<string, Records>, transportationId: nat,
                         baseGeneration: nat, generation: nat, hub: map<string, StatusChanges>,
                         openings: map<string, Opening>)

  /** The records of one policy when they were read from the base, and the transportation ID of that moment. */
  datatype Opening = Opening(records: StatusChanges, from: nat)

  // ----- Finding changes against the records -----

  datatype Absorbed = Absorbed(records: Records, changed: Lists)

  function AbsorbOne(a: Absorbed, cc: ClusterCompliance): Absorbed {
    var s := Classify(cc.state);
    if a.records.Holds(cc.cluster, s) then a
    else Absorbed(a.records.Mark(cc.cluster, s), a.changed.Append(cc.cluster, s))
  }

  /** Take a status into the records one cluster at a time, collecting the clusters that changed. */
  function Absorb(r: Records, st: seq<ClusterCompliance>): Absorbed {
    if st == [] then Absorbed(r, EMPTY_LISTS) else AbsorbOne(Absorb(r, Front(st)), Last(st))
  }

  /** The entries of a new status that the known one lacks or contradicts. */
  function Changes(known: StatusChanges, next: StatusChanges): StatusChanges {
    map c | c in next && (c !in known || known[c] != next[c]) :: next[c]
  }

  lemma MarkEffect(r: Records, c: string, s: Status)
    requires r.Disjoint()
    ensures r.Mark(c, s).Disjoint() && r.Mark(c, s).Map() == r.Map()[c := s]
    ensures r.Holds(c, s) <==> c in r.Map() && r.Map()[c] == s
  {}

  lemma AppendEffect(l: Lists, c: string, s: Status)
    requires Partition(l) && c !in ListsMap(l)
    ensures Partition(l.Append(c, s)) && ListsMap(l.Append(c, s)) == ListsMap(l)[c := s]
  {
    var r, r' := RecordsOf(l), RecordsOf(l.Append(c, s));
    assert r'.compliant == if s.Compliant? then r.compliant + {c} else r.compliant;
    assert r'.nonCompliant == if s.NonCompliant? then r.nonCompliant + {c} else r.nonCompliant;
    assert r'.unknown == if s.Unknown? then r.unknown + {c} else r.unknown;
  }

  lemma ChangesStep(known: StatusChanges, next: StatusChanges, c: string, s: Status)
    requires c !in next
    ensures c !in Changes(known, next)
    ensures Changes(known, next[c := s])
            == if c in known && known[c] == s then Changes(known, next) else Changes(known, next)[c := s]
    ensures c in known && known[c] == s ==> known + next[c := s] == known + next
    ensures known + next[c := s] == (known + next)[c := s]
  {}

  /** What has been taken in so far, of records that started as `known`, from a status that reads `next`. */
  ghost predicate TakenIn(a: Absorbed, known: StatusChanges, next: StatusChanges) {
    && a.records.Disjoint() && a.records.Map() == known + next
    && Partition(a.changed) && ListsMap(a.changed) == Changes(known, next)
  }

  lemma AbsorbStep(a: Absorbed, known: StatusChanges, next: StatusChanges, cc: ClusterCompliance)
    requires TakenIn(a, known, next) && cc.cluster !in next
    ensures TakenIn(AbsorbOne(a, cc), known, next[cc.cluster := Classify(cc.state)])
  {
    var c, s := cc.cluster, Classify(cc.state);
    ChangesStep(known, next, c, s);
    MarkEffect(a.records, c, s);
    if !a.records.Holds(c, s) {
      AppendEffect(a.changed, c, s);
    }
  }

  /** Taking in a status overrides the records by it, and the clusters collected are exactly the changed ones with
      their new status. */
  lemma {:induction false} AbsorbEffect(r: Records, st: seq<ClusterCompliance>)
    requires r.Disjoint() && DistinctClusters(st)
    ensures TakenIn(Absorb(r, st), r.Map(), StatusMap(st))
  {
    if st == [] {
      assert RecordsOf(EMPTY_LISTS).All() == {};
    } else {
      AbsorbEffect(r, Front(st));
      SelectMembers(Front(st), Compliant, Last(st).cluster);
      AbsorbStep(Absorb(r, Front(st)), r.Map(), StatusMap(Front(st)), Last(st));
    }
  }

  // ----- What the operations do -----

  function Pending(d: Delta, p: string): StatusChanges {
    match Find(d.pending, p)
    case None => map[]
    case Some(m) => m
  }

  function UpdateDelta(d: Delta, base: seq<Entry<Lists>>, id: Option<string>, st: seq<ClusterCompliance>): Delta {
    match id
    case None => d
    case Some(p) =>
      if p !in d.cache then
        match Find(base, p)
        case None => d
        case Some(l) => d.(cache := d.cache[p := RecordsOf(l)], hub := d.hub[p := ListsMap(l)],
                           openings := d.openings[p := Opening(ListsMap(l), d.transportationId)])
      else
        var a := Absorb(d.cache[p], st);
        if a.changed.Size() == 0 then d.(cache := d.cache[p := a.records])
        else d.(cache := d.cache[p := a.records],
                pending := Put(d.pending, p, Pending(d, p) + ListsMap(a.changed)),
                generation := d.generation + 1)
  }

  /** The records of a policy go only when it has a pending entry. */
  function DeleteDelta(d: Delta, id: Option<string>): Delta {
    match id
    case None => d
    case Some(p) =>
      if Find(d.pending, p).None? then d
      else d.(pending := Remove(d.pending, p), cache := d.cache - {p})
  }

  /** The pending changes are flushed: the receiver has them, the next bundle of the line starts. */
  function ResetDelta(d: Delta): Delta {
    d.(pending := [], transportationId := d.transportationId + 1,
       hub := map p | p in d.hub :: d.hub[p] + Pending(d, p))
  }

  function RecordsFromBase(base: seq<Entry<Lists>>): map<string, Records> {
    if base == [] then map[]
    else RecordsFromBase(base[..|base| - 1])[base[|base| - 1].id := RecordsOf(base[|base| - 1].value)]
  }

  /** A new line is opened on the base. */
  function SyncDelta(d: Delta, baseGeneration: nat, base: seq<Entry<Lists>>): Delta {
    var cache := RecordsFromBase(base);
    d.(cache := cache, baseGeneration := baseGeneration, transportationId := 0,
       hub := map p | p in cache :: cache[p].Map(), openings := OpenedAtStart(cache))
  }

  function OpenedAtStart(cache: map<string, Records>): map<string, Opening> {
    map p | p in cache :: Opening(cache[p].Map(), 0)
  }

  // ----- What the bundle keeps -----

  /** For one cached policy: the records are disjoint, and what the receiver holds overridden by what is pending is
      exactly what the records say. */
  ghost predicate Reconstructs(d: Delta, p: string) {
    p in d.cache ==> d.cache[p].Disjoint() && p in d.hub && d.hub[p] + Pending(d, p) == d.cache[p].Map()
  }

  ghost predicate DeltaInv(d: Delta) {
    && UniqueIds(d.pending)
    && (forall p :: Find(d.pending, p).Some? ==> p in d.cache)
    && (forall p :: Reconstructs(d, p))
  }

  lemma UpdateReconstructs(d: Delta, base: seq<Entry<Lists>>, p: string, st: seq<ClusterCompliance>)
    requires DeltaInv(d) && DistinctClusters(st)
    requires Find(base, p).Some? ==> Partition(Find(base, p).value)
    ensures DeltaInv(UpdateDelta(d, base, Some(p), st))
  {
    var d' := UpdateDelta(d, base, Some(p), st);
    if p in d.cache {
      PutUnique(d.pending, p, Pending(d, p) + ListsMap(Absorb(d.cache[p], st).changed));
    }
    forall q ensures Reconstructs(d', q) && (Find(d'.pending, q).Some? ==> q in d'.cache) {
      UpdateReconstructsOne(d, base, p, st, q);
    }
  }

  lemma UpdateReconstructsOne(d: Delta, base: seq<Entry<Lists>>, p: string, st: seq<ClusterCompliance>, q: string)
    requires DeltaInv(d) && DistinctClusters(st)
    requires Find(base, p).Some? ==> Partition(Find(base, p).value)
    ensures var d' := UpdateDelta(d, base, Some(p), st);
            Reconstructs(d', q) && (Find(d'.pending, q).Some? ==> q in d'.cache)
  {
    assert Reconstructs(d, q);
    if p in d.cache {
      FindPut(d.pending, p, Pending(d, p) + ListsMap(Absorb(d.cache[p], st).changed), q);
      if q == p {
        KnownPolicyReconstructs(d, base, p, st);
      }
    }
  }

  lemma KnownPolicyReconstructs(d: Delta, base: seq<Entry<Lists>>, p: string, st: seq<ClusterCompliance>)
    requires DistinctClusters(st) && p in d.cache && Reconstructs(d, p)
    ensures Reconstructs(UpdateDelta(d, base, Some(p), st), p)
  {
    var a := Absorb(d.cache[p], st);
    AbsorbEffect(d.cache[p], st);
    EmptyChanges(a.changed);
    OverrideByChanges(d.hub[p], Pending(d, p), d.cache[p].Map(), StatusMap(st));
    FindPut(d.pending, p, Pending(d, p) + ListsMap(a.changed), p);
  }

  /** Overriding by the changes alone is overriding by the whole status. */
  lemma OverrideByChanges(hub: StatusChanges, pending: StatusChanges, known: StatusChanges, next: StatusChanges)
    requires hub + pending == known
    ensures hub + (pending + Changes(known, next)) == known + next
  {
    assert known + Changes(known, next) == known + next;
    assert hub + (pending + Changes(known, next)) == (hub + pending) + Changes(known, next);
  }

  lemma EmptyChanges(l: Lists)
    ensures l.Size() == 0 <==> ListsMap(l) == map[]
  {
    var r := RecordsOf(l);
    if l.Size() == 0 {
      assert r.All() == {};
    } else {
      var c := if l.compliant != [] then l.compliant[0] else if l.nonCompliant != [] then l.nonCompliant[0]
               else l.unknown[0];
      assert c in r.All();
      assert c in ListsMap(l);
    }
  }

  /** The changes an update is to record: none for a policy without records, otherwise exactly the clusters whose status
      differs from the records. */
  function NewChanges(d: Delta, p: string, st: seq<ClusterCompliance>): StatusChanges {
    if p in d.cache then Changes(d.cache[p].Map(), StatusMap(st)) else map[]
  }

  /** An update puts the new changes on top of what was pending for the policy and raises the generation by one exactly
      when there are any. What is pending for others, the line, and the receiver's view of known policies stay. */
  lemma UpdateRecordsChanges(d: Delta, base: seq<Entry<Lists>>, p: string, st: seq<ClusterCompliance>)
    requires DeltaInv(d) && DistinctClusters(st)
    ensures var d' := UpdateDelta(d, base, Some(p), st);
            && d'.generation == (if NewChanges(d, p, st) != map[] then d.generation + 1 else d.generation)
            && Pending(d', p) == Pending(d, p) + NewChanges(d, p, st)
            && (forall q :: q != p ==> Pending(d', q) == Pending(d, q))
            && d'.transportationId == d.transportationId && d'.baseGeneration == d.baseGeneration
            && (p in d.cache ==> d'.hub == d.hub)
  {
    assert Reconstructs(d, p);
    assert Pending(d, p) + map[] == Pending(d, p);
    if p in d.cache {
      var a := Absorb(d.cache[p], st);
      AbsorbEffect(d.cache[p], st);
      EmptyChanges(a.changed);
      PutPending(d, p, Pending(d, p) + ListsMap(a.changed));
    }
  }

  lemma PutPending(d: Delta, p: string, changes: StatusChanges)
    ensures var d' := d.(pending := Put(d.pending, p, changes));
            Pending(d', p) == changes && forall q :: q != p ==> Pending(d', q) == Pending(d, q)
  {
    forall q ensures Find(Put(d.pending, p, changes), q) == if q == p then Some(changes) else Find(d.pending, q) {
      FindPut(d.pending, p, changes, q);
    }
  }

  /** After a delete nothing is pending for the policy, and its records are gone exactly when something was. */
  lemma DeleteForgetsChanges(d: Delta, p: string)
    requires DeltaInv(d)
    ensures var d' := DeleteDelta(d, Some(p));
            && (forall q :: Find(d'.pending, q) == if q == p then None else Find(d.pending, q))
            && d'.cache == (if Find(d.pending, p).Some? then d.cache - {p} else d.cache)
            && d'.generation == d.generation && d'.hub == d.hub && d'.openings == d.openings
  {
    forall q ensures Find(Remove(d.pending, p), q) == if q == p then None else Find(d.pending, q) {
      FindRemove(d.pending, p, q);
    }
  }

  lemma DeleteReconstructs(d: Delta, p: string)
    requires DeltaInv(d)
    ensures DeltaInv(DeleteDelta(d, Some(p)))
  {
    var d' := DeleteDelta(d, Some(p));
    RemoveUnique(d.pending, p);
    forall q ensures Reconstructs(d', q) && (Find(d'.pending, q).Some? ==> q in d'.cache) {
      FindRemove(d.pending, p, q);
      assert Reconstructs(d, q);
    }
  }

  lemma ResetReconstructs(d: Delta)
    requires DeltaInv(d)
    ensures DeltaInv(ResetDelta(d))
  {
    forall q ensures Reconstructs(ResetDelta(d), q) {
      assert Reconstructs(d, q);
    }
  }

  lemma {:induction false} BaseRecords(base: seq<Entry<Lists>>, p: string)
    requires UniqueIds(base)
    ensures p in RecordsFromBase(base) <==> Find(base, p).Some?
    ensures p in RecordsFromBase(base) ==> RecordsFromBase(base)[p] == RecordsOf(Find(base, p).value)
  {
    if base != [] {
      var f, e := base[..|base| - 1], base[|base| - 1];
      BaseRecords(f, p);
      assert IndexOf(f, e.id).None?;
      assert base == Put(f, e.id, e.value);
      FindPut(f, e.id, e.value, p);
    }
  }

  lemma SyncReconstructs(d: Delta, baseGeneration: nat, base: seq<Entry<Lists>>)
    requires UniqueIds(base) && d.pending == []
    requires forall p :: Find(base, p).Some? ==> Partition(Find(base, p).value)
    ensures DeltaInv(SyncDelta(d, baseGeneration, base))
  {
    var d' := SyncDelta(d, baseGeneration, base);
    forall q ensures Reconstructs(d', q) {
      BaseRecords(base, q);
      assert Pending(d', q) == map[];
    }
  }

  // ----- The bundle itself -----

  /** The pending changes the three lists of each object stand for. */
  function PendingOf(objects: seq<Entry<Lists>>): seq<Entry<StatusChanges>> {
    seq(|objects|, i requires 0 <= i < |objects| => Entry(objects[i].id, ListsMap(objects[i].value)))
  }

  lemma PendingIndex(objects: seq<Entry<Lists>>, p: string)
    ensures IndexOf(PendingOf(objects), p) == IndexOf(objects, p)
  {
    assert forall k :: 0 <= k < |objects| ==> PendingOf(objects)[k].id == objects[k].id;
  }

  class DeltaComplianceStatusBundle {
    var objects: seq<Entry<Lists>>
    var complianceRecordsCache: map<string, Records>
    var cyclicTransportationBundleID: nat
    const bundleVersion: BundleVersion
    const baseBundleVersion: BundleVersion
    const baseBundle: ComplianceStatusBundle
    const clustersPerPolicyBaseBundle: ClustersPerPolicyBundle
    const idSource: IdSource
    ghost var hub: map<string, StatusChanges>
    ghost var openings: map<string, Opening>

    constructor (baseBundle: ComplianceStatusBundle, clustersPerPolicyBundle: ClustersPerPolicyBundle,
                 incarnation: nat, idSource: IdSource)
      ensures fresh(bundleVersion) && fresh(baseBundleVersion) && bundleVersion != baseBundleVersion
      ensures bundleVersion.incarnation == baseBundleVersion.incarnation == incarnation
      ensures this.baseBundle == baseBundle && clustersPerPolicyBaseBundle == clustersPerPolicyBundle
      ensures this.idSource == idSource
      ensures State() == Delta([], map[], 0, baseBundle.bundleVersion.generation, 0, map[], map[])
    {
      objects, complianceRecordsCache, cyclicTransportationBundleID, hub, openings := [], map[], 0, map[], map[];
      this.baseBundle, clustersPerPolicyBaseBundle, this.idSource := baseBundle, clustersPerPolicyBundle, idSource;
      baseBundleVersion := new BundleVersion(incarnation, baseBundle.bundleVersion.generation);
      bundleVersion := new BundleVersion(incarnation, 0);
    }

    ghost function State(): Delta reads this, bundleVersion, baseBundleVersion {
      Delta(PendingOf(objects), complianceRecordsCache, cyclicTransportationBundleID, baseBundleVersion.generation,
            bundleVersion.generation, hub, openings)
    }

    method UpdateObject(obj: PolicyObject)
      requires bundleVersion != baseBundleVersion
      modifies this, bundleVersion
      ensures State() == UpdateDelta(old(State()), old(clustersPerPolicyBaseBundle.objects),
                                     ExtractId(idSource, obj.Value()), obj.status)
    {
      var id := ExtractId(idSource, obj.Value());
      if id == None {
        return;
      }
      PendingIndex(objects, id.value);
      if id.value !in complianceRecordsCache {
        UpdateSpecificPolicyRecordsFromBase(id.value);
        return;
      }
      var changed := GetChangedClusters(obj.status, id.value);
      if |changed.compliant| + |changed.nonCompliant| + |changed.unknown| == 0 {
        return;
      }
      var index := GetObjectIndexByUID(objects, id.value);
      if index == None {
        objects := objects + [Entry(id.value, changed)];
        assert PendingOf(objects) == PendingOf(old(objects)) + [Entry(id.value, ListsMap(changed))];
        assert map[] + ListsMap(changed) == ListsMap(changed);
        bundleVersion.generation := bundleVersion.generation + 1;
        return;
      }
      UpdatePolicyComplianceStatus(index.value, changed);
      bundleVersion.generation := bundleVersion.generation + 1;
    }

    method DeleteObject(obj: PolicyObject)
      modifies this
      ensures State() == DeleteDelta(old(State()), ExtractId(idSource, obj.Value()))
    {
      var id := ExtractId(idSource, obj.Value());
      if id == None {
        return;
      }
      PendingIndex(objects, id.value);
      var index := GetObjectIndexByUID(objects, id.value);
      if index == None {
        return;
      }
      objects := objects[..index.value] + objects[index.value + 1..];
      complianceRecordsCache := complianceRecordsCache - {id.value};
    }

    method SyncState()
      requires bundleVersion != baseBundleVersion && baseBundle.bundleVersion != baseBundleVersion
      modifies this, baseBundleVersion
      ensures State() == SyncDelta(old(State()), old(baseBundle.bundleVersion.generation),
                                                   old(clustersPerPolicyBaseBundle.objects))
    {
      baseBundleVersion.generation := baseBundle.bundleVersion.generation;
      complianceRecordsCache := map[];
      UpdatePolicyRecordsFromBase();
      cyclicTransportationBundleID := 0;
      hub := map p | p in complianceRecordsCache :: complianceRecordsCache[p].Map();
      openings := OpenedAtStart(complianceRecordsCache);
    }

    method Reset()
      modifies this
      ensures State() == ResetDelta(old(State()))
    {
      hub := map p | p in hub :: hub[p] + Pending(State(), p);
      objects := [];
      cyclicTransportationBundleID := cyclicTransportationBundleID + 1;
    }

    method UpdateSpecificPolicyRecordsFromBase(policyID: string)
      modifies `complianceRecordsCache, `hub, `openings
      ensures match Find(clustersPerPolicyBaseBundle.objects, policyID)
              case None =>
                && complianceRecordsCache == old(complianceRecordsCache)
                && hub == old(hub) && openings == old(openings)
              case Some(l) =>
                && complianceRecordsCache == old(complianceRecordsCache)[policyID := RecordsOf(l)]
                && hub == old(hub)[policyID := ListsMap(l)]
                && openings == old(openings)[policyID := Opening(ListsMap(l), cyclicTransportationBundleID)]
    {
      var index := GetObjectIndexByUID(clustersPerPolicyBaseBundle.objects, policyID);
      if index != None {
        SyncGenericStatus(clustersPerPolicyBaseBundle.objects[index.value]);
        hub := hub[policyID := complianceRecordsCache[policyID].Map()];
        openings := openings[policyID := Opening(hub[policyID], cyclicTransportationBundleID)];
      }
    }

    method UpdatePolicyRecordsFromBase()
      requires complianceRecordsCache == map[]
      modifies `complianceRecordsCache
      ensures complianceRecordsCache == RecordsFromBase(clustersPerPolicyBaseBundle.objects)
    {
      var base := clustersPerPolicyBaseBundle.objects;
      for i := 0 to |base|
        invariant complianceRecordsCache == RecordsFromBase(base[..i])
        invariant base == clustersPerPolicyBaseBundle.objects
      {
        assert base[..i + 1][..i] == base[..i];
        SyncGenericStatus(base[i]);
      }
      assert base[..|base|] == base;
    }

    method SyncGenericStatus(status: Entry<Lists>)
      modifies `complianceRecordsCache
      ensures complianceRecordsCache == old(complianceRecordsCache)[status.id := RecordsOf(status.value)]
    {
      var compliant := CreateSetFromSlice(status.value.compliant);
      var nonCompliant := CreateSetFromSlice(status.value.nonCompliant);
      var unknown := CreateSetFromSlice(status.value.unknown);
      complianceRecordsCache := complianceRecordsCache[status.id := Records(compliant, nonCompliant, unknown)];
    }

    method GetChangedClusters(st: seq<ClusterCompliance>, policyID: string) returns (changed: Lists)
      requires policyID in complianceRecordsCache
      modifies `complianceRecordsCache
      ensures var a := Absorb(old(complianceRecordsCache)[policyID], st);
              changed == a.changed && complianceRecordsCache == old(complianceRecordsCache)[policyID := a.records]
    {
      var compliant, nonCompliant, unknown := [], [], [];
      for i := 0 to |st|
        invariant policyID in complianceRecordsCache
        invariant Absorbed(complianceRecordsCache[policyID], Lists(compliant, nonCompliant, unknown))
                  == Absorb(old(complianceRecordsCache)[policyID], st[..i])
        invariant complianceRecordsCache
                  == old(complianceRecordsCache)[policyID := complianceRecordsCache[policyID]]
      {
        assert Front(st[..i + 1]) == st[..i];
        var ClusterCompliance(cluster, state) := st[i];
        var Records(c, n, u) := complianceRecordsCache[policyID];
        match state
        case CompliantState =>
          if cluster in c {
            continue;
          }
          complianceRecordsCache :=
            complianceRecordsCache[policyID := Records(c + {cluster}, n - {cluster}, u - {cluster})];
          compliant := compliant + [cluster];
        case NonCompliantState =>
          if cluster in n {
            continue;
          }
          complianceRecordsCache :=
            complianceRecordsCache[policyID := Records(c - {cluster}, n + {cluster}, u - {cluster})];
          nonCompliant := nonCompliant + [cluster];
        case OtherState(_) =>
          if cluster in u {
            continue;
          }
          complianceRecordsCache :=
            complianceRecordsCache[policyID := Records(c - {cluster}, n - {cluster}, u + {cluster})];
          unknown := unknown + [cluster];
      }
      assert st[..|st|] == st;
      changed := Lists(compliant, nonCompliant, unknown);
    }

    method UpdatePolicyComplianceStatus(index: nat, changed: Lists)
      requires index < |objects|
      modifies `objects
      ensures PendingOf(objects) == PendingOf(old(objects))[index := Entry(old(objects)[index].id,
                                      ListsMap(old(objects)[index].value) + ListsMap(changed))]
      ensures Partition(objects[index].value)
    {
      var merged := MergeStatuses(objects[index].value, changed);
      objects := objects[index := Entry(objects[index].id, merged)];
    }
  }

  /** Last writer wins: whatever the order the merged map is walked in, the rebuilt lists are duplicate-free, share no
      cluster, and give each cluster its changed status, or else the one it had. */
  method MergeStatuses(existing: Lists, changed: Lists) returns (merged: Lists)
    ensures Partition(merged)
    ensures ListsMap(merged) == ListsMap(existing) + ListsMap(changed)
  {
    var state := map[];
    state := OverwriteStatuses(state, existing);
    state := OverwriteStatuses(state, changed);

    merged := EMPTY_LISTS;
    var left := state.Keys;
    while left != {}
      invariant left <= state.Keys
      invariant Partition(merged) && ListsMap(merged) == state - left
      decreases left
    {
      var c :| c in left;
      AppendEffect(merged, c, state[c]);
      merged := AppendCluster(merged, c, state[c]);
      left := left - {c};
    }
  }

  method AppendCluster(lists: Lists, c: string, s: Status) returns (longer: Lists)
    ensures longer == lists.Append(c, s)
  {
    match s
    case Compliant => longer := lists.(compliant := lists.compliant + [c]);
    case NonCompliant => longer := lists.(nonCompliant := lists.nonCompliant + [c]);
    case Unknown => longer := lists.(unknown := lists.unknown + [c]);
  }

  /** One status for every listed cluster. */
  function Uniform(clusters: seq<string>, s: Status): StatusChanges {
    map c | c in clusters :: s
  }

  method OverwriteStatuses(state: StatusChanges, lists: Lists) returns (state': StatusChanges)
    ensures state' == state + ListsMap(lists)
  {
    state' := Overwrite(state, lists.compliant, Compliant);
    state' := Overwrite(state', lists.nonCompliant, NonCompliant);
    state' := Overwrite(state', lists.unknown, Unknown);
    ListsMapInLayers(lists);
    LayersOneByOne(state, Uniform(lists.compliant, Compliant), Uniform(lists.nonCompliant, NonCompliant),
                   Uniform(lists.unknown, Unknown));
  }

  lemma ListsMapInLayers(l: Lists)
    ensures ListsMap(l) == Uniform(l.compliant, Compliant) + Uniform(l.nonCompliant, NonCompliant)
                           + Uniform(l.unknown, Unknown)
  {}

  lemma LayersOneByOne(m: StatusChanges, a: StatusChanges, b: StatusChanges, c: StatusChanges)
    ensures m + a + b + c == m + (a + b + c)
  {}

  lemma UniformStep(clusters: seq<string>, i: nat, s: Status, m: StatusChanges)
    requires i < |clusters|
    ensures m + Uniform(clusters[..i + 1], s) == (m + Uniform(clusters[..i], s))[clusters[i] := s]
  {
    assert Uniform(clusters[..i + 1], s) == Uniform(clusters[..i], s)[clusters[i] := s];
  }

  method Overwrite(state: StatusChanges, clusters: seq<string>, s: Status) returns (state': StatusChanges)
    ensures state' == state + Uniform(clusters, s)
  {
    state' := state;
    for i := 0 to |clusters|
      invariant state' == state + Uniform(clusters[..i], s)
    {
      UniformStep(clusters, i, s, state);
      state' := state'[clusters[i] := s];
    }
    assert clusters[..|clusters|] == clusters;
  }
}
