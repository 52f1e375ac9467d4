/** The complete compliance bundle: only the non-compliant and unknown clusters, and only policies that have some. */
module CompleteCompliance {
  import opened Collections
  import opened Policies
  import opened Versions
  import opened ClustersPerPolicy

  datatype Alerts = Alerts(nonCompliant: seq<string>, unknown: seq<string>) {
    predicate Empty() { nonCompliant == [] && unknown == [] }
  }

  datatype Complete = Complete(objects: seq<Entry<Alerts>>, generation: nat)

  // ----- What an update and a delete do -----

  function AlertsOf(st: seq<ClusterCompliance>): Alerts {
    Alerts(Select(st, NonCompliant), Select(st, Unknown))
  }

  /** The bundle's test for "same list": equal length and one-way containment. */
  predicate ClusterListsEqual(prev: seq<string>, next: seq<string>) {
    |prev| == |next| && forall c :: c in next ==> c in prev
  }

  predicate SameAlerts(prev: Alerts, next: Alerts) {
    ClusterListsEqual(prev.nonCompliant, next.nonCompliant) && ClusterListsEqual(prev.unknown, next.unknown)
  }

  function UpdateComplete(b: Complete, id: Option<string>, st: seq<ClusterCompliance>): Complete {
    match id
    case None => b
    case Some(p) =>
      var next := AlertsOf(st);
      match Find(b.objects, p)
      case None => if next.Empty() then b else Complete(Put(b.objects, p, next), b.generation + 1)
      case Some(prev) =>
        if SameAlerts(prev, next) then b
        else Complete(if next.Empty() then Remove(b.objects, p) else Put(b.objects, p, next), b.generation + 1)
  }

  /** A delete never raises the generation. */
  function DeleteComplete(b: Complete, id: Option<string>): Complete {
    match id
    case None => b
    case Some(p) => b.(objects := Remove(b.objects, p))
  }

  // ----- What the bundle shows -----

  datatype AlertSets = AlertSets(nonCompliant: set<string>, unknown: set<string>)

  /** What the bundle shows of a policy, as sets. */
  function Shown(b: Complete, p: string): Option<AlertSets> {
    match Find(b.objects, p)
    case None => None
    case Some(a) => Some(AlertSets(Elements(a.nonCompliant), Elements(a.unknown)))
  }

  /** The view of a full status the bundle is meant to show: nothing when no cluster is non-compliant or unknown. */
  function AlertView(full: Option<Lists>): Option<AlertSets> {
    match full
    case None => None
    case Some(l) =>
      if l.nonCompliant == [] && l.unknown == [] then None
      else Some(AlertSets(Elements(l.nonCompliant), Elements(l.unknown)))
  }

  ghost predicate GoodAlerts(a: Alerts) {
    Distinct(a.nonCompliant) && Distinct(a.unknown) && !a.Empty()
  }

  ghost predicate CompleteInv(b: Complete) {
    && UniqueIds(b.objects)
    && forall p :: Find(b.objects, p).Some? ==> GoodAlerts(Find(b.objects, p).value)
  }

  /** The bundle's list test answers exactly whether the sets are equal. */
  lemma ListTestExact(prev: Alerts, next: Alerts)
    requires Distinct(prev.nonCompliant) && Distinct(prev.unknown)
    requires Distinct(next.nonCompliant) && Distinct(next.unknown)
    ensures SameAlerts(prev, next) <==>
            && Elements(prev.nonCompliant) == Elements(next.nonCompliant)
            && Elements(prev.unknown) == Elements(next.unknown)
  {
    ListTestExactOne(prev.nonCompliant, next.nonCompliant);
    ListTestExactOne(prev.unknown, next.unknown);
  }

  lemma ListTestExactOne(prev: seq<string>, next: seq<string>)
    requires Distinct(prev) && Distinct(next)
    ensures ClusterListsEqual(prev, next) <==> Elements(prev) == Elements(next)
  {
    DistinctCardinality(prev);
    DistinctCardinality(next);
    if |prev| == |next| {
      Pigeonhole(next, prev);
    }
  }

  /** An update shows exactly the alert view of the status read, touches no other policy, never leaves an entry with
      both lists empty, and raises the generation by one exactly when what is shown changed. */
  lemma CompleteUpdateEffect(b: Complete, p: string, st: seq<ClusterCompliance>)
    requires CompleteInv(b) && DistinctClusters(st)
    ensures var b' := UpdateComplete(b, Some(p), st);
            && CompleteInv(b')
            && (forall q :: Shown(b', q) == if q == p then AlertView(Some(ListsOf(st))) else Shown(b, q))
            && (b' == b || b'.generation == b.generation + 1)
            && (b' == b <==> Shown(b, p) == AlertView(Some(ListsOf(st))))
  {
    var b', next := UpdateComplete(b, Some(p), st), AlertsOf(st);
    SelectSet(st, NonCompliant);
    SelectSet(st, Unknown);
    if Find(b.objects, p).Some? {
      var prev := Find(b.objects, p).value;
      ListTestExact(prev, next);
      EmptyAlerts(prev);
      EmptyAlerts(next);
    }
    if b' != b {
      PutUnique(b.objects, p, next);
      RemoveUnique(b.objects, p);
      forall q ensures Find(b'.objects, q) ==
                       if q != p then Find(b.objects, q) else if next.Empty() then None else Some(next)
      {
        FindPut(b.objects, p, next, q);
        FindRemove(b.objects, p, q);
      }
    }
  }

  /** A cluster missing from the status read counts as a change exactly when it was listed, that is, unless it was
      compliant. */
  lemma RemovedClusterCounts(b: Complete, p: string, before: seq<ClusterCompliance>, after: seq<ClusterCompliance>,
                             c: string)
    requires CompleteInv(b) && DistinctClusters(before) && DistinctClusters(after)
    requires Shown(b, p) == AlertView(Some(ListsOf(before)))
    requires c in StatusMap(before) && StatusMap(after) == StatusMap(before) - {c}
    ensures UpdateComplete(b, Some(p), after).generation
            == b.generation + if StatusMap(before)[c] == Compliant then 0 else 1
  {
    CompleteUpdateEffect(b, p, after);
    SelectWithout(before, after, c, NonCompliant);
    SelectWithout(before, after, c, Unknown);
    SmallerView(ListsOf(before), ListsOf(after), c);
  }

  lemma SelectWithout(before: seq<ClusterCompliance>, after: seq<ClusterCompliance>, c: string, s: Status)
    requires DistinctClusters(before) && DistinctClusters(after)
    requires c in StatusMap(before) && StatusMap(after) == StatusMap(before) - {c}
    ensures Elements(Select(after, s)) == Elements(Select(before, s)) - {c}
    ensures c in Elements(Select(before, s)) <==> StatusMap(before)[c] == s
  {
    SelectSet(before, s);
    SelectSet(after, s);
  }

  lemma SmallerView(full: Lists, rest: Lists, c: string)
    requires Elements(rest.nonCompliant) == Elements(full.nonCompliant) - {c}
    requires Elements(rest.unknown) == Elements(full.unknown) - {c}
    ensures AlertView(Some(rest)) == AlertView(Some(full)) <==>
              c !in Elements(full.nonCompliant) && c !in Elements(full.unknown)
  {
    EmptyAlerts(Alerts(full.nonCompliant, full.unknown));
    EmptyAlerts(Alerts(rest.nonCompliant, rest.unknown));
    assert Elements(rest.nonCompliant) == Elements(full.nonCompliant) <==> c !in Elements(full.nonCompliant);
    assert Elements(rest.unknown) == Elements(full.unknown) <==> c !in Elements(full.unknown);
  }

  lemma EmptyAlerts(a: Alerts)
    ensures a.Empty() <==> Elements(a.nonCompliant) == {} == Elements(a.unknown)
  {
    assert a.nonCompliant != [] ==> a.nonCompliant[0] in Elements(a.nonCompliant);
    assert a.unknown != [] ==> a.unknown[0] in Elements(a.unknown);
  }

  lemma CompleteDeleteEffect(b: Complete, p: string)
    requires CompleteInv(b)
    ensures var b' := DeleteComplete(b, Some(p));
            && CompleteInv(b')
            && (forall q :: Shown(b', q) == if q == p then None else Shown(b, q))
            && b'.generation == b.generation
  {
    var b' := DeleteComplete(b, Some(p));
    RemoveUnique(b.objects, p);
    forall q ensures Find(b'.objects, q) == if q == p then None else Find(b.objects, q) {
      FindRemove(b.objects, p, q);
    }
  }

  // ----- The bundle itself -----

  class ComplianceStatusBundle {
    var objects: seq<Entry<Alerts>>
    const bundleVersion: BundleVersion
    const baseBundle: ClustersPerPolicyBundle
    /** The base bundle's own version object, so the base version is always current. */
    const baseBundleVersion: BundleVersion
    const idSource: IdSource

    constructor (incarnation: nat, baseBundle: ClustersPerPolicyBundle, idSource: IdSource)
      ensures fresh(bundleVersion) && bundleVersion.Value() == Version(incarnation, 0)
      ensures this.baseBundle == baseBundle && baseBundleVersion == baseBundle.bundleVersion
      ensures this.idSource == idSource && State() == Complete([], 0)
    {
      this.objects, this.baseBundle, this.idSource := [], baseBundle, idSource;
      this.baseBundleVersion := baseBundle.bundleVersion;
      this.bundleVersion := new BundleVersion(incarnation, 0);
    }

    function State(): Complete reads this, bundleVersion {
      Complete(objects, bundleVersion.generation)
    }

    method UpdateObject(obj: PolicyObject)
      modifies this, bundleVersion
      ensures State() == UpdateComplete(old(State()), ExtractId(idSource, obj.Value()), obj.status)
    {
      var id := ExtractId(idSource, obj.Value());
      if id == None {
        return;
      }
      var index := GetObjectIndexByUID(objects, id.value);
      if index == None {
        var alerts := GetNonCompliantAndUnknownClusters(obj.status);
        if !alerts.Empty() {
          objects := objects + [Entry(id.value, alerts)];
          bundleVersion.generation := bundleVersion.generation + 1;
        }
        return;
      }
      var changed := UpdateBundleIfObjectChanged(index.value, obj.status);
      if !changed {
        return;
      }
      if objects[index.value].value.Empty() {
        objects := objects[..index.value] + objects[index.value + 1..];
      }
      bundleVersion.generation := bundleVersion.generation + 1;
    }

    method DeleteObject(obj: PolicyObject)
      modifies this, bundleVersion
      ensures State() == DeleteComplete(old(State()), ExtractId(idSource, obj.Value()))
    {
      var id := ExtractId(idSource, obj.Value());
      if id == None {
        return;
      }
      var index := GetObjectIndexByUID(objects, id.value);
      if index == None {
        return;
      }
      objects := objects[..index.value] + objects[index.value + 1..];
    }

    method UpdateBundleIfObjectChanged(index: nat, st: seq<ClusterCompliance>) returns (changed: bool)
      requires index < |objects|
      modifies `objects
      ensures changed == !SameAlerts(old(objects)[index].value, AlertsOf(st))
      ensures objects == if changed then old(objects)[index := Entry(old(objects)[index].id, AlertsOf(st))]
                         else old(objects)
    {
      var prev := objects[index].value;
      var next := GetNonCompliantAndUnknownClusters(st);
      var sameNonCompliant := CompareClusterLists(prev.nonCompliant, next.nonCompliant);
      var sameUnknown := CompareClusterLists(prev.unknown, next.unknown);
      if !sameNonCompliant || !sameUnknown {
        objects := objects[index := Entry(objects[index].id, next)];
        return true;
      }
      return false;
    }
  }

  method GetNonCompliantAndUnknownClusters(st: seq<ClusterCompliance>) returns (alerts: Alerts)
    ensures alerts == AlertsOf(st)
  {
    var nonCompliant, unknown := [], [];
    for i := 0 to |st|
      invariant Alerts(nonCompliant, unknown) == AlertsOf(st[..i])
    {
      assert Front(st[..i + 1]) == st[..i];
      if st[i].state == CompliantState {
        continue;
      }
      if st[i].state == NonCompliantState {
        nonCompliant := nonCompliant + [st[i].cluster];
      } else {
        unknown := unknown + [st[i].cluster];
      }
    }
    assert st[..|st|] == st;
    alerts := Alerts(nonCompliant, unknown);
  }

  method CompareClusterLists(prev: seq<string>, next: seq<string>) returns (equal: bool)
    ensures equal == ClusterListsEqual(prev, next)
  {
    if |prev| != |next| {
      return false;
    }
    for i := 0 to |next|
      invariant forall c :: c in next[..i] ==> c in prev
    {
      var found := ContainsString(prev, next[i]);
      if !found {
        return false;
      }
    }
    return true;
  }
}
