/** The clusters-per-policy bundle: every policy in full, resent only when a policy or a cluster comes or goes. */
module ClustersPerPolicy {
  import opened Collections
  import opened Policies
  import opened Versions

  datatype Cpp = Cpp(objects: seq<Entry<Lists>>, generation: nat)

  // ----- What an update and a delete do -----

  /** The test the bundle uses for "a cluster was added or removed": total length and one-way containment. */
  predicate ClusterListChanged(prev: Lists, names: seq<string>) {
    || prev.Size() != |names|
    || exists c :: c in prev.compliant + prev.nonCompliant + prev.unknown && c !in names
  }

  function UpdateCpp(b: Cpp, id: Option<string>, st: seq<ClusterCompliance>): Cpp {
    match id
    case None => b
    case Some(p) =>
      var raise := match Find(b.objects, p)
                   case None => true
                   case Some(prev) => ClusterListChanged(prev, Names(st));
      Cpp(Put(b.objects, p, ListsOf(st)), if raise then b.generation + 1 else b.generation)
  }

  function DeleteCpp(b: Cpp, id: Option<string>): Cpp {
    match id
    case None => b
    case Some(p) =>
      if Find(b.objects, p).None? then b else Cpp(Remove(b.objects, p), b.generation + 1)
  }

  // ----- What the bundle keeps -----

  ghost predicate CppInv(b: Cpp) {
    && UniqueIds(b.objects)
    && forall p :: Find(b.objects, p).Some? ==> Partition(Find(b.objects, p).value)
  }

  /** The cluster set of a policy, if the policy is listed. */
  function Clusters(b: Cpp, p: string): Option<set<string>> {
    match Find(b.objects, p)
    case None => None
    case Some(l) => Some(RecordsOf(l).All())
  }

  /** The length-and-containment test answers exactly whether the policy's cluster set changed. */
  lemma ChangeTestExact(prev: Lists, st: seq<ClusterCompliance>)
    requires Partition(prev) && DistinctClusters(st)
    ensures ClusterListChanged(prev, Names(st)) <==> RecordsOf(prev).All() != StatusMap(st).Keys
  {
    GroupingConserves(st);
    var flat := prev.compliant + prev.nonCompliant + prev.unknown;
    var r := RecordsOf(prev);
    DistinctConcat(prev.compliant, prev.nonCompliant);
    DistinctConcat(prev.compliant + prev.nonCompliant, prev.unknown);
    assert Elements(flat) == r.All();
    if |flat| == |Names(st)| {
      Pigeonhole(flat, Names(st));
    } else {
      DistinctCardinality(flat);
      DistinctCardinality(Names(st));
    }
  }

  /** Why distinct cluster names are assumed: with a repeated name the test misses a cluster that was added. */
  lemma RepeatedNameDefeatsTest()
    ensures exists before: seq<ClusterCompliance>, after: seq<ClusterCompliance> ::
              && !ClusterListChanged(ListsOf(before), Names(after))
              && RecordsOf(ListsOf(before)).All() != StatusMap(after).Keys
  {
    var a, b := ClusterCompliance("a", CompliantState), ClusterCompliance("b", CompliantState);
    var before, after := [a, a], [a, b];
    assert Front(before) == [a] && Front(after) == [a] && Front([a]) == [];
    assert Last(before) == a && Last([a]) == a;
    forall s ensures Select(before, s) == if s == Compliant then ["a", "a"] else [] {
      assert Select([], s) == [];
      assert Select([a], s) == if s == Compliant then ["a"] else [];
    }
    assert ListsOf(before) == Lists(["a", "a"], [], []);
    assert Names(after) == ["a", "b"];
    assert !ClusterListChanged(ListsOf(before), Names(after));
    assert "b" in StatusMap(after).Keys && "b" !in RecordsOf(ListsOf(before)).All();
  }

  /** Every update refreshes the policy's statuses, touches no other policy, and raises the generation by one exactly
      when the policy set or a policy's cluster set changed. */
  lemma UpdateEffect(b: Cpp, p: string, st: seq<ClusterCompliance>)
    requires CppInv(b) && DistinctClusters(st)
    ensures var b' := UpdateCpp(b, Some(p), st);
            && CppInv(b')
            && (forall q :: Find(b'.objects, q) == if q == p then Some(ListsOf(st)) else Find(b.objects, q))
            && (b'.generation == b.generation || b'.generation == b.generation + 1)
            && (b'.generation == b.generation <==> forall q :: Clusters(b', q) == Clusters(b, q))
  {
    var b' := UpdateCpp(b, Some(p), st);
    GroupingConserves(st);
    PutUnique(b.objects, p, ListsOf(st));
    forall q ensures Find(b'.objects, q) == if q == p then Some(ListsOf(st)) else Find(b.objects, q) {
      FindPut(b.objects, p, ListsOf(st), q);
    }
    assert Clusters(b', p) == Some(StatusMap(st).Keys);
    if Find(b.objects, p).Some? {
      ChangeTestExact(Find(b.objects, p).value, st);
    } else {
      assert Clusters(b, p) == None;
    }
    if b'.generation == b.generation {
      assert forall q :: Clusters(b', q) == Clusters(b, q);
    } else {
      assert Clusters(b', p) != Clusters(b, p);
    }
  }

  lemma DeleteEffect(b: Cpp, p: string)
    requires CppInv(b)
    ensures var b' := DeleteCpp(b, Some(p));
            && CppInv(b')
            && (forall q :: Find(b'.objects, q) == if q == p then None else Find(b.objects, q))
            && (b'.generation == b.generation || b'.generation == b.generation + 1)
            && (b'.generation == b.generation <==> forall q :: Clusters(b', q) == Clusters(b, q))
  {
    var b' := DeleteCpp(b, Some(p));
    RemoveUnique(b.objects, p);
    forall q ensures Find(b'.objects, q) == if q == p then None else Find(b.objects, q) {
      FindRemove(b.objects, p, q);
    }
    if b'.generation != b.generation {
      assert Clusters(b', p) != Clusters(b, p);
    }
  }

  // ----- The bundle itself -----

  class ClustersPerPolicyBundle {
    var objects: seq<Entry<Lists>>
    const bundleVersion: BundleVersion
    const idSource: IdSource

    constructor (incarnation: nat, idSource: IdSource)
      ensures fresh(bundleVersion) && bundleVersion.Value() == Version(incarnation, 0)
      ensures this.idSource == idSource && State() == Cpp([], 0)
    {
      this.objects, this.idSource := [], idSource;
      this.bundleVersion := new BundleVersion(incarnation, 0);
    }

    function State(): Cpp reads this, bundleVersion {
      Cpp(objects, bundleVersion.generation)
    }

    method UpdateObject(obj: PolicyObject)
      modifies this, bundleVersion
      ensures State() == UpdateCpp(old(State()), ExtractId(idSource, obj.Value()), obj.status)
    {
      var id := ExtractId(idSource, obj.Value());
      if id == None {
        return;
      }
      var index := GetObjectIndexByUID(objects, id.value);
      if index == None {
        var lists, _ := GetClusterStatuses(obj.status);
        objects := objects + [Entry(id.value, lists)];
        bundleVersion.generation := bundleVersion.generation + 1;
        return;
      }
      var changed := UpdateObjectIfChanged(index.value, obj.status);
      if changed {
        bundleVersion.generation := bundleVersion.generation + 1;
      }
    }

    method DeleteObject(obj: PolicyObject)
      modifies this, bundleVersion
      ensures State() == DeleteCpp(old(State()), ExtractId(idSource, obj.Value()))
    {
      var id := ExtractId(idSource, obj.Value());
      if id == None {
        return;
      }
      var index := GetObjectIndexByUID(objects, id.value);
      if index == None {
        return;
      }
      objects := objects[..index.value] + objects[index.value + 1..];
      bundleVersion.generation := bundleVersion.generation + 1;
    }

    method UpdateObjectIfChanged(index: nat, st: seq<ClusterCompliance>) returns (changed: bool)
      requires index < |objects|
      modifies `objects
      ensures objects == old(objects)[index := Entry(old(objects)[index].id, ListsOf(st))]
      ensures changed == ClusterListChanged(old(objects)[index].value, Names(st))
    {
      var lists, names := GetClusterStatuses(st);
      var prev := objects[index].value;
      changed := false;
      var c := ClusterListContains(prev.compliant, names);
      var n := ClusterListContains(prev.nonCompliant, names);
      var u := ClusterListContains(prev.unknown, names);
      if |prev.compliant| + |prev.nonCompliant| + |prev.unknown| != |names| || !c || !n || !u {
        changed := true;
      }
      objects := objects[index := Entry(objects[index].id, lists)];
    }
  }

  method GetClusterStatuses(st: seq<ClusterCompliance>) returns (lists: Lists, all: seq<string>)
    ensures lists == ListsOf(st) && all == Names(st)
  {
    var compliant, nonCompliant, unknown := [], [], [];
    all := [];
    for i := 0 to |st|
      invariant Lists(compliant, nonCompliant, unknown) == ListsOf(st[..i])
      invariant all == Names(st[..i])
    {
      assert Front(st[..i + 1]) == st[..i];
      if st[i].state == CompliantState {
        compliant := compliant + [st[i].cluster];
      } else if st[i].state == NonCompliantState {
        nonCompliant := nonCompliant + [st[i].cluster];
      } else {
        unknown := unknown + [st[i].cluster];
      }
      all := all + [st[i].cluster];
    }
    assert st[..|st|] == st;
    lists := Lists(compliant, nonCompliant, unknown);
  }

  method ClusterListContains(subset: seq<string>, all: seq<string>) returns (contained: bool)
    ensures contained <==> forall c :: c in subset ==> c in all
  {
    for i := 0 to |subset|
      invariant forall c :: c in subset[..i] ==> c in all
    {
      var found := ContainsString(all, subset[i]);
      if !found {
        return false;
      }
    }
    return true;
  }
}
