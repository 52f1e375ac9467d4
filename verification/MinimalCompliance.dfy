/** The minimal compliance bundle: per policy the remediation action and two cluster counts. */
module MinimalCompliance {
  import opened Collections
  import opened Policies
  import opened Versions
  import opened ClustersPerPolicy

  datatype Counts = Counts(remediation: string, nonCompliant: nat, applied: nat)

  datatype Minimal = Minimal(objects: seq<Entry<Counts>>, generation: nat)

  function NotCompliant(st: seq<ClusterCompliance>): nat {
    if st == [] then 0
    else NotCompliant(Front(st)) + if Classify(Last(st).state) == Compliant then 0 else 1
  }

  function CountsOf(remediation: string, st: seq<ClusterCompliance>): Counts {
    Counts(remediation, NotCompliant(st), |st|)
  }

  /** The generation rises exactly when the stored triple of the policy changes. */
  function UpdateMinimal(b: Minimal, id: Option<string>, remediation: string, st: seq<ClusterCompliance>): Minimal {
    match id
    case None => b
    case Some(p) =>
      var next := CountsOf(remediation, st);
      if Find(b.objects, p) == Some(next) then b
      else Minimal(Put(b.objects, p, next), b.generation + 1)
  }

  function DeleteMinimal(b: Minimal, id: Option<string>): Minimal {
    match id
    case None => b
    case Some(p) =>
      if Find(b.objects, p).None? then b else Minimal(Remove(b.objects, p), b.generation + 1)
  }

  // ----- Agreement with clusters-per-policy -----

  predicate CountsMatch(c: Counts, l: Lists) {
    c.applied == l.Size() && c.nonCompliant == |l.nonCompliant| + |l.unknown|
  }

  /** Same policies in the same order, and the counts are those of the three lists. */
  ghost predicate Agrees(m: Minimal, b: Cpp) {
    && |m.objects| == |b.objects|
    && forall i :: 0 <= i < |m.objects| ==>
         m.objects[i].id == b.objects[i].id && CountsMatch(m.objects[i].value, b.objects[i].value)
  }

  lemma {:induction false} CountsAreListLengths(remediation: string, st: seq<ClusterCompliance>)
    ensures CountsMatch(CountsOf(remediation, st), ListsOf(st))
  {
    if st != [] {
      CountsAreListLengths(remediation, Front(st));
    }
  }

  lemma SameIndex(m: Minimal, b: Cpp, p: string)
    requires Agrees(m, b)
    ensures IndexOf(m.objects, p) == IndexOf(b.objects, p)
  {}

  lemma UpdateKeepsAgreement(m: Minimal, b: Cpp, id: Option<string>, remediation: string, st: seq<ClusterCompliance>)
    requires Agrees(m, b)
    ensures Agrees(UpdateMinimal(m, id, remediation, st), UpdateCpp(b, id, st))
  {
    if id.Some? {
      CountsAreListLengths(remediation, st);
      SameIndex(m, b, id.value);
    }
  }

  lemma DeleteKeepsAgreement(m: Minimal, b: Cpp, id: Option<string>)
    requires Agrees(m, b)
    ensures Agrees(DeleteMinimal(m, id), DeleteCpp(b, id))
  {
    if id.Some? {
      SameIndex(m, b, id.value);
    }
  }

  /** An update stores the policy's triple, touches no other policy, and raises the generation by one exactly when the
      stored triple changed. */
  lemma MinimalUpdateEffect(m: Minimal, p: string, remediation: string, st: seq<ClusterCompliance>)
    ensures var m' := UpdateMinimal(m, Some(p), remediation, st);
            && Find(m'.objects, p) == Some(CountsOf(remediation, st))
            && (forall q :: q != p ==> Find(m'.objects, q) == Find(m.objects, q))
            && (m'.generation == m.generation || m'.generation == m.generation + 1)
            && (m'.generation == m.generation <==> Find(m'.objects, p) == Find(m.objects, p))
  {
    forall q ensures Find(Put(m.objects, p, CountsOf(remediation, st)), q)
                     == if q == p then Some(CountsOf(remediation, st)) else Find(m.objects, q)
    {
      FindPut(m.objects, p, CountsOf(remediation, st), q);
    }
  }

  /** A delete removes the policy, touches no other, and raises the generation by one exactly when it was listed. */
  lemma MinimalDeleteEffect(m: Minimal, p: string)
    requires UniqueIds(m.objects)
    ensures var m' := DeleteMinimal(m, Some(p));
            && (forall q :: Find(m'.objects, q) == if q == p then None else Find(m.objects, q))
            && UniqueIds(m'.objects)
            && (m'.generation == m.generation || m'.generation == m.generation + 1)
            && (m'.generation == m.generation + 1 <==> Find(m.objects, p).Some?)
            && (m'.generation == m.generation ==> m' == m)
  {
    RemoveUnique(m.objects, p);
    forall q ensures Find(Remove(m.objects, p), q) == if q == p then None else Find(m.objects, q) {
      FindRemove(m.objects, p, q);
    }
  }

  /** The positions of the clusters that are not compliant. */
  function NotCompliantAt(st: seq<ClusterCompliance>): set<nat> {
    set i: nat | i < |st| && st[i].state != CompliantState
  }

  /** The count is that of the clusters whose state is not compliant. */
  lemma {:induction false} NotCompliantCounts(st: seq<ClusterCompliance>)
    ensures NotCompliant(st) == |NotCompliantAt(st)|
  {
    if st != [] {
      NotCompliantCounts(Front(st));
      var n := |st| - 1;
      assert NotCompliantAt(st) == NotCompliantAt(Front(st)) + if st[n].state != CompliantState then {n} else {};
    }
  }

  // ----- The bundle itself -----

  class MinimalComplianceStatusBundle {
    var objects: seq<Entry<Counts>>
    const bundleVersion: BundleVersion

    constructor (incarnation: nat)
      ensures fresh(bundleVersion) && bundleVersion.Value() == Version(incarnation, 0)
      ensures State() == Minimal([], 0)
    {
      this.objects := [];
      this.bundleVersion := new BundleVersion(incarnation, 0);
    }

    function State(): Minimal reads this, bundleVersion {
      Minimal(objects, bundleVersion.generation)
    }

    method UpdateObject(obj: PolicyObject)
      modifies this, bundleVersion
      ensures State() == UpdateMinimal(old(State()), obj.origin, obj.remediation, obj.status)
    {
      if obj.origin == None {
        return;
      }
      var index := GetObjectIndexByUID(objects, obj.origin.value);
      if index == None {
        var applied, nonCompliant := GetNumOfClusters(obj.status);
        objects := objects + [Entry(obj.origin.value, Counts(obj.remediation, nonCompliant, applied))];
        bundleVersion.generation := bundleVersion.generation + 1;
        return;
      }
      var changed := UpdateObjectIfChanged(index.value, obj);
      if !changed {
        return;
      }
      bundleVersion.generation := bundleVersion.generation + 1;
    }

    method DeleteObject(obj: PolicyObject)
      modifies this, bundleVersion
      ensures State() == DeleteMinimal(old(State()), obj.origin)
    {
      if obj.origin == None {
        return;
      }
      var index := GetObjectIndexByUID(objects, obj.origin.value);
      if index == None {
        return;
      }
      objects := objects[..index.value] + objects[index.value + 1..];
      bundleVersion.generation := bundleVersion.generation + 1;
    }

    method UpdateObjectIfChanged(index: nat, obj: PolicyObject) returns (changed: bool)
      requires index < |objects|
      modifies `objects
      ensures changed == (old(objects)[index].value != CountsOf(obj.remediation, obj.status))
      ensures objects == old(objects)[index := Entry(old(objects)[index].id, CountsOf(obj.remediation, obj.status))]
    {
      var applied, nonCompliant := GetNumOfClusters(obj.status);
      var Entry(id, stored) := objects[index];
      if stored.remediation != obj.remediation {
        objects := objects[index := Entry(id, Counts(obj.remediation, nonCompliant, applied))];
        return true;
      }
      if stored.applied != applied {
        objects := objects[index := Entry(id, stored.(applied := applied, nonCompliant := nonCompliant))];
        return true;
      }
      if stored.nonCompliant != nonCompliant {
        objects := objects[index := Entry(id, stored.(nonCompliant := nonCompliant))];
        return true;
      }
      return false;
    }
  }

  method GetNumOfClusters(st: seq<ClusterCompliance>) returns (applied: nat, nonCompliant: nat)
    ensures applied == |st| && nonCompliant == NotCompliant(st)
  {
    applied, nonCompliant := |st|, 0;
    for i := 0 to |st|
      invariant nonCompliant == NotCompliant(st[..i])
    {
      assert Front(st[..i + 1]) == st[..i];
      if st[i].state != CompliantState {
        nonCompliant := nonCompliant + 1;
      }
    }
    assert st[..|st|] == st;
  }
}
