/** Local policies: three bundles fed one shared object, whose status the last of them blanks in place. */
module LocalPolicySync {
  import opened Collections
  import opened Policies
  import opened ClustersPerPolicy
  import opened CompleteCompliance
  import opened GenericStatus

  datatype Local = Local(cpp: Cpp, complete: Complete, spec: Listing)

  const EMPTY_LOCAL := Local(Cpp([], 0), Complete([], 0), Listing([], 0))

  // ----- The order of the bundles -----

  datatype LocalKind = StatusKind | ComplianceKind | SpecKind

  /** One bundle's turn with the shared object, and the object as it leaves it: the spec bundle blanks its status. */
  function Turn(k: LocalKind, s: Local, p: Policy): (Local, Policy) {
    match k
    case StatusKind => (s.(cpp := UpdateCpp(s.cpp, Some(p.uid), p.status)), p)
    case ComplianceKind => (s.(complete := UpdateComplete(s.complete, Some(p.uid), p.status)), p)
    case SpecKind => (s.(spec := UpdateListing(s.spec, Manipulate(true, p))), Manipulate(true, p))
  }

  function UpdateInOrder(order: seq<LocalKind>, s: Local, p: Policy): Local {
    if order == [] then s
    else
      var (s', p') := Turn(order[0], s, p);
      UpdateInOrder(order[1..], s', p')
  }

  /** What an update is meant to do: both status bundles take in the status as read, the spec bundle a blank one. */
  function UpdateLocal(s: Local, p: Policy): Local {
    Local(UpdateCpp(s.cpp, Some(p.uid), p.status), UpdateComplete(s.complete, Some(p.uid), p.status),
          UpdateListing(s.spec, p.(status := [])))
  }

  function DeleteLocal(s: Local, p: Policy): Local {
    Local(DeleteCpp(s.cpp, Some(p.uid)), DeleteComplete(s.complete, Some(p.uid)), DeleteListing(s.spec, p.uid))
  }

  ghost predicate Meant(order: seq<LocalKind>, s: Local, p: Policy) {
    UpdateInOrder(order, s, p) == UpdateLocal(s, p)
  }

  /** Of all orders of the three bundles, exactly those with the spec bundle last do what is meant for every policy. */
  lemma SpecBundleMustBeLast(order: seq<LocalKind>)
    requires |order| == 3 && Distinct(order)
    ensures (forall s, p :: Meant(order, s, p)) <==> order[2] == SpecKind
  {
    if order[2] == SpecKind {
      forall s, p ensures Meant(order, s, p) {
        LastTurnBlanks(order, s, p);
      }
    } else {
      var p := Policy("uid", "1", None, "inform", [ClusterCompliance("c", NonCompliantState)]);
      OneClusterLists(p.status[0]);
      EarlyBlankingIsSeen(order, EMPTY_LOCAL, p);
      assert !Meant(order, EMPTY_LOCAL, p);
    }
  }

  lemma ThreeTurns(order: seq<LocalKind>, s: Local, p: Policy)
    requires |order| == 3
    ensures UpdateInOrder(order, s, p)
            == var (s1, p1) := Turn(order[0], s, p);
               var (s2, p2) := Turn(order[1], s1, p1);
               Turn(order[2], s2, p2).0
  {
    var (s1, p1) := Turn(order[0], s, p);
    var (s2, p2) := Turn(order[1], s1, p1);
    var (s3, p3) := Turn(order[2], s2, p2);
    assert UpdateInOrder(order[1..][1..][1..], s3, p3) == s3;
    assert UpdateInOrder(order[1..][1..], s2, p2) == s3;
    assert UpdateInOrder(order[1..], s1, p1) == s3;
  }

  lemma LastTurnBlanks(order: seq<LocalKind>, s: Local, p: Policy)
    requires |order| == 3 && Distinct(order) && order[2] == SpecKind
    ensures Meant(order, s, p)
  {
    ThreeTurns(order, s, p);
    assert order[0] != SpecKind && order[1] != SpecKind && order[0] != order[1];
  }

  lemma OneClusterLists(c: ClusterCompliance)
    requires c.state == NonCompliantState
    ensures Select([c], NonCompliant) == [c.cluster]
  {
    assert Front([c]) == [] && Last([c]) == c;
  }

  /** The bundle after the spec bundle sees a blank status. */
  lemma EarlyBlankingIsSeen(order: seq<LocalKind>, s: Local, p: Policy)
    requires |order| == 3 && Distinct(order) && order[2] != SpecKind
    requires s == EMPTY_LOCAL && Select(p.status, NonCompliant) != []
    ensures UpdateInOrder(order, s, p) != UpdateLocal(s, p)
  {
    ThreeTurns(order, s, p);
    assert order[0] != order[2] && order[1] != order[2] && order[0] != order[1];
    var r, meant := UpdateInOrder(order, s, p), UpdateLocal(s, p);
    assert Select([], NonCompliant) == [] && Select([], Unknown) == [];
    if order[2] == StatusKind {
      assert r.cpp == UpdateCpp(s.cpp, Some(p.uid), []);
      assert r.cpp.objects[0].value == ListsOf([]) && meant.cpp.objects[0].value == ListsOf(p.status);
    } else {
      assert r.complete == UpdateComplete(s.complete, Some(p.uid), []);
      assert r.complete.objects == [] && meant.complete.objects == [Entry(p.uid, AlertsOf(p.status))];
    }
  }

  // ----- Every run -----

  datatype LocalStep = LocalUpdated(policy: Policy) | LocalDeleted(policy: Policy)

  function RunLocal(steps: seq<LocalStep>): Local {
    if steps == [] then EMPTY_LOCAL
    else
      var s := RunLocal(steps[..|steps| - 1]);
      match steps[|steps| - 1]
      case LocalUpdated(p) => UpdateLocal(s, p)
      case LocalDeleted(p) => DeleteLocal(s, p)
  }

  /** The status last read of a policy, if it was not deleted since. */
  function StatusRead(steps: seq<LocalStep>, uid: string): Option<seq<ClusterCompliance>> {
    if steps == [] then None
    else match steps[|steps| - 1]
      case LocalUpdated(p) => if p.uid == uid then Some(p.status) else StatusRead(steps[..|steps| - 1], uid)
      case LocalDeleted(p) => if p.uid == uid then None else StatusRead(steps[..|steps| - 1], uid)
  }

  function ListsRead(steps: seq<LocalStep>, uid: string): Option<Lists> {
    match StatusRead(steps, uid)
    case None => None
    case Some(st) => Some(ListsOf(st))
  }

  ghost predicate BlankOnly(b: Listing) {
    forall i :: 0 <= i < |b.objects| ==> b.objects[i].value.status == []
  }

  /** One policy of one state: held as read, shown as read. */
  ghost predicate AsRead(s: Local, uid: string, lists: Option<Lists>) {
    Find(s.cpp.objects, uid) == lists && Shown(s.complete, uid) == AlertView(lists)
  }

  ghost predicate LocalInv(s: Local) {
    CppInv(s.cpp) && CompleteInv(s.complete) && BlankOnly(s.spec)
  }

  lemma UpdateAsRead(s: Local, p: Policy)
    requires LocalInv(s) && DistinctClusters(p.status)
    ensures LocalInv(UpdateLocal(s, p))
    ensures AsRead(UpdateLocal(s, p), p.uid, Some(ListsOf(p.status)))
    ensures forall uid, lists :: uid != p.uid && AsRead(s, uid, lists) ==> AsRead(UpdateLocal(s, p), uid, lists)
  {
    UpdateEffect(s.cpp, p.uid, p.status);
    CompleteUpdateEffect(s.complete, p.uid, p.status);
  }

  lemma DeleteAsRead(s: Local, p: Policy)
    requires LocalInv(s)
    ensures LocalInv(DeleteLocal(s, p))
    ensures AsRead(DeleteLocal(s, p), p.uid, None)
    ensures forall uid, lists :: uid != p.uid && AsRead(s, uid, lists) ==> AsRead(DeleteLocal(s, p), uid, lists)
  {
    DeleteEffect(s.cpp, p.uid);
    CompleteDeleteEffect(s.complete, p.uid);
  }

  /** In every run clusters-per-policy holds exactly the statuses as read, complete shows exactly their non-compliant
      and unknown clusters, and the spec bundle holds blank statuses only. */
  lemma {:induction false} StatusesAsRead(steps: seq<LocalStep>, uid: string)
    requires forall i :: 0 <= i < |steps| && steps[i].LocalUpdated? ==> DistinctClusters(steps[i].policy.status)
    ensures LocalInv(RunLocal(steps))
    ensures AsRead(RunLocal(steps), uid, ListsRead(steps, uid))
  {
    if steps != [] {
      StatusesAsRead(steps[..|steps| - 1], uid);
      var s := RunLocal(steps[..|steps| - 1]);
      match steps[|steps| - 1]
      case LocalUpdated(p) => UpdateAsRead(s, p);
      case LocalDeleted(p) => DeleteAsRead(s, p);
    }
  }

  /** The reads and deletes the spec bundle is told of. */
  function SpecEvents(steps: seq<LocalStep>): seq<Event> {
    if steps == [] then []
    else
      SpecEvents(steps[..|steps| - 1])
      + match steps[|steps| - 1]
        case LocalUpdated(p) => [Updated(p)]
        case LocalDeleted(p) => [Deleted(p.uid)]
  }

  lemma {:induction false} SpecIsTold(steps: seq<LocalStep>)
    ensures RunLocal(steps).spec == Apply(true, SpecEvents(steps))
  {
    if steps != [] {
      SpecIsTold(steps[..|steps| - 1]);
      var events := SpecEvents(steps);
      assert events[..|events| - 1] == SpecEvents(steps[..|steps| - 1]);
    }
  }

  /** In every run the spec bundle holds, for every policy, exactly the latest read without its status, and its
      generation counts the reads and deletes that were news. */
  lemma SpecAsRead(steps: seq<LocalStep>, uid: string)
    requires VersionsIdentify(SpecEvents(steps))
    ensures Find(RunLocal(steps).spec.objects, uid)
            == match Latest(SpecEvents(steps), uid)
               case None => None
               case Some(p) => Some(p.(status := []))
    ensures RunLocal(steps).spec.generation == NewsCount(SpecEvents(steps))
  {
    SpecIsTold(steps);
    KeepsLatest(true, SpecEvents(steps), uid);
    GenerationCountsNews(true, SpecEvents(steps));
  }

  // ----- The controller -----

  datatype LocalRef =
    | StatusRef(cpp: ClustersPerPolicyBundle)
    | ComplianceRef(complete: ComplianceStatusBundle)
    | SpecRef(spec: GenericStatusBundle)

  class LocalPolicyController {
    const cpp: ClustersPerPolicyBundle
    const complete: ComplianceStatusBundle
    const spec: GenericStatusBundle
    const entries: seq<LocalRef>

    ghost predicate Valid() {
      && complete.baseBundle == cpp && complete.baseBundleVersion == cpp.bundleVersion
      && cpp.idSource == complete.idSource == ObjectUid && spec.clean
      && cpp.bundleVersion != complete.bundleVersion && cpp.bundleVersion != spec.bundleVersion
      && complete.bundleVersion != spec.bundleVersion
      && entries == [StatusRef(cpp), ComplianceRef(complete), SpecRef(spec)]
    }

    ghost function Footprint(): set<object> {
      {cpp, cpp.bundleVersion, complete, complete.bundleVersion, spec, spec.bundleVersion}
    }

    ghost function State(): Local
      reads Footprint(), spec.objects
    {
      Local(cpp.State(), complete.State(), spec.State())
    }

    constructor (incarnation: nat)
      ensures Valid() && State() == EMPTY_LOCAL && spec.objects == []
    {
      var cpp := new ClustersPerPolicyBundle(incarnation, ObjectUid);
      var complete := new ComplianceStatusBundle(incarnation, cpp, ObjectUid);
      var spec := new GenericStatusBundle(incarnation, true);
      this.cpp, this.complete, this.spec := cpp, complete, spec;
      this.entries := [StatusRef(cpp), ComplianceRef(complete), SpecRef(spec)];
    }

    /** The object of a reconcile goes through the bundles in order; the last one blanks it in place. */
    method UpdateObject(obj: PolicyObject)
      requires Valid() && obj !in spec.objects
      modifies Footprint(), obj
      ensures State() == UpdateLocal(old(State()), old(obj.Value()))
      ensures obj.status == []
      ensures forall o :: o in spec.objects ==> o in old(spec.objects) || o == obj
    {
      var i := 0;
      while i < |entries|
        invariant 0 <= i <= 3
        invariant i < 3 ==> obj.Value() == old(obj.Value()) && spec.objects == old(spec.objects)
        invariant i == 3 ==> obj.status == [] && forall o :: o in spec.objects ==> o in old(spec.objects) || o == obj
        invariant cpp.State() == if i > 0 then UpdateLocal(old(State()), old(obj.Value())).cpp else old(cpp.State())
        invariant complete.State()
                  == if i > 1 then UpdateLocal(old(State()), old(obj.Value())).complete else old(complete.State())
        invariant spec.State()
                  == if i > 2 then UpdateLocal(old(State()), old(obj.Value())).spec else old(spec.State())
      {
        match entries[i] {
          case StatusRef(b) => b.UpdateObject(obj);
          case ComplianceRef(b) => b.UpdateObject(obj);
          case SpecRef(b) => b.UpdateObject(obj);
        }
        i := i + 1;
      }
    }

    method DeleteObject(obj: PolicyObject)
      requires Valid()
      modifies Footprint()
      ensures State() == DeleteLocal(old(State()), obj.Value())
      ensures forall o :: o in spec.objects ==> o in old(spec.objects)
    {
      var i := 0;
      while i < |entries|
        invariant 0 <= i <= 3
        invariant cpp.State() == if i > 0 then DeleteLocal(old(State()), obj.Value()).cpp else old(cpp.State())
        invariant complete.State()
                  == if i > 1 then DeleteLocal(old(State()), obj.Value()).complete else old(complete.State())
        invariant spec.State() == if i > 2 then DeleteLocal(old(State()), obj.Value()).spec else old(spec.State())
        invariant forall o :: o in spec.objects ==> o in old(spec.objects)
      {
        match entries[i] {
          case StatusRef(b) => b.DeleteObject(obj);
          case ComplianceRef(b) => b.DeleteObject(obj);
          case SpecRef(b) => b.DeleteObject(obj);
        }
        i := i + 1;
      }
    }

    /** A reconcile allocates its own object, so no bundle holds it yet. */
    method Reconcile(p: Policy, beingDeleted: bool)
      requires Valid()
      modifies Footprint()
      ensures State() == if beingDeleted then DeleteLocal(old(State()), p) else UpdateLocal(old(State()), p)
    {
      var obj := new PolicyObject(p);
      if beingDeleted {
        DeleteObject(obj);
      } else {
        UpdateObject(obj);
      }
    }
  }
}
