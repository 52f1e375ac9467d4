/** Policies as the leaf hub watches them, and the ways their cluster statuses are grouped. */
module Policies {
  import opened Collections

  /** The compliance state text of one cluster; every text but the two known ones counts as unknown. */
  datatype ComplianceState = CompliantState | NonCompliantState | OtherState(text: string)

  datatype ClusterCompliance = ClusterCompliance(cluster: string, state: ComplianceState)

  /** A policy as read from the API server. `origin` is the origin-owner-reference annotation. */
  datatype Policy = Policy(uid: string, resourceVersion: string, origin: Option<string>, remediation: string,
                           status: seq<ClusterCompliance>)

  /** The object a reconcile allocates for a policy; all bundles of a controller are handed the same reference. */
  class PolicyObject {
    const uid: string
    const resourceVersion: string
    const origin: Option<string>
    const remediation: string
    var status: seq<ClusterCompliance>

    constructor (p: Policy)
      ensures Value() == p
    {
      uid, resourceVersion, origin, remediation, status :=
        p.uid, p.resourceVersion, p.origin, p.remediation, p.status;
    }

    function Value(): Policy reads this {
      Policy(uid, resourceVersion, origin, remediation, status)
    }
  }

  /** Which ID a bundle files a policy under: the origin annotation, or for local policies the UID. */
  datatype IdSource = OriginAnnotation | ObjectUid

  function ExtractId(source: IdSource, p: Policy): Option<string> {
    match source
    case OriginAnnotation => p.origin
    case ObjectUid => Some(p.uid)
  }

  datatype Status = Compliant | NonCompliant | Unknown

  function Classify(state: ComplianceState): Status {
    match state
    case CompliantState => Compliant
    case NonCompliantState => NonCompliant
    case OtherState(_) => Unknown
  }

  // ----- The status of a policy, read in order -----

  function Last(st: seq<ClusterCompliance>): ClusterCompliance
    requires st != []
  {
    st[|st| - 1]
  }

  function Front(st: seq<ClusterCompliance>): seq<ClusterCompliance>
    requires st != []
  {
    st[..|st| - 1]
  }

  /** The clusters with the given status, in the order of the policy's status list. */
  function Select(st: seq<ClusterCompliance>, s: Status): seq<string> {
    if st == [] then []
    else Select(Front(st), s) + if Classify(Last(st).state) == s then [Last(st).cluster] else []
  }

  function Names(st: seq<ClusterCompliance>): seq<string> {
    seq(|st|, i requires 0 <= i < |st| => st[i].cluster)
  }

  /** The status of every cluster of the policy. */
  function StatusMap(st: seq<ClusterCompliance>): map<string, Status> {
    if st == [] then map[] else StatusMap(Front(st))[Last(st).cluster := Classify(Last(st).state)]
  }

  /** The assumption on the watched policies: no cluster is listed twice in one status. */
  ghost predicate DistinctClusters(st: seq<ClusterCompliance>) {
    forall i, j :: 0 <= i < j < |st| ==> st[i].cluster != st[j].cluster
  }

  // ----- Three lists and three sets -----

  datatype Lists = Lists(compliant: seq<string>, nonCompliant: seq<string>, unknown: seq<string>) {
    function Size(): nat { |compliant| + |nonCompliant| + |unknown| }

    function Append(c: string, s: Status): Lists {
      match s
      case Compliant => this.(compliant := compliant + [c])
      case NonCompliant => this.(nonCompliant := nonCompliant + [c])
      case Unknown => this.(unknown := unknown + [c])
    }
  }

  const EMPTY_LISTS := Lists([], [], [])

  function ListsOf(st: seq<ClusterCompliance>): Lists {
    Lists(Select(st, Compliant), Select(st, NonCompliant), Select(st, Unknown))
  }

  /** Duplicate-free lists that share no cluster. */
  ghost predicate Partition(l: Lists) {
    && Distinct(l.compliant) && Distinct(l.nonCompliant) && Distinct(l.unknown)
    && RecordsOf(l).Disjoint()
  }

  datatype Records = Records(compliant: set<string>, nonCompliant: set<string>, unknown: set<string>) {
    function All(): set<string> { compliant + nonCompliant + unknown }

    ghost predicate Disjoint() { compliant !! nonCompliant && compliant !! unknown && nonCompliant !! unknown }

    predicate Holds(c: string, s: Status) {
      match s
      case Compliant => c in compliant
      case NonCompliant => c in nonCompliant
      case Unknown => c in unknown
    }

    /** The cluster moves to the set of the given status. */
    function Mark(c: string, s: Status): Records {
      Records(if s.Compliant? then compliant + {c} else compliant - {c},
              if s.NonCompliant? then nonCompliant + {c} else nonCompliant - {c},
              if s.Unknown? then unknown + {c} else unknown - {c})
    }

    /** The status the sets give each cluster; where sets overlap the later one wins. */
    function Map(): map<string, Status> {
      map c | c in All() :: if c in unknown then Unknown else if c in nonCompliant then NonCompliant else Compliant
    }
  }

  function RecordsOf(l: Lists): Records {
    Records(Elements(l.compliant), Elements(l.nonCompliant), Elements(l.unknown))
  }

  /** The status three lists give each cluster, later lists overriding earlier ones. */
  function ListsMap(l: Lists): map<string, Status> {
    RecordsOf(l).Map()
  }

  lemma {:induction false} SelectMembers(st: seq<ClusterCompliance>, s: Status, c: string)
    requires DistinctClusters(st)
    ensures c in Select(st, s) <==> c in StatusMap(st) && StatusMap(st)[c] == s
    ensures c in StatusMap(st) <==> c in Names(st)
    ensures Distinct(Select(st, s))
  {
    if st != [] {
      SelectMembers(Front(st), s, c);
      SelectMembers(Front(st), s, Last(st).cluster);
      assert Names(st) == Names(Front(st)) + [Last(st).cluster];
      assert forall k :: 0 <= k < |st| - 1 ==> Names(Front(st))[k] == st[k].cluster;
      assert Last(st).cluster !in Names(Front(st));
    }
  }

  /** A cluster is listed as compliant or non-compliant exactly when the status gives it that very state, and as unknown
      exactly when it gives it any other. */
  lemma {:induction false} GroupedByState(st: seq<ClusterCompliance>, c: string)
    ensures c in ListsOf(st).compliant <==> ClusterCompliance(c, CompliantState) in st
    ensures c in ListsOf(st).nonCompliant <==> ClusterCompliance(c, NonCompliantState) in st
    ensures c in ListsOf(st).unknown <==> exists text :: ClusterCompliance(c, OtherState(text)) in st
  {
    if st != [] {
      GroupedByState(Front(st), c);
      assert st == Front(st) + [Last(st)];
    }
  }

  lemma {:induction false} SelectSizes(st: seq<ClusterCompliance>)
    ensures ListsOf(st).Size() == |st|
  {
    if st != [] {
      SelectSizes(Front(st));
    }
  }

  /** The clusters a status map gives one status. */
  function WithStatus(m: map<string, Status>, s: Status): set<string> {
    set c | c in m && m[c] == s
  }

  lemma SelectSet(st: seq<ClusterCompliance>, s: Status)
    requires DistinctClusters(st)
    ensures Elements(Select(st, s)) == WithStatus(StatusMap(st), s)
    ensures Elements(Names(st)) == StatusMap(st).Keys
    ensures Distinct(Select(st, s)) && Distinct(Names(st))
  {
    SelectMembers(st, s, "");
    forall c ensures c in Elements(Select(st, s)) <==> c in WithStatus(StatusMap(st), s) {
      SelectMembers(st, s, c);
    }
    forall c ensures c in Elements(Names(st)) <==> c in StatusMap(st) {
      SelectMembers(st, s, c);
    }
  }

  /** Grouping a status conserves its clusters: the three lists are a partition of them, of the same total length,
      and give every cluster the status the policy gives it. */
  lemma GroupingConserves(st: seq<ClusterCompliance>)
    requires DistinctClusters(st)
    ensures Partition(ListsOf(st))
    ensures ListsOf(st).Size() == |st|
    ensures RecordsOf(ListsOf(st)).All() == Elements(Names(st)) == StatusMap(st).Keys
    ensures ListsMap(ListsOf(st)) == StatusMap(st)
    ensures Distinct(Names(st))
  {
    SelectSizes(st);
    SelectSet(st, Compliant);
    SelectSet(st, NonCompliant);
    SelectSet(st, Unknown);
    MapOfSplit(StatusMap(st));
  }

  /** Splitting a status map by status loses nothing. */
  lemma MapOfSplit(m: map<string, Status>)
    ensures var r := Records(WithStatus(m, Compliant), WithStatus(m, NonCompliant), WithStatus(m, Unknown));
            r.Disjoint() && r.All() == m.Keys && r.Map() == m
  {}

  /** Two partitions with the same clusters, non-compliant set and unknown set give every cluster the same status. */
  lemma SameGroupsSameMap(a: Records, b: Records)
    requires a.Disjoint() && b.Disjoint()
    requires a.All() == b.All() && a.nonCompliant == b.nonCompliant && a.unknown == b.unknown
    ensures a.Map() == b.Map()
  {
    assert a.compliant == a.All() - a.nonCompliant - a.unknown;
  }
}
