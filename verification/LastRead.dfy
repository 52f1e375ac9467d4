/** The full-state bundles against the last read of every policy, and what one version alone identifies. */
module LastRead {
  import opened Collections
  import opened Policies
  import opened ClustersPerPolicy
  import opened CompleteCompliance
  import opened MinimalCompliance
  import opened DeltaCompliance
  import opened Protocol
  import opened BundleAgreement
  import opened HybridLine
  import opened SentVersions
  import opened Reachability
  import opened Passes
  import opened Guarantees

  /** The last read of the policy, if it was not deleted since. */
  function ReadOf(steps: seq<Step>, p: string): Option<Policy> {
    if steps == [] then None
    else
      var before := ReadOf(steps[..|steps| - 1], p);
      match steps[|steps| - 1]
      case PolicyUpdated(q) => if q.origin == Some(p) then Some(q) else before
      case PolicyDeleted(q) => if q.origin == Some(p) then None else before
      case _ => before
  }

  /** What a read is reported as: each cluster by its state, the failing and unclear ones, and the counts. Of a policy
      that is gone nothing is reported, and no change is pending. */
  ghost predicate ReportedAs(s: Sys, p: string, read: Option<Policy>) {
    match read
    case None =>
      && FullStatus(s, p).None? && Shown(s.complete, p).None? && Find(s.minimal.objects, p).None?
      && Find(s.delta.pending, p).None?
    case Some(q) =>
      && FullStatus(s, p) == Some(StatusMap(q.status))
      && Shown(s.complete, p) == AlertView(Some(ListsOf(q.status)))
      && Find(s.minimal.objects, p) == Some(Counts(q.remediation, |NotCompliantAt(q.status)|, |q.status|))
  }

  lemma SameIds(s: Sys)
    requires StateInv(s)
    ensures UniqueIds(s.minimal.objects)
  {}

  lemma UpdateIsReported(s: Sys, q: Policy, p: string, read: Option<Policy>)
    requires StateInv(s) && DistinctClusters(q.status) && ReportedAs(s, p, read)
    ensures ReportedAs(UpdatePolicy(s, q), p, if q.origin == Some(p) then Some(q) else read)
  {
    if q.origin.Some? {
      UpdateEffect(s.cpp, q.origin.value, q.status);
      CompleteUpdateEffect(s.complete, q.origin.value, q.status);
      MinimalUpdateEffect(s.minimal, q.origin.value, q.remediation, q.status);
      GroupingConserves(q.status);
      NotCompliantCounts(q.status);
      if q.origin.value != p {
        PendingElsewhere(s.delta, UpdatePolicy(s, q).cpp.objects, q.origin.value, q.status, p);
      }
    }
  }

  lemma PendingElsewhere(d: Delta, base: seq<Entry<Lists>>, q: string, st: seq<ClusterCompliance>, p: string)
    requires p != q
    ensures Find(UpdateDelta(d, base, Some(q), st).pending, p) == Find(d.pending, p)
  {
    if q in d.cache {
      FindPut(d.pending, q, Pending(d, q) + ListsMap(Absorb(d.cache[q], st).changed), p);
    }
  }

  lemma DeleteIsReported(s: Sys, q: Policy, p: string, read: Option<Policy>)
    requires StateInv(s) && ReportedAs(s, p, read)
    ensures ReportedAs(DeletePolicy(s, q), p, if q.origin == Some(p) then None else read)
  {
    if q.origin.Some? {
      SameIds(s);
      DeleteEffect(s.cpp, q.origin.value);
      CompleteDeleteEffect(s.complete, q.origin.value);
      MinimalDeleteEffect(s.minimal, q.origin.value);
      DeleteForgetsChanges(s.delta, q.origin.value);
    }
  }

  /** In every run the three full bundles report every policy as it was last read, and no other policy; and no change is
      pending for any other. */
  lemma {:induction false} ReportedAsRead(boot: Sys, steps: seq<Step>, p: string)
    requires Inv(boot) && CleanSteps(steps) && ReportedAs(boot, p, None)
    ensures ReportedAs(Run(boot, steps), p, ReadOf(steps, p))
  {
    if steps != [] {
      var front, last := steps[..|steps| - 1], steps[|steps| - 1];
      var f := Run(boot, front);
      ReportedAsRead(boot, front, p);
      RunKeepsInv(boot, front);
      match last
      case PolicyUpdated(q) => UpdateIsReported(f, q, p, ReadOf(front, p));
      case PolicyDeleted(q) => DeleteIsReported(f, q, p, ReadOf(front, p));
      case _ =>
        ContentOfQuietStep(f, last);
        if Find(f.delta.pending, p).None? {
          NothingComesPending(f, last, p);
        }
    }
  }

  /** Passes and reports may flush what is pending, never add to it. */
  lemma NothingComesPending(s: Sys, step: Step, p: string)
    requires (step.SyncBundles? || step.Reported?) && Find(s.delta.pending, p).None?
    ensures Find(Next(s, step).delta.pending, p).None?
  {
    match step
    case SyncBundles(env) => PassAddsNothing(s, env, 0, p);
    case Reported(r) => ReportEffect(s, r);
  }

  lemma PassAddsNothing(s: Sys, env: PassEnv, i: nat, p: string)
    requires Find(s.delta.pending, p).None?
    ensures Find(PassFrom(s, env, i).delta.pending, p).None?
    decreases 4 - i
  {
    if i < 4 {
      var k, e := ORDER[i], env.Get(ORDER[i]);
      var c := Ready(s, e);
      DeliverEffect(s, e.before);
      DeliverEffect(Deliver(s, e.before), e.between);
      SendEffect(c, c.MessageFor(k), e.outcome, e.during);
      var r := SyncEntry(s, k, e);
      if !r.stop {
        PassAddsNothing(r.sys, env, i + 1, p);
      }
    }
  }

  lemma ContentOfQuietStep(s: Sys, step: Step)
    requires step.SyncBundles? || step.Reported?
    ensures SameContent(s, Next(s, step))
  {
    match step
    case SyncBundles(env) => PassSameContent(s, env, 0);
    case Reported(r) => ReportSameContent(s, r);
  }

  /** So for every run of a process. */
  lemma ProcessReportsAsRead(incarnation: nat, factor: int, deltaTransport: bool, earlier: seq<Message>,
                             steps: seq<Step>, p: string)
    requires Earlier(earlier, incarnation) && CleanSteps(steps)
    ensures ReportedAs(Run(Boot(incarnation, factor, deltaTransport, earlier), steps), p, ReadOf(steps, p))
  {
    BootState(incarnation, factor, deltaTransport, earlier);
    BootVersions(incarnation, factor, deltaTransport, earlier);
    ReportedAsRead(Boot(incarnation, factor, deltaTransport, earlier), steps, p);
  }

  // ----- Reads that change nothing -----

  /** A policy without an origin is no concern of any bundle. */
  lemma NoOriginChangesNothing(s: Sys, q: Policy)
    requires q.origin == None
    ensures UpdatePolicy(s, q) == s && DeletePolicy(s, q) == s
  {}

  /** Reading a policy again as it was last read raises no generation and records no change. */
  lemma ReReadRaisesNothing(s: Sys, q: Policy)
    requires StateInv(s) && DistinctClusters(q.status) && q.origin.Some? && ReportedAs(s, q.origin.value, Some(q))
    ensures forall k :: UpdatePolicy(s, q).Generation(k) == s.Generation(k)
    ensures UpdatePolicy(s, q).complete == s.complete && UpdatePolicy(s, q).minimal == s.minimal
    ensures UpdatePolicy(s, q).delta.pending == s.delta.pending
  {
    var p := q.origin.value;
    ReReadKeepsClusters(s, q);
    CompleteUpdateEffect(s.complete, p, q.status);
    MinimalUpdateEffect(s.minimal, p, q.remediation, q.status);
    NotCompliantCounts(q.status);
    CoveredStatusIsNoChange(s, p, q.status);
    forall k ensures UpdatePolicy(s, q).Generation(k) == s.Generation(k) {
      match k
      case CppKind =>
      case CompleteKind =>
      case DeltaKind =>
      case MinimalKind =>
    }
  }

  lemma ReReadKeepsClusters(s: Sys, q: Policy)
    requires StateInv(s) && DistinctClusters(q.status) && q.origin.Some?
    requires FullStatus(s, q.origin.value) == Some(StatusMap(q.status))
    ensures UpdatePolicy(s, q).cpp.generation == s.cpp.generation
  {
    var p := q.origin.value;
    UpdateEffect(s.cpp, p, q.status);
    GroupingConserves(q.status);
    var held := Find(s.cpp.objects, p).value;
    assert ListsMap(held).Keys == RecordsOf(held).All();
    forall o ensures Clusters(UpdatePolicy(s, q).cpp, o) == Clusters(s.cpp, o) {}
  }

  // ----- One version alone -----

  lemma SameMinimalGeneration(s: Sys, step: Step)
    requires StateInv(s) && Next(s, step).minimal.generation == s.minimal.generation
    ensures Next(s, step).minimal == s.minimal
  {
    match step
    case PolicyUpdated(q) =>
      if q.origin.Some? {
        MinimalUpdateEffect(s.minimal, q.origin.value, q.remediation, q.status);
      }
    case PolicyDeleted(q) =>
      if q.origin.Some? {
        SameIds(s);
        MinimalDeleteEffect(s.minimal, q.origin.value);
      }
    case _ => ContentOfQuietStep(s, step);
  }

  lemma SameCppGeneration(s: Sys, step: Step, p: string)
    requires StateInv(s) && (step.PolicyUpdated? ==> DistinctClusters(step.policy.status))
    requires Next(s, step).cpp.generation == s.cpp.generation
    ensures Clusters(Next(s, step).cpp, p) == Clusters(s.cpp, p)
  {
    match step
    case PolicyUpdated(q) =>
      if q.origin.Some? {
        UpdateEffect(s.cpp, q.origin.value, q.status);
      }
    case PolicyDeleted(q) =>
      if q.origin.Some? {
        DeleteEffect(s.cpp, q.origin.value);
      }
    case _ => ContentOfQuietStep(s, step);
  }

  lemma GenerationBetween(s: Sys, steps: seq<Step>, k: Kind)
    requires steps != []
    ensures var f := Run(s, steps[..|steps| - 1]);
            s.Generation(k) <= f.Generation(k) <= Run(s, steps).Generation(k)
  {
    RunGrows(s, steps[..|steps| - 1]);
    NextGrows(Run(s, steps[..|steps| - 1]), steps[|steps| - 1]);
  }

  /** Two points of a run with the same minimal generation have the same minimal content. */
  lemma {:induction false} MinimalVersionIdentifiesContent(s: Sys, steps: seq<Step>)
    requires Inv(s) && CleanSteps(steps) && Run(s, steps).minimal.generation == s.minimal.generation
    ensures Run(s, steps).minimal == s.minimal
  {
    if steps != [] {
      GenerationBetween(s, steps, MinimalKind);
      var front := steps[..|steps| - 1];
      MinimalVersionIdentifiesContent(s, front);
      RunKeepsInv(s, front);
      SameMinimalGeneration(Run(s, front), steps[|steps| - 1]);
    }
  }

  /** Two points of a run with the same clusters-per-policy generation list the same policies with the same clusters. */
  lemma {:induction false} CppVersionIdentifiesClusters(s: Sys, steps: seq<Step>, p: string)
    requires Inv(s) && CleanSteps(steps) && Run(s, steps).cpp.generation == s.cpp.generation
    ensures Clusters(Run(s, steps).cpp, p) == Clusters(s.cpp, p)
  {
    if steps != [] {
      GenerationBetween(s, steps, CppKind);
      var front := steps[..|steps| - 1];
      CppVersionIdentifiesClusters(s, front, p);
      RunKeepsInv(s, front);
      SameCppGeneration(Run(s, front), steps[|steps| - 1], p);
    }
  }
}
