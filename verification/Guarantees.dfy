/** What the compliance sync guarantees in every reachable state and over every run. */
module Guarantees {
  import opened Collections
  import opened Policies
  import opened ClustersPerPolicy
  import opened CompleteCompliance
  import opened MinimalCompliance
  import opened DeltaCompliance
  import opened Protocol
  import opened BundleAgreement
  import opened HybridLine
  import opened SentVersions
  import opened LineReplay
  import opened Reports
  import opened Reachability
  import opened Passes

  // ----- Agreement of the bundles -----

  /** Every policy of clusters-per-policy has disjoint records that give each of its clusters the status listed. */
  lemma CacheAgreement(s: Sys, p: string)
    requires Reachable(s) && FullStatus(s, p).Some?
    ensures p in s.delta.cache && s.delta.cache[p].Disjoint()
    ensures SubMap(FullStatus(s, p).value, s.delta.cache[p].Map())
  {
    ReachableInv(s);
    assert CacheCovers(s, p) && Reconstructs(s.delta, p);
  }

  /** A receiver that applied every flushed delta of the line and then applies the pending one holds exactly the records
      of every cached policy, and so the listed status of every live policy and cluster. */
  lemma LineReconstruction(s: Sys, p: string)
    requires Reachable(s)
    ensures p in s.delta.cache ==> p in s.delta.hub && s.delta.hub[p] + Pending(s.delta, p) == s.delta.cache[p].Map()
    ensures FullStatus(s, p).Some? ==>
              p in s.delta.hub && SubMap(FullStatus(s, p).value, s.delta.hub[p] + Pending(s.delta, p))
    ensures UniqueIds(s.delta.pending) && (Find(s.delta.pending, p).Some? ==> p in s.delta.cache)
  {
    ReachableInv(s);
    assert CacheCovers(s, p) && Reconstructs(s.delta, p);
  }

  /** Complete lists a policy exactly when clusters-per-policy lists a non-compliant or unknown cluster for it, and then
      with exactly those two cluster sets. */
  lemma CompleteIsExactView(s: Sys, p: string)
    requires Reachable(s)
    ensures Shown(s.complete, p) == AlertView(Find(s.cpp.objects, p))
    ensures Find(s.complete.objects, p).Some? ==> !Find(s.complete.objects, p).value.Empty()
  {
    ReachableInv(s);
  }

  /** Minimal lists the same policies in the same order, with the lengths of the three lists as its counts. */
  lemma MinimalAgreesWithCpp(s: Sys)
    requires Reachable(s)
    ensures Ids(s.minimal.objects) == Ids(s.cpp.objects)
    ensures forall i :: 0 <= i < |s.minimal.objects| ==>
              CountsMatch(s.minimal.objects[i].value, s.cpp.objects[i].value)
  {
    ReachableInv(s);
  }

  // ----- Quiet updates -----

  /** An update that raises neither the clusters-per-policy nor the complete generation read the very status that was
      already held. */
  lemma QuietUpdateKeepsStatus(s: Sys, p: Policy)
    requires StateInv(s) && DistinctClusters(p.status) && p.origin.Some?
    requires UpdatePolicy(s, p).cpp.generation == s.cpp.generation
    requires UpdatePolicy(s, p).complete.generation == s.complete.generation
    ensures FullStatus(s, p.origin.value) == Some(StatusMap(p.status))
  {
    var id := p.origin.value;
    UpdateEffect(s.cpp, id, p.status);
    CompleteUpdateEffect(s.complete, id, p.status);
    GroupingConserves(p.status);
    assert Clusters(UpdatePolicy(s, p).cpp, id) == Clusters(s.cpp, id);
    assert AlertView(Find(s.cpp.objects, id)) == AlertView(Some(ListsOf(p.status)));
    var prev, next := Find(s.cpp.objects, id).value, ListsOf(p.status);
    SameViewSameSets(prev, next);
    SameGroupsSameMap(RecordsOf(prev), RecordsOf(next));
  }

  lemma SameViewSameSets(a: Lists, b: Lists)
    requires AlertView(Some(a)) == AlertView(Some(b))
    ensures Elements(a.nonCompliant) == Elements(b.nonCompliant) && Elements(a.unknown) == Elements(b.unknown)
  {
    EmptyAlerts(Alerts(a.nonCompliant, a.unknown));
    EmptyAlerts(Alerts(b.nonCompliant, b.unknown));
  }

  /** Whatever makes the delta bundle record a change also raises the generation of one of the two full bundles: no
      change lives only in the delta. */
  lemma FallbackLosesNothing(s: Sys, p: Policy)
    requires Reachable(s) && DistinctClusters(p.status)
    requires UpdatePolicy(s, p).delta.generation > s.delta.generation
    ensures UpdatePolicy(s, p).cpp.generation > s.cpp.generation
            || UpdatePolicy(s, p).complete.generation > s.complete.generation
  {
    ReachableInv(s);
    UpdateGrows(s, p);
    var t := UpdatePolicy(s, p);
    assert t.Generation(CppKind) >= s.Generation(CppKind) && t.Generation(CompleteKind) >= s.Generation(CompleteKind);
    if t.cpp.generation == s.cpp.generation && t.complete.generation == s.complete.generation {
      QuietUpdateKeepsStatus(s, p);
      CoveredStatusIsNoChange(s, p.origin.value, p.status);
      assert false;
    }
  }

  lemma CoveredStatusIsNoChange(s: Sys, p: string, st: seq<ClusterCompliance>)
    requires StateInv(s) && DistinctClusters(st) && FullStatus(s, p) == Some(StatusMap(st))
    ensures p in s.delta.cache && Absorb(s.delta.cache[p], st).changed.Size() == 0
  {
    assert CacheCovers(s, p) && Reconstructs(s.delta, p);
    AbsorbEffect(s.delta.cache[p], st);
    EmptyChanges(Absorb(s.delta.cache[p], st).changed);
  }

  // ----- The pair of versions identifies the state -----

  lemma QuietStepKeepsContent(s: Sys, step: Step)
    requires StateInv(s) && (step.PolicyUpdated? ==> DistinctClusters(step.policy.status))
    requires Next(s, step).cpp.generation == s.cpp.generation
    requires Next(s, step).complete.generation == s.complete.generation
    ensures Next(s, step).complete == s.complete
    ensures forall p :: FullStatus(Next(s, step), p) == FullStatus(s, p)
  {
    match step
    case PolicyUpdated(p) =>
      if p.origin.Some? {
        QuietUpdateKeepsStatus(s, p);
        UpdateEffect(s.cpp, p.origin.value, p.status);
        CompleteUpdateEffect(s.complete, p.origin.value, p.status);
        GroupingConserves(p.status);
      }
    case PolicyDeleted(p) =>
      if p.origin.Some? {
        assert Find(s.cpp.objects, p.origin.value).None?;
        assert Shown(s.complete, p.origin.value) == AlertView(Find(s.cpp.objects, p.origin.value));
      }
    case SyncBundles(env) => PassSameContent(s, env, 0);
    case Reported(r) => ReportEffect(s, r);
  }

  lemma {:induction false} RunGrows(s: Sys, steps: seq<Step>)
    ensures Grows(s, Run(s, steps))
  {
    if steps != [] {
      RunGrows(s, steps[..|steps| - 1]);
      NextGrows(Run(s, steps[..|steps| - 1]), steps[|steps| - 1]);
      var f, t := Run(s, steps[..|steps| - 1]), Run(s, steps);
      forall k ensures t.Generation(k) >= s.Generation(k) {
        assert t.Generation(k) >= f.Generation(k) >= s.Generation(k);
      }
    }
  }

  /** Two points of a run with the same clusters-per-policy and complete generations have the same complete content and
      the same full status of every policy, even though deletes never raise the complete generation. */
  lemma {:induction false} VersionPairIdentifiesState(s: Sys, steps: seq<Step>)
    requires Inv(s) && CleanSteps(steps)
    requires Run(s, steps).cpp.generation == s.cpp.generation
    requires Run(s, steps).complete.generation == s.complete.generation
    ensures Run(s, steps).complete == s.complete
    ensures forall p :: FullStatus(Run(s, steps), p) == FullStatus(s, p)
  {
    if steps != [] {
      var front, last := steps[..|steps| - 1], steps[|steps| - 1];
      var f := Run(s, front);
      RunGrows(s, front);
      NextGrows(f, last);
      assert f.Generation(CppKind) >= s.Generation(CppKind) && f.Generation(CompleteKind) >= s.Generation(CompleteKind);
      assert Next(f, last).Generation(CppKind) >= f.Generation(CppKind);
      assert Next(f, last).Generation(CompleteKind) >= f.Generation(CompleteKind);
      VersionPairIdentifiesState(s, front);
      RunKeepsInv(s, front);
      QuietStepKeepsContent(f, last);
    }
  }

  // ----- What a delta send brings to the receiver -----

  /** The records of a policy are rebuilt from what was handed to the transport. A receiver starts from the records read
      when the line was opened (or when the policy was first read since), and overrides them in order by the changes in
      the messages it takes for the line's, and then by those the next delta message would carry. What it gets is right
      for every cluster on record, and so for every live one; it has clusters beyond those exactly when the line's first
      message was late and brought some, which never happens when that message was the line's own. */
  lemma RebuiltFromHanded(s: Sys, p: string)
    requires Reachable(s) && p in s.delta.cache
    ensures p in s.delta.openings && s.delta.openings[p].from <= s.delta.transportationId <= |s.attempts|
    ensures AttemptsHanded(s)
    ensures var got, records := View(s, p) + ChangesIn(s.MessageFor(DeltaKind), p), s.delta.cache[p].Map();
            && got == Stale(s, p) + records && SubMap(records, got)
            && (FullStatus(s, p).Some? ==> SubMap(FullStatus(s, p).value, got))
            && (got == records <==> Stale(s, p).Keys <= records.Keys)
    ensures s.attempts != [] && Regular(s.attempts[0], 0, s.DeltaBase()) ==> Stale(s, p) == map[]
  {
    ReachableInv(s);
    assert Reconstructs(s.delta, p) && Replays(s, p) && CacheCovers(s, p);
    assert ChangesIn(s.MessageFor(DeltaKind), p) == Pending(s.delta, p);
    OnTop(Stale(s, p), s.delta.hub[p], Pending(s.delta, p));
    Below(Stale(s, p), s.delta.cache[p].Map());
  }

  lemma Below(stale: StatusChanges, records: StatusChanges)
    ensures SubMap(records, stale + records)
    ensures stale + records == records <==> stale.Keys <= records.Keys
  {
    assert (stale + records).Keys == stale.Keys + records.Keys;
    if stale.Keys <= records.Keys {
      assert (stale + records).Keys == records.Keys;
    }
  }

  /** The receiver's view `after` is the view `before` overridden by the payload of the message. */
  ghost predicate Applied(before: map<string, StatusChanges>, m: Message, after: map<string, StatusChanges>) {
    after.Keys == before.Keys && forall p :: p in before ==> after[p] == before[p] + ChangesIn(m, p)
  }

  /** What an accepted delta send makes of a line. Below the factor the receiver's view becomes the old one overridden
      by exactly the payload handed over, and nothing stays pending; at the factor complete mode is back and what was
      sent is still on record as pending. */
  ghost predicate DeltaSent(b: Sys, m: Message, t: Sys) {
    && t.attempts == b.attempts + [Attempt(m, b.delta.pending)]
    && (t.mode == CompleteStateMode <==> |t.attempts| == b.factor)
    && (t.mode == DeltaStateMode ==> t.delta.pending == [] && Applied(b.delta.hub, m, t.delta.hub))
    && (t.mode == CompleteStateMode ==> t.delta == b.delta)
  }

  lemma AttemptApplies(b: Sys, m: Message)
    requires b.mode == DeltaStateMode && LineInv(b) && m == b.MessageFor(DeltaKind)
    ensures m.key == Numbered(DeltaKind, |b.attempts|) && DeltaSent(b, m, HandleAttempt(b, m))
  {
    forall p ensures ChangesIn(m, p) == Pending(b.delta, p) {}
  }

  lemma UndisturbedSend(b: Sys, during: seq<Report>)
    requires b.Enabled() && b.mode == DeltaStateMode && LineInv(b) && !HasFailure(during)
    ensures var m := b.MessageFor(DeltaKind);
            m.key == Numbered(DeltaKind, |b.attempts|) && DeltaSent(b, m, SendAsync(b, m, Accepted, during))
  {
    var m := b.MessageFor(DeltaKind);
    var h := b.(handed := b.handed + [m]);
    OnlyFailuresMatter(h, during);
    assert LineInv(h) && h.MessageFor(DeltaKind) == m;
    AttemptApplies(h, m);
    assert SendAsync(b, m, Accepted, during) == HandleAttempt(h, m);
  }

  /** An accepted delta send during which no failure is heard carries the next ID of the line, and the receiver gets
      exactly its payload. */
  lemma DeltaSendReachesReceiver(s: Sys, env: EntryEnv)
    requires Reachable(s) && s.Enabled()
    requires Due(Deliver(s, env.before), DeltaKind, env.level) && env.outcome == Accepted
    requires !HasFailure(env.between + env.during)
    ensures var b, t := Deliver(s, env.before), SyncEntry(s, DeltaKind, env).sys;
            var m := b.MessageFor(DeltaKind);
            t.handed == s.handed + [m] && m.key == Numbered(DeltaKind, |b.attempts|) && DeltaSent(b, m, t)
  {
    ReachableInv(s);
    DeliverKeepsLine(s, env.before);
    DeliverEffect(s, env.before);
    BothWindows(env.between, env.during);
    OnlyFailuresMatter(Deliver(s, env.before), env.between);
    EntryHands(s, DeltaKind, env);
    UndisturbedSend(Deliver(s, env.before), env.during);
  }
}
