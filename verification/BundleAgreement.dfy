/** What the four bundles agree on in every reachable state. */
module BundleAgreement {
  import opened Collections
  import opened Policies
  import opened ClustersPerPolicy
  import opened CompleteCompliance
  import opened MinimalCompliance
  import opened DeltaCompliance
  import opened Protocol

  /** The full status clusters-per-policy holds for a policy. */
  function FullStatus(s: Sys, p: string): Option<StatusChanges> {
    match Find(s.cpp.objects, p)
    case None => None
    case Some(l) => Some(ListsMap(l))
  }

  ghost predicate SubMap(a: StatusChanges, b: StatusChanges) {
    forall c :: c in a ==> c in b && b[c] == a[c]
  }

  /** A policy listed in clusters-per-policy has records, which give each of its clusters the status listed. */
  ghost predicate CacheCovers(s: Sys, p: string) {
    FullStatus(s, p).Some? ==> p in s.delta.cache && SubMap(FullStatus(s, p).value, s.delta.cache[p].Map())
  }

  /** Complete shows exactly the non-compliant and unknown clusters that clusters-per-policy lists. */
  ghost predicate ShowsView(s: Sys) {
    forall p :: Shown(s.complete, p) == AlertView(Find(s.cpp.objects, p))
  }

  ghost predicate StateInv(s: Sys) {
    && CppInv(s.cpp) && CompleteInv(s.complete) && DeltaInv(s.delta) && Agrees(s.minimal, s.cpp)
    && ShowsView(s)
    && (forall p :: CacheCovers(s, p))
    && s.delta.baseGeneration <= s.complete.generation
  }

  lemma BootState(incarnation: nat, factor: int, deltaTransport: bool, handed: seq<Message>)
    ensures StateInv(Boot(incarnation, factor, deltaTransport, handed))
  {}

  // ----- Controller update and delete -----

  lemma UpdateKeepsState(s: Sys, p: Policy)
    requires StateInv(s) && DistinctClusters(p.status)
    ensures StateInv(UpdatePolicy(s, p))
  {
    var t := UpdatePolicy(s, p);
    UpdateKeepsAgreement(s.minimal, s.cpp, p.origin, p.remediation, p.status);
    if p.origin.Some? {
      UpdateEffect(s.cpp, p.origin.value, p.status);
      CompleteUpdateEffect(s.complete, p.origin.value, p.status);
      UpdateReconstructs(s.delta, t.cpp.objects, p.origin.value, p.status);
      forall q ensures CacheCovers(t, q) {
        UpdateKeepsCover(s, p, q);
      }
    } else {
      assert forall q :: CacheCovers(s, q) ==> CacheCovers(t, q);
    }
  }

  lemma UpdateKeepsCover(s: Sys, p: Policy, q: string)
    requires StateInv(s) && DistinctClusters(p.status) && p.origin.Some?
    ensures CacheCovers(UpdatePolicy(s, p), q)
  {
    FindPut(s.cpp.objects, p.origin.value, ListsOf(p.status), q);
    if q == p.origin.value {
      GroupingConserves(p.status);
      RecordsFollow(s.delta, UpdatePolicy(s, p).cpp.objects, q, p.status);
    } else {
      assert CacheCovers(s, q);
      OtherRecordsStay(s.delta, UpdatePolicy(s, p).cpp.objects, p.origin.value, p.status, q);
    }
  }

  lemma OtherRecordsStay(d: Delta, base: seq<Entry<Lists>>, p: string, st: seq<ClusterCompliance>, q: string)
    requires q != p
    ensures var d' := UpdateDelta(d, base, Some(p), st);
            q in d.cache ==> q in d'.cache && d'.cache[q] == d.cache[q]
  {}

  /** After an update the records of the policy give its clusters the status read, whether they were taken from the
      base or brought up to date. */
  lemma RecordsFollow(d: Delta, base: seq<Entry<Lists>>, p: string, st: seq<ClusterCompliance>)
    requires DeltaInv(d) && DistinctClusters(st)
    requires Find(base, p).Some? && ListsMap(Find(base, p).value) == StatusMap(st)
    ensures var d' := UpdateDelta(d, base, Some(p), st);
            p in d'.cache && SubMap(StatusMap(st), d'.cache[p].Map())
  {
    if p in d.cache {
      assert Reconstructs(d, p);
      AbsorbEffect(d.cache[p], st);
    }
  }

  lemma DeleteKeepsState(s: Sys, p: Policy)
    requires StateInv(s)
    ensures StateInv(DeletePolicy(s, p))
  {
    var t := DeletePolicy(s, p);
    DeleteKeepsAgreement(s.minimal, s.cpp, p.origin);
    if p.origin.Some? {
      DeleteEffect(s.cpp, p.origin.value);
      CompleteDeleteEffect(s.complete, p.origin.value);
      DeleteReconstructs(s.delta, p.origin.value);
    }
    forall q ensures CacheCovers(t, q) {
      DeleteKeepsCover(s, p, q);
    }
  }

  lemma DeleteKeepsCover(s: Sys, p: Policy, q: string)
    requires StateInv(s)
    ensures CacheCovers(DeletePolicy(s, p), q)
  {
    assert CacheCovers(s, q);
    if p.origin.Some? {
      FindRemove(s.cpp.objects, p.origin.value, q);
    }
  }

  // ----- Callbacks -----

  lemma SwitchKeepsState(s: Sys)
    requires StateInv(s)
    ensures StateInv(SwitchToDelta(s))
  {
    var t := SwitchToDelta(s);
    SyncReconstructs(ResetDelta(s.delta), s.complete.generation, s.cpp.objects);
    forall q ensures CacheCovers(t, q) {
      BaseRecords(s.cpp.objects, q);
    }
  }

  lemma AttemptKeepsState(s: Sys, m: Message)
    requires StateInv(s)
    ensures StateInv(HandleAttempt(s, m))
  {
    SwitchKeepsState(s);
    ResetReconstructs(s.delta);
    forall q ensures CacheCovers(HandleAttempt(s, m), q) {
      assert CacheCovers(s, q) && CacheCovers(SwitchToDelta(s), q);
    }
  }

  lemma FailureKeepsState(s: Sys)
    requires StateInv(s)
    ensures StateInv(HandleFailure(s))
  {
    forall q ensures CacheCovers(HandleFailure(s), q) {
      assert CacheCovers(s, q);
    }
  }

  lemma ReportKeepsState(s: Sys, r: Report)
    requires StateInv(s)
    ensures StateInv(HandleReport(s, r))
  {
    SwitchKeepsState(s);
    FailureKeepsState(s);
  }

  // ----- One bundle's turn -----

  lemma SameBundlesSameState(s: Sys, t: Sys)
    requires StateInv(s)
    requires t.cpp == s.cpp && t.complete == s.complete && t.delta == s.delta && t.minimal == s.minimal
    ensures StateInv(t)
  {
    forall p ensures CacheCovers(t, p) {
      assert CacheCovers(s, p);
    }
  }

  lemma {:induction false} DeliverKeepsState(s: Sys, rs: seq<Report>)
    requires StateInv(s)
    ensures StateInv(Deliver(s, rs))
  {
    if rs != [] {
      DeliverKeepsState(s, rs[..|rs| - 1]);
      ReportKeepsState(Deliver(s, rs[..|rs| - 1]), rs[|rs| - 1]);
    }
  }

  lemma SendKeepsState(s: Sys, m: Message, outcome: Outcome, during: seq<Report>)
    requires StateInv(s)
    ensures StateInv(SendAsync(s, m, outcome, during))
  {
    var h := s.(handed := s.handed + [m]);
    SameBundlesSameState(s, h);
    DeliverKeepsState(h, during);
    AttemptKeepsState(Deliver(h, during), m);
    FailureKeepsState(Deliver(h, during));
  }

  lemma SyncEntryKeepsState(s: Sys, k: Kind, env: EntryEnv)
    requires StateInv(s)
    ensures StateInv(SyncEntry(s, k, env).sys)
  {
    var b := Deliver(s, env.before);
    DeliverKeepsState(s, env.before);
    if Due(b, k, env.level) {
      var c := Deliver(b, env.between);
      DeliverKeepsState(b, env.between);
      if env.outcome != Unmarshallable {
        var t := SendAsync(c, c.MessageFor(k), env.outcome, env.during);
        SendKeepsState(c, c.MessageFor(k), env.outcome, env.during);
        SameBundlesSameState(t, SyncEntry(s, k, env).sys);
      }
    }
  }
}
