/** What the messages handed to the transport say, compared with what the bundles hold. */
module SentContent {
  import opened Collections
  import opened Policies
  import opened Versions
  import opened ClustersPerPolicy
  import opened CompleteCompliance
  import opened MinimalCompliance
  import opened DeltaCompliance
  import opened Protocol
  import opened BundleAgreement
  import opened HybridLine
  import opened SentVersions
  import opened LineReplay
  import opened Reachability
  import opened Passes
  import opened Guarantees
  import opened LastRead

  // ----- The message of one turn -----

  /** The status a clusters-per-policy message gives the clusters of a policy. */
  function StatusIn(m: Message, p: string): Option<StatusChanges> {
    if !m.payload.CppPayload? then None
    else match Find(m.payload.lists, p)
      case None => None
      case Some(l) => Some(ListsMap(l))
  }

  /** What a complete message shows of a policy. */
  function ShownIn(m: Message, p: string): Option<AlertSets> {
    if m.payload.CompletePayload? then Shown(Complete(m.payload.alerts, 0), p) else None
  }

  /** The turn hands over one message of the kind, with the bundle's present version. */
  ghost predicate HandsOne(s: Sys, k: Kind, env: EntryEnv, m: Message) {
    && SyncEntry(s, k, env).sys.handed == s.handed + [m]
    && m.kind == k && m.version == Version(s.incarnation, s.Generation(k))
  }

  /** A clusters-per-policy message gives exactly the full status of every policy, under the plain key. */
  lemma CppMessage(s: Sys, env: EntryEnv, p: string)
    requires Sends(s, CppKind, env)
    ensures exists m :: HandsOne(s, CppKind, env, m) && m.key == Plain(CppKind) && m.payload.CppPayload?
                        && StatusIn(m, p) == FullStatus(s, p)
  {
    EntryHands(s, CppKind, env);
    DeliverEffect(s, env.before);
    DeliverEffect(Deliver(s, env.before), env.between);
    var m := Ready(s, env).MessageFor(CppKind);
    assert HandsOne(s, CppKind, env, m) && StatusIn(m, p) == FullStatus(s, p);
  }

  /** A complete message shows exactly the alerts of clusters-per-policy, and its base is the present version of that.
      */
  lemma CompleteMessage(s: Sys, env: EntryEnv, p: string)
    requires StateInv(s) && Sends(s, CompleteKind, env)
    ensures exists m :: HandsOne(s, CompleteKind, env, m) && m.key == Plain(CompleteKind) && m.payload.CompletePayload?
                        && m.payload.cppVersion == Version(s.incarnation, s.cpp.generation)
                        && ShownIn(m, p) == AlertView(Find(s.cpp.objects, p))
  {
    EntryHands(s, CompleteKind, env);
    DeliverEffect(s, env.before);
    DeliverEffect(Deliver(s, env.before), env.between);
    var m := Ready(s, env).MessageFor(CompleteKind);
    assert Shown(s.complete, p) == AlertView(Find(s.cpp.objects, p));
    assert HandsOne(s, CompleteKind, env, m) && ShownIn(m, p) == Shown(s.complete, p);
  }

  /** A minimal message lists clusters-per-policy's policies in its order, with the counts of its lists. */
  lemma MinimalMessage(s: Sys, env: EntryEnv)
    requires StateInv(s) && Sends(s, MinimalKind, env)
    ensures exists m :: HandsOne(s, MinimalKind, env, m) && m.key == Plain(MinimalKind) && m.payload.MinimalPayload?
                        && Agrees(Minimal(m.payload.counts, 0), s.cpp)
  {
    EntryHands(s, MinimalKind, env);
    DeliverEffect(s, env.before);
    DeliverEffect(Deliver(s, env.before), env.between);
    var m := Ready(s, env).MessageFor(MinimalKind);
    assert HandsOne(s, MinimalKind, env, m) && Agrees(Minimal(m.payload.counts, 0), s.cpp);
  }

  /** A delta message says of every live cluster no other status than clusters-per-policy does, on the base of the line
      that is open when it is marshalled. */
  lemma DeltaMessage(s: Sys, env: EntryEnv)
    requires StateInv(s) && Sends(s, DeltaKind, env)
    ensures exists m :: HandsOne(s, DeltaKind, env, m)
                        && m.key == Numbered(DeltaKind, Ready(s, env).delta.transportationId)
                        && m.payload.DeltaPayload? && m.payload.base == Ready(s, env).DeltaBase()
                        && AgreesWithCpp(s, m)
  {
    EntryHands(s, DeltaKind, env);
    DeliverEffect(s, env.before);
    DeliverEffect(Deliver(s, env.before), env.between);
    DeliverKeepsState(s, env.before);
    DeliverKeepsState(Deliver(s, env.before), env.between);
    var m := Ready(s, env).MessageFor(DeltaKind);
    MarshalledAgrees(Ready(s, env), DeltaKind);
    assert forall p :: FullStatus(Ready(s, env), p) == FullStatus(s, p);
    assert HandsOne(s, DeltaKind, env, m) && AgreesWithCpp(s, m);
  }

  // ----- What was sent under the present version is what is held -----

  /** The message says what the bundle of its kind holds: the cluster sets of clusters-per-policy; the alerts of
      complete, if clusters-per-policy has not changed since; the counts of minimal. */
  ghost predicate SaysWhatIsHeld(s: Sys, m: Message) {
    match m.kind
    case CppKind => m.payload.CppPayload? && forall p :: Clusters(Cpp(m.payload.lists, 0), p) == Clusters(s.cpp, p)
    case CompleteKind =>
      m.payload.CompletePayload?
      && (m.payload.cppVersion == s.CurrentVersion(CppKind) ==> m.payload.alerts == s.complete.objects)
    case DeltaKind => m.payload.DeltaPayload?
    case MinimalKind => m.payload.MinimalPayload? && m.payload.counts == s.minimal.objects
  }

  /** A message that carries the present version of its bundle says what is held, and no complete message is based on a
      later version of clusters-per-policy than the present one. */
  ghost predicate Faithful(s: Sys, m: Message) {
    && (m.version == s.CurrentVersion(m.kind) ==> SaysWhatIsHeld(s, m))
    && (m.kind == CompleteKind && m.version.incarnation == s.incarnation ==>
          m.payload.CompletePayload? && !m.payload.cppVersion.NewerThan(s.CurrentVersion(CppKind)))
  }

  ghost predicate AllFaithful(s: Sys) {
    forall i :: 0 <= i < |s.handed| ==> Faithful(s, s.handed[i])
  }

  /** An update or a delete that leaves a generation alone leaves what messages of that kind say. */
  lemma ChangeKeepsFaithful(s: Sys, step: Step, m: Message)
    requires StateInv(s) && (step.PolicyUpdated? ==> DistinctClusters(step.policy.status))
    requires step.PolicyUpdated? || step.PolicyDeleted?
    requires Faithful(s, m) && !m.version.NewerThan(s.CurrentVersion(m.kind))
    ensures Faithful(Next(s, step), m)
  {
    var t := Next(s, step);
    NextGrows(s, step);
    assert t.Generation(m.kind) >= s.Generation(m.kind) && t.Generation(CppKind) >= s.Generation(CppKind);
    if m.version == t.CurrentVersion(m.kind) {
      assert m.version == s.CurrentVersion(m.kind);
      match m.kind
      case CppKind =>
        forall p ensures Clusters(Cpp(m.payload.lists, 0), p) == Clusters(t.cpp, p) {
          SameCppGeneration(s, step, p);
        }
      case CompleteKind =>
        if m.payload.cppVersion == t.CurrentVersion(CppKind) {
          QuietStepKeepsContent(s, step);
        }
      case DeltaKind =>
      case MinimalKind => SameMinimalGeneration(s, step);
    }
  }

  lemma SameContentKeepsFaithful(s: Sys, t: Sys, m: Message)
    requires Faithful(s, m) && SameContent(s, t)
    ensures Faithful(t, m)
  {}

  lemma MarshalledIsFaithful(s: Sys, k: Kind)
    ensures Faithful(s, s.MessageFor(k))
  {}

  lemma TurnKeepsFaithful(s: Sys, k: Kind, env: EntryEnv)
    requires AllFaithful(s)
    ensures AllFaithful(SyncEntry(s, k, env).sys)
  {
    var t := SyncEntry(s, k, env).sys;
    EntryHands(s, k, env);
    SyncEntrySameContent(s, k, env);
    DeliverEffect(s, env.before);
    DeliverEffect(Deliver(s, env.before), env.between);
    forall i | 0 <= i < |t.handed| ensures Faithful(t, t.handed[i]) {
      if i < |s.handed| {
        SameContentKeepsFaithful(s, t, s.handed[i]);
      } else {
        MarshalledIsFaithful(Ready(s, env), k);
        SameContentKeepsFaithful(Ready(s, env), t, t.handed[i]);
      }
    }
  }

  lemma PassKeepsFaithful(s: Sys, env: PassEnv, i: nat)
    requires AllFaithful(s)
    ensures AllFaithful(PassFrom(s, env, i))
    decreases 4 - i
  {
    if i < 4 {
      var r := SyncEntry(s, ORDER[i], env.Get(ORDER[i]));
      TurnKeepsFaithful(s, ORDER[i], env.Get(ORDER[i]));
      if !r.stop {
        PassKeepsFaithful(r.sys, env, i + 1);
      }
    }
  }

  lemma HandedIsNotAhead(s: Sys, i: nat)
    requires VersionInv(s) && i < |s.handed|
    ensures !s.handed[i].version.NewerThan(s.CurrentVersion(s.handed[i].kind))
  {
    var k := s.handed[i].kind;
    assert !s.handed[i].version.NewerThan(s.lastSent.Get(k));
    assert s.lastSent.Get(k).incarnation == s.incarnation && s.lastSent.Get(k).generation <= s.Generation(k);
  }

  lemma NextKeepsFaithful(s: Sys, step: Step)
    requires Inv(s) && AllFaithful(s) && (step.PolicyUpdated? ==> DistinctClusters(step.policy.status))
    ensures AllFaithful(Next(s, step))
  {
    match step
    case SyncBundles(env) => PassKeepsFaithful(s, env, 0);
    case Reported(r) =>
      ReportEffect(s, r);
      forall i | 0 <= i < |s.handed| ensures Faithful(HandleReport(s, r), s.handed[i]) {
        SameContentKeepsFaithful(s, HandleReport(s, r), s.handed[i]);
      }
    case _ =>
      UpdateSameLine(s, step.policy);
      forall i | 0 <= i < |s.handed| ensures Faithful(Next(s, step), s.handed[i]) {
        HandedIsNotAhead(s, i);
        ChangeKeepsFaithful(s, step, s.handed[i]);
      }
  }

  lemma {:induction false} RunIsFaithful(boot: Sys, steps: seq<Step>)
    requires Inv(boot) && AllFaithful(boot) && CleanSteps(steps)
    ensures AllFaithful(Run(boot, steps))
  {
    if steps != [] {
      var front := steps[..|steps| - 1];
      RunIsFaithful(boot, front);
      RunKeepsInv(boot, front);
      NextKeepsFaithful(Run(boot, front), steps[|steps| - 1]);
    }
  }

  lemma ReachableIsFaithful(s: Sys)
    requires Reachable(s)
    ensures AllFaithful(s)
  {
    var incarnation: nat, factor: int, deltaTransport: bool, earlier: seq<Message>, steps: seq<Step> :|
      && Earlier(earlier, incarnation) && CleanSteps(steps)
      && s == Run(Boot(incarnation, factor, deltaTransport, earlier), steps);
    BootState(incarnation, factor, deltaTransport, earlier);
    BootVersions(incarnation, factor, deltaTransport, earlier);
    RunIsFaithful(Boot(incarnation, factor, deltaTransport, earlier), steps);
  }

  /** The last message of the kind. */
  ghost predicate IsLast(ms: seq<Message>, k: Kind, i: nat) {
    i < |ms| && ms[i].kind == k && forall j :: i < j < |ms| ==> ms[j].kind != k
  }

  lemma LastSentIsLast(s: Sys, k: Kind, i: nat)
    requires VersionInv(s) && IsLast(s.handed, k, i) && s.lastSent.Get(k).generation > 0
    ensures s.handed[i].version == s.lastSent.Get(k)
  {
    assert Handed(s.handed, k, s.lastSent.Get(k));
    var j :| 0 <= j < |s.handed| && s.handed[j].kind == k && s.handed[j].version == s.lastSent.Get(k);
    assert j <= i;
    assert !s.handed[i].version.NewerThan(s.lastSent.Get(k));
  }

  /** When a bundle has not changed since it was last sent, the last message of its kind says what it holds: for
      clusters-per-policy the very policies with their clusters, for minimal the very counts, and for complete the very
      alerts, if clusters-per-policy has not changed since either. */
  lemma LastMessageSaysWhatIsHeld(s: Sys, k: Kind, i: nat)
    requires Reachable(s) && s.lastSent.Get(k) == s.CurrentVersion(k) && s.Generation(k) > 0
    requires IsLast(s.handed, k, i)
    ensures SaysWhatIsHeld(s, s.handed[i])
  {
    ReachableInv(s);
    ReachableIsFaithful(s);
    LastSentIsLast(s, k, i);
    assert Faithful(s, s.handed[i]);
  }

  /** There is such a message. */
  lemma LastMessageExists(s: Sys, k: Kind)
    requires VersionInv(s) && s.lastSent.Get(k).generation > 0
    ensures exists i :: IsLast(s.handed, k, i)
  {
    assert Handed(s.handed, k, s.lastSent.Get(k));
    var i: nat :| i < |s.handed| && s.handed[i].kind == k && s.handed[i].version == s.lastSent.Get(k);
    assert IsLast(s.handed, k, i);
  }
}
