/** The objects behind the protocol: manager, producer, collection entries and the policy status controller, each method
    proved to take exactly the step of the state machine. */
module PolicyStatusSync {
  import opened Collections
  import opened Policies
  import opened Versions
  import opened ClustersPerPolicy
  import opened CompleteCompliance
  import opened MinimalCompliance
  import opened DeltaCompliance
  import opened P = Protocol

  class HybridSyncManager {
    var activeSyncMode: Mode
    var sentDeltaCount: nat
    const sentDeltaCountSwitchFactor: int
    const deltaStateBundle: DeltaComplianceStatusBundle
    ghost var line: nat
    ghost var attempts: seq<Attempt>

    constructor (deltaStateBundle: DeltaComplianceStatusBundle, factor: int)
      ensures this.deltaStateBundle == deltaStateBundle && sentDeltaCountSwitchFactor == factor
      ensures activeSyncMode == CompleteStateMode && sentDeltaCount == 0 && line == 0 && attempts == []
    {
      this.deltaStateBundle, sentDeltaCountSwitchFactor := deltaStateBundle, factor;
      activeSyncMode, sentDeltaCount, line, attempts := CompleteStateMode, 0, 0, [];
    }

    /** The delta bundle's version objects are its own. */
    predicate Wired() {
      && deltaStateBundle.bundleVersion != deltaStateBundle.baseBundleVersion
      && deltaStateBundle.baseBundle.bundleVersion != deltaStateBundle.baseBundleVersion
    }

    predicate IsEnabled(supportsDeltaBundles: bool) {
      !(sentDeltaCountSwitchFactor <= 0 || !supportsDeltaBundles)
    }

    method HandleTransportationAttempt(ghost m: Message)
      requires Wired()
      modifies this, deltaStateBundle, deltaStateBundle.baseBundleVersion
      ensures old(activeSyncMode) == CompleteStateMode ==> SwitchedToDelta(old(deltaStateBundle.State()),
                old(deltaStateBundle.baseBundle.bundleVersion.generation),
                old(deltaStateBundle.clustersPerPolicyBaseBundle.objects), old(line))
      ensures old(activeSyncMode) == DeltaStateMode ==>
                && sentDeltaCount == old(sentDeltaCount) + 1 && line == old(line)
                && attempts == old(attempts) + [Attempt(m, old(deltaStateBundle.State()).pending)]
                && activeSyncMode == (if sentDeltaCount == sentDeltaCountSwitchFactor then CompleteStateMode
                                      else DeltaStateMode)
                && deltaStateBundle.State() == (if sentDeltaCount == sentDeltaCountSwitchFactor
                                                then old(deltaStateBundle.State())
                                                else ResetDelta(old(deltaStateBundle.State())))
    {
      if activeSyncMode == CompleteStateMode {
        SwitchToDeltaStateMode();
        return;
      }
      attempts := attempts + [Attempt(m, deltaStateBundle.State().pending)];
      sentDeltaCount := sentDeltaCount + 1;
      if sentDeltaCount == sentDeltaCountSwitchFactor {
        SwitchToCompleteStateMode();
        return;
      }
      deltaStateBundle.Reset();
    }

    method HandleTransportationSuccess()
      requires Wired()
      modifies this, deltaStateBundle, deltaStateBundle.baseBundleVersion
      ensures old(activeSyncMode) == CompleteStateMode ==> SwitchedToDelta(old(deltaStateBundle.State()),
                old(deltaStateBundle.baseBundle.bundleVersion.generation),
                old(deltaStateBundle.clustersPerPolicyBaseBundle.objects), old(line))
      ensures old(activeSyncMode) == DeltaStateMode ==>
                && activeSyncMode == DeltaStateMode && sentDeltaCount == old(sentDeltaCount)
                && line == old(line) && attempts == old(attempts)
                && deltaStateBundle.State() == old(deltaStateBundle.State())
    {
      if activeSyncMode == DeltaStateMode {
        return;
      }
      SwitchToDeltaStateMode();
    }

    method HandleTransportationFailure()
      modifies `activeSyncMode
      ensures activeSyncMode == CompleteStateMode
    {
      if activeSyncMode == CompleteStateMode {
        return;
      }
      SwitchToCompleteStateMode();
    }

    method SwitchToCompleteStateMode()
      modifies `activeSyncMode
      ensures activeSyncMode == CompleteStateMode
    {
      activeSyncMode := CompleteStateMode;
    }

    ghost predicate SwitchedToDelta(delta: Delta, complete: nat, base: seq<Entry<Lists>>, prevLine: nat)
      reads this, deltaStateBundle, deltaStateBundle.bundleVersion, deltaStateBundle.baseBundleVersion
    {
      && activeSyncMode == DeltaStateMode && sentDeltaCount == 0 && line == prevLine + 1 && attempts == []
      && deltaStateBundle.State() == SyncDelta(ResetDelta(delta), complete, base)
    }

    method SwitchToDeltaStateMode()
      requires Wired()
      modifies this, deltaStateBundle, deltaStateBundle.baseBundleVersion
      ensures SwitchedToDelta(old(deltaStateBundle.State()), old(deltaStateBundle.baseBundle.bundleVersion.generation),
                              old(deltaStateBundle.clustersPerPolicyBaseBundle.objects), old(line))
    {
      activeSyncMode := DeltaStateMode;
      sentDeltaCount := 0;
      line, attempts := line + 1, [];
      deltaStateBundle.Reset();
      deltaStateBundle.SyncState();
    }
  }

  /** The bundle of a collection entry. */
  datatype BundleRef =
    | CppRef(cpp: ClustersPerPolicyBundle)
    | CompleteRef(complete: ComplianceStatusBundle)
    | DeltaRef(delta: DeltaComplianceStatusBundle)
    | MinimalRef(minimal: MinimalComplianceStatusBundle)
  {
    function GetBundleVersion(): BundleVersion {
      match this
      case CppRef(b) => b.bundleVersion
      case CompleteRef(b) => b.bundleVersion
      case DeltaRef(b) => b.bundleVersion
      case MinimalRef(b) => b.bundleVersion
    }
  }

  /** When an entry may be sent: at a configured level, and for a managed entry in its mode only. */
  datatype EntryPredicate = AtLevel(level: AggregationLevel)
                          | InMode(manager: HybridSyncManager, mode: Mode, original: AggregationLevel)

  class BundleCollectionEntry {
    const kind: Kind
    const bundle: BundleRef
    var condition: EntryPredicate
    /** A copy, not the bundle's own version object. */
    var lastSentBundleVersion: Version

    constructor (kind: Kind, bundle: BundleRef, level: AggregationLevel)
      ensures this.kind == kind && this.bundle == bundle && condition == AtLevel(level)
      ensures lastSentBundleVersion == bundle.GetBundleVersion().Value()
    {
      this.kind, this.bundle, condition := kind, bundle, AtLevel(level);
      lastSentBundleVersion := bundle.GetBundleVersion().Value();
    }

    /** The manager adds its mode check to the entry's own condition. */
    method AppendPredicate(manager: HybridSyncManager, mode: Mode)
      requires condition.AtLevel?
      modifies `condition
      ensures condition == InMode(manager, mode, old(condition).level)
    {
      condition := InMode(manager, mode, condition.level);
    }

    predicate MaySend(level: AggregationLevel)
      reads this, if condition.InMode? then {condition.manager} else {}
    {
      match condition
      case AtLevel(l) => level == l
      case InMode(manager, mode, original) => manager.activeSyncMode == mode && level == original
    }
  }

  class Producer {
    var eventSubscriptionMap: map<Key, HybridSyncManager>
    const supportsDeltaBundles: bool
    ghost var handed: seq<Message>

    constructor (supportsDeltaBundles: bool, ghost handed: seq<Message>)
      ensures eventSubscriptionMap == map[] && this.supportsDeltaBundles == supportsDeltaBundles
      ensures this.handed == handed
    {
      eventSubscriptionMap, this.supportsDeltaBundles, this.handed := map[], supportsDeltaBundles, handed;
    }

    method Subscribe(key: Key, manager: HybridSyncManager)
      modifies `eventSubscriptionMap
      ensures eventSubscriptionMap == old(eventSubscriptionMap)[key := manager]
    {
      eventSubscriptionMap := eventSubscriptionMap[key := manager];
    }
  }

  /** The complete and delta bundles over clusters-per-policy, with their entries put under one hybrid manager. */
  method GetHybridComplianceBundleCollectionEntries(producer: Producer, incarnation: nat, cpp: ClustersPerPolicyBundle,
                                                    factor: int)
    returns (completeEntry: BundleCollectionEntry, deltaEntry: BundleCollectionEntry,
             complete: ComplianceStatusBundle, delta: DeltaComplianceStatusBundle, manager: HybridSyncManager)
    requires producer.eventSubscriptionMap == map[]
    modifies producer`eventSubscriptionMap
    ensures fresh(completeEntry) && fresh(deltaEntry) && completeEntry != deltaEntry && fresh(manager)
    ensures fresh(complete) && fresh(complete.bundleVersion) && fresh(delta) && fresh(delta.bundleVersion)
    ensures fresh(delta.baseBundleVersion) && complete.bundleVersion != delta.bundleVersion
    ensures delta.baseBundleVersion != complete.bundleVersion && delta.baseBundleVersion != delta.bundleVersion
    ensures complete.bundleVersion.incarnation == delta.bundleVersion.incarnation == incarnation
    ensures delta.baseBundleVersion.incarnation == incarnation
    ensures complete.State() == Complete([], 0) && delta.State() == Delta([], map[], 0, 0, 0, map[], map[])
    ensures complete.baseBundle == cpp && complete.baseBundleVersion == cpp.bundleVersion
    ensures delta.baseBundle == complete && delta.clustersPerPolicyBaseBundle == cpp
    ensures complete.idSource == delta.idSource == OriginAnnotation
    ensures completeEntry.kind == CompleteKind && completeEntry.bundle == CompleteRef(complete)
    ensures completeEntry.condition == InMode(manager, CompleteStateMode, Full)
    ensures completeEntry.lastSentBundleVersion == Version(incarnation, 0)
    ensures deltaEntry.kind == DeltaKind && deltaEntry.bundle == DeltaRef(delta)
    ensures deltaEntry.condition == InMode(manager, DeltaStateMode, Full)
    ensures deltaEntry.lastSentBundleVersion == Version(incarnation, 0)
    ensures manager.deltaStateBundle == delta && manager.sentDeltaCountSwitchFactor == factor
    ensures manager.activeSyncMode == CompleteStateMode && manager.sentDeltaCount == 0
    ensures manager.line == 0 && manager.attempts == []
    ensures producer.eventSubscriptionMap ==
              if manager.sentDeltaCountSwitchFactor > 0 && producer.supportsDeltaBundles
              then map[Plain(CompleteKind) := manager, Plain(DeltaKind) := manager] else map[]
  {
    complete := new ComplianceStatusBundle(incarnation, cpp, OriginAnnotation);
    delta := new DeltaComplianceStatusBundle(complete, cpp, incarnation, OriginAnnotation);
    completeEntry := new BundleCollectionEntry(CompleteKind, CompleteRef(complete), Full);
    deltaEntry := new BundleCollectionEntry(DeltaKind, DeltaRef(delta), Full);
    manager := new HybridSyncManager(delta, factor);
    completeEntry.AppendPredicate(manager, CompleteStateMode);
    deltaEntry.AppendPredicate(manager, DeltaStateMode);
    if manager.IsEnabled(producer.supportsDeltaBundles) {
      producer.Subscribe(Plain(CompleteKind), manager);
      producer.Subscribe(Plain(DeltaKind), manager);
    }
  }

  class PolicyStatusController {
    const cpp: ClustersPerPolicyBundle
    const complete: ComplianceStatusBundle
    const delta: DeltaComplianceStatusBundle
    const minimal: MinimalComplianceStatusBundle
    const manager: HybridSyncManager
    const producer: Producer
    const entries: seq<BundleCollectionEntry>

    /** How the bundle collection is wired: which bundle is whose base, which version objects are shared, the order of
        the entries, and what the manager was subscribed and appended to. */
    ghost predicate Valid()
      reads entries, producer
    {
      && complete.baseBundle == cpp && complete.baseBundleVersion == cpp.bundleVersion
      && delta.baseBundle == complete && delta.clustersPerPolicyBaseBundle == cpp
      && cpp.idSource == complete.idSource == delta.idSource == OriginAnnotation
      && manager.deltaStateBundle == delta
      && VersionsApart()
      && |entries| == 4
      && entries[0] != entries[1] && entries[0] != entries[2] && entries[0] != entries[3]
      && entries[1] != entries[2] && entries[1] != entries[3] && entries[2] != entries[3]
      && entries[0].kind == ORDER[0] && entries[1].kind == ORDER[1]
      && entries[2].kind == ORDER[2] && entries[3].kind == ORDER[3]
      && entries[0].bundle == CppRef(cpp) && entries[0].condition == AtLevel(Full)
      && entries[1].bundle == CompleteRef(complete) && entries[1].condition == InMode(manager, CompleteStateMode, Full)
      && entries[2].bundle == DeltaRef(delta) && entries[2].condition == InMode(manager, DeltaStateMode, Full)
      && entries[3].bundle == MinimalRef(minimal) && entries[3].condition == AtLevel(MinimalLevel)
      && producer.eventSubscriptionMap ==
           if manager.sentDeltaCountSwitchFactor > 0 && producer.supportsDeltaBundles
           then map[Plain(CompleteKind) := manager, Plain(DeltaKind) := manager] else map[]
    }

    /** Every bundle has its own version object, all of one incarnation. */
    ghost predicate VersionsApart() {
      && cpp.bundleVersion != complete.bundleVersion && cpp.bundleVersion != delta.bundleVersion
      && cpp.bundleVersion != minimal.bundleVersion && cpp.bundleVersion != delta.baseBundleVersion
      && complete.bundleVersion != delta.bundleVersion && complete.bundleVersion != minimal.bundleVersion
      && complete.bundleVersion != delta.baseBundleVersion
      && delta.bundleVersion != minimal.bundleVersion && delta.bundleVersion != delta.baseBundleVersion
      && minimal.bundleVersion != delta.baseBundleVersion
      && cpp.bundleVersion.incarnation == complete.bundleVersion.incarnation == delta.bundleVersion.incarnation
         == minimal.bundleVersion.incarnation == delta.baseBundleVersion.incarnation
    }

    ghost function Footprint(): set<object> {
      {cpp, cpp.bundleVersion, complete, complete.bundleVersion, delta, delta.bundleVersion, delta.baseBundleVersion,
       minimal, minimal.bundleVersion, manager, producer}
    }

    ghost function State(): Sys
      requires |entries| == 4
      reads Footprint(), entries
    {
      Sys(cpp.bundleVersion.incarnation, manager.sentDeltaCountSwitchFactor, producer.supportsDeltaBundles,
          cpp.State(), complete.State(), delta.State(), minimal.State(),
          manager.activeSyncMode, manager.sentDeltaCount,
          LastSent(entries[0].lastSentBundleVersion, entries[1].lastSentBundleVersion,
                   entries[2].lastSentBundleVersion, entries[3].lastSentBundleVersion),
          producer.handed, manager.line, manager.attempts)
    }

    /** The bundle collection of the policy status controller, as a new process creates it. */
    constructor (incarnation: nat, factor: int, supportsDeltaBundles: bool, ghost handed: seq<Message>)
      ensures Valid() && State() == Boot(incarnation, factor, supportsDeltaBundles, handed)
      ensures fresh(entries[0]) && fresh(entries[1]) && fresh(entries[2]) && fresh(entries[3])
      ensures fresh(cpp) && fresh(complete) && fresh(delta) && fresh(minimal) && fresh(manager) && fresh(producer)
      ensures fresh(cpp.bundleVersion) && fresh(complete.bundleVersion) && fresh(minimal.bundleVersion)
      ensures fresh(delta.bundleVersion) && fresh(delta.baseBundleVersion)
    {
      var producer := new Producer(supportsDeltaBundles, handed);
      var cpp := new ClustersPerPolicyBundle(incarnation, OriginAnnotation);
      var minimal := new MinimalComplianceStatusBundle(incarnation);
      var completeEntry, deltaEntry, complete, delta, manager :=
        GetHybridComplianceBundleCollectionEntries(producer, incarnation, cpp, factor);
      var cppEntry := new BundleCollectionEntry(CppKind, CppRef(cpp), Full);
      var minimalEntry := new BundleCollectionEntry(MinimalKind, MinimalRef(minimal), MinimalLevel);
      this.producer, this.cpp, this.minimal, this.complete, this.delta, this.manager :=
        producer, cpp, minimal, complete, delta, manager;
      this.entries := [cppEntry, completeEntry, deltaEntry, minimalEntry];
    }

    /** Complete's base version is always the clusters-per-policy version; the delta's base is a copy of its own. */
    lemma BaseVersions()
      requires Valid()
      ensures complete.baseBundleVersion.Value() == State().CurrentVersion(CppKind)
      ensures delta.baseBundleVersion.Value() == State().DeltaBase()
    {}

    // ----- Update and delete -----

    method UpdateObject(obj: PolicyObject)
      requires Valid()
      modifies Footprint()
      ensures Valid() && State() == UpdatePolicy(old(State()), obj.Value())
    {
      var i := 0;
      while i < |entries|
        invariant 0 <= i <= 4 && Valid()
        invariant State() == UpdatedUpTo(old(State()), obj.Value(), i)
      {
        UpdateEntry(i, obj, old(State()));
        i := i + 1;
      }
    }

    method UpdateEntry(i: nat, obj: PolicyObject, ghost start: Sys)
      requires Valid() && i < 4 && State() == UpdatedUpTo(start, obj.Value(), i)
      modifies Footprint()
      ensures Valid() && State() == UpdatedUpTo(start, obj.Value(), i + 1)
    {
      UpdatedStep(start, obj.Value(), i);
      match entries[i].bundle {
        case CppRef(b) => b.UpdateObject(obj);
        case CompleteRef(b) => b.UpdateObject(obj);
        case DeltaRef(b) => b.UpdateObject(obj);
        case MinimalRef(b) => b.UpdateObject(obj);
      }
    }

    method DeleteObject(obj: PolicyObject)
      requires Valid()
      modifies Footprint()
      ensures Valid() && State() == DeletePolicy(old(State()), obj.Value())
    {
      var i := 0;
      while i < |entries|
        invariant 0 <= i <= 4 && Valid()
        invariant State() == DeletedUpTo(old(State()), obj.Value(), i)
      {
        DeleteEntry(i, obj, old(State()));
        i := i + 1;
      }
    }

    method DeleteEntry(i: nat, obj: PolicyObject, ghost start: Sys)
      requires Valid() && i < 4 && State() == DeletedUpTo(start, obj.Value(), i)
      modifies Footprint()
      ensures Valid() && State() == DeletedUpTo(start, obj.Value(), i + 1)
    {
      DeletedStep(start, obj.Value(), i);
      match entries[i].bundle {
        case CppRef(b) => b.DeleteObject(obj);
        case CompleteRef(b) => b.DeleteObject(obj);
        case DeltaRef(b) => b.DeleteObject(obj);
        case MinimalRef(b) => b.DeleteObject(obj);
      }
    }

    // ----- Transport callbacks -----

    /** A report is looked up by message key among the subscriptions; one that is not found goes nowhere. */
    method HandleDeliveryReport(r: Report)
      requires Valid()
      modifies manager, delta, delta.baseBundleVersion
      ensures Valid() && State() == HandleReport(old(State()), r)
    {
      if r.key in producer.eventSubscriptionMap {
        if r.delivered {
          Succeed(producer.eventSubscriptionMap[r.key]);
        } else {
          Fail(producer.eventSubscriptionMap[r.key]);
        }
      }
    }

    method Succeed(subscriber: HybridSyncManager)
      requires Valid() && subscriber == manager
      modifies manager, delta, delta.baseBundleVersion
      ensures Valid() && State() == HandleSuccess(old(State()))
    {
      subscriber.HandleTransportationSuccess();
    }

    method Fail(subscriber: HybridSyncManager)
      requires Valid() && subscriber == manager
      modifies manager
      ensures Valid() && State() == HandleFailure(old(State()))
    {
      subscriber.HandleTransportationFailure();
    }

    method Attempted(subscriber: HybridSyncManager, ghost m: Message)
      requires Valid() && subscriber == manager
      modifies manager, delta, delta.baseBundleVersion
      ensures Valid() && State() == HandleAttempt(old(State()), m)
    {
      subscriber.HandleTransportationAttempt(m);
    }

    method DeliverReports(rs: seq<Report>)
      requires Valid()
      modifies manager, delta, delta.baseBundleVersion
      ensures Valid() && State() == Deliver(old(State()), rs)
    {
      ghost var start := State();
      for i := 0 to |rs|
        invariant Valid() && State() == Deliver(start, rs[..i])
      {
        HandleDeliveryReport(rs[i]);
        assert rs[..i + 1][..i] == rs[..i];
      }
      assert rs[..|rs|] == rs;
    }

    method SendAsync(k: Kind, ghost m: Message, outcome: Outcome, during: seq<Report>)
      requires Valid() && m.kind == k
      modifies manager, delta, delta.baseBundleVersion, producer`handed
      ensures Valid() && State() == P.SendAsync(old(State()), m, outcome, during)
    {
      producer.handed := producer.handed + [m];
      DeliverReports(during);
      FireCallback(k, m, outcome);
    }

    /** An accepted or refused send fires its one callback, if there is a subscription. */
    method FireCallback(k: Kind, ghost m: Message, outcome: Outcome)
      requires Valid() && m.kind == k
      modifies manager, delta, delta.baseBundleVersion
      ensures Valid()
      ensures State() == if !old(State()).Subscribed(Plain(k)) || (!outcome.Refused? && !outcome.Accepted?)
                         then old(State())
                         else if outcome.Refused? then HandleFailure(old(State())) else HandleAttempt(old(State()), m)
    {
      if Plain(k) in producer.eventSubscriptionMap {
        match outcome {
          case Refused => Fail(producer.eventSubscriptionMap[Plain(k)]);
          case Accepted => Attempted(producer.eventSubscriptionMap[Plain(k)], m);
          case _ =>
        }
      }
    }

    // ----- One pass -----

    method SyncEntry(i: nat, env: EntryEnv) returns (stop: bool)
      requires Valid() && i < 4
      modifies manager, delta, delta.baseBundleVersion, producer`handed, entries[i]
      ensures Valid() && Progress(State(), stop) == P.SyncEntry(old(State()), ORDER[i], env)
    {
      DeliverReports(env.before);
      var entry := entries[i];
      if !entry.MaySend(env.level) {
        return false;
      }
      if entry.bundle.GetBundleVersion().Value().NewerThan(entry.lastSentBundleVersion) {
        DeliverReports(env.between);
        if env.outcome == Unmarshallable {
          return true;
        }
        SendEntry(i, env.outcome, env.during);
      }
      return false;
    }

    /** The bundle is handed over as it is now, and its present version becomes the last sent. */
    method SendEntry(i: nat, outcome: Outcome, during: seq<Report>)
      requires Valid() && i < 4
      modifies manager, delta, delta.baseBundleVersion, producer`handed, entries[i]
      ensures Valid()
      ensures var t := P.SendAsync(old(State()), old(State()).MessageFor(ORDER[i]), outcome, during);
              State() == t.(lastSent := t.lastSent.Set(ORDER[i], t.CurrentVersion(ORDER[i])))
    {
      var entry := entries[i];
      SendAsync(entry.kind, State().MessageFor(entry.kind), outcome, during);
      entry.lastSentBundleVersion := entry.bundle.GetBundleVersion().Value();
    }

    method SyncBundles(env: PassEnv)
      requires Valid()
      modifies manager, delta, delta.baseBundleVersion, producer`handed, entries
      ensures Valid() && State() == PassFrom(old(State()), env, 0)
    {
      ghost var goal := PassFrom(State(), env, 0);
      var i := 0;
      while i < |entries|
        invariant 0 <= i <= 4 && Valid()
        invariant PassFrom(State(), env, i) == goal
      {
        var stop := SyncTurn(i, env, goal);
        if stop {
          return;
        }
        i := i + 1;
      }
    }

    method SyncTurn(i: nat, env: PassEnv, ghost goal: Sys) returns (stop: bool)
      requires Valid() && i < 4 && PassFrom(State(), env, i) == goal
      modifies manager, delta, delta.baseBundleVersion, producer`handed, entries[i]
      ensures Valid() && if stop then State() == goal else PassFrom(State(), env, i + 1) == goal
    {
      PassStep(State(), env, i);
      assert entries[i].kind == ORDER[i];
      stop := SyncEntry(i, env.Get(entries[i].kind));
    }
  }

  /** The state after the first `n` bundles of the collection were updated. */
  ghost function UpdatedUpTo(s: Sys, p: Policy, n: nat): Sys {
    var t := UpdatePolicy(s, p);
    s.(cpp := if n > 0 then t.cpp else s.cpp, complete := if n > 1 then t.complete else s.complete,
       delta := if n > 2 then t.delta else s.delta, minimal := if n > 3 then t.minimal else s.minimal)
  }

  ghost function DeletedUpTo(s: Sys, p: Policy, n: nat): Sys {
    var t := DeletePolicy(s, p);
    s.(cpp := if n > 0 then t.cpp else s.cpp, complete := if n > 1 then t.complete else s.complete,
       delta := if n > 2 then t.delta else s.delta, minimal := if n > 3 then t.minimal else s.minimal)
  }

  lemma UpdatedStep(s: Sys, p: Policy, n: nat)
    requires n < 4
    ensures var t := UpdatedUpTo(s, p, n);
            UpdatedUpTo(s, p, n + 1)
            == match ORDER[n]
               case CppKind => t.(cpp := UpdateCpp(t.cpp, p.origin, p.status))
               case CompleteKind => t.(complete := UpdateComplete(t.complete, p.origin, p.status))
               case DeltaKind => t.(delta := UpdateDelta(t.delta, t.cpp.objects, p.origin, p.status))
               case MinimalKind => t.(minimal := UpdateMinimal(t.minimal, p.origin, p.remediation, p.status))
  {}

  lemma DeletedStep(s: Sys, p: Policy, n: nat)
    requires n < 4
    ensures var t := DeletedUpTo(s, p, n);
            DeletedUpTo(s, p, n + 1)
            == match ORDER[n]
               case CppKind => t.(cpp := DeleteCpp(t.cpp, p.origin))
               case CompleteKind => t.(complete := DeleteComplete(t.complete, p.origin))
               case DeltaKind => t.(delta := DeleteDelta(t.delta, p.origin))
               case MinimalKind => t.(minimal := DeleteMinimal(t.minimal, p.origin))
  {}

  lemma PassStep(s: Sys, env: PassEnv, i: nat)
    requires i < 4
    ensures var r := P.SyncEntry(s, ORDER[i], env.Get(ORDER[i]));
            PassFrom(s, env, i) == if r.stop then r.sys else PassFrom(r.sys, env, i + 1)
  {}
}
