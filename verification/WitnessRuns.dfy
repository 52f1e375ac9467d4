/** Runs in which the code does what one might not expect: clusters-per-policy sent together with
    compliance, a removed cluster counted as a change, an ID of a delta line skipped and repeated, and delta lines on a
    complete generation that was never sent. No message is reported more than once in any of them. */
module WitnessRuns {
  import opened Collections
  import opened Policies
  import opened Versions
  import opened ClustersPerPolicy
  import opened CompleteCompliance
  import opened DeltaCompliance
  import opened Protocol
  import opened BundleAgreement
  import opened HybridLine
  import opened SentVersions
  import opened Reports
  import opened Reachability
  import opened Passes
  import opened LineIds
  import opened LineBases

  // ----- One policy with one cluster -----

  /** The policy with its one cluster in the given state. */
  function OneCluster(state: ComplianceState): Policy {
    Policy("uid", "1", Some("p"), "inform", [ClusterCompliance("c", state)])
  }

  lemma OneClusterSelect(state: ComplianceState, s: Status)
    ensures Select(OneCluster(state).status, s) == if Classify(state) == s then ["c"] else []
  {
    var st := OneCluster(state).status;
    assert Front(st) == [] && Last(st) == st[0];
    assert Select(Front(st), s) == [];
  }

  lemma OneClusterStatus(state: ComplianceState)
    ensures var st := OneCluster(state).status;
            DistinctClusters(st) && StatusMap(st) == map["c" := Classify(state)] && StatusMap(st).Keys == {"c"}
    ensures AlertView(Some(ListsOf(OneCluster(state).status)))
            == match Classify(state)
               case Compliant => None
               case NonCompliant => Some(AlertSets({"c"}, {}))
               case Unknown => Some(AlertSets({}, {"c"}))
  {
    var st := OneCluster(state).status;
    assert Front(st) == [] && Last(st) == st[0];
    assert StatusMap(Front(st)) == map[];
    OneClusterSelect(state, NonCompliant);
    OneClusterSelect(state, Unknown);
    assert Elements<string>([]) == {} && Elements(["c"]) == {"c"};
  }

  /** What the runs keep track of: how the cluster was last seen, the mode, and for complete and delta the current and
      the last sent generation. */
  ghost predicate At(s: Sys, seen: ComplianceState, mode: Mode, complete: nat, sentComplete: nat, delta: nat,
                     sentDelta: nat)
  {
    && s.incarnation == 0 && s.Enabled() && s.mode == mode
    && Find(s.cpp.objects, "p") == Some(ListsOf(OneCluster(seen).status))
    && s.complete.generation == complete && s.lastSent.complete == Version(0, sentComplete)
    && s.delta.generation == delta && s.lastSent.delta == Version(0, sentDelta)
  }

  // ----- Updates -----

  /** The cluster is seen non-compliant. */
  const FAILING := PolicyUpdated(OneCluster(NonCompliantState))

  /** The cluster is seen in a state that is neither. */
  const UNCLEAR := PolicyUpdated(OneCluster(OtherState("pending")))

  /** A first alert of the policy, or another one than shown, raises complete by one. */
  lemma AlertChanges(s: Sys, state: ComplianceState)
    requires Inv(s) && !state.CompliantState?
    requires Shown(s.complete, "p") != AlertView(Some(ListsOf(OneCluster(state).status)))
    ensures var t := Next(s, PolicyUpdated(OneCluster(state)));
            && Inv(t) && SameLine(s, t) && t.complete.generation == s.complete.generation + 1
            && Find(t.cpp.objects, "p") == Some(ListsOf(OneCluster(state).status))
            && (Find(s.cpp.objects, "p") == None ==> t.cpp.generation == s.cpp.generation + 1)
  {
    var st := OneCluster(state).status;
    OneClusterStatus(state);
    NextKeepsInv(s, PolicyUpdated(OneCluster(state)));
    UpdateSameLine(s, OneCluster(state));
    CompleteUpdateEffect(s.complete, "p", st);
    UpdateEffect(s.cpp, "p", st);
  }

  /** The delta records a change of a known cluster, and nothing for a policy it has no records of. */
  lemma DeltaChanges(s: Sys, state: ComplianceState)
    requires Inv(s)
    ensures var t := Next(s, PolicyUpdated(OneCluster(state)));
            && ("p" !in s.delta.cache ==> t.delta.generation == s.delta.generation)
            && ("p" in s.delta.cache && Changes(s.delta.cache["p"].Map(), map["c" := Classify(state)]) != map[] ==>
                  t.delta.generation == s.delta.generation + 1)
  {
    var st := OneCluster(state).status;
    OneClusterStatus(state);
    if "p" in s.delta.cache {
      assert Reconstructs(s.delta, "p");
      AbsorbEffect(s.delta.cache["p"], st);
      EmptyChanges(Absorb(s.delta.cache["p"], st).changed);
    }
  }

  lemma Recorded(s: Sys, state: ComplianceState)
    requires Inv(s) && Find(s.cpp.objects, "p") == Some(ListsOf(OneCluster(state).status))
    ensures "p" in s.delta.cache && "c" in s.delta.cache["p"].Map() && s.delta.cache["p"].Map()["c"] == Classify(state)
  {
    OneClusterStatus(state);
    GroupingConserves(OneCluster(state).status);
    assert CacheCovers(s, "p");
  }

  /** Another state than last seen, neither of them compliant, raises complete and delta by one each. */
  lemma StateChanges(s: Sys, mode: Mode, complete: nat, sentComplete: nat, delta: nat, sentDelta: nat,
                     seen: ComplianceState, state: ComplianceState)
    requires Inv(s) && At(s, seen, mode, complete, sentComplete, delta, sentDelta)
    requires !seen.CompliantState? && !state.CompliantState? && Classify(state) != Classify(seen)
    ensures var t := Next(s, PolicyUpdated(OneCluster(state)));
            Inv(t) && At(t, state, mode, complete + 1, sentComplete, delta + 1, sentDelta) && SameLine(s, t)
  {
    OneClusterStatus(seen);
    OneClusterStatus(state);
    assert Shown(s.complete, "p") == AlertView(Find(s.cpp.objects, "p"));
    AlertChanges(s, state);
    Recorded(s, seen);
    assert "c" in Changes(s.delta.cache["p"].Map(), map["c" := Classify(state)]);
    DeltaChanges(s, state);
  }

  /** Nothing was seen or sent yet. */
  ghost predicate Blank(s: Sys) {
    && Inv(s) && s.incarnation == 0 && s.Enabled() && s.mode == CompleteStateMode
    && s.cpp == Cpp([], 0) && s.complete == Complete([], 0) && s.delta.cache == map[] && s.delta.generation == 0
    && s.lastSent == LastSent(Version(0, 0), Version(0, 0), Version(0, 0), Version(0, 0))
  }

  lemma BootIsBlank(factor: nat)
    requires factor > 0
    ensures Blank(Boot(0, factor, true, []))
  {
    BootState(0, factor, true, []);
  }

  lemma FailingSeen(s: Sys)
    requires Blank(s)
    ensures var t := Next(s, FAILING);
            && Inv(t) && At(t, NonCompliantState, CompleteStateMode, 1, 0, 0, 0)
            && t.factor == s.factor && Changed(t, CppKind)
  {
    OneClusterStatus(NonCompliantState);
    AlertChanges(s, NonCompliantState);
    DeltaChanges(s, NonCompliantState);
  }

  lemma FailingFirst(boot: Sys, factor: nat)
    requires factor > 0 && boot == Boot(0, factor, true, [])
    ensures var t := Next(boot, FAILING);
            && Inv(t) && At(t, NonCompliantState, CompleteStateMode, 1, 0, 0, 0)
            && t.factor == factor && Changed(t, CppKind)
  {
    BootIsBlank(factor);
    FailingSeen(boot);
  }

  // ----- Turns -----

  const ACCEPT := EntryEnv([], Full, [], Accepted, [])

  const REFUSE := EntryEnv([], Full, [], Refused, [])

  const SUCCESS := Report(Plain(CompleteKind), true)

  const FAILURE := Report(Plain(CompleteKind), false)

  function AcceptedEntry(s: Sys, k: Kind): Sys {
    SyncEntry(s, k, ACCEPT).sys
  }

  lemma Undisturbed(s: Sys)
    ensures Deliver(s, []) == s
  {}

  lemma NotDue(s: Sys, k: Kind)
    requires !Due(s, k, Full)
    ensures AcceptedEntry(s, k) == s
  {
    Undisturbed(s);
  }

  lemma PlainEntry(s: Sys)
    ensures var t := AcceptedEntry(s, CppKind);
            && t == s.(handed := t.handed, lastSent := t.lastSent)
            && t.lastSent.complete == s.lastSent.complete && t.lastSent.delta == s.lastSent.delta
  {
    Undisturbed(s);
    Undisturbed(s.(handed := s.handed + [s.MessageFor(CppKind)]));
  }

  lemma CompleteEntry(s: Sys)
    requires s.Enabled() && Due(s, CompleteKind, Full)
    ensures var t := AcceptedEntry(s, CompleteKind);
            && t.mode == DeltaStateMode && t.sentDeltaCount == 0 && FreshLine(t) && SameContent(s, t)
            && t.lastSent == s.lastSent.(complete := s.CurrentVersion(CompleteKind))
  {
    Undisturbed(s);
    Undisturbed(s.(handed := s.handed + [s.MessageFor(CompleteKind)]));
  }

  /** The first delta of a line goes out: at a switch factor of one complete mode is back, else the next ID is 1. */
  lemma DeltaEntry(s: Sys)
    requires s.Enabled() && s.sentDeltaCount == s.delta.transportationId == 0 && Due(s, DeltaKind, Full)
    ensures var t := AcceptedEntry(s, DeltaKind);
            && t.mode == (if s.factor == 1 then CompleteStateMode else DeltaStateMode)
            && (s.factor != 1 ==> t.delta.transportationId == 1)
            && t.lastSent == s.lastSent.(delta := s.CurrentVersion(DeltaKind))
  {
    Undisturbed(s);
    Undisturbed(s.(handed := s.handed + [s.MessageFor(DeltaKind)]));
  }

  /** A refused delta brings complete mode back. */
  lemma RefusedEntry(s: Sys)
    requires s.Enabled() && Due(s, DeltaKind, Full)
    ensures var t := SyncEntry(s, DeltaKind, REFUSE).sys;
            t.mode == CompleteStateMode && t.lastSent == s.lastSent.(delta := s.CurrentVersion(DeltaKind))
  {
    Undisturbed(s);
    Undisturbed(s.(handed := s.handed + [s.MessageFor(DeltaKind)]));
  }

  // ----- Passes -----

  const ACCEPT_ALL := PassEnv(ACCEPT, ACCEPT, ACCEPT, ACCEPT)

  const REFUSE_DELTA := PassEnv(ACCEPT, ACCEPT, REFUSE, ACCEPT)

  /** A pass that is not stopped, whose clusters-per-policy and minimal turns are undisturbed. */
  lemma UnstoppedPass(s: Sys, complete: EntryEnv, delta: EntryEnv)
    requires complete.outcome != Unmarshallable && delta.outcome != Unmarshallable
    ensures PassFrom(s, PassEnv(ACCEPT, complete, delta, ACCEPT), 0)
            == SyncEntry(SyncEntry(AcceptedEntry(s, CppKind), CompleteKind, complete).sys, DeltaKind, delta).sys
  {
    var env := PassEnv(ACCEPT, complete, delta, ACCEPT);
    var a := AcceptedEntry(s, CppKind);
    var b := SyncEntry(a, CompleteKind, complete).sys;
    var c := SyncEntry(b, DeltaKind, delta).sys;
    assert PassFrom(s, env, 0) == PassFrom(a, env, 1);
    assert PassFrom(a, env, 1) == PassFrom(b, env, 2);
    assert PassFrom(b, env, 2) == PassFrom(c, env, 3);
    NotDue(c, MinimalKind);
  }

  lemma PassKeepsInv(s: Sys, env: PassEnv)
    requires Inv(s)
    ensures Inv(Next(s, SyncBundles(env)))
  {
    PassKeepsLocal(s, env, 0);
    PassKeepsVersions(s, env, 0);
  }

  lemma CompleteTurns(s: Sys)
    requires s.Enabled() && s.mode == CompleteStateMode && Changed(s, CompleteKind) && !Changed(s, DeltaKind)
    ensures var t := PassFrom(s, ACCEPT_ALL, 0);
            && t.mode == DeltaStateMode && t.sentDeltaCount == 0 && FreshLine(t)
            && t.lastSent.complete == s.CurrentVersion(CompleteKind) && t.lastSent.delta == s.lastSent.delta
  {
    UnstoppedPass(s, ACCEPT, ACCEPT);
    PlainEntry(s);
    CompleteEntry(AcceptedEntry(s, CppKind));
    NotDue(AcceptedEntry(AcceptedEntry(s, CppKind), CompleteKind), DeltaKind);
  }

  /** In complete mode, with a changed complete and an unchanged delta, the pass sends complete and opens a line. */
  lemma CompletePass(s: Sys, seen: ComplianceState, complete: nat, sentComplete: nat, delta: nat)
    requires At(s, seen, CompleteStateMode, complete, sentComplete, delta, delta) && complete > sentComplete
    ensures var t := Next(s, SyncBundles(ACCEPT_ALL));
            && At(t, seen, DeltaStateMode, complete, complete, delta, delta)
            && t.factor == s.factor && t.sentDeltaCount == 0 && FreshLine(t)
  {
    PassSameContent(s, ACCEPT_ALL, 0);
    CompleteTurns(s);
  }

  lemma DeltaTurns(s: Sys)
    requires s.Enabled() && s.mode == DeltaStateMode && Changed(s, DeltaKind)
    requires s.sentDeltaCount == s.delta.transportationId == 0
    ensures var t := PassFrom(s, ACCEPT_ALL, 0);
            && t.mode == (if s.factor == 1 then CompleteStateMode else DeltaStateMode)
            && (s.factor != 1 ==> t.delta.transportationId == 1)
            && t.lastSent.complete == s.lastSent.complete && t.lastSent.delta == s.CurrentVersion(DeltaKind)
  {
    UnstoppedPass(s, ACCEPT, ACCEPT);
    PlainEntry(s);
    NotDue(AcceptedEntry(s, CppKind), CompleteKind);
    DeltaEntry(AcceptedEntry(s, CppKind));
  }

  /** In delta mode, with a changed delta, the pass sends the line's first delta. */
  lemma DeltaPass(s: Sys, seen: ComplianceState, complete: nat, sentComplete: nat, delta: nat, sentDelta: nat)
    requires At(s, seen, DeltaStateMode, complete, sentComplete, delta, sentDelta) && delta > sentDelta
    requires s.sentDeltaCount == s.delta.transportationId == 0
    ensures var t := Next(s, SyncBundles(ACCEPT_ALL));
            && At(t, seen, t.mode, complete, sentComplete, delta, delta)
            && t.mode == (if s.factor == 1 then CompleteStateMode else DeltaStateMode)
            && t.factor == s.factor && (s.factor != 1 ==> t.delta.transportationId == 1)
  {
    PassSameContent(s, ACCEPT_ALL, 0);
    DeltaTurns(s);
  }

  lemma RefusedTurns(s: Sys)
    requires s.Enabled() && s.mode == DeltaStateMode && Changed(s, DeltaKind)
    ensures var t := PassFrom(s, REFUSE_DELTA, 0);
            && t.mode == CompleteStateMode
            && t.lastSent.complete == s.lastSent.complete && t.lastSent.delta == s.CurrentVersion(DeltaKind)
  {
    UnstoppedPass(s, ACCEPT, REFUSE);
    PlainEntry(s);
    NotDue(AcceptedEntry(s, CppKind), CompleteKind);
    RefusedEntry(AcceptedEntry(s, CppKind));
  }

  /** In delta mode, with a changed delta that is refused, the pass brings complete mode back. */
  lemma RefusedPass(s: Sys, seen: ComplianceState, complete: nat, sentComplete: nat, delta: nat, sentDelta: nat)
    requires At(s, seen, DeltaStateMode, complete, sentComplete, delta, sentDelta) && delta > sentDelta
    ensures var t := Next(s, SyncBundles(REFUSE_DELTA));
            At(t, seen, CompleteStateMode, complete, sentComplete, delta, delta) && t.factor == s.factor
  {
    PassSameContent(s, REFUSE_DELTA, 0);
    RefusedTurns(s);
  }

  // ----- Runs of a few steps -----

  lemma RunAppend(s: Sys, front: seq<Step>, last: Step)
    ensures Run(s, front + [last]) == Next(Run(s, front), last)
  {
    assert (front + [last])[..|front|] == front;
  }

  lemma RunTwo(s: Sys, a: Step, b: Step)
    ensures Run(s, [a, b]) == Next(Next(s, a), b)
  {
    RunAppend(s, [], a);
    RunAppend(s, [a], b);
    assert [] + [a] == [a] && [a] + [b] == [a, b];
  }

  lemma RunThree(s: Sys, a: Step, b: Step, c: Step)
    ensures Run(s, [a, b, c]) == Next(Next(Next(s, a), b), c)
  {
    RunTwo(s, a, b);
    RunAppend(s, [a, b], c);
    assert [a, b] + [c] == [a, b, c];
  }

  lemma RunFour(s: Sys, a: Step, b: Step, c: Step, d: Step)
    ensures Run(s, [a, b, c, d]) == Next(Next(Next(Next(s, a), b), c), d)
  {
    RunThree(s, a, b, c);
    RunAppend(s, [a, b, c], d);
    assert [a, b, c] + [d] == [a, b, c, d];
  }

  lemma RunFive(s: Sys, a: Step, b: Step, c: Step, d: Step, e: Step)
    ensures Run(s, [a, b, c, d, e]) == Next(Next(Next(Next(Next(s, a), b), c), d), e)
  {
    RunFour(s, a, b, c, d);
    RunAppend(s, [a, b, c, d], e);
    assert [a, b, c, d] + [e] == [a, b, c, d, e];
  }

  lemma {:induction false} RunOn(s: Sys, first: seq<Step>, next: seq<Step>)
    ensures Run(s, first + next) == Run(Run(s, first), next)
  {
    if next == [] {
      assert first + next == first;
    } else {
      var steps := first + next;
      assert steps[..|steps| - 1] == first + next[..|next| - 1];
      RunOn(s, first, next[..|next| - 1]);
    }
  }

  lemma UpdatesAreClean(steps: seq<Step>)
    requires forall i :: 0 <= i < |steps| && steps[i].PolicyUpdated? ==>
               steps[i] == FAILING || steps[i] == UNCLEAR || steps[i] == JOINED
    ensures CleanSteps(steps)
  {
    OneClusterStatus(NonCompliantState);
    OneClusterStatus(OtherState("pending"));
  }

  /** The policy was seen non-compliant, complete was sent, and a line is open. */
  ghost predicate LineOpened(s: Sys, factor: nat) {
    && Inv(s) && At(s, NonCompliantState, DeltaStateMode, 1, 1, 0, 0)
    && s.factor == factor && s.sentDeltaCount == 0 && FreshLine(s)
  }

  lemma FirstHalf(boot: Sys, factor: nat)
    requires factor > 0 && boot == Boot(0, factor, true, [])
    ensures LineOpened(Next(Next(boot, FAILING), SyncBundles(ACCEPT_ALL)), factor)
  {
    FailingFirst(boot, factor);
    PassKeepsInv(Next(boot, FAILING), ACCEPT_ALL);
    CompletePass(Next(boot, FAILING), NonCompliantState, 1, 0, 0);
  }

  // ----- A removed cluster is counted -----

  function FirstSeen(): Sys {
    Run(Boot(0, 1, true, []), [FAILING])
  }

  lemma FirstSeenEffect()
    ensures Reachable(FirstSeen()) && Inv(FirstSeen()) && Changed(FirstSeen(), CppKind)
    ensures At(FirstSeen(), NonCompliantState, CompleteStateMode, 1, 0, 0, 0)
  {
    UpdatesAreClean([FAILING]);
    RunIsReachable(0, 1, true, [FAILING]);
    RunAppend(Boot(0, 1, true, []), [], FAILING);
    assert [] + [FAILING] == [FAILING];
    FailingFirst(Boot(0, 1, true, []), 1);
  }

  /** When the one, failing cluster of a policy is gone from its status, complete's generation rises. */
  lemma RemovalRaisesComplete()
    ensures Reachable(FirstSeen())
    ensures UpdatePolicy(FirstSeen(), OneCluster(NonCompliantState).(status := [])).complete.generation
            == FirstSeen().complete.generation + 1
  {
    FirstSeenEffect();
    RemovalCounts(FirstSeen());
  }

  lemma RemovalCounts(s: Sys)
    requires Inv(s) && Find(s.cpp.objects, "p") == Some(ListsOf(OneCluster(NonCompliantState).status))
    ensures UpdatePolicy(s, OneCluster(NonCompliantState).(status := [])).complete.generation
            == s.complete.generation + 1
  {
    var before := OneCluster(NonCompliantState).status;
    OneClusterStatus(NonCompliantState);
    assert Shown(s.complete, "p") == AlertView(Find(s.cpp.objects, "p"));
    assert StatusMap([]) == StatusMap(before) - {"c"};
    RemovedClusterCounts(s.complete, "p", before, [], "c");
  }

  // ----- Clusters-per-policy and compliance in one pass -----

  /** When a policy is first seen and fails, the next pass hands over clusters-per-policy and complete. */
  lemma CompleteGoesOutWithCpp()
    ensures Reachable(FirstSeen())
    ensures HandsOver(FirstSeen(), ACCEPT_ALL, 0, CppKind) && HandsOver(FirstSeen(), ACCEPT_ALL, 0, CompleteKind)
  {
    FirstSeenEffect();
    CompleteWithCpp(FirstSeen());
  }

  lemma CompleteWithCpp(s: Sys)
    requires s.mode == CompleteStateMode && Changed(s, CppKind) && Changed(s, CompleteKind)
    ensures HandsOver(s, ACCEPT_ALL, 0, CppKind) && HandsOver(s, ACCEPT_ALL, 0, CompleteKind)
  {
    BothFullBundlesInOnePass(s, ACCEPT_ALL);
  }

  /** A compliant cluster joins the non-compliant one. */
  const JOINED := PolicyUpdated(TwoClusters())

  function TwoClusters(): Policy {
    OneCluster(NonCompliantState).(status := OneCluster(NonCompliantState).status
                                             + [ClusterCompliance("d", CompliantState)])
  }

  lemma TwoClustersStatus()
    ensures var st := TwoClusters().status;
            && DistinctClusters(st) && StatusMap(st) == map["c" := NonCompliant, "d" := Compliant]
            && AlertView(Some(ListsOf(st))) == AlertView(Some(ListsOf(OneCluster(NonCompliantState).status)))
  {
    var st := TwoClusters().status;
    assert Front(st) == OneCluster(NonCompliantState).status;
    OneClusterStatus(NonCompliantState);
    assert Select(st, NonCompliant) == Select(Front(st), NonCompliant);
    assert Select(st, Unknown) == Select(Front(st), Unknown);
  }

  /** Clusters-per-policy and delta have changed, complete has not, and delta mode is on. */
  ghost predicate CppAndDeltaDue(t: Sys) {
    t.mode == DeltaStateMode && Changed(t, CppKind) && !Changed(t, CompleteKind) && Changed(t, DeltaKind)
  }

  lemma JoiningRaisesCpp(s: Sys)
    requires LineOpened(s, 1)
    ensures Next(s, JOINED).cpp.generation == s.cpp.generation + 1
  {
    var before, after := OneCluster(NonCompliantState).status, TwoClusters().status;
    OneClusterStatus(NonCompliantState);
    TwoClustersStatus();
    GroupingConserves(before);
    GroupingConserves(after);
    UpdateEffect(s.cpp, "p", after);
    assert Clusters(s.cpp, "p") == Some({"c"});
    assert "d" in Clusters(Next(s, JOINED).cpp, "p").value;
  }

  lemma JoiningKeepsComplete(s: Sys)
    requires LineOpened(s, 1)
    ensures Next(s, JOINED).complete == s.complete
  {
    TwoClustersStatus();
    assert Shown(s.complete, "p") == AlertView(Find(s.cpp.objects, "p"));
    CompleteUpdateEffect(s.complete, "p", TwoClusters().status);
  }

  lemma OpenedRecords(s: Sys)
    requires LineOpened(s, 1)
    ensures "p" in s.delta.cache && s.delta.cache["p"].Map() == map["c" := NonCompliant]
  {
    OneClusterStatus(NonCompliantState);
    GroupingConserves(OneCluster(NonCompliantState).status);
    BaseRecords(s.cpp.objects, "p");
  }

  lemma JoiningIsRecorded(d: Delta, base: seq<Entry<Lists>>)
    requires DeltaInv(d) && "p" in d.cache && d.cache["p"].Map() == map["c" := NonCompliant] && d.pending == []
    ensures var d' := UpdateDelta(d, base, Some("p"), TwoClusters().status);
            d'.generation == d.generation + 1 && Pending(d', "p") == map["d" := Compliant]
  {
    TwoClustersStatus();
    var changes := NewChanges(d, "p", TwoClusters().status);
    assert changes == map["d" := Compliant] && "d" in changes;
    assert Pending(d, "p") == map[] && map[] + changes == changes;
    UpdateRecordsChanges(d, base, "p", TwoClusters().status);
  }

  /** With a line just opened, the joining cluster changes clusters-per-policy and delta, but not complete. */
  lemma JoiningChanges(s: Sys)
    requires LineOpened(s, 1)
    ensures CppAndDeltaDue(Next(s, JOINED)) && Pending(Next(s, JOINED).delta, "p") == map["d" := Compliant]
  {
    JoiningRaisesCpp(s);
    JoiningKeepsComplete(s);
    OpenedRecords(s);
    JoiningIsRecorded(s.delta, UpdateCpp(s.cpp, Some("p"), TwoClusters().status).objects);
    UpdateSameLine(s, TwoClusters());
    NewlyDue(s, Next(s, JOINED));
  }

  lemma NewlyDue(s: Sys, t: Sys)
    requires LineOpened(s, 1) && SameLine(s, t)
    requires t.cpp.generation == s.cpp.generation + 1 && t.complete == s.complete
    requires t.delta.generation == s.delta.generation + 1
    ensures CppAndDeltaDue(t)
  {
    assert s.lastSent.Get(CppKind).generation <= s.Generation(CppKind);
    assert s.lastSent.Get(CppKind).incarnation == s.incarnation;
  }

  function JoinedSteps(): seq<Step> {
    [FAILING, SyncBundles(ACCEPT_ALL), JOINED]
  }

  function Joined(): Sys {
    Run(Boot(0, 1, true, []), JoinedSteps())
  }

  lemma JoinedIsReachable()
    ensures Reachable(Joined())
  {
    TwoClustersStatus();
    UpdatesAreClean(JoinedSteps());
    RunIsReachable(0, 1, true, JoinedSteps());
  }

  lemma JoinedIsDue()
    ensures CppAndDeltaDue(Joined()) && Pending(Joined().delta, "p") == map["d" := Compliant]
  {
    var boot := Boot(0, 1, true, []);
    RunThree(boot, FAILING, SyncBundles(ACCEPT_ALL), JOINED);
    FirstHalf(boot, 1);
    JoiningChanges(Next(Next(boot, FAILING), SyncBundles(ACCEPT_ALL)));
  }

  lemma DeltaWithCpp(s: Sys)
    requires CppAndDeltaDue(s)
    ensures HandsOver(s, ACCEPT_ALL, 0, CppKind) && HandsOver(s, ACCEPT_ALL, 0, DeltaKind)
    ensures !HandsOver(s, ACCEPT_ALL, 0, CompleteKind)
  {
    BothFullBundlesInOnePass(s, ACCEPT_ALL);
    CppWithComplianceInOnePass(s, ACCEPT_ALL);
  }

  /** When a compliant cluster joins a policy after complete was sent, the next pass hands over clusters-per-policy and
      a delta with that cluster, and no complete. */
  lemma DeltaGoesOutWithCpp()
    ensures Reachable(Joined()) && Pending(Joined().delta, "p") == map["d" := Compliant]
    ensures HandsOver(Joined(), ACCEPT_ALL, 0, CppKind) && HandsOver(Joined(), ACCEPT_ALL, 0, DeltaKind)
    ensures !HandsOver(Joined(), ACCEPT_ALL, 0, CompleteKind)
  {
    JoinedIsReachable();
    JoinedIsDue();
    DeltaWithCpp(Joined());
  }

  // ----- A late success opens a line on an unsent generation -----

  /** In complete mode, with two changes of complete since it was last sent. */
  ghost predicate UnsentChange(s: Sys) {
    Inv(s) && At(s, NonCompliantState, CompleteStateMode, 3, 1, 2, 1)
  }

  lemma SecondHalf(s: Sys)
    requires LineOpened(s, 1)
    ensures UnsentChange(Next(Next(Next(s, UNCLEAR), SyncBundles(ACCEPT_ALL)), FAILING))
  {
    StateChanges(s, DeltaStateMode, 1, 1, 0, 0, NonCompliantState, OtherState("pending"));
    var t := Next(s, UNCLEAR);
    DeltaPass(t, OtherState("pending"), 2, 1, 1, 0);
    PassKeepsInv(t, ACCEPT_ALL);
    var u := Next(t, SyncBundles(ACCEPT_ALL));
    StateChanges(u, CompleteStateMode, 2, 1, 1, 1, OtherState("pending"), NonCompliantState);
  }

  function LateSteps(): seq<Step> {
    [FAILING, SyncBundles(ACCEPT_ALL), UNCLEAR, SyncBundles(ACCEPT_ALL), FAILING]
  }

  function BeforeLateSuccess(): Sys {
    Run(Boot(0, 1, true, []), LateSteps())
  }

  lemma LateIsReachable()
    ensures Reachable(BeforeLateSuccess())
  {
    UpdatesAreClean(LateSteps());
    RunIsReachable(0, 1, true, LateSteps());
  }

  lemma LateHasUnsentChange()
    ensures UnsentChange(BeforeLateSuccess())
  {
    var boot := Boot(0, 1, true, []);
    RunFive(boot, FAILING, SyncBundles(ACCEPT_ALL), UNCLEAR, SyncBundles(ACCEPT_ALL), FAILING);
    FirstHalf(boot, 1);
    SecondHalf(Next(Next(boot, FAILING), SyncBundles(ACCEPT_ALL)));
  }

  lemma SuccessOpensUnsentBase(s: Sys)
    requires UnsentChange(s)
    ensures var t := HandleReport(s, SUCCESS);
            t.line == s.line + 1 && !BaseWasHanded(t)
  {
    SuccessOpensSentBase(s);
  }

  /** With a switch factor of one: a first pass sends complete, a second one sends a delta and so returns to complete
      mode, and then the policy changes again. A late report of success for that first complete message now opens a line
      on a generation of complete that was never handed to the transport. */
  lemma LateSuccessOpensUnsentBase()
    ensures Reachable(BeforeLateSuccess()) && BeforeLateSuccess().mode == CompleteStateMode
    ensures var t := HandleReport(BeforeLateSuccess(), SUCCESS);
            t.line == BeforeLateSuccess().line + 1 && !BaseWasHanded(t)
  {
    LateIsReachable();
    LateHasUnsentChange();
    SuccessOpensUnsentBase(BeforeLateSuccess());
  }

  // ----- A delta's own attempt opens a line on an unsent generation -----

  /** The failure of the earlier complete message is heard just before the delta message is marshalled. */
  const FAILED_BEFORE_DELTA := EntryEnv([], Full, [FAILURE], Accepted, [])

  function OvertakenPass(): PassEnv {
    PassEnv(ACCEPT, ACCEPT, FAILED_BEFORE_DELTA, ACCEPT)
  }

  lemma OneReportWords(r: Report)
    requires Managed(r.key)
    ensures LastWord([r]) == Some(r.delivered) && (HasFailure([r]) <==> !r.delivered)
  {
    HasFailureStep([r]);
  }

  /** Delta mode on a line whose base was not handed over, and complete not due. */
  ghost predicate FallbackLost(t: Sys) {
    t.mode == DeltaStateMode && !BaseWasHanded(t) && !Due(t, CompleteKind, Full)
  }

  lemma OvertakenTurn(a: Sys)
    requires VersionInv(a) && a.Enabled() && Due(a, DeltaKind, Full) && !CompleteIsSent(a)
    ensures var t := SyncEntry(a, DeltaKind, FAILED_BEFORE_DELTA).sys;
            t.line > a.line && FallbackLost(t)
  {
    Undisturbed(a);
    OneReportWords(FAILURE);
    assert [FAILURE] + [] == [FAILURE];
    DeltaSendOpensLine(a, FAILED_BEFORE_DELTA);
  }

  lemma OvertakenPassOpens(s: Sys)
    requires VersionInv(s) && At(s, OtherState("pending"), DeltaStateMode, 2, 1, 1, 0)
    ensures var t := PassFrom(s, OvertakenPass(), 0);
            t.line > s.line && FallbackLost(t)
  {
    UnstoppedPass(s, ACCEPT, FAILED_BEFORE_DELTA);
    var a := AcceptedEntry(s, CppKind);
    PlainEntry(s);
    SyncEntryKeepsVersions(s, CppKind, ACCEPT);
    NotDue(a, CompleteKind);
    OvertakenTurn(a);
  }

  function OvertakenSteps(): seq<Step> {
    [FAILING, SyncBundles(ACCEPT_ALL), UNCLEAR, SyncBundles(OvertakenPass())]
  }

  function Overtaken(): Sys {
    Run(Boot(0, 1, true, []), OvertakenSteps())
  }

  lemma OvertakenIsReachable()
    ensures Reachable(Overtaken())
  {
    UpdatesAreClean(OvertakenSteps());
    RunIsReachable(0, 1, true, OvertakenSteps());
  }

  lemma OvertakenHalf(s: Sys)
    requires LineOpened(s, 1)
    ensures FallbackLost(Next(Next(s, UNCLEAR), SyncBundles(OvertakenPass())))
  {
    StateChanges(s, DeltaStateMode, 1, 1, 0, 0, NonCompliantState, OtherState("pending"));
    OvertakenPassOpens(Next(s, UNCLEAR));
  }

  /** A first pass sends complete; then the policy changes, and while the delta with that change is being sent the first
      message is reported as failed. The fallback to complete is lost: the delta's own attempt opens a line on the new
      generation of complete, which was never handed to the transport and is not due. */
  lemma DeltaAttemptOpensUnsentBase()
    ensures Reachable(Overtaken()) && FallbackLost(Overtaken())
  {
    OvertakenIsReachable();
    var boot := Boot(0, 1, true, []);
    RunFour(boot, FAILING, SyncBundles(ACCEPT_ALL), UNCLEAR, SyncBundles(OvertakenPass()));
    FirstHalf(boot, 1);
    OvertakenHalf(Next(Next(boot, FAILING), SyncBundles(ACCEPT_ALL)));
  }

  // ----- An ID skipped, and an ID repeated -----

  /** The complete message's own success is heard before its attempt. */
  const SUCCEEDED_BEFORE_ATTEMPT := EntryEnv([], Full, [], Accepted, [SUCCESS])

  /** The failure of one complete message and the success of another are heard before the delta message's attempt. */
  const REOPENED_BEFORE_ATTEMPT := EntryEnv([], Full, [], Accepted, [FAILURE, SUCCESS])

  function SkippingPass(): PassEnv {
    PassEnv(ACCEPT, SUCCEEDED_BEFORE_ATTEMPT, ACCEPT, ACCEPT)
  }

  function RepeatingPass(): PassEnv {
    PassEnv(ACCEPT, ACCEPT, REOPENED_BEFORE_ATTEMPT, ACCEPT)
  }

  /** The one attempt of the line was for a complete message, and the next delta message has the ID 1. */
  ghost predicate ZeroSkipped(t: Sys) {
    && t.mode == DeltaStateMode && |t.attempts| == 1 && t.attempts[0].message.key == Plain(CompleteKind)
    && t.MessageFor(DeltaKind).key == Numbered(DeltaKind, 1)
  }

  /** The one attempt of the line was for a delta message with the ID 1, and the next delta message has it again. */
  ghost predicate OneRepeated(t: Sys) {
    && t.mode == DeltaStateMode && |t.attempts| == 1 && t.attempts[0].message.key == Numbered(DeltaKind, 1)
    && t.MessageFor(DeltaKind).key == Numbered(DeltaKind, 1)
  }

  lemma SkippingTurn(a: Sys)
    requires a.Enabled() && a.factor == 2 && Due(a, CompleteKind, Full)
    ensures var t := SyncEntry(a, CompleteKind, SUCCEEDED_BEFORE_ATTEMPT).sys;
            && ZeroSkipped(t) && FreshLine(t) && SameContent(a, t)
            && t.lastSent == a.lastSent.(complete := a.CurrentVersion(CompleteKind))
  {
    var env := SUCCEEDED_BEFORE_ATTEMPT;
    Undisturbed(a);
    OneReportWords(SUCCESS);
    assert [] + [SUCCESS] == [SUCCESS];
    CompleteAttemptTakesIdZero(a, env);
    EntryHands(a, CompleteKind, env);
    TurnEffect(a, CompleteKind, env);
    AcceptedSendOpensLine(a, [], a.MessageFor(CompleteKind), [SUCCESS]);
  }

  lemma SkippingPassSkips(s: Sys)
    requires s.Enabled() && s.factor == 2 && s.mode == CompleteStateMode
    requires Changed(s, CompleteKind) && !Changed(s, DeltaKind)
    ensures ZeroSkipped(Next(s, SyncBundles(SkippingPass())))
  {
    UnstoppedPass(s, SUCCEEDED_BEFORE_ATTEMPT, ACCEPT);
    PlainEntry(s);
    var a := AcceptedEntry(s, CppKind);
    SkippingTurn(a);
    NotDue(SyncEntry(a, CompleteKind, SUCCEEDED_BEFORE_ATTEMPT).sys, DeltaKind);
  }

  function SkippingSteps(): seq<Step> {
    [FAILING, SyncBundles(SkippingPass())]
  }

  function Skipping(): Sys {
    Run(Boot(0, 2, true, []), SkippingSteps())
  }

  lemma SkippingIsReachable()
    ensures Reachable(Skipping())
  {
    UpdatesAreClean(SkippingSteps());
    RunIsReachable(0, 2, true, SkippingSteps());
  }

  /** With a switch factor of two: the success of a complete message is heard before its own attempt, which then uses up
      the ID 0 of the line. */
  lemma AnIdIsSkipped()
    ensures Reachable(Skipping()) && ZeroSkipped(Skipping()) && !InOrder(Skipping(), RightId)
  {
    SkippingIsReachable();
    SkippingSkips();
    OutOfOrder(Skipping());
  }

  lemma SkippingSkips()
    ensures ZeroSkipped(Skipping())
  {
    RunTwo(Boot(0, 2, true, []), FAILING, SyncBundles(SkippingPass()));
    FirstSeenOfTwo(Boot(0, 2, true, []));
    SkippingPassSkips(Next(Boot(0, 2, true, []), FAILING));
  }

  lemma FirstSeenOfTwo(boot: Sys)
    requires boot == Boot(0, 2, true, [])
    ensures var s := Next(boot, FAILING);
            && s.Enabled() && s.factor == 2 && s.mode == CompleteStateMode
            && Changed(s, CompleteKind) && !Changed(s, DeltaKind)
  {
    FailingFirst(boot, 2);
  }

  lemma OutOfOrder(s: Sys)
    requires ZeroSkipped(s) || OneRepeated(s)
    ensures !InOrder(s, RightId)
  {
    assert !Meets(s.attempts[0], 0, s.DeltaBase(), RightId);
  }

  lemma RepeatingTurn(a: Sys)
    requires a.Enabled() && a.factor == 2 && LineInv(a) && Due(a, DeltaKind, Full) && a.delta.transportationId == 1
    ensures OneRepeated(SyncEntry(a, DeltaKind, REOPENED_BEFORE_ATTEMPT).sys)
  {
    Undisturbed(a);
    OneReportWords(FAILURE);
    OneReportWords(SUCCESS);
    BothWindows([FAILURE], [SUCCESS]);
    assert [FAILURE] + [SUCCESS] == [FAILURE, SUCCESS];
    DeltaAttemptOnNewLine(a, [FAILURE, SUCCESS]);
    TurnEffect(a, DeltaKind, REOPENED_BEFORE_ATTEMPT);
  }

  lemma RepeatingPassRepeats(s: Sys, seen: ComplianceState, complete: nat, sentComplete: nat, delta: nat,
                             sentDelta: nat)
    requires At(s, seen, DeltaStateMode, complete, sentComplete, delta, sentDelta) && delta > sentDelta
    requires LineInv(s) && s.factor == 2 && s.delta.transportationId == 1
    ensures OneRepeated(Next(s, SyncBundles(RepeatingPass())))
  {
    UnstoppedPass(s, ACCEPT, REOPENED_BEFORE_ATTEMPT);
    var a := AcceptedEntry(s, CppKind);
    PlainEntry(s);
    SyncEntryKeepsLine(s, CppKind, ACCEPT);
    NotDue(a, CompleteKind);
    RepeatingTurn(a);
  }

  /** Two complete messages are sent, the second one because the delta in between is refused. */
  function TwoCompletes(): seq<Step> {
    [FAILING, SyncBundles(ACCEPT_ALL), UNCLEAR, SyncBundles(REFUSE_DELTA), SyncBundles(ACCEPT_ALL)]
  }

  /** Two deltas follow, and during the second one both complete messages are reported. */
  function TwoDeltas(): seq<Step> {
    [FAILING, SyncBundles(ACCEPT_ALL), UNCLEAR, SyncBundles(RepeatingPass())]
  }

  function Repeating(): Sys {
    Run(Boot(0, 2, true, []), TwoCompletes() + TwoDeltas())
  }

  lemma RepeatingIsReachable()
    ensures Reachable(Repeating())
  {
    UpdatesAreClean(TwoCompletes() + TwoDeltas());
    RunIsReachable(0, 2, true, TwoCompletes() + TwoDeltas());
  }

  /** A second line is open, on the second complete message. */
  ghost predicate SecondLine(s: Sys) {
    && Inv(s) && At(s, OtherState("pending"), DeltaStateMode, 2, 2, 1, 1)
    && s.factor == 2 && s.sentDeltaCount == 0
  }

  lemma SecondComplete(s: Sys)
    requires LineOpened(s, 2)
    ensures SecondLine(Next(Next(Next(s, UNCLEAR), SyncBundles(REFUSE_DELTA)), SyncBundles(ACCEPT_ALL)))
  {
    StateChanges(s, DeltaStateMode, 1, 1, 0, 0, NonCompliantState, OtherState("pending"));
    var t := Next(s, UNCLEAR);
    RefusedPass(t, OtherState("pending"), 2, 1, 1, 0);
    PassKeepsInv(t, REFUSE_DELTA);
    var u := Next(t, SyncBundles(REFUSE_DELTA));
    CompletePass(u, OtherState("pending"), 2, 1, 1);
    PassKeepsInv(u, ACCEPT_ALL);
  }

  lemma SecondDelta(s: Sys)
    requires SecondLine(s)
    ensures var t := Next(Next(s, FAILING), SyncBundles(ACCEPT_ALL));
            OneRepeated(Next(Next(t, UNCLEAR), SyncBundles(RepeatingPass())))
  {
    StateChanges(s, DeltaStateMode, 2, 2, 1, 1, OtherState("pending"), NonCompliantState);
    var t := Next(s, FAILING);
    DeltaPass(t, NonCompliantState, 3, 2, 2, 1);
    PassKeepsInv(t, ACCEPT_ALL);
    var u := Next(t, SyncBundles(ACCEPT_ALL));
    StateChanges(u, DeltaStateMode, 3, 2, 2, 2, NonCompliantState, OtherState("pending"));
    RepeatingPassRepeats(Next(u, UNCLEAR), OtherState("pending"), 4, 2, 3, 2);
  }

  lemma AfterTwoCompletes(boot: Sys)
    requires boot == Boot(0, 2, true, [])
    ensures SecondLine(Run(boot, TwoCompletes()))
  {
    RunFive(boot, FAILING, SyncBundles(ACCEPT_ALL), UNCLEAR, SyncBundles(REFUSE_DELTA), SyncBundles(ACCEPT_ALL));
    FirstHalf(boot, 2);
    SecondComplete(Next(Next(boot, FAILING), SyncBundles(ACCEPT_ALL)));
  }

  lemma AfterTwoDeltas(s: Sys)
    requires SecondLine(s)
    ensures OneRepeated(Run(s, TwoDeltas()))
  {
    RunFour(s, FAILING, SyncBundles(ACCEPT_ALL), UNCLEAR, SyncBundles(RepeatingPass()));
    SecondDelta(s);
  }

  /** With a switch factor of two: while the delta with the ID 1 is being sent, the first of two complete messages is
      reported as failed and the second one as delivered. The attempt is then the first one of a new line, whose next
      delta message has the ID 1 as well. */
  lemma AnIdIsRepeated()
    ensures Reachable(Repeating()) && OneRepeated(Repeating()) && !InOrder(Repeating(), RightId)
  {
    RepeatingIsReachable();
    RepeatingRepeats();
    OutOfOrder(Repeating());
  }

  lemma RepeatingRepeats()
    ensures OneRepeated(Repeating())
  {
    var boot := Boot(0, 2, true, []);
    RunOn(boot, TwoCompletes(), TwoDeltas());
    AfterTwoCompletes(boot);
    AfterTwoDeltas(Run(boot, TwoCompletes()));
  }
}
