/** The joint invariant over every run. */
module Reachability {
  import opened Policies
  import opened Protocol
  import opened BundleAgreement
  import opened HybridLine
  import opened SentVersions
  import opened LineReplay

  /** A state some run of a process can be in. */
  ghost predicate Reachable(s: Sys) {
    exists incarnation: nat, factor: int, deltaTransport: bool, earlier: seq<Message>, steps: seq<Step> ::
      && Earlier(earlier, incarnation) && CleanSteps(steps)
      && s == Run(Boot(incarnation, factor, deltaTransport, earlier), steps)
  }

  ghost predicate LocalInv(s: Sys) {
    StateInv(s) && LineInv(s) && ReplayInv(s)
  }

  ghost predicate Inv(s: Sys) {
    LocalInv(s) && VersionInv(s)
  }

  // ----- A pass -----

  lemma SyncEntryKeepsLine(s: Sys, k: Kind, env: EntryEnv)
    requires LineInv(s)
    ensures LineInv(SyncEntry(s, k, env).sys)
  {
    var b := Deliver(s, env.before);
    DeliverKeepsLine(s, env.before);
    if Due(b, k, env.level) {
      var c := Deliver(b, env.between);
      DeliverKeepsLine(b, env.between);
      DeliverEffect(b, env.between);
      if k == CompleteKind {
        assert c.MessageFor(k) == b.MessageFor(k);
        DeliverKeepsFlight(b, env.between, b.MessageFor(k));
      }
      SendKeepsLine(c, k, env.outcome, env.during);
      SendEffect(c, c.MessageFor(k), env.outcome, env.during);
      assert !c.Enabled() ==> k != DeltaKind;
    }
  }

  lemma PassKeepsLocal(s: Sys, env: PassEnv, i: nat)
    requires LocalInv(s)
    ensures LocalInv(PassFrom(s, env, i))
    decreases 4 - i
  {
    if i < 4 {
      var k := ORDER[i];
      SyncEntryKeepsState(s, k, env.Get(k));
      SyncEntryKeepsLine(s, k, env.Get(k));
      SyncEntryReplays(s, k, env.Get(k));
      var r := SyncEntry(s, k, env.Get(k));
      if !r.stop {
        PassKeepsLocal(r.sys, env, i + 1);
      }
    }
  }

  // ----- Steps and runs -----

  lemma UpdateKeepsLocal(s: Sys, p: Policy)
    requires LocalInv(s) && DistinctClusters(p.status)
    ensures LocalInv(UpdatePolicy(s, p))
  {
    UpdateKeepsState(s, p);
    UpdateSameLine(s, p);
    SameLineKeepsLine(s, UpdatePolicy(s, p));
    UpdateReplays(s, p);
  }

  lemma DeleteKeepsLocal(s: Sys, p: Policy)
    requires LocalInv(s)
    ensures LocalInv(DeletePolicy(s, p))
  {
    DeleteKeepsState(s, p);
    UpdateSameLine(s, p);
    SameLineKeepsLine(s, DeletePolicy(s, p));
    DeleteReplays(s, p);
  }

  lemma NextKeepsInv(s: Sys, step: Step)
    requires Inv(s)
    requires step.PolicyUpdated? ==> DistinctClusters(step.policy.status)
    ensures Inv(Next(s, step))
  {
    NextKeepsVersions(s, step);
    match step
    case PolicyUpdated(p) => UpdateKeepsLocal(s, p);
    case PolicyDeleted(p) => DeleteKeepsLocal(s, p);
    case SyncBundles(env) => PassKeepsLocal(s, env, 0);
    case Reported(r) =>
      ReportKeepsState(s, r);
      ReportKeepsLine(s, r);
      ReportReplays(s, r);
  }

  lemma {:induction false} RunKeepsInv(s: Sys, steps: seq<Step>)
    requires Inv(s) && CleanSteps(steps)
    ensures Inv(Run(s, steps))
  {
    if steps != [] {
      RunKeepsInv(s, steps[..|steps| - 1]);
      NextKeepsInv(Run(s, steps[..|steps| - 1]), steps[|steps| - 1]);
    }
  }

  /** Every reachable state satisfies the joint invariant. */
  lemma ReachableInv(s: Sys)
    requires Reachable(s)
    ensures Inv(s)
  {
    var incarnation: nat, factor: int, deltaTransport: bool, earlier: seq<Message>, steps: seq<Step> :|
      && Earlier(earlier, incarnation) && CleanSteps(steps)
      && s == Run(Boot(incarnation, factor, deltaTransport, earlier), steps);
    BootState(incarnation, factor, deltaTransport, earlier);
    BootVersions(incarnation, factor, deltaTransport, earlier);
    RunKeepsInv(Boot(incarnation, factor, deltaTransport, earlier), steps);
  }

  lemma RunIsReachable(incarnation: nat, factor: int, deltaTransport: bool, steps: seq<Step>)
    requires CleanSteps(steps)
    ensures Reachable(Run(Boot(incarnation, factor, deltaTransport, []), steps))
  {
    assert Earlier([], incarnation);
  }
}
