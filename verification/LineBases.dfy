/** The complete generation a delta line rests on. */
module LineBases {
  import opened Collections
  import opened Policies
  import opened ClustersPerPolicy
  import opened CompleteCompliance
  import opened DeltaCompliance
  import opened Protocol
  import opened BundleAgreement
  import opened HybridLine
  import opened SentVersions
  import opened Reports
  import opened Reachability
  import opened Passes

  /** Within a line the base is constant while the attempts only grow. */
  ghost predicate LineProgress(s: Sys, t: Sys) {
    && t.incarnation == s.incarnation && t.line >= s.line
    && (t.line == s.line ==> t.DeltaBase() == s.DeltaBase() && s.attempts <= t.attempts)
  }

  lemma PassLineProgress(s: Sys, env: PassEnv, i: nat)
    ensures LineProgress(s, PassFrom(s, env, i))
    decreases 4 - i
  {
    if i < 4 {
      var k, e := ORDER[i], env.Get(ORDER[i]);
      var b, r := Deliver(s, e.before), SyncEntry(s, k, e);
      var c := Deliver(b, e.between);
      DeliverEffect(s, e.before);
      DeliverEffect(b, e.between);
      SendEffect(c, c.MessageFor(k), e.outcome, e.during);
      assert LineProgress(s, r.sys);
      if !r.stop {
        PassLineProgress(r.sys, env, i + 1);
      }
    }
  }

  lemma {:induction false} LineKeepsBase(s: Sys, steps: seq<Step>)
    ensures LineProgress(s, Run(s, steps))
  {
    if steps != [] {
      var f, last := Run(s, steps[..|steps| - 1]), steps[|steps| - 1];
      LineKeepsBase(s, steps[..|steps| - 1]);
      assert LineProgress(f, Next(f, last)) by {
        match last
        case PolicyUpdated(p) => UpdateSameLine(f, p);
        case PolicyDeleted(p) => UpdateSameLine(f, p);
        case SyncBundles(env) => PassLineProgress(f, env, 0);
        case Reported(r) => ReportEffect(f, r);
      }
    }
  }

  lemma BaseNeverAhead(s: Sys)
    requires Reachable(s)
    ensures s.delta.baseGeneration <= s.complete.generation
    ensures SwitchToDelta(s).delta.baseGeneration == SwitchToDelta(s).complete.generation
  {
    ReachableInv(s);
  }

  // ----- Opening a line -----

  /** The full status of a policy rebuilt from its cluster set and what a complete payload shows of it. */
  function Recover(clusters: set<string>, shown: Option<AlertSets>): StatusChanges {
    map c | c in clusters ::
      if shown.Some? && c in shown.value.unknown then Unknown
      else if shown.Some? && c in shown.value.nonCompliant then NonCompliant
      else Compliant
  }

  lemma RecoverEffect(l: Lists)
    ensures Recover(RecordsOf(l).All(), AlertView(Some(l))) == ListsMap(l)
  {
    EmptyAlerts(Alerts(l.nonCompliant, l.unknown));
  }

  /** The records of the policy are what its cluster set and the message's complete payload say. */
  ghost predicate RecoveredFrom(t: Sys, m: Message, p: string)
    requires p in t.delta.cache
  {
    && Clusters(t.cpp, p).Some? && m.payload.CompletePayload?
    && t.delta.cache[p].Map() == Recover(Clusters(t.cpp, p).value, Shown(Complete(m.payload.alerts, 0), p))
  }

  /** An accepted complete send leaves a fresh delta line: its base is the generation just sent, nothing is pending, and
      the records are recoverable from that very payload and the cluster sets of clusters-per-policy. */
  lemma LineOpening(s: Sys, env: EntryEnv)
    requires Reachable(s) && s.Enabled()
    requires Due(Deliver(s, env.before), CompleteKind, env.level) && env.outcome == Accepted
    ensures var b, t := Deliver(s, env.before), SyncEntry(s, CompleteKind, env).sys;
            var m := b.MessageFor(CompleteKind);
            && t.handed == s.handed + [m] && t.line > b.line
            && t.DeltaBase() == m.version && t.delta.pending == []
            && (forall p :: p in t.delta.cache <==> Clusters(t.cpp, p).Some?)
            && (forall p :: p in t.delta.cache ==> RecoveredFrom(t, m, p))
            && (LastWord(env.between + env.during) == None ==>
                  t.mode == DeltaStateMode && t.line == b.line + 1 && t.delta.transportationId == t.sentDeltaCount == 0)
  {
    ReachableInv(s);
    var b, t := Deliver(s, env.before), SyncEntry(s, CompleteKind, env).sys;
    var m := b.MessageFor(CompleteKind);
    DeliverEffect(s, env.before);
    DeliverKeepsState(s, env.before);
    DeliverEffect(b, env.between);
    assert Deliver(b, env.between).MessageFor(CompleteKind) == m;
    AcceptedSendOpensLine(b, env.between, m, env.during);
    forall p ensures (p in t.delta.cache <==> Clusters(t.cpp, p).Some?)
                     && (p in t.delta.cache ==> RecoveredFrom(t, m, p))
    {
      BaseRecords(b.cpp.objects, p);
      assert Shown(b.complete, p) == AlertView(Find(b.cpp.objects, p));
      if p in t.delta.cache {
        RecoverEffect(Find(b.cpp.objects, p).value);
      }
    }
  }

  lemma AcceptedSendOpensLine(b: Sys, between: seq<Report>, m: Message, during: seq<Report>)
    requires b.mode == CompleteStateMode && b.Subscribed(Plain(m.kind))
    ensures var t := SendAsync(Deliver(b, between), m, Accepted, during);
            && t.line > b.line && AfterCallbacks(b.(handed := b.handed + [m]), t)
            && (LastWord(between + during) == None ==> t == SwitchToDelta(b.(handed := b.handed + [m])))
  {
    var c := Deliver(b, between);
    var h := c.(handed := c.handed + [m]);
    DeliverEffect(b, between);
    DeliverEffect(h, during);
    AttemptEffect(Deliver(h, during), m);
    SendEffect(c, m, Accepted, during);
    Chain(b.(handed := b.handed + [m]), h, SendAsync(c, m, Accepted, during));
    BothWindows(between, during);
    if LastWord(between + during) == None {
      NothingHeard(b, between);
      NothingHeard(h, during);
    }
  }

  // ----- Whether the base was handed over -----

  /** The base of the present line was handed to the transport as a complete message. */
  ghost predicate BaseWasHanded(s: Sys) {
    Handed(s.handed, CompleteKind, s.DeltaBase())
  }

  /** Complete has not changed since it was last sent, and was sent at all. */
  predicate CompleteIsSent(s: Sys) {
    s.lastSent.complete == s.CurrentVersion(CompleteKind) && s.complete.generation > 0
  }

  lemma HandedCurrent(t: Sys)
    requires VersionInv(t) && t.delta.baseGeneration == t.complete.generation
    ensures BaseWasHanded(t) <==> CompleteIsSent(t)
  {
    assert t.lastSent.Get(CompleteKind).incarnation == t.incarnation;
    assert t.lastSent.Get(CompleteKind).generation <= t.Generation(CompleteKind);
    if BaseWasHanded(t) {
      var i :| 0 <= i < |t.handed| && t.handed[i].kind == CompleteKind && t.handed[i].version == t.DeltaBase();
      assert !t.handed[i].version.NewerThan(t.lastSent.Get(CompleteKind));
    } else {
      assert t.lastSent.Get(CompleteKind).generation > 0 ==>
               Handed(t.handed, CompleteKind, t.lastSent.Get(CompleteKind));
    }
  }

  /** Whoever opens a line: it rests on a complete generation that was handed to the transport exactly when complete has
      not changed since it was last sent (and was sent at all). */
  lemma SwitchOpensSentBase(s: Sys)
    requires VersionInv(s)
    ensures BaseWasHanded(SwitchToDelta(s)) <==> CompleteIsSent(s)
  {
    SwitchEffect(s);
    CallbacksKeepVersions(s, SwitchToDelta(s));
    HandedCurrent(SwitchToDelta(s));
  }

  /** So for a line opened by a success report. */
  lemma SuccessOpensSentBase(s: Sys)
    requires VersionInv(s) && s.mode == CompleteStateMode
    ensures BaseWasHanded(HandleSuccess(s)) <==> CompleteIsSent(s)
  {
    SwitchOpensSentBase(s);
  }

  /** And so for a line opened in one bundle's turn, by a report or by the send's own attempt: its base was handed over
      exactly when complete was handed over in this very turn, or had not changed since it was last sent. */
  lemma TurnOpensSentBase(s: Sys, k: Kind, env: EntryEnv)
    requires VersionInv(s)
    ensures var t := SyncEntry(s, k, env).sys;
            t.line > s.line ==> (BaseWasHanded(t) <==> (k == CompleteKind && Sends(s, k, env)) || CompleteIsSent(s))
  {
    var t := SyncEntry(s, k, env).sys;
    DeliverEffect(s, env.before);
    TurnEffect(s, k, env);
    assert s.lastSent.Get(CompleteKind).incarnation == s.incarnation;
    SyncEntryKeepsVersions(s, k, env);
    EntryHands(s, k, env);
    if t.line > s.line {
      HandedCurrent(t);
    }
  }

  /** A line opened in a turn is fresh when the turn ends. */
  lemma TurnEffect(s: Sys, k: Kind, env: EntryEnv)
    ensures var t := SyncEntry(s, k, env).sys;
            SameContent(s, t) && t.line >= s.line && (t.line > s.line ==> FreshLine(t))
  {
    var b := Deliver(s, env.before);
    var c := Deliver(b, env.between);
    DeliverEffect(s, env.before);
    DeliverEffect(b, env.between);
    SendEffect(c, c.MessageFor(k), env.outcome, env.during);
  }

  // ----- When a delta send opens a line -----

  /** Exactly when an accepted delta send opens a line: a failure is heard between the evaluation of the bundle's
      predicate and the attempt. Its own attempt opens the line exactly when that failure is the last word, and then
      delta mode is back and complete is not due, although the failure had just called for it. The base of the line was
      handed over exactly when complete has not changed since it was last sent. */
  lemma DeltaSendOpensLine(s: Sys, env: EntryEnv)
    requires VersionInv(s) && s.Enabled()
    requires Due(Deliver(s, env.before), DeltaKind, env.level) && env.outcome == Accepted
    ensures var b, t := Deliver(s, env.before), SyncEntry(s, DeltaKind, env).sys;
            && (t.line > b.line <==> HasFailure(env.between + env.during))
            && (LastWord(env.between + env.during) == Some(false) ==>
                  && t.attempts == [] && t.mode == DeltaStateMode && !Due(t, CompleteKind, env.level))
            && (t.line > b.line ==> (BaseWasHanded(t) <==> CompleteIsSent(s)))
  {
    var b, t := Deliver(s, env.before), SyncEntry(s, DeltaKind, env).sys;
    DeliverEffect(s, env.before);
    TurnOpensSentBase(s, DeltaKind, env);
    AcceptedDeltaSend(b, env.between, env.during);
  }

  lemma AcceptedDeltaSend(b: Sys, between: seq<Report>, during: seq<Report>)
    requires b.Enabled() && b.mode == DeltaStateMode
    ensures var c := Deliver(b, between);
            var t := SendAsync(c, c.MessageFor(DeltaKind), Accepted, during);
            && t.line >= b.line && (t.line > b.line <==> HasFailure(between + during))
            && (LastWord(between + during) == Some(false) ==> t.attempts == [] && t.mode == DeltaStateMode)
  {
    var c := Deliver(b, between);
    var h := c.(handed := c.handed + [c.MessageFor(DeltaKind)]);
    var d := Deliver(h, during);
    ReportsEffect(b, between);
    ReportsEffect(h, during);
    BothWindows(between, during);
    LastWordTells(between + during);
    ModeFollowsLastWord(b, between);
    ModeFollowsLastWord(h, during);
    if HasFailure(between + during) {
      if d.mode == DeltaStateMode {
        LastWordTells(between);
        LastWordTells(during);
        WhenReportsOpen(h, during);
        if c.mode == DeltaStateMode {
          WhenReportsOpen(b, between);
        }
      }
    } else {
      OnlyFailuresMatter(b, between);
      OnlyFailuresMatter(h, during);
    }
  }
}
