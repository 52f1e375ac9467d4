/** The counter and the IDs of a delta line, and exactly when they run 0, 1, 2, ... without gap or repeat. */
module LineIds {
  import opened Collections
  import opened Versions
  import opened Protocol
  import opened HybridLine
  import opened Reports
  import opened Reachability

  /** In delta mode the delta's transportation ID is the number of attempts of the line, below the factor; a line has at
      most factor attempts, and every attempt but the first was for the delta message of its own ID and the line's base,
      carrying exactly what was flushed then. Without hybrid sync, complete mode is never left. */
  lemma CounterLockstep(s: Sys)
    requires Reachable(s)
    ensures s.mode == DeltaStateMode ==> s.delta.transportationId == s.sentDeltaCount == |s.attempts| < s.factor
    ensures s.Enabled() ==> |s.attempts| <= s.factor
    ensures !s.Enabled() ==> s.mode == CompleteStateMode
    ensures forall i :: 0 < i < |s.attempts| ==> Regular(s.attempts[i], i, s.DeltaBase())
    ensures |s.attempts| > 0 ==> Regular(s.attempts[0], 0, s.DeltaBase()) || s.attempts[0].pending == []
  {
    ReachableInv(s);
  }

  /** What is asked of an attempt: that its message has the right ID, or that it is the line's own message. */
  datatype Demand = RightId | OwnMessage

  ghost predicate Meets(a: Attempt, i: nat, base: Version, d: Demand) {
    match d
    case RightId => a.message.key == Numbered(DeltaKind, i)
    case OwnMessage => Regular(a, i, base)
  }

  /** The attempts of the line use the IDs 0, 1, 2 and so on, without gap or repeat; and if so demanded, they are for
      the line's own delta messages of these IDs, with its base and what was pending. */
  ghost predicate InOrder(s: Sys, d: Demand) {
    forall i :: 0 <= i < |s.attempts| ==> Meets(s.attempts[i], i, s.DeltaBase(), d)
  }

  // ----- Attempts that land on a line opened in the meantime -----

  lemma AttemptOnFreshLine(d: Sys, m: Message)
    requires d.factor > 0 && (d.mode == CompleteStateMode || Unattempted(d))
    ensures var t := HandleAttempt(d, m);
            && t.attempts == (if d.mode == DeltaStateMode then [Attempt(m, [])] else [])
            && (t.mode == DeltaStateMode <==> |t.attempts| < d.factor)
            && (t.mode == DeltaStateMode ==> t.delta.transportationId == |t.attempts|)
  {}

  /** Exactly when a complete message's own attempt uses up the ID 0 of a line: the last report that reached the manager
      since the bundle's predicate was evaluated was a success. */
  lemma CompleteAttemptTakesIdZero(s: Sys, env: EntryEnv)
    requires s.Enabled()
    requires Due(Deliver(s, env.before), CompleteKind, env.level) && env.outcome == Accepted
    ensures var t := SyncEntry(s, CompleteKind, env).sys;
            var m := Deliver(s, env.before).MessageFor(CompleteKind);
            && t.attempts == (if LastWord(env.between + env.during) == Some(true) then [Attempt(m, [])] else [])
            && (t.mode == DeltaStateMode <==> |t.attempts| < s.factor)
            && (t.mode == DeltaStateMode ==> t.delta.transportationId == |t.attempts|)
  {
    var b := Deliver(s, env.before);
    var c := Deliver(b, env.between);
    ReportsEffect(s, env.before);
    ReportsEffect(b, env.between);
    var m := c.MessageFor(CompleteKind);
    var h := c.(handed := c.handed + [m]);
    var d := Deliver(h, env.during);
    ReportsEffect(h, env.during);
    DeliverEffect(b, env.between);
    DeliverEffect(h, env.during);
    BothWindows(env.between, env.during);
    ModeFollowsLastWord(b, env.between);
    ModeFollowsLastWord(h, env.during);
    AttemptOnFreshLine(d, m);
  }

  /** Exactly when a delta message's own attempt is the first one of a line that was opened after the message was
      marshalled: the last word during the send was a success, and complete mode was active at some point before it.
      The next delta message then has the ID 1, even if this one had it too. */
  lemma DeltaAttemptOnNewLine(c: Sys, during: seq<Report>)
    requires c.Enabled() && LineInv(c)
    ensures var m := c.MessageFor(DeltaKind);
            var t := SendAsync(c, m, Accepted, during);
            && m.key == Numbered(DeltaKind, c.delta.transportationId)
            && (t.line > c.line && t.attempts == [Attempt(m, [])] <==> LandsOnNewLine(c, during))
            && (LandsOnNewLine(c, during) ==> (t.mode == DeltaStateMode <==> c.factor > 1))
            && (LandsOnNewLine(c, during) && c.factor > 1 ==> t.MessageFor(DeltaKind).key == Numbered(DeltaKind, 1))
            && (t.line > c.line && !LandsOnNewLine(c, during) ==> t.attempts == [])
  {
    var m := c.MessageFor(DeltaKind);
    var d := Deliver(c.(handed := c.handed + [m]), during);
    DeltaAttempt(c, m, during);
    if d.mode == CompleteStateMode || d.line > c.line {
      AttemptOnFreshLine(d, m);
    }
  }

  predicate LandsOnNewLine(c: Sys, during: seq<Report>) {
    LastWord(during) == Some(true) && (c.mode == CompleteStateMode || HasFailure(during))
  }

  /** Where the attempt of a delta message lands: on a line opened since, or on the line it was marshalled for, or it
      opens a line itself. */
  lemma DeltaAttempt(c: Sys, m: Message, during: seq<Report>)
    requires c.Enabled() && m.kind == DeltaKind
    ensures var h := c.(handed := c.handed + [m]);
            var d := Deliver(h, during);
            && d.Enabled() && AfterReports(h, d) && SendAsync(c, m, Accepted, during) == HandleAttempt(d, m)
            && (LandsOnNewLine(c, during) <==> d.mode == DeltaStateMode && d.line > c.line)
            && (d.mode == DeltaStateMode && d.line == c.line ==> d == h)
  {
    var h := c.(handed := c.handed + [m]);
    ReportsEffect(h, during);
    ModeFollowsLastWord(h, during);
    LastWordTells(during);
    if Deliver(h, during).mode == DeltaStateMode {
      WhenReportsOpen(h, during);
    }
  }

  // ----- When a turn breaks the order of a line -----

  /** A delta message marshalled now has the ID a line opened now would start with; and if so demanded, it is the very
      message that line would start with. */
  predicate StartsLine(c: Sys, d: Demand) {
    && c.delta.transportationId == 0
    && (d == OwnMessage ==> c.delta.pending == [] && c.delta.baseGeneration == c.complete.generation)
  }

  /** An accepted message whose attempt meets a line it was not marshalled for: a complete message that meets any line,
      or a delta message that meets a new one and does not happen to fit its start. */
  predicate Disturbed(s: Sys, k: Kind, env: EntryEnv, d: Demand) {
    var b := Deliver(s, env.before);
    && s.Enabled() && Due(b, k, env.level) && env.outcome == Accepted
    && match k
       case CompleteKind => LastWord(env.between + env.during) == Some(true)
       case DeltaKind => LandsOnNewLine(Deliver(b, env.between), env.during) && !StartsLine(Deliver(b, env.between), d)
       case _ => false
  }

  lemma ReportsKeepOrder(s: Sys, rs: seq<Report>, d: Demand)
    requires InOrder(s, d)
    ensures InOrder(Deliver(s, rs), d)
  {
    ReportsEffect(s, rs);
    assert Deliver(s, rs).line == s.line ==> Deliver(s, rs).DeltaBase() == s.DeltaBase();
  }

  lemma SameLineInOrder(s: Sys, t: Sys, d: Demand)
    requires t.attempts == s.attempts && t.DeltaBase() == s.DeltaBase()
    ensures InOrder(t, d) <==> InOrder(s, d)
  {}

  lemma DeltaSendInOrder(c: Sys, during: seq<Report>, d: Demand)
    requires c.Enabled() && LineInv(c) && InOrder(c, d)
    ensures InOrder(SendAsync(c, c.MessageFor(DeltaKind), Accepted, during), d) <==>
              LandsOnNewLine(c, during) ==> StartsLine(c, d)
  {
    var m := c.MessageFor(DeltaKind);
    var h := c.(handed := c.handed + [m]);
    var e := Deliver(h, during);
    DeltaAttempt(c, m, during);
    var t := HandleAttempt(e, m);
    if e.mode == DeltaStateMode {
      assert t.DeltaBase() == e.DeltaBase() && t.attempts == e.attempts + [Attempt(m, e.delta.pending)];
      LastAttemptDecides(e, m, d);
      SameLineInOrder(t, e.(attempts := t.attempts), d);
      if e.line == c.line {
        assert e.DeltaBase() == c.DeltaBase();
      }
    }
  }

  lemma LastAttemptDecides(s: Sys, m: Message, d: Demand)
    requires InOrder(s, d)
    ensures InOrder(s.(attempts := s.attempts + [Attempt(m, s.delta.pending)]), d) <==>
              Meets(Attempt(m, s.delta.pending), |s.attempts|, s.DeltaBase(), d)
  {
    var a := s.attempts + [Attempt(m, s.delta.pending)];
    assert forall i :: 0 <= i < |s.attempts| ==> a[i] == s.attempts[i];
    assert a[|s.attempts|] == Attempt(m, s.delta.pending);
  }

  /** Exactly when one bundle's turn leaves an orderly line orderly. */
  lemma OrderlyTurn(s: Sys, k: Kind, env: EntryEnv, d: Demand)
    requires LineInv(s) && InOrder(s, d)
    ensures InOrder(SyncEntry(s, k, env).sys, d) <==> !Disturbed(s, k, env, d)
  {
    var b := Deliver(s, env.before);
    var c := Deliver(b, env.between);
    ReportsKeepOrder(s, env.before, d);
    DeliverKeepsLine(s, env.before);
    DeliverEffect(s, env.before);
    if Due(b, k, env.level) {
      ReportsKeepOrder(b, env.between, d);
      DeliverKeepsLine(b, env.between);
      DeliverEffect(b, env.between);
      if env.outcome != Unmarshallable {
        var t := SendAsync(c, c.MessageFor(k), env.outcome, env.during);
        SameLineInOrder(t, SyncEntry(s, k, env).sys, d);
        if s.Enabled() && env.outcome == Accepted && k == CompleteKind {
          CompleteAttemptTakesIdZero(s, env);
          assert t.attempts != [] ==> !Meets(t.attempts[0], 0, t.DeltaBase(), d);
        } else if s.Enabled() && env.outcome == Accepted && k == DeltaKind {
          DeltaSendInOrder(c, env.during, d);
        } else {
          OtherSendInOrder(c, k, env.outcome, env.during, d);
        }
      }
    }
  }

  lemma OtherSendInOrder(c: Sys, k: Kind, outcome: Outcome, during: seq<Report>, d: Demand)
    requires InOrder(c, d) && (!c.Enabled() || outcome != Accepted || k == CppKind || k == MinimalKind)
    ensures InOrder(SendAsync(c, c.MessageFor(k), outcome, during), d)
  {
    var h := c.(handed := c.handed + [c.MessageFor(k)]);
    SameLineInOrder(c, h, d);
    ReportsKeepOrder(h, during, d);
    DeliverEffect(h, during);
    SameLineInOrder(Deliver(h, during), HandleFailure(Deliver(h, during)), d);
  }

  // ----- Whole runs -----

  /** No turn of the pass, from the i-th on, is disturbed. */
  predicate PassUndisturbed(s: Sys, env: PassEnv, i: nat, d: Demand)
    decreases 4 - i
  {
    i < 4 ==>
      var r := SyncEntry(s, ORDER[i], env.Get(ORDER[i]));
      !Disturbed(s, ORDER[i], env.Get(ORDER[i]), d) && (r.stop || PassUndisturbed(r.sys, env, i + 1, d))
  }

  predicate RunUndisturbed(s: Sys, steps: seq<Step>, d: Demand) {
    steps != [] ==>
      var front, last := steps[..|steps| - 1], steps[|steps| - 1];
      RunUndisturbed(s, front, d) && (last.SyncBundles? ==> PassUndisturbed(Run(s, front), last.env, 0, d))
  }

  /** The line is in order before and after every turn of the pass from the i-th on. */
  ghost predicate PassInOrder(s: Sys, env: PassEnv, i: nat, d: Demand)
    decreases 4 - i
  {
    && InOrder(s, d)
    && (i < 4 ==>
          var r := SyncEntry(s, ORDER[i], env.Get(ORDER[i]));
          if r.stop then InOrder(r.sys, d) else PassInOrder(r.sys, env, i + 1, d))
  }

  /** The line is in order at every point of the run. */
  ghost predicate RunInOrder(s: Sys, steps: seq<Step>, d: Demand) {
    && InOrder(Run(s, steps), d)
    && (steps != [] ==>
          var front, last := steps[..|steps| - 1], steps[|steps| - 1];
          RunInOrder(s, front, d) && (last.SyncBundles? ==> PassInOrder(Run(s, front), last.env, 0, d)))
  }

  lemma OrderlyPass(s: Sys, env: PassEnv, i: nat, d: Demand)
    requires LineInv(s) && InOrder(s, d)
    ensures PassInOrder(s, env, i, d) <==> PassUndisturbed(s, env, i, d)
    ensures PassInOrder(s, env, i, d) ==> InOrder(PassFrom(s, env, i), d)
    ensures LineInv(PassFrom(s, env, i))
    decreases 4 - i
  {
    if i < 4 {
      var k := ORDER[i];
      var r := SyncEntry(s, k, env.Get(k));
      OrderlyTurn(s, k, env.Get(k), d);
      SyncEntryKeepsLine(s, k, env.Get(k));
      if !r.stop {
        if InOrder(r.sys, d) {
          OrderlyPass(r.sys, env, i + 1, d);
        } else {
          PassKeepsLine(r.sys, env, i + 1);
        }
      }
    }
  }

  lemma PassKeepsLine(s: Sys, env: PassEnv, i: nat)
    requires LineInv(s)
    ensures LineInv(PassFrom(s, env, i))
    decreases 4 - i
  {
    if i < 4 {
      SyncEntryKeepsLine(s, ORDER[i], env.Get(ORDER[i]));
      var r := SyncEntry(s, ORDER[i], env.Get(ORDER[i]));
      if !r.stop {
        PassKeepsLine(r.sys, env, i + 1);
      }
    }
  }

  lemma StepKeepsLine(s: Sys, step: Step, d: Demand)
    requires LineInv(s)
    ensures LineInv(Next(s, step))
    ensures InOrder(s, d) && !step.SyncBundles? ==> InOrder(Next(s, step), d)
  {
    match step
    case PolicyUpdated(p) =>
      UpdateSameLine(s, p);
      SameLineKeepsLine(s, UpdatePolicy(s, p));
      SameLineInOrder(s, UpdatePolicy(s, p), d);
    case PolicyDeleted(p) =>
      UpdateSameLine(s, p);
      SameLineKeepsLine(s, DeletePolicy(s, p));
      SameLineInOrder(s, DeletePolicy(s, p), d);
    case SyncBundles(env) => PassKeepsLine(s, env, 0);
    case Reported(r) =>
      ReportKeepsLine(s, r);
      OneReport(s, r);
      if InOrder(s, d) {
        ReportsKeepOrder(s, [r], d);
      }
  }

  lemma OneReport(s: Sys, r: Report)
    ensures Deliver(s, [r]) == HandleReport(s, r)
  {
    assert [r][..0] == [];
  }

  /** Exactly when the attempts of every line of a run are in order: when no turn of it is disturbed. */
  lemma {:induction false} OrderlyRun(s: Sys, steps: seq<Step>, d: Demand)
    requires LineInv(s) && InOrder(s, d)
    ensures RunInOrder(s, steps, d) <==> RunUndisturbed(s, steps, d)
    ensures LineInv(Run(s, steps))
  {
    if steps != [] {
      var front, last := steps[..|steps| - 1], steps[|steps| - 1];
      var f := Run(s, front);
      OrderlyRun(s, front, d);
      StepKeepsLine(f, last, d);
      if InOrder(f, d) && last.SyncBundles? {
        OrderlyPass(f, last.env, 0, d);
      }
    }
  }

  /** So for every run of a process: the attempts of every line use the IDs 0, 1, 2 and so on, without gap or repeat,
      exactly when no turn disturbs the IDs; and they are for the line's own messages exactly when no turn disturbs
      these. */
  lemma LineIdsWithoutGap(incarnation: nat, factor: int, deltaTransport: bool, earlier: seq<Message>, steps: seq<Step>)
    ensures var boot := Boot(incarnation, factor, deltaTransport, earlier);
            && (RunInOrder(boot, steps, RightId) <==> RunUndisturbed(boot, steps, RightId))
            && (RunInOrder(boot, steps, OwnMessage) <==> RunUndisturbed(boot, steps, OwnMessage))
  {
    OrderlyRun(Boot(incarnation, factor, deltaTransport, earlier), steps, RightId);
    OrderlyRun(Boot(incarnation, factor, deltaTransport, earlier), steps, OwnMessage);
  }
}
