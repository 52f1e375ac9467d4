/** What one pass over the bundles hands to the transport. */
module Passes {
  import opened Versions
  import opened Protocol
  import opened HybridLine
  import opened Reports

  // ----- What a pass hands over -----

  /** The state in which a bundle's message is marshalled, if its turn comes to that. */
  function Ready(s: Sys, env: EntryEnv): Sys {
    Deliver(Deliver(s, env.before), env.between)
  }

  /** Whether a bundle's turn hands over its message: it is due and can be marshalled. */
  predicate Sends(s: Sys, k: Kind, env: EntryEnv) {
    Due(Deliver(s, env.before), k, env.level) && env.outcome != Unmarshallable
  }

  /** One bundle's turn hands over its message, and makes its version the last sent, exactly when it is due and can be
      marshalled; a due bundle that cannot be marshalled stops the pass. */
  lemma EntryHands(s: Sys, k: Kind, env: EntryEnv)
    ensures var r := SyncEntry(s, k, env);
            && r.stop == (Due(Deliver(s, env.before), k, env.level) && env.outcome == Unmarshallable)
            && (if Sends(s, k, env)
                then r.sys.handed == s.handed + [Ready(s, env).MessageFor(k)]
                     && r.sys.lastSent == s.lastSent.Set(k, s.CurrentVersion(k))
                else r.sys.handed == s.handed && r.sys.lastSent == s.lastSent)
  {
    var b := Deliver(s, env.before);
    var c := Deliver(b, env.between);
    DeliverEffect(s, env.before);
    DeliverEffect(b, env.between);
    SendEffect(c, c.MessageFor(k), env.outcome, env.during);
  }

  // ----- One informative compliance bundle per pass -----

  lemma TailHands(s: Sys, env: PassEnv, i: nat)
    ensures s.handed <= PassFrom(s, env, i).handed
    ensures forall j :: |s.handed| <= j < |PassFrom(s, env, i).handed| ==>
              PassFrom(s, env, i).handed[j].kind in ORDER[if i < 4 then i else 4..]
    decreases 4 - i
  {
    if i < 4 {
      var r := SyncEntry(s, ORDER[i], env.Get(ORDER[i]));
      EntryHands(s, ORDER[i], env.Get(ORDER[i]));
      if !r.stop {
        TailHands(r.sys, env, i + 1);
      }
    }
  }

  /** Once the complete bundle was handed over in a pass, nothing is pending when the delta bundle is marshalled. */
  lemma NothingPendingAfterComplete(s: Sys, complete: EntryEnv, delta: EntryEnv)
    requires |SyncEntry(s, CompleteKind, complete).sys.handed| > |s.handed|
    ensures var t := SyncEntry(s, CompleteKind, complete).sys;
            Due(Deliver(t, delta.before), DeltaKind, delta.level) ==>
              Ready(t, delta).MessageFor(DeltaKind).payload.changes == []
  {
    var b := Deliver(s, complete.before);
    var c := Deliver(b, complete.between);
    DeliverEffect(s, complete.before);
    DeliverEffect(b, complete.between);
    SendEffect(c, c.MessageFor(CompleteKind), complete.outcome, complete.during);
    var t := SyncEntry(s, CompleteKind, complete).sys;
    DeliverEffect(t, delta.before);
    DeliverEffect(Deliver(t, delta.before), delta.between);
  }

  /** A complete message handed over in a pass was handed over in complete's own turn. */
  lemma CompleteTurn(s: Sys, env: PassEnv, i: nat)
    requires |s.handed| <= i < |PassFrom(s, env, 0).handed|
    requires PassFrom(s, env, 0).handed[i].kind == CompleteKind
    ensures var a := SyncEntry(s, CppKind, env.cpp).sys;
            |SyncEntry(a, CompleteKind, env.complete).sys.handed| > |a.handed|
  {
    var a := SyncEntry(s, CppKind, env.cpp);
    EntryHands(s, CppKind, env.cpp);
    if !a.stop {
      assert PassFrom(s, env, 0) == PassFrom(a.sys, env, 1);
      var b := SyncEntry(a.sys, CompleteKind, env.complete);
      EntryHands(a.sys, CompleteKind, env.complete);
      if !b.stop {
        assert PassFrom(a.sys, env, 1) == PassFrom(b.sys, env, 2);
        TailHands(b.sys, env, 2);
      }
    }
  }

  /** A delta message handed over in a pass is the one of the delta's own turn. */
  lemma DeltaTurn(s: Sys, env: PassEnv, i: nat)
    requires |s.handed| <= i < |PassFrom(s, env, 0).handed|
    requires PassFrom(s, env, 0).handed[i].kind == DeltaKind
    ensures var a := SyncEntry(s, CppKind, env.cpp).sys;
            var b := SyncEntry(a, CompleteKind, env.complete).sys;
            && Due(Deliver(b, env.delta.before), DeltaKind, env.delta.level)
            && PassFrom(s, env, 0).handed[i] == Ready(b, env.delta).MessageFor(DeltaKind)
  {
    var a := SyncEntry(s, CppKind, env.cpp);
    EntryHands(s, CppKind, env.cpp);
    if !a.stop {
      assert PassFrom(s, env, 0) == PassFrom(a.sys, env, 1);
      var b := SyncEntry(a.sys, CompleteKind, env.complete);
      EntryHands(a.sys, CompleteKind, env.complete);
      if !b.stop {
        assert PassFrom(a.sys, env, 1) == PassFrom(b.sys, env, 2);
        TailHands(b.sys, env, 2);
        DeltaTurnLast(b.sys, env, i);
      }
    }
  }

  lemma DeltaTurnLast(s: Sys, env: PassEnv, i: nat)
    requires i < |PassFrom(s, env, 2).handed| && PassFrom(s, env, 2).handed[i].kind == DeltaKind
    requires |s.handed| <= i
    ensures Due(Deliver(s, env.delta.before), DeltaKind, env.delta.level)
    ensures PassFrom(s, env, 2).handed[i] == Ready(s, env.delta).MessageFor(DeltaKind)
  {
    var c := SyncEntry(s, DeltaKind, env.delta);
    EntryHands(s, DeltaKind, env.delta);
    if !c.stop {
      assert PassFrom(s, env, 2) == PassFrom(c.sys, env, 3);
      TailHands(c.sys, env, 3);
    }
  }

  /** In one pass, whatever reports are delivered during it, a delta sent besides the complete bundle is empty. */
  lemma OneInformativeBundle(s: Sys, env: PassEnv, i: nat, j: nat)
    requires |s.handed| <= i < |PassFrom(s, env, 0).handed| && |s.handed| <= j < |PassFrom(s, env, 0).handed|
    requires PassFrom(s, env, 0).handed[i].kind == CompleteKind
    requires PassFrom(s, env, 0).handed[j].kind == DeltaKind
    ensures PassFrom(s, env, 0).handed[j].payload.DeltaPayload?
            && PassFrom(s, env, 0).handed[j].payload.changes == []
  {
    CompleteTurn(s, env, i);
    DeltaTurn(s, env, j);
    NothingPendingAfterComplete(SyncEntry(s, CppKind, env.cpp).sys, env.complete, env.delta);
  }

  // ----- Clusters-per-policy and compliance in one pass -----

  /** The pass, from the i-th bundle on, hands over a message of the kind. */
  ghost predicate HandsOver(s: Sys, env: PassEnv, i: nat, k: Kind) {
    exists j :: |s.handed| <= j < |PassFrom(s, env, i).handed| && PassFrom(s, env, i).handed[j].kind == k
  }

  /** The turn of the kind's bundle is reached, and then its message is sent. */
  predicate ComesToSend(s: Sys, env: PassEnv, i: nat, k: Kind)
    decreases 4 - i
  {
    i < 4 &&
      var r := SyncEntry(s, ORDER[i], env.Get(ORDER[i]));
      (ORDER[i] == k && Sends(s, k, env.Get(k))) || (!r.stop && ComesToSend(r.sys, env, i + 1, k))
  }

  lemma HandsWhatIsSent(s: Sys, env: PassEnv, i: nat, k: Kind)
    ensures HandsOver(s, env, i, k) <==> ComesToSend(s, env, i, k)
    decreases 4 - i
  {
    if i < 4 {
      var r := SyncEntry(s, ORDER[i], env.Get(ORDER[i]));
      EntryHands(s, ORDER[i], env.Get(ORDER[i]));
      if !r.stop {
        HandsWhatIsSent(r.sys, env, i + 1, k);
        TailHands(r.sys, env, i + 1);
        var t := PassFrom(r.sys, env, i + 1);
        assert PassFrom(s, env, i) == t;
        if Sends(s, ORDER[i], env.Get(ORDER[i])) {
          assert t.handed[|s.handed|] == r.sys.handed[|s.handed|];
          assert t.handed[|s.handed|].kind == ORDER[i];
        }
      }
    }
  }

  predicate CppGoesOut(s: Sys, env: PassEnv) {
    env.cpp.level == Full && Changed(s, CppKind) && env.cpp.outcome != Unmarshallable
  }

  /** The reports delivered from the start of a pass that sends clusters-per-policy until complete is looked at. */
  function BeforeComplete(env: PassEnv): seq<Report> {
    env.cpp.before + (env.cpp.between + env.cpp.during) + env.complete.before
  }

  predicate CompleteIsDue(s: Sys, env: PassEnv) {
    env.complete.level == Full && Changed(s, CompleteKind) && ModeAfter(s, BeforeComplete(env)) == CompleteStateMode
  }

  predicate DeltaIsDue(s: Sys, env: PassEnv) {
    && env.delta.level == Full && Changed(s, DeltaKind)
    && ModeAfter(s, BeforeComplete(env) + env.delta.before) == DeltaStateMode
  }

  /** What two states of a pass must share for a bundle that was not sent in between to be due in both or in neither. */
  ghost predicate SameToSend(s: Sys, t: Sys) {
    && t.Enabled() == s.Enabled()
    && (Changed(t, CompleteKind) <==> Changed(s, CompleteKind)) && (Changed(t, DeltaKind) <==> Changed(s, DeltaKind))
  }

  lemma ReportsSameToSend(s: Sys, rs: seq<Report>)
    ensures SameToSend(s, Deliver(s, rs)) && Deliver(s, rs).mode == ModeAfter(s, rs)
    ensures Changed(Deliver(s, rs), CppKind) <==> Changed(s, CppKind)
  {
    DeliverEffect(s, rs);
    ModeFollowsLastWord(s, rs);
  }

  lemma ModeAfterBoth(s: Sys, first: seq<Report>, next: seq<Report>, t: Sys)
    requires t.Enabled() == s.Enabled() && t.mode == ModeAfter(s, first)
    ensures ModeAfter(t, next) == ModeAfter(s, first + next)
  {
    BothWindows(first, next);
  }

  /** Sending clusters-per-policy touches nothing the other bundles depend on, but for the reports meanwhile. */
  lemma CppSendSameToSend(s: Sys, env: EntryEnv)
    requires Sends(s, CppKind, env)
    ensures var t := SyncEntry(s, CppKind, env).sys;
            SameToSend(s, t) && t.mode == ModeAfter(s, env.before + (env.between + env.during))
  {
    var b := Deliver(s, env.before);
    var c := Deliver(b, env.between);
    var h := c.(handed := c.handed + [c.MessageFor(CppKind)]);
    ReportsSameToSend(s, env.before);
    ReportsSameToSend(b, env.between);
    ReportsSameToSend(h, env.during);
    ModeAfterBoth(b, env.between, env.during, h);
    ModeAfterBoth(s, env.before, env.between + env.during, b);
  }

  /** What complete's and delta's turns come to after clusters-per-policy was sent. */
  lemma AfterCppSend(s: Sys, env: PassEnv)
    requires Sends(s, CppKind, env.cpp)
    ensures var a := SyncEntry(s, CppKind, env.cpp).sys;
            var b := Deliver(a, env.complete.before);
            && (Due(b, CompleteKind, env.complete.level) <==> CompleteIsDue(s, env))
            && (Due(Deliver(b, env.delta.before), DeltaKind, env.delta.level) <==> DeltaIsDue(s, env))
  {
    var a := SyncEntry(s, CppKind, env.cpp).sys;
    var b := Deliver(a, env.complete.before);
    CppSendSameToSend(s, env.cpp);
    ReportsSameToSend(a, env.complete.before);
    ReportsSameToSend(b, env.delta.before);
    ModeAfterBoth(s, env.cpp.before + (env.cpp.between + env.cpp.during), env.complete.before, a);
    ModeAfterBoth(s, BeforeComplete(env), env.delta.before, b);
  }

  lemma CppSends(s: Sys, env: PassEnv)
    ensures Sends(s, CppKind, env.cpp) <==> CppGoesOut(s, env)
  {
    ReportsSameToSend(s, env.cpp.before);
  }

  /** Nothing keeps clusters-per-policy and complete from going out in one pass: both are handed over exactly when both
      have changed since they were last sent, the level is full and marshalling works for both, and the mode that the
      reports up to complete's turn leave is complete. */
  lemma BothFullBundlesInOnePass(s: Sys, env: PassEnv)
    ensures HandsOver(s, env, 0, CppKind) && HandsOver(s, env, 0, CompleteKind) <==>
              CppGoesOut(s, env) && CompleteIsDue(s, env) && env.complete.outcome != Unmarshallable
  {
    HandsWhatIsSent(s, env, 0, CppKind);
    HandsWhatIsSent(s, env, 0, CompleteKind);
    CppSends(s, env);
    UpToComplete(s, env);
    if Sends(s, CppKind, env.cpp) {
      AfterCppSend(s, env);
    }
  }

  lemma UpToComplete(s: Sys, env: PassEnv)
    ensures ComesToSend(s, env, 0, CppKind) <==> Sends(s, CppKind, env.cpp)
    ensures Sends(s, CppKind, env.cpp) ==>
              (ComesToSend(s, env, 0, CompleteKind) <==>
               Sends(SyncEntry(s, CppKind, env.cpp).sys, CompleteKind, env.complete))
  {
    var a := SyncEntry(s, CppKind, env.cpp);
    EntryHands(s, CppKind, env.cpp);
    assert ComesToSend(s, env, 0, CompleteKind) == (!a.stop && ComesToSend(a.sys, env, 1, CompleteKind));
    SentInItsTurnOnly(a.sys, env, 1, CppKind);
    var b := SyncEntry(a.sys, CompleteKind, env.complete);
    SentInItsTurnOnly(b.sys, env, 2, CompleteKind);
  }

  lemma SentInItsTurnOnly(s: Sys, env: PassEnv, i: nat, k: Kind)
    requires forall j :: i <= j < 4 ==> ORDER[j] != k
    ensures !ComesToSend(s, env, i, k)
    decreases 4 - i
  {
    if i < 4 {
      SentInItsTurnOnly(SyncEntry(s, ORDER[i], env.Get(ORDER[i])).sys, env, i + 1, k);
    }
  }

  /** Nor does anything keep clusters-per-policy and some compliance from going out in one pass. Exactly when they do,
      for both compliance bundles: clusters-per-policy goes out, and either complete is due and can be marshalled, or it
      is not due, and delta is due and can be marshalled. */
  lemma CppWithComplianceInOnePass(s: Sys, env: PassEnv)
    ensures && HandsOver(s, env, 0, CppKind)
            && (HandsOver(s, env, 0, CompleteKind) || HandsOver(s, env, 0, DeltaKind)) <==>
              && CppGoesOut(s, env)
              && if CompleteIsDue(s, env) then env.complete.outcome != Unmarshallable
                 else DeltaIsDue(s, env) && env.delta.outcome != Unmarshallable
  {
    HandsWhatIsSent(s, env, 0, CppKind);
    HandsWhatIsSent(s, env, 0, CompleteKind);
    HandsWhatIsSent(s, env, 0, DeltaKind);
    CppSends(s, env);
    UpToComplete(s, env);
    if Sends(s, CppKind, env.cpp) {
      AfterCppSend(s, env);
      DeltaAfterCpp(s, env);
    }
  }

  lemma DeltaAfterCpp(s: Sys, env: PassEnv)
    requires Sends(s, CppKind, env.cpp)
    ensures var a := SyncEntry(s, CppKind, env.cpp).sys;
            var b := SyncEntry(a, CompleteKind, env.complete);
            ComesToSend(s, env, 0, DeltaKind) <==> !b.stop && Sends(b.sys, DeltaKind, env.delta)
  {
    var a := SyncEntry(s, CppKind, env.cpp);
    EntryHands(s, CppKind, env.cpp);
    var b := SyncEntry(a.sys, CompleteKind, env.complete);
    assert ComesToSend(s, env, 0, DeltaKind) == ComesToSend(a.sys, env, 1, DeltaKind);
    assert ComesToSend(a.sys, env, 1, DeltaKind) == (!b.stop && ComesToSend(b.sys, env, 2, DeltaKind));
    SentInItsTurnOnly(SyncEntry(b.sys, DeltaKind, env.delta).sys, env, 3, DeltaKind);
  }

  // ----- The aggregation level, and passes that stop -----

  /** Exactly when a bundle's turn hands over its message, in terms of the state before it: minimal at the minimal
      level, the others at the full one; complete and delta in the mode the reports before leave; only a changed
      bundle; and only if it can be marshalled. */
  lemma WhenATurnSends(s: Sys, k: Kind, env: EntryEnv)
    ensures |SyncEntry(s, k, env).sys.handed| > |s.handed| <==>
              && env.level == (if k == MinimalKind then MinimalLevel else Full)
              && (k == CompleteKind ==> ModeAfter(s, env.before) == CompleteStateMode)
              && (k == DeltaKind ==> ModeAfter(s, env.before) == DeltaStateMode)
              && Version(s.incarnation, s.Generation(k)).NewerThan(s.lastSent.Get(k))
              && env.outcome != Unmarshallable
  {
    EntryHands(s, k, env);
    DeliverEffect(s, env.before);
    ModeFollowsLastWord(s, env.before);
  }

  /** A message handed over is not handed over again while its bundle stays as it is. */
  lemma SentIsNotChanged(s: Sys, k: Kind, env: EntryEnv)
    requires Sends(s, k, env)
    ensures !Changed(SyncEntry(s, k, env).sys, k)
  {
    EntryHands(s, k, env);
    var b := Deliver(s, env.before);
    var c := Deliver(b, env.between);
    DeliverEffect(s, env.before);
    DeliverEffect(b, env.between);
    SendEffect(c, c.MessageFor(k), env.outcome, env.during);
  }

  /** The configured level is the same throughout the pass. */
  predicate AtLevel(env: PassEnv, level: AggregationLevel) {
    forall k :: env.Get(k).level == level
  }

  /** At the full level no pass hands over minimal. At the minimal level it hands over nothing but minimal, and that
      exactly when it has changed and can be marshalled. At any other level it hands over nothing. */
  lemma LevelDecides(s: Sys, env: PassEnv, level: AggregationLevel)
    requires AtLevel(env, level)
    ensures level == Full ==> !HandsOver(s, env, 0, MinimalKind)
    ensures level != Full ==> forall k :: k != MinimalKind ==> !HandsOver(s, env, 0, k)
    ensures level == MinimalLevel ==>
              (HandsOver(s, env, 0, MinimalKind) <==>
               Version(s.incarnation, s.minimal.generation).NewerThan(s.lastSent.minimal)
               && env.minimal.outcome != Unmarshallable)
    ensures level == OtherLevel ==> !HandsOver(s, env, 0, MinimalKind)
  {
    forall k ensures HandsOver(s, env, 0, k) <==> ComesToSend(s, env, 0, k) {
      HandsWhatIsSent(s, env, 0, k);
    }
    forall k ensures ComesToSend(s, env, 0, k) ==> level == if k == MinimalKind then MinimalLevel else Full {
      SentAtItsLevel(s, env, 0, k, level);
    }
    if level == MinimalLevel {
      MinimalAtItsLevel(s, env, 0);
    }
  }

  lemma SentAtItsLevel(s: Sys, env: PassEnv, i: nat, k: Kind, level: AggregationLevel)
    requires AtLevel(env, level)
    ensures ComesToSend(s, env, i, k) ==> level == if k == MinimalKind then MinimalLevel else Full
    decreases 4 - i
  {
    if i < 4 {
      EntryHands(s, ORDER[i], env.Get(ORDER[i]));
      WhenATurnSends(s, ORDER[i], env.Get(ORDER[i]));
      SentAtItsLevel(SyncEntry(s, ORDER[i], env.Get(ORDER[i])).sys, env, i + 1, k, level);
    }
  }

  lemma MinimalAtItsLevel(s: Sys, env: PassEnv, i: nat)
    requires AtLevel(env, MinimalLevel) && i <= 3
    ensures ComesToSend(s, env, i, MinimalKind) <==> Changed(s, MinimalKind) && env.minimal.outcome != Unmarshallable
    decreases 4 - i
  {
    var k := ORDER[i];
    var e := env.Get(k);
    var b := Deliver(s, e.before);
    DeliverEffect(s, e.before);
    if i < 3 {
      assert e.level == MinimalLevel && k != MinimalKind;
      assert SyncEntry(s, k, e) == Progress(b, false);
      MinimalAtItsLevel(b, env, i + 1);
    }
  }

  /** A due bundle that cannot be marshalled ends the pass there: neither it nor any later bundle is handed over, and
      their last-sent versions stay. */
  lemma UnmarshallableEndsPass(s: Sys, env: PassEnv, i: nat)
    requires i < 4 && Due(Deliver(s, env.Get(ORDER[i]).before), ORDER[i], env.Get(ORDER[i]).level)
    requires env.Get(ORDER[i]).outcome == Unmarshallable
    ensures PassFrom(s, env, i).handed == s.handed && PassFrom(s, env, i).lastSent == s.lastSent
  {
    EntryHands(s, ORDER[i], env.Get(ORDER[i]));
  }
}
