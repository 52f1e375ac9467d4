/** What a bundle's turn does to the hybrid manager and the delta bundle, for every fate of its send. */
module SendOutcomes {
  import opened Protocol
  import opened HybridLine
  import opened Passes
  import opened Reachability

  /** The two states differ at most in what was handed over and last sent. */
  predicate SameButRecords(t: Sys, u: Sys) {
    t == u.(handed := t.handed, lastSent := t.lastSent)
  }

  lemma {:induction false} ReportsIgnoreHanded(s: Sys, handed: seq<Message>, rs: seq<Report>)
    ensures Deliver(s.(handed := handed), rs) == Deliver(s, rs).(handed := handed)
  {
    if rs != [] {
      ReportsIgnoreHanded(s, handed, rs[..|rs| - 1]);
    }
  }

  lemma {:induction false} DeliverBoth(s: Sys, first: seq<Report>, next: seq<Report>)
    ensures Deliver(s, first + next) == Deliver(Deliver(s, first), next)
  {
    if next == [] {
      assert first + next == first;
    } else {
      var rs := first + next;
      assert rs[..|rs| - 1] == first + next[..|next| - 1];
      DeliverBoth(s, first, next[..|next| - 1]);
    }
  }

  /** What all the reports delivered in a turn leave. */
  function ReportsAlone(s: Sys, env: EntryEnv): Sys {
    Deliver(s, env.before + env.between + env.during)
  }

  /** The state in which the callback of a send fires, if one does. */
  lemma BeforeCallback(s: Sys, k: Kind, env: EntryEnv)
    ensures var c := Deliver(Deliver(s, env.before), env.between);
            var h := c.(handed := c.handed + [c.MessageFor(k)]);
            && c == Deliver(s, env.before + env.between)
            && Deliver(h, env.during) == ReportsAlone(s, env).(handed := h.handed)
  {
    var c := Deliver(Deliver(s, env.before), env.between);
    DeliverBoth(s, env.before, env.between);
    DeliverBoth(s, env.before + env.between, env.during);
    ReportsIgnoreHanded(c, c.handed + [c.MessageFor(k)], env.during);
  }

  /** A turn that does not come to a send leaves exactly what the reports of its first windows leave. */
  lemma TurnWithoutSend(s: Sys, k: Kind, env: EntryEnv)
    requires !Sends(s, k, env)
    ensures SyncEntry(s, k, env).sys
            == Deliver(s, if Due(Deliver(s, env.before), k, env.level) then env.before + env.between else env.before)
  {
    DeliverBoth(s, env.before, env.between);
  }

  /** A dropped message, and any message of a bundle the manager does not manage, leaves mode, line, attempts and delta
      exactly as the reports alone leave them. */
  lemma TurnWithoutCallback(s: Sys, k: Kind, env: EntryEnv)
    requires Sends(s, k, env)
    requires env.outcome == Dropped || k == CppKind || k == MinimalKind
    ensures SameButRecords(SyncEntry(s, k, env).sys, ReportsAlone(s, env))
  {
    BeforeCallback(s, k, env);
  }

  /** A refused message of a managed bundle brings complete mode back, and does nothing else: no line is opened by it,
      and no attempt is made. */
  lemma RefusedTurn(s: Sys, k: Kind, env: EntryEnv)
    requires Sends(s, k, env) && env.outcome == Refused && (k == CompleteKind || k == DeltaKind)
    requires s.factor > 0 && s.deltaTransport
    ensures SameButRecords(SyncEntry(s, k, env).sys, ReportsAlone(s, env).(mode := CompleteStateMode))
  {
    BeforeCallback(s, k, env);
    DeliverEffect(s, env.before + env.between + env.during);
  }

  // ----- Without hybrid sync -----

  /** With a switch factor of zero or below, or a transport without support for deltas, a turn and a report touch
      nothing but what was handed over and last sent. */
  lemma NothingSwitches(s: Sys, k: Kind, env: EntryEnv, r: Report)
    requires s.factor <= 0 || !s.deltaTransport
    ensures SameButRecords(SyncEntry(s, k, env).sys, s) && HandleReport(s, r) == s
  {
    DisabledHearsNothing(s, env.before);
    DisabledHearsNothing(s, env.between);
    DisabledHearsNothing(s.(handed := s.handed + [s.MessageFor(k)]), env.during);
  }

  lemma {:induction false} DisabledHearsNothing(s: Sys, rs: seq<Report>)
    requires s.factor <= 0 || !s.deltaTransport
    ensures Deliver(s, rs) == s
  {
    if rs != [] {
      DisabledHearsNothing(s, rs[..|rs| - 1]);
    }
  }

  /** So in every reachable state of such a process complete mode is on, no line was ever opened, no attempt was
      counted, and the process handed over no delta message. */
  lemma DisabledSendsNoDelta(s: Sys)
    requires Reachable(s) && (s.factor <= 0 || !s.deltaTransport)
    ensures s.mode == CompleteStateMode && s.line == 0 && s.attempts == []
    ensures forall i :: 0 <= i < |s.handed| && s.handed[i].version.incarnation == s.incarnation ==>
              s.handed[i].kind != DeltaKind
  {
    ReachableInv(s);
    forall i | 0 <= i < |s.handed| && s.handed[i].version.incarnation == s.incarnation
      ensures s.handed[i].kind != DeltaKind
    {
      assert !s.handed[i].version.NewerThan(s.lastSent.Get(s.handed[i].kind));
      assert s.lastSent.Get(s.handed[i].kind).incarnation == s.incarnation;
    }
  }

  /** An accepted complete send without reports switches to delta mode exactly when the switch factor is positive and
      the transport supports deltas. */
  lemma AcceptedCompleteSwitches(s: Sys, level: AggregationLevel)
    requires Due(s, CompleteKind, level)
    ensures SyncEntry(s, CompleteKind, EntryEnv([], level, [], Accepted, [])).sys.mode == DeltaStateMode <==>
              s.factor > 0 && s.deltaTransport
  {
    var h := s.(handed := s.handed + [s.MessageFor(CompleteKind)]);
    assert Deliver(s, []) == s && Deliver(h, []) == h;
  }
}
