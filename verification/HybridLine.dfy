/** Delta lines: what the callbacks of the transport do to the hybrid manager and the delta bundle. */
module HybridLine {
  import opened Policies
  import opened Versions
  import opened DeltaCompliance
  import opened Protocol

  // ----- What callbacks leave alone, and what a newly opened line looks like -----

  /** No bundle content, version or record of sending is touched. */
  ghost predicate SameSending(s: Sys, t: Sys) {
    && t.incarnation == s.incarnation && t.factor == s.factor && t.deltaTransport == s.deltaTransport
    && t.cpp == s.cpp && t.complete == s.complete && t.minimal == s.minimal
    && t.delta.generation == s.delta.generation
    && t.lastSent == s.lastSent && t.handed == s.handed
  }

  /** The base is the complete bundle's present generation, the records are those of clusters-per-policy, and nothing
      is pending. */
  ghost predicate FreshLine(s: Sys) {
    && s.delta.baseGeneration == s.complete.generation
    && s.delta.cache == RecordsFromBase(s.cpp.objects)
    && s.delta.openings == OpenedAtStart(s.delta.cache)
    && s.delta.pending == []
  }

  /** What any sequence of callbacks amounts to: the line goes on, or a fresh one is open. */
  ghost predicate AfterCallbacks(s: Sys, t: Sys) {
    && SameSending(s, t)
    && t.line >= s.line
    && (t.line == s.line ==>
          && t.delta.baseGeneration == s.delta.baseGeneration && t.delta.cache == s.delta.cache
          && t.delta.openings == s.delta.openings
          && s.attempts <= t.attempts
          && (t.delta.pending == s.delta.pending || t.delta.pending == [])
          && (s.mode == CompleteStateMode ==> t.mode == CompleteStateMode))
    && (t.line > s.line ==> FreshLine(t))
  }

  lemma Chain(s: Sys, t: Sys, u: Sys)
    requires AfterCallbacks(s, t) && AfterCallbacks(t, u)
    ensures AfterCallbacks(s, u)
  {}

  lemma SwitchEffect(s: Sys)
    ensures AfterCallbacks(s, SwitchToDelta(s)) && SwitchToDelta(s).line == s.line + 1
  {}

  lemma AttemptEffect(s: Sys, m: Message)
    ensures AfterCallbacks(s, HandleAttempt(s, m))
  {
    SwitchEffect(s);
  }

  lemma ReportEffect(s: Sys, r: Report)
    ensures AfterCallbacks(s, HandleReport(s, r))
  {
    SwitchEffect(s);
  }

  lemma {:induction false} DeliverEffect(s: Sys, rs: seq<Report>)
    ensures AfterCallbacks(s, Deliver(s, rs))
  {
    if rs != [] {
      var f := Deliver(s, rs[..|rs| - 1]);
      DeliverEffect(s, rs[..|rs| - 1]);
      ReportEffect(f, rs[|rs| - 1]);
      Chain(s, f, Deliver(s, rs));
    }
  }

  lemma SendEffect(s: Sys, m: Message, outcome: Outcome, during: seq<Report>)
    ensures AfterCallbacks(s.(handed := s.handed + [m]), SendAsync(s, m, outcome, during))
  {
    var h := s.(handed := s.handed + [m]);
    var t := Deliver(h, during);
    DeliverEffect(h, during);
    AttemptEffect(t, m);
    Chain(h, t, SendAsync(s, m, outcome, during));
  }

  // ----- Counters and IDs within a line -----

  /** The i-th attempt of a line was for the delta message with ID i and the line's base, carrying exactly what was
      pending. */
  ghost predicate Regular(a: Attempt, i: nat, base: Version) {
    && a.message.kind == DeltaKind && a.message.key == Numbered(DeltaKind, i)
    && a.message.payload == DeltaPayload(base, a.pending)
  }

  /** Counters and IDs are in step, and every attempt of the line is regular but perhaps the first, which may be for a
      message marshalled before the line was opened; nothing is pending then. */
  ghost predicate LineInv(s: Sys) {
    && |s.attempts| == s.sentDeltaCount
    && (s.Enabled() ==> s.sentDeltaCount <= s.factor)
    && (!s.Enabled() ==> s.mode == CompleteStateMode && s.line == 0 && s.attempts == []
                         && s.lastSent.delta.generation == 0)
    && (s.mode == DeltaStateMode ==> s.delta.transportationId == s.sentDeltaCount < s.factor)
    && forall i :: 0 <= i < |s.attempts| ==>
         Regular(s.attempts[i], i, s.DeltaBase()) || (i == 0 && s.attempts[i].pending == [])
  }

  /** What is known of a message between its marshalling and its attempt: if delta mode is active, it is the message of
      the present line state, or the line has only just been opened. */
  ghost predicate InFlight(s: Sys, m: Message) {
    s.mode == DeltaStateMode ==>
      || Regular(Attempt(m, s.delta.pending), |s.attempts|, s.DeltaBase())
      || (s.attempts == [] && FreshLine(s))
  }

  lemma AttemptKeepsLine(s: Sys, m: Message)
    requires s.Enabled() && LineInv(s) && InFlight(s, m)
    ensures LineInv(HandleAttempt(s, m))
  {
    var t := HandleAttempt(s, m);
    if s.mode == DeltaStateMode {
      assert t.attempts[..|s.attempts|] == s.attempts;
      assert t.DeltaBase() == s.DeltaBase();
      forall i | 0 <= i < |t.attempts|
        ensures Regular(t.attempts[i], i, t.DeltaBase()) || (i == 0 && t.attempts[i].pending == [])
      {
        if i < |s.attempts| {
          assert t.attempts[i] == s.attempts[i];
        }
      }
    }
  }

  lemma ReportKeepsLine(s: Sys, r: Report)
    requires LineInv(s)
    ensures LineInv(HandleReport(s, r))
  {}

  lemma {:induction false} DeliverKeepsLine(s: Sys, rs: seq<Report>)
    requires LineInv(s)
    ensures LineInv(Deliver(s, rs))
  {
    if rs != [] {
      DeliverKeepsLine(s, rs[..|rs| - 1]);
      ReportKeepsLine(Deliver(s, rs[..|rs| - 1]), rs[|rs| - 1]);
    }
  }

  lemma {:induction false} DeliverKeepsFlight(s: Sys, rs: seq<Report>, m: Message)
    requires InFlight(s, m)
    ensures InFlight(Deliver(s, rs), m)
  {
    if rs != [] {
      DeliverKeepsFlight(s, rs[..|rs| - 1], m);
    }
  }

  lemma SendKeepsLine(s: Sys, k: Kind, outcome: Outcome, during: seq<Report>)
    requires LineInv(s)
    requires k == CompleteKind ==> InFlight(s, s.MessageFor(k))
    ensures LineInv(SendAsync(s, s.MessageFor(k), outcome, during))
  {
    var m := s.MessageFor(k);
    var h := s.(handed := s.handed + [m]);
    DeliverKeepsLine(h, during);
    if k == CompleteKind || k == DeltaKind {
      DeliverKeepsFlight(h, during, m);
      if Deliver(h, during).Enabled() {
        AttemptKeepsLine(Deliver(h, during), m);
      }
    }
  }

  /** Controller updates and deletes touch neither the counters nor the line. */
  ghost predicate SameLine(s: Sys, t: Sys) {
    && t.incarnation == s.incarnation && t.factor == s.factor && t.deltaTransport == s.deltaTransport
    && t.mode == s.mode && t.sentDeltaCount == s.sentDeltaCount
    && t.line == s.line && t.attempts == s.attempts && t.lastSent == s.lastSent && t.handed == s.handed
    && t.delta.transportationId == s.delta.transportationId && t.delta.baseGeneration == s.delta.baseGeneration
  }

  lemma UpdateSameLine(s: Sys, p: Policy)
    ensures SameLine(s, UpdatePolicy(s, p)) && SameLine(s, DeletePolicy(s, p))
  {}

  lemma SameLineKeepsLine(s: Sys, t: Sys)
    requires LineInv(s) && SameLine(s, t)
    ensures LineInv(t)
  {
    assert t.DeltaBase() == s.DeltaBase();
  }
}
