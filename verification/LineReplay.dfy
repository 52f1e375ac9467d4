/** The receiver's view of a delta line, rebuilt from the messages handed to the transport. */
module LineReplay {
  import opened Collections
  import opened Policies
  import opened Versions
  import opened DeltaCompliance
  import opened Protocol
  import opened BundleAgreement
  import opened HybridLine

  /** The changes of one policy in a delta message. */
  function ChangesIn(m: Message, p: string): StatusChanges {
    if !m.payload.DeltaPayload? then map[]
    else match Find(m.payload.changes, p)
      case None => map[]
      case Some(c) => c
  }

  /** A receiver takes the message for the i-th of the line on the given base. All this can be read off the message. */
  predicate TakenFor(m: Message, i: nat, base: Version) {
    && m.kind == DeltaKind && m.key == Numbered(DeltaKind, i)
    && m.payload.DeltaPayload? && m.payload.base == base
  }

  /** What the i-th message sent on a line brings for one policy: its changes, if a receiver takes it for the i-th. */
  function Brought(m: Message, i: nat, base: Version, p: string): StatusChanges {
    if TakenFor(m, i, base) then ChangesIn(m, p) else map[]
  }

  /** A view of one policy overridden, in order, by what the attempts from one position to another bring. */
  function Replay(view: StatusChanges, attempts: seq<Attempt>, from: nat, to: nat, base: Version, p: string):
    StatusChanges
    requires to <= |attempts|
  {
    if to <= from then view
    else Replay(view, attempts, from, to - 1, base, p) + Brought(attempts[to - 1].message, to - 1, base, p)
  }

  lemma {:induction false} ReplayOfPrefix(view: StatusChanges, attempts: seq<Attempt>, longer: seq<Attempt>, from: nat,
                                          to: nat, base: Version, p: string)
    requires to <= |attempts| && attempts <= longer
    ensures Replay(view, longer, from, to, base, p) == Replay(view, attempts, from, to, base, p)
  {
    if to > from {
      ReplayOfPrefix(view, attempts, longer, from, to - 1, base, p);
    }
  }

  /** What a receiver knows of a policy from the messages: its opening records replayed over the attempts since. */
  function View(s: Sys, p: string): StatusChanges
    requires s.delta.transportationId <= |s.attempts| && p in s.delta.openings
  {
    var o := s.delta.openings[p];
    Replay(o.records, s.attempts, o.from, s.delta.transportationId, s.DeltaBase(), p)
  }

  /** Changes that a line's first message brings although they were not pending any more: it was marshalled for an
      earlier line with the same base, and nothing in it tells. */
  function Stale(s: Sys, p: string): StatusChanges
    requires s.delta.transportationId <= |s.attempts| && p in s.delta.openings
  {
    if s.delta.transportationId > 0 && s.delta.openings[p].from == 0 && s.attempts[0].pending == []
    then Brought(s.attempts[0].message, 0, s.DeltaBase(), p) else map[]
  }

  /** The view is what was flushed on top of the opening records; stale changes lie below it. */
  ghost predicate Replays(s: Sys, p: string)
    requires s.delta.transportationId <= |s.attempts|
  {
    p in s.delta.hub ==>
      && p in s.delta.openings && s.delta.openings[p].from <= s.delta.transportationId
      && View(s, p) == Stale(s, p) + s.delta.hub[p]
  }

  ghost predicate AttemptsHanded(s: Sys) {
    forall i :: 0 <= i < |s.attempts| ==> s.attempts[i].message in s.handed
  }

  ghost predicate ReplayInv(s: Sys) {
    s.delta.transportationId <= |s.attempts| && AttemptsHanded(s) && forall p :: Replays(s, p)
  }

  // ----- Callbacks -----

  lemma SwitchReplays(s: Sys)
    ensures ReplayInv(SwitchToDelta(s))
  {
    var t := SwitchToDelta(s);
    forall p ensures Replays(t, p) {
      if p in t.delta.hub {
        assert View(t, p) == t.delta.openings[p].records == t.delta.hub[p];
        assert Stale(t, p) == map[];
      }
    }
  }

  lemma ReportReplays(s: Sys, r: Report)
    requires ReplayInv(s)
    ensures ReplayInv(HandleReport(s, r))
  {
    SwitchReplays(s);
    FailureReplays(s);
  }

  lemma FailureReplays(s: Sys)
    requires ReplayInv(s)
    ensures ReplayInv(HandleFailure(s))
  {
    SameLineReplays(s, HandleFailure(s));
  }

  /** The invariant speaks of the attempts, of what was handed over, and of part of the delta bundle only. */
  lemma SameLineReplays(s: Sys, t: Sys)
    requires ReplayInv(s) && t.incarnation == s.incarnation && t.attempts == s.attempts && s.handed <= t.handed
    requires t.delta.hub == s.delta.hub && t.delta.openings == s.delta.openings
    requires t.delta.transportationId == s.delta.transportationId && t.delta.baseGeneration == s.delta.baseGeneration
    ensures ReplayInv(t)
  {
    assert t.DeltaBase() == s.DeltaBase();
    forall p ensures Replays(t, p) {
      assert Replays(s, p);
    }
    forall i | 0 <= i < |t.attempts| ensures t.attempts[i].message in t.handed {
      assert s.attempts[i].message in s.handed;
    }
  }

  lemma {:induction false} DeliverReplays(s: Sys, rs: seq<Report>)
    requires ReplayInv(s)
    ensures ReplayInv(Deliver(s, rs))
  {
    if rs != [] {
      DeliverReplays(s, rs[..|rs| - 1]);
      ReportReplays(Deliver(s, rs[..|rs| - 1]), rs[|rs| - 1]);
    }
  }

  /** For the clusters clusters-per-policy lists, the message says nothing else than the status listed. */
  ghost predicate AgreesWithCpp(s: Sys, m: Message) {
    forall p, c :: FullStatus(s, p).Some? && c in FullStatus(s, p).value && c in ChangesIn(m, p) ==>
      ChangesIn(m, p)[c] == FullStatus(s, p).value[c]
  }

  lemma MarshalledAgrees(s: Sys, k: Kind)
    requires StateInv(s)
    ensures AgreesWithCpp(s, s.MessageFor(k))
  {
    forall p, c | FullStatus(s, p).Some? && c in FullStatus(s, p).value && c in ChangesIn(s.MessageFor(k), p)
      ensures ChangesIn(s.MessageFor(k), p)[c] == FullStatus(s, p).value[c]
    {
      assert CacheCovers(s, p) && Reconstructs(s.delta, p);
      assert ChangesIn(s.MessageFor(k), p) == Pending(s.delta, p);
    }
  }

  lemma AttemptReplays(s: Sys, m: Message)
    requires StateInv(s) && ReplayInv(s) && LineInv(s) && InFlight(s, m) && m in s.handed && AgreesWithCpp(s, m)
    ensures ReplayInv(HandleAttempt(s, m))
  {
    var t := HandleAttempt(s, m);
    if s.mode == DeltaStateMode {
      forall p ensures Replays(t, p) {
        AttemptReplaysOne(s, m, p);
      }
      forall i | 0 <= i < |t.attempts| ensures t.attempts[i].message in t.handed {
        assert i < |s.attempts| ==> t.attempts[i] == s.attempts[i];
      }
    } else {
      SwitchReplays(s);
    }
  }

  lemma AttemptReplaysOne(s: Sys, m: Message, p: string)
    requires StateInv(s) && ReplayInv(s) && LineInv(s) && InFlight(s, m) && AgreesWithCpp(s, m)
    requires s.mode == DeltaStateMode
    ensures HandleAttempt(s, m).delta.transportationId <= |HandleAttempt(s, m).attempts|
    ensures Replays(HandleAttempt(s, m), p)
  {
    var t := HandleAttempt(s, m);
    assert Replays(s, p);
    if p in s.delta.hub {
      if t.mode == CompleteStateMode {
        LastAttempt(s, m, p);
      } else {
        OneMoreAttempt(s, m, p);
        if Regular(Attempt(m, s.delta.pending), |s.attempts|, s.DeltaBase()) {
          OwnMessageReplays(s, m, p);
        } else {
          LateMessageReplays(s, m, p);
          assert Stale(t, p) == Brought(m, 0, s.DeltaBase(), p);
        }
      }
    }
  }

  /** At the switch factor nothing is flushed, so the view stays. */
  lemma LastAttempt(s: Sys, m: Message, p: string)
    requires LineInv(s) && s.mode == DeltaStateMode && p in s.delta.openings
    requires HandleAttempt(s, m).mode == CompleteStateMode
    ensures var t := HandleAttempt(s, m);
            && t.delta == s.delta && |t.attempts| == |s.attempts| + 1
            && View(t, p) == View(s, p) && Stale(t, p) == Stale(s, p)
  {
    var t := HandleAttempt(s, m);
    var o := s.delta.openings[p];
    ReplayOfPrefix(o.records, s.attempts, t.attempts, o.from, |s.attempts|, s.DeltaBase(), p);
  }

  /** Below the factor, an attempt in delta mode adds what its message brings to the view. */
  lemma OneMoreAttempt(s: Sys, m: Message, p: string)
    requires LineInv(s) && s.mode == DeltaStateMode && p in s.delta.hub && p in s.delta.openings
    requires s.delta.openings[p].from <= s.delta.transportationId
    requires HandleAttempt(s, m).mode == DeltaStateMode
    ensures var t := HandleAttempt(s, m);
            && t.delta.transportationId == |t.attempts| == |s.attempts| + 1
            && t.delta.openings == s.delta.openings && p in t.delta.hub
            && View(t, p) == View(s, p) + Brought(m, |s.attempts|, s.DeltaBase(), p)
            && t.delta.hub[p] == s.delta.hub[p] + Pending(s.delta, p)
  {
    var t := HandleAttempt(s, m);
    var o, n, base := s.delta.openings[p], |s.attempts|, s.DeltaBase();
    ReplayOfPrefix(o.records, s.attempts, t.attempts, o.from, n, base, p);
    ReplayStep(o.records, t.attempts, o.from, n, base, p);
    assert t.DeltaBase() == base && t.attempts[n].message == m;
  }

  lemma ReplayStep(view: StatusChanges, attempts: seq<Attempt>, from: nat, to: nat, base: Version, p: string)
    requires from <= to < |attempts|
    ensures Replay(view, attempts, from, to + 1, base, p)
            == Replay(view, attempts, from, to, base, p) + Brought(attempts[to].message, to, base, p)
  {}

  lemma OwnMessageReplays(s: Sys, m: Message, p: string)
    requires LineInv(s) && s.mode == DeltaStateMode && p in s.delta.hub && p in s.delta.openings
    requires Regular(Attempt(m, s.delta.pending), |s.attempts|, s.DeltaBase())
    requires View(s, p) == Stale(s, p) + s.delta.hub[p]
    requires HandleAttempt(s, m).mode == DeltaStateMode
    ensures var t := HandleAttempt(s, m);
            Stale(t, p) == Stale(s, p)
            && View(s, p) + Brought(m, |s.attempts|, s.DeltaBase(), p)
               == Stale(s, p) + (s.delta.hub[p] + Pending(s.delta, p))
  {
    assert Brought(m, |s.attempts|, s.DeltaBase(), p) == Pending(s.delta, p);
    OnTop(Stale(s, p), s.delta.hub[p], Pending(s.delta, p));
  }

  lemma OnTop(below: StatusChanges, hub: StatusChanges, above: StatusChanges)
    ensures (below + hub) + above == below + (hub + above)
  {}

  /** On a fresh line, a message marshalled before it was opened brings nothing that contradicts the opening records. */
  lemma LateMessageReplays(s: Sys, m: Message, p: string)
    requires StateInv(s) && ReplayInv(s) && AgreesWithCpp(s, m)
    requires s.attempts == [] && FreshLine(s) && p in s.delta.hub && p in s.delta.openings
    ensures View(s, p) + Brought(m, 0, s.DeltaBase(), p) == Brought(m, 0, s.DeltaBase(), p) + s.delta.hub[p]
  {
    assert Replays(s, p);
    BaseRecords(s.cpp.objects, p);
    assert View(s, p) == s.delta.hub[p] == FullStatus(s, p).value;
  }

  // ----- Steps -----

  lemma SendReplays(s: Sys, k: Kind, outcome: Outcome, during: seq<Report>)
    requires StateInv(s) && ReplayInv(s) && LineInv(s)
    requires k == CompleteKind ==> InFlight(s, s.MessageFor(k))
    ensures ReplayInv(SendAsync(s, s.MessageFor(k), outcome, during))
  {
    var m := s.MessageFor(k);
    var h := s.(handed := s.handed + [m]);
    SameLineReplays(s, h);
    SameBundlesSameState(s, h);
    DeliverKeepsState(h, during);
    DeliverKeepsLine(h, during);
    DeliverReplays(h, during);
    DeliverEffect(h, during);
    FailureReplays(Deliver(h, during));
    if k == CompleteKind || k == DeltaKind {
      DeliverKeepsFlight(h, during, m);
      MarshalledAgrees(s, k);
      assert AgreesWithCpp(Deliver(h, during), m);
      AttemptReplays(Deliver(h, during), m);
    }
  }

  lemma SyncEntryReplays(s: Sys, k: Kind, env: EntryEnv)
    requires StateInv(s) && ReplayInv(s) && LineInv(s)
    ensures ReplayInv(SyncEntry(s, k, env).sys)
  {
    var b := Deliver(s, env.before);
    DeliverKeepsState(s, env.before);
    DeliverKeepsLine(s, env.before);
    DeliverReplays(s, env.before);
    if Due(b, k, env.level) {
      var c := Deliver(b, env.between);
      DeliverKeepsState(b, env.between);
      DeliverKeepsLine(b, env.between);
      DeliverReplays(b, env.between);
      DeliverEffect(b, env.between);
      if k == CompleteKind {
        assert c.MessageFor(k) == b.MessageFor(k);
        DeliverKeepsFlight(b, env.between, b.MessageFor(k));
      }
      if env.outcome != Unmarshallable {
        SendReplays(c, k, env.outcome, env.during);
        SameLineReplays(SendAsync(c, c.MessageFor(k), env.outcome, env.during), SyncEntry(s, k, env).sys);
      }
    }
  }

  /** The receiver's view of a policy is as before, or it was just taken over and nothing is replayed yet. */
  ghost predicate SameOrStarted(d: Delta, d': Delta, p: string) {
    p in d'.hub ==>
      || (p in d.hub && d'.hub[p] == d.hub[p]
          && (p in d.openings ==> p in d'.openings && d'.openings[p] == d.openings[p]))
      || (p in d'.openings && d'.openings[p] == Opening(d'.hub[p], d.transportationId))
  }

  lemma UpdateStarts(d: Delta, base: seq<Entry<Lists>>, id: Option<string>, st: seq<ClusterCompliance>, p: string)
    ensures SameOrStarted(d, UpdateDelta(d, base, id, st), p)
  {}

  lemma UpdateReplays(s: Sys, p: Policy)
    requires ReplayInv(s)
    ensures ReplayInv(UpdatePolicy(s, p))
  {
    var t := UpdatePolicy(s, p);
    UpdateSameLine(s, p);
    forall q ensures SameOrStarted(s.delta, t.delta, q) {
      UpdateStarts(s.delta, t.cpp.objects, p.origin, p.status, q);
    }
    StartReplays(s, t);
  }

  lemma StartReplays(s: Sys, t: Sys)
    requires ReplayInv(s) && SameLine(s, t)
    requires forall q :: SameOrStarted(s.delta, t.delta, q)
    ensures ReplayInv(t)
  {
    assert t.DeltaBase() == s.DeltaBase();
    forall q ensures Replays(t, q) {
      assert Replays(s, q) && SameOrStarted(s.delta, t.delta, q);
    }
  }

  lemma DeleteReplays(s: Sys, p: Policy)
    requires ReplayInv(s)
    ensures ReplayInv(DeletePolicy(s, p))
  {
    UpdateSameLine(s, p);
    SameLineReplays(s, DeletePolicy(s, p));
  }
}
