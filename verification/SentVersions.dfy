/** The versions handed to the transport, over one process and across restarts. */
module SentVersions {
  import opened Collections
  import opened Policies
  import opened Versions
  import opened Protocol
  import opened HybridLine

  /** Messages of one kind carry strictly increasing versions. */
  ghost predicate Increasing(ms: seq<Message>) {
    forall i, j :: 0 <= i < j < |ms| && ms[i].kind == ms[j].kind ==> ms[j].version.NewerThan(ms[i].version)
  }

  ghost predicate Handed(ms: seq<Message>, k: Kind, v: Version) {
    exists i :: 0 <= i < |ms| && ms[i].kind == k && ms[i].version == v
  }

  /** Last-sent never exceeds current, nothing handed over exceeds last-sent, and a last-sent version past the initial
      one was handed over. */
  ghost predicate VersionInv(s: Sys) {
    && Increasing(s.handed)
    && (forall k :: s.lastSent.Get(k).incarnation == s.incarnation
                    && s.lastSent.Get(k).generation <= s.Generation(k))
    && (forall i :: 0 <= i < |s.handed| ==> !s.handed[i].version.NewerThan(s.lastSent.Get(s.handed[i].kind)))
    && (forall i :: 0 <= i < |s.handed| && s.handed[i].version.incarnation == s.incarnation ==>
          s.handed[i].version.generation > 0)
    && (forall k :: s.lastSent.Get(k).generation > 0 ==> Handed(s.handed, k, s.lastSent.Get(k)))
  }

  /** Messages of earlier processes are all of earlier incarnations. */
  ghost predicate Earlier(ms: seq<Message>, incarnation: nat) {
    Increasing(ms) && forall i :: 0 <= i < |ms| ==> ms[i].version.incarnation < incarnation
  }

  lemma BootVersions(incarnation: nat, factor: int, deltaTransport: bool, handed: seq<Message>)
    requires Earlier(handed, incarnation)
    ensures VersionInv(Boot(incarnation, factor, deltaTransport, handed))
  {}

  /** Generations never fall. */
  ghost predicate Grows(s: Sys, t: Sys) {
    t.incarnation == s.incarnation && forall k :: t.Generation(k) >= s.Generation(k)
  }

  lemma GrowthKeepsVersions(s: Sys, t: Sys)
    requires VersionInv(s) && Grows(s, t) && t.lastSent == s.lastSent && t.handed == s.handed
    ensures VersionInv(t)
  {}

  /** A message newer than everything of its kind keeps the order. */
  lemma AppendIncreasing(ms: seq<Message>, m: Message)
    requires Increasing(ms)
    requires forall i :: 0 <= i < |ms| && ms[i].kind == m.kind ==> m.version.NewerThan(ms[i].version)
    ensures Increasing(ms + [m])
  {}

  lemma AppendHanded(ms: seq<Message>, m: Message, k: Kind, v: Version)
    ensures Handed(ms, k, v) ==> Handed(ms + [m], k, v)
    ensures Handed(ms + [m], m.kind, m.version)
  {
    assert (ms + [m])[|ms|] == m;
    if Handed(ms, k, v) {
      var i :| 0 <= i < |ms| && ms[i].kind == k && ms[i].version == v;
      assert (ms + [m])[i] == ms[i];
    }
  }

  /** The bookkeeping of one send: the message joins what was handed over, and its version becomes the last sent. */
  lemma RecordingKeepsVersions(s: Sys, k: Kind, t: Sys)
    requires VersionInv(s) && Changed(s, k)
    requires t.incarnation == s.incarnation && forall j :: t.Generation(j) == s.Generation(j)
    requires t.handed == s.handed + [s.MessageFor(k)] && t.lastSent == s.lastSent.Set(k, s.CurrentVersion(k))
    ensures VersionInv(t)
  {
    var m := s.MessageFor(k);
    AppendIncreasing(s.handed, m);
    forall j ensures t.lastSent.Get(j).incarnation == t.incarnation && t.lastSent.Get(j).generation <= t.Generation(j)
                     && (t.lastSent.Get(j).generation > 0 ==> Handed(t.handed, j, t.lastSent.Get(j)))
    {
      assert t.Generation(j) == s.Generation(j);
      assert j != k ==> t.lastSent.Get(j) == s.lastSent.Get(j);
      AppendHanded(s.handed, m, j, s.lastSent.Get(j));
    }
  }

  lemma CallbacksKeepVersions(s: Sys, t: Sys)
    requires VersionInv(s) && SameSending(s, t)
    ensures VersionInv(t)
  {
    GrowthKeepsVersions(s, t);
  }

  lemma SyncEntryKeepsVersions(s: Sys, k: Kind, env: EntryEnv)
    requires VersionInv(s)
    ensures VersionInv(SyncEntry(s, k, env).sys)
  {
    var b := Deliver(s, env.before);
    DeliverEffect(s, env.before);
    CallbacksKeepVersions(s, b);
    if Due(b, k, env.level) {
      DeliverEffect(b, env.between);
      CallbacksKeepVersions(b, Deliver(b, env.between));
      SendKeepsVersions(Deliver(b, env.between), k, env.outcome, env.during);
    }
  }

  lemma SendKeepsVersions(c: Sys, k: Kind, outcome: Outcome, during: seq<Report>)
    requires VersionInv(c) && Changed(c, k)
    ensures var t := SendAsync(c, c.MessageFor(k), outcome, during);
            VersionInv(t.(lastSent := t.lastSent.Set(k, t.CurrentVersion(k))))
  {
    var t := SendAsync(c, c.MessageFor(k), outcome, during);
    SendEffect(c, c.MessageFor(k), outcome, during);
    RecordingKeepsVersions(c, k, t.(lastSent := t.lastSent.Set(k, t.CurrentVersion(k))));
  }

  /** A pass changes what was sent and the line, never the content or generation of a bundle's own objects. */
  ghost predicate SameContent(s: Sys, t: Sys) {
    && t.incarnation == s.incarnation && t.factor == s.factor && t.deltaTransport == s.deltaTransport
    && t.cpp == s.cpp && t.complete == s.complete && t.minimal == s.minimal
    && t.delta.generation == s.delta.generation
  }

  lemma SyncEntrySameContent(s: Sys, k: Kind, env: EntryEnv)
    ensures SameContent(s, SyncEntry(s, k, env).sys)
  {
    var b := Deliver(s, env.before);
    var c := Deliver(b, env.between);
    DeliverEffect(s, env.before);
    DeliverEffect(b, env.between);
    SendEffect(c, c.MessageFor(k), env.outcome, env.during);
  }

  lemma ReportSameContent(s: Sys, r: Report)
    ensures SameContent(s, HandleReport(s, r))
  {
    ReportEffect(s, r);
  }

  lemma PassSameContent(s: Sys, env: PassEnv, i: nat)
    ensures SameContent(s, PassFrom(s, env, i))
    decreases 4 - i
  {
    if i < 4 {
      var r := SyncEntry(s, ORDER[i], env.Get(ORDER[i]));
      SyncEntrySameContent(s, ORDER[i], env.Get(ORDER[i]));
      if !r.stop {
        PassSameContent(r.sys, env, i + 1);
      }
    }
  }

  lemma PassKeepsVersions(s: Sys, env: PassEnv, i: nat)
    requires VersionInv(s)
    ensures VersionInv(PassFrom(s, env, i))
    decreases 4 - i
  {
    if i < 4 {
      var r := SyncEntry(s, ORDER[i], env.Get(ORDER[i]));
      SyncEntryKeepsVersions(s, ORDER[i], env.Get(ORDER[i]));
      if !r.stop {
        PassKeepsVersions(r.sys, env, i + 1);
      }
    }
  }

  lemma UpdateGrows(s: Sys, p: Policy)
    ensures Grows(s, UpdatePolicy(s, p)) && Grows(s, DeletePolicy(s, p))
  {
    forall k ensures UpdatePolicy(s, p).Generation(k) >= s.Generation(k)
                     && DeletePolicy(s, p).Generation(k) >= s.Generation(k)
    {
      match k
      case CppKind =>
      case CompleteKind =>
      case DeltaKind =>
      case MinimalKind =>
    }
  }

  lemma NextKeepsVersions(s: Sys, step: Step)
    requires VersionInv(s)
    ensures VersionInv(Next(s, step))
  {
    match step
    case PolicyUpdated(p) =>
      UpdateGrows(s, p);
      UpdateSameLine(s, p);
      GrowthKeepsVersions(s, UpdatePolicy(s, p));
    case PolicyDeleted(p) =>
      UpdateGrows(s, p);
      UpdateSameLine(s, p);
      GrowthKeepsVersions(s, DeletePolicy(s, p));
    case SyncBundles(env) => PassKeepsVersions(s, env, 0);
    case Reported(r) =>
      ReportEffect(s, r);
      CallbacksKeepVersions(s, HandleReport(s, r));
  }

  // ----- Restarts -----

  /** The config map in which the incarnation survives a process. */
  datatype ConfigMap = Absent | Holds(incarnation: nat) | Malformed

  /** What can go wrong while a starting process asks for its incarnation. */
  datatype StoreFault = NoFault | ReadFails | WriteFails(persisted: bool)

  datatype Claim = Claim(store: ConfigMap, incarnation: Option<nat>)

  /** Read, increment, store: an absent map starts at 0, a failed or malformed read leaves everything as it was. */
  function ClaimIncarnation(store: ConfigMap, fault: StoreFault): Claim {
    if fault == ReadFails || store == Malformed then Claim(store, None)
    else
      var n: nat := if store.Holds? then store.incarnation + 1 else 0;
      if fault == NoFault then Claim(Holds(n), Some(n))
      else Claim(if fault.persisted then Holds(n) else store, None)
  }

  class IncarnationStore {
    var configMap: ConfigMap

    method GetIncarnation(fault: StoreFault) returns (incarnation: Option<nat>)
      modifies this
      ensures Claim(configMap, incarnation) == ClaimIncarnation(old(configMap), fault)
    {
      if fault == ReadFails {
        return None;
      }
      if configMap == Absent {
        if fault == NoFault || fault.persisted {
          configMap := Holds(0);
        }
        return if fault == NoFault then Some(0) else None;
      }
      if configMap == Malformed {
        return None;
      }
      var next := configMap.incarnation + 1;
      if fault == NoFault || fault.persisted {
        configMap := Holds(next);
      }
      return if fault == NoFault then Some(next) else None;
    }
  }

  /** The stored incarnation, the running process if one is up, and what was handed over by processes now gone. */
  datatype World = World(store: ConfigMap, process: Option<Sys>, archive: seq<Message>) {
    function AllHanded(): seq<Message> {
      if process.Some? then process.value.handed else archive
    }
  }

  datatype WorldStep = Restart(fault: StoreFault, factor: int, deltaTransport: bool) | Crash | InProcess(step: Step)

  function NextWorld(w: World, step: WorldStep): World {
    match step
    case Crash => World(w.store, None, w.AllHanded())
    case InProcess(st) =>
      if w.process.None? then w else w.(process := Some(Next(w.process.value, st)))
    case Restart(fault, factor, deltaTransport) =>
      var c := ClaimIncarnation(w.store, fault);
      match c.incarnation
      case None => World(c.store, None, w.AllHanded())
      case Some(i) => World(c.store, Some(Boot(i, factor, deltaTransport, w.AllHanded())), w.AllHanded())
  }

  function RunWorld(w: World, steps: seq<WorldStep>): World {
    if steps == [] then w else NextWorld(RunWorld(w, steps[..|steps| - 1]), steps[|steps| - 1])
  }

  /** Nothing was handed over under an incarnation beyond the stored one. */
  ghost predicate WorldInv(w: World) {
    && Increasing(w.AllHanded())
    && (w.process.Some? ==> VersionInv(w.process.value) && w.store.Holds?
                            && w.process.value.incarnation <= w.store.incarnation)
    && (w.store.Absent? ==> w.AllHanded() == [])
    && (w.store.Holds? ==> Earlier(w.AllHanded(), w.store.incarnation + 1))
  }

  lemma NextGrows(s: Sys, step: Step)
    ensures Grows(s, Next(s, step))
  {
    match step
    case PolicyUpdated(p) => UpdateGrows(s, p);
    case PolicyDeleted(p) => UpdateGrows(s, p);
    case SyncBundles(env) => PassSameContent(s, env, 0);
    case Reported(r) => ReportEffect(s, r);
  }

  lemma HandedWithin(s: Sys, n: nat)
    requires VersionInv(s) && s.incarnation <= n
    ensures Earlier(s.handed, n + 1)
  {
    forall i | 0 <= i < |s.handed| ensures s.handed[i].version.incarnation < n + 1 {
      assert s.lastSent.Get(s.handed[i].kind).incarnation == s.incarnation;
    }
  }

  /** How many processes were started. */
  function Starts(steps: seq<WorldStep>): nat {
    if steps == [] then 0
    else Starts(steps[..|steps| - 1]) + if steps[|steps| - 1].Restart? then 1 else 0
  }

  /** When no start fails, the processes have the incarnations 0, 1, 2 and so on. */
  lemma {:induction false} IncarnationsCountStarts(steps: seq<WorldStep>)
    requires forall i :: 0 <= i < |steps| && steps[i].Restart? ==> steps[i].fault == NoFault
    ensures var w := RunWorld(World(Absent, None, []), steps);
            && w.store == (if Starts(steps) == 0 then Absent else Holds(Starts(steps) - 1))
            && (w.process.Some? ==> w.process.value.incarnation + 1 == Starts(steps))
  {
    if steps != [] {
      var front := steps[..|steps| - 1];
      IncarnationsCountStarts(front);
      var w := RunWorld(World(Absent, None, []), front);
      if steps[|steps| - 1].InProcess? && w.process.Some? {
        NextGrows(w.process.value, steps[|steps| - 1].step);
      }
    }
  }

  lemma NextWorldKeepsInv(w: World, step: WorldStep)
    requires WorldInv(w)
    ensures WorldInv(NextWorld(w, step))
  {
    match step
    case Crash =>
    case InProcess(st) =>
      if w.process.Some? {
        NextKeepsVersions(w.process.value, st);
        NextGrows(w.process.value, st);
        HandedWithin(Next(w.process.value, st), w.store.incarnation);
      }
    case Restart(fault, factor, deltaTransport) =>
      var c := ClaimIncarnation(w.store, fault);
      if c.incarnation.Some? {
        BootVersions(c.incarnation.value, factor, deltaTransport, w.AllHanded());
      }
  }

  /** Over any run, with any number of crashes, restarts and failed starts, the versions handed to the transport for one
      bundle strictly increase, and no last-sent version exceeds the current one. */
  lemma {:induction false} SentVersionsIncrease(store: ConfigMap, steps: seq<WorldStep>)
    ensures var w := RunWorld(World(store, None, []), steps);
            && Increasing(w.AllHanded()) && WorldInv(w)
            && (w.process.Some? ==> var s := w.process.value;
                                    forall k :: !s.lastSent.Get(k).NewerThan(s.CurrentVersion(k)))
  {
    if steps != [] {
      SentVersionsIncrease(store, steps[..|steps| - 1]);
      NextWorldKeepsInv(RunWorld(World(store, None, []), steps[..|steps| - 1]), steps[|steps| - 1]);
    }
  }
}
