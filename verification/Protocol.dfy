/** The compliance sync of a leaf hub as a state machine: four bundles, the hybrid manager, and what was sent. */
module Protocol {
  import opened Collections
  import opened Policies
  import opened Versions
  import opened ClustersPerPolicy
  import opened CompleteCompliance
  import opened MinimalCompliance
  import opened DeltaCompliance

  /** The four bundles, in the order in which a controller updates and sends them. */
  datatype Kind = CppKind | CompleteKind | DeltaKind | MinimalKind

  const ORDER := [CppKind, CompleteKind, DeltaKind, MinimalKind]

  /** A transport key. Delta messages carry their transportation ID in the message key, subscriptions do not. */
  datatype Key = Plain(kind: Kind) | Numbered(kind: Kind, id: nat)

  datatype Payload =
    | CppPayload(lists: seq<Entry<Lists>>)
    | CompletePayload(cppVersion: Version, alerts: seq<Entry<Alerts>>)
    | DeltaPayload(base: Version, changes: seq<Entry<StatusChanges>>)
    | MinimalPayload(counts: seq<Entry<Counts>>)

  datatype Message = Message(kind: Kind, key: Key, version: Version, payload: Payload)

  datatype Mode = CompleteStateMode | DeltaStateMode

  datatype AggregationLevel = Full | MinimalLevel | OtherLevel

  /** An attempt callback that arrived in delta mode: the message it was for, and what was pending at that moment. */
  datatype Attempt = Attempt(message: Message, pending: seq<Entry<StatusChanges>>)

  datatype LastSent = LastSent(cpp: Version, complete: Version, delta: Version, minimal: Version) {
    function Get(k: Kind): Version {
      match k
      case CppKind => cpp
      case CompleteKind => complete
      case DeltaKind => delta
      case MinimalKind => minimal
    }

    function Set(k: Kind, v: Version): LastSent {
      match k
      case CppKind => this.(cpp := v)
      case CompleteKind => this.(complete := v)
      case DeltaKind => this.(delta := v)
      case MinimalKind => this.(minimal := v)
    }
  }

  /** `factor` is the configured switch factor; `deltaTransport` says whether the transport supports delta bundles.
      `handed` is everything handed to the transport; `line` counts the delta lines opened, `attempts` is the history
      of the current one. */
  datatype Sys = Sys(incarnation: nat, factor: int, deltaTransport: bool,
                     cpp: Cpp, complete: Complete, delta: Delta, minimal: Minimal,
                     mode: Mode, sentDeltaCount: nat, lastSent: LastSent, handed: seq<Message>,
                     line: nat, attempts: seq<Attempt>)
  {
    predicate Enabled() { factor > 0 && deltaTransport }

    function Generation(k: Kind): nat {
      match k
      case CppKind => cpp.generation
      case CompleteKind => complete.generation
      case DeltaKind => delta.generation
      case MinimalKind => minimal.generation
    }

    function CurrentVersion(k: Kind): Version { Version(incarnation, Generation(k)) }

    function DeltaBase(): Version { Version(incarnation, delta.baseGeneration) }

    /** The message a bundle is marshalled to. */
    function MessageFor(k: Kind): Message {
      Message(k, if k == DeltaKind then Numbered(k, delta.transportationId) else Plain(k), CurrentVersion(k),
              match k
              case CppKind => CppPayload(cpp.objects)
              case CompleteKind => CompletePayload(CurrentVersion(CppKind), complete.objects)
              case DeltaKind => DeltaPayload(DeltaBase(), delta.pending)
              case MinimalKind => MinimalPayload(minimal.objects))
    }

    /** Whether a bundle may be sent now: the aggregation level, and for the managed two the active mode. */
    predicate Wanted(k: Kind, level: AggregationLevel) {
      match k
      case CppKind => level == Full
      case CompleteKind => mode == CompleteStateMode && level == Full
      case DeltaKind => mode == DeltaStateMode && level == Full
      case MinimalKind => level == MinimalLevel
    }

    /** Callbacks are registered only when hybrid mode is enabled. */
    predicate Subscribed(key: Key) {
      Enabled() && Managed(key)
    }
  }

  /** The keys callbacks are registered under: the plain ones of the two managed bundles. */
  predicate Managed(key: Key) {
    key == Plain(CompleteKind) || key == Plain(DeltaKind)
  }

  /** A fresh process; `handed` is what earlier processes handed to the transport. */
  function Boot(incarnation: nat, factor: int, deltaTransport: bool, handed: seq<Message>): Sys {
    var v := Version(incarnation, 0);
    Sys(incarnation, factor, deltaTransport, Cpp([], 0), Complete([], 0), Delta([], map[], 0, 0, 0, map[], map[]),
        Minimal([], 0), CompleteStateMode, 0, LastSent(v, v, v, v), handed, 0, [])
  }

  // ----- Controller update and delete -----

  function UpdatePolicy(s: Sys, p: Policy): Sys {
    var cpp := UpdateCpp(s.cpp, p.origin, p.status);
    s.(cpp := cpp,
       complete := UpdateComplete(s.complete, p.origin, p.status),
       delta := UpdateDelta(s.delta, cpp.objects, p.origin, p.status),
       minimal := UpdateMinimal(s.minimal, p.origin, p.remediation, p.status))
  }

  function DeletePolicy(s: Sys, p: Policy): Sys {
    s.(cpp := DeleteCpp(s.cpp, p.origin),
       complete := DeleteComplete(s.complete, p.origin),
       delta := DeleteDelta(s.delta, p.origin),
       minimal := DeleteMinimal(s.minimal, p.origin))
  }

  // ----- The hybrid manager -----

  function SwitchToDelta(s: Sys): Sys {
    s.(mode := DeltaStateMode, sentDeltaCount := 0,
       delta := SyncDelta(ResetDelta(s.delta), s.complete.generation, s.cpp.objects),
       line := s.line + 1, attempts := [])
  }

  function HandleAttempt(s: Sys, m: Message): Sys {
    if s.mode == CompleteStateMode then SwitchToDelta(s)
    else
      var t := s.(sentDeltaCount := s.sentDeltaCount + 1, attempts := s.attempts + [Attempt(m, s.delta.pending)]);
      if t.sentDeltaCount == s.factor then t.(mode := CompleteStateMode)
      else t.(delta := ResetDelta(s.delta))
  }

  function HandleSuccess(s: Sys): Sys {
    if s.mode == DeltaStateMode then s else SwitchToDelta(s)
  }

  function HandleFailure(s: Sys): Sys {
    s.(mode := CompleteStateMode)
  }

  /** A delivery report of the transport, looked up by the key of the message it is for. */
  datatype Report = Report(key: Key, delivered: bool)

  function HandleReport(s: Sys, r: Report): Sys {
    if !s.Subscribed(r.key) then s
    else if r.delivered then HandleSuccess(s) else HandleFailure(s)
  }

  function Deliver(s: Sys, rs: seq<Report>): Sys {
    if rs == [] then s else HandleReport(Deliver(s, rs[..|rs| - 1]), rs[|rs| - 1])
  }

  // ----- One pass over the bundles -----

  /** What becomes of a send: the bundle cannot be marshalled; the transport drops the message before producing it; the
      producer refuses it; the producer accepts it. */
  datatype Outcome = Unmarshallable | Dropped | Refused | Accepted

  /** What the surroundings do while one bundle is looked at: reports delivered before its predicate is evaluated, the
      configured level, reports delivered between that and marshalling, the fate of a send, and reports delivered
      between marshalling and that fate. */
  datatype EntryEnv = EntryEnv(before: seq<Report>, level: AggregationLevel, between: seq<Report>, outcome: Outcome,
                               during: seq<Report>)

  datatype PassEnv = PassEnv(cpp: EntryEnv, complete: EntryEnv, delta: EntryEnv, minimal: EntryEnv) {
    function Get(k: Kind): EntryEnv {
      match k
      case CppKind => cpp
      case CompleteKind => complete
      case DeltaKind => delta
      case MinimalKind => minimal
    }
  }

  /** The bundle has changed since it was last sent. */
  predicate Changed(s: Sys, k: Kind) {
    s.CurrentVersion(k).NewerThan(s.lastSent.Get(k))
  }

  predicate Due(s: Sys, k: Kind, level: AggregationLevel) {
    s.Wanted(k, level) && Changed(s, k)
  }

  /** The transport takes the message; the callbacks of the send fire before it returns. */
  function SendAsync(s: Sys, m: Message, outcome: Outcome, during: seq<Report>): Sys {
    var t := Deliver(s.(handed := s.handed + [m]), during);
    if !t.Subscribed(Plain(m.kind)) then t
    else match outcome
      case Refused => HandleFailure(t)
      case Accepted => HandleAttempt(t, m)
      case _ => t
  }

  datatype Progress = Progress(sys: Sys, stop: bool)

  function SyncEntry(s: Sys, k: Kind, env: EntryEnv): Progress {
    var b := Deliver(s, env.before);
    if !Due(b, k, env.level) then Progress(b, false)
    else
      var c := Deliver(b, env.between);
      if env.outcome == Unmarshallable then Progress(c, true)
      else
        var t := SendAsync(c, c.MessageFor(k), env.outcome, env.during);
        Progress(t.(lastSent := t.lastSent.Set(k, t.CurrentVersion(k))), false)
  }

  /** The pass from the i-th bundle on; a bundle that cannot be marshalled ends it. */
  function PassFrom(s: Sys, env: PassEnv, i: nat): Sys
    decreases 4 - i
  {
    if i >= 4 then s
    else
      var r := SyncEntry(s, ORDER[i], env.Get(ORDER[i]));
      if r.stop then r.sys else PassFrom(r.sys, env, i + 1)
  }

  // ----- Runs -----

  datatype Step =
    | PolicyUpdated(policy: Policy)
    | PolicyDeleted(policy: Policy)
    | SyncBundles(env: PassEnv)
    | Reported(report: Report)

  function Next(s: Sys, step: Step): Sys {
    match step
    case PolicyUpdated(p) => UpdatePolicy(s, p)
    case PolicyDeleted(p) => DeletePolicy(s, p)
    case SyncBundles(env) => PassFrom(s, env, 0)
    case Reported(r) => HandleReport(s, r)
  }

  function Run(s: Sys, steps: seq<Step>): Sys {
    if steps == [] then s else Next(Run(s, steps[..|steps| - 1]), steps[|steps| - 1])
  }

  /** The assumption on the watched policies. */
  ghost predicate CleanSteps(steps: seq<Step>) {
    forall i :: 0 <= i < |steps| && steps[i].PolicyUpdated? ==> DistinctClusters(steps[i].policy.status)
  }
}
