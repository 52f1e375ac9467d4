/** The generic status bundle, which keeps objects as they are, and a controller pass over a collection of them. */
module GenericStatus {
  import opened Collections
  import opened Policies
  import opened Versions

  /** The objects of a bundle by UID, as they would be marshalled. */
  datatype Listing = Listing(objects: seq<Entry<Policy>>, generation: nat)

  /** What the bundle does to an object before keeping it: blank the status, or nothing. */
  function Manipulate(clean: bool, p: Policy): Policy {
    if clean then p.(status := []) else p
  }

  /** An object is taken in when it is new or its resource version differs from the kept one's. */
  function UpdateListing(b: Listing, p: Policy): Listing {
    match Find(b.objects, p.uid)
    case None => Listing(Put(b.objects, p.uid, p), b.generation + 1)
    case Some(q) =>
      if p.resourceVersion == q.resourceVersion then b else Listing(Put(b.objects, p.uid, p), b.generation + 1)
  }

  function DeleteListing(b: Listing, uid: string): Listing {
    if Find(b.objects, uid).None? then b else Listing(Remove(b.objects, uid), b.generation + 1)
  }

  // ----- The bundle itself -----

  class GenericStatusBundle {
    var objects: seq<PolicyObject>
    const bundleVersion: BundleVersion
    const clean: bool

    constructor (incarnation: nat, clean: bool)
      ensures fresh(bundleVersion) && bundleVersion.Value() == Version(incarnation, 0)
      ensures this.clean == clean && objects == [] && State() == Listing([], 0)
    {
      this.objects, this.clean := [], clean;
      this.bundleVersion := new BundleVersion(incarnation, 0);
    }

    ghost function State(): Listing reads this, bundleVersion, objects {
      Listing(Snapshot(objects), bundleVersion.generation)
    }

    /** The object is kept by reference; blanking its status is seen by everyone who holds it. */
    method UpdateObject(obj: PolicyObject)
      requires obj !in objects
      modifies this, bundleVersion, obj
      ensures obj.Value() == Manipulate(clean, old(obj.Value()))
      ensures State() == UpdateListing(old(State()), Manipulate(clean, old(obj.Value())))
      ensures forall o :: o in objects ==> o in old(objects) || o == obj
    {
      if clean {
        obj.status := [];
      }
      assert Snapshot(objects) == old(Snapshot(objects));
      TakeIn(obj);
    }

    method TakeIn(obj: PolicyObject)
      modifies this, bundleVersion
      ensures State() == UpdateListing(old(State()), obj.Value())
      ensures forall o :: o in objects ==> o in old(objects) || o == obj
    {
      var index := GetObjectIndexByUID(obj.uid);
      if index == None {
        objects := objects + [obj];
        bundleVersion.generation := bundleVersion.generation + 1;
        assert Snapshot(objects) == Snapshot(old(objects)) + [Entry(obj.uid, obj.Value())];
        return;
      }
      if obj.resourceVersion == objects[index.value].resourceVersion {
        return;
      }
      objects := objects[index.value := obj];
      bundleVersion.generation := bundleVersion.generation + 1;
      assert Snapshot(objects) == Snapshot(old(objects))[index.value := Entry(obj.uid, obj.Value())];
    }

    method DeleteObject(obj: PolicyObject)
      modifies this, bundleVersion
      ensures State() == DeleteListing(old(State()), obj.uid)
      ensures forall o :: o in objects ==> o in old(objects)
    {
      var index := GetObjectIndexByUID(obj.uid);
      if index == None {
        return;
      }
      objects := objects[..index.value] + objects[index.value + 1..];
      bundleVersion.generation := bundleVersion.generation + 1;
      assert Snapshot(objects) == Remove(old(Snapshot(objects)), obj.uid);
    }

    method GetObjectIndexByUID(uid: string) returns (index: Option<nat>)
      ensures index == IndexOf(Snapshot(objects), uid)
      ensures index.Some? ==> index.value < |objects|
    {
      assert forall j :: 0 <= j < |objects| ==> Snapshot(objects)[j].id == objects[j].uid;
      for i := 0 to |objects|
        invariant forall j :: 0 <= j < i ==> objects[j].uid != uid
      {
        if objects[i].uid == uid {
          return Some(i);
        }
      }
      return None;
    }
  }

  ghost function Snapshot(objects: seq<PolicyObject>): seq<Entry<Policy>> reads objects {
    seq(|objects|, i requires 0 <= i < |objects| reads objects => Entry(objects[i].uid, objects[i].Value()))
  }

  // ----- A bundle keeps the latest read of every object -----

  datatype Event = Updated(policy: Policy) | Deleted(uid: string)

  function Apply(clean: bool, events: seq<Event>): Listing {
    if events == [] then Listing([], 0)
    else
      var b := Apply(clean, events[..|events| - 1]);
      match events[|events| - 1]
      case Updated(p) => UpdateListing(b, Manipulate(clean, p))
      case Deleted(uid) => DeleteListing(b, uid)
  }

  /** The last read of the object since it was last deleted. */
  function Latest(events: seq<Event>, uid: string): Option<Policy> {
    if events == [] then None
    else match events[|events| - 1]
      case Updated(p) => if p.uid == uid then Some(p) else Latest(events[..|events| - 1], uid)
      case Deleted(u) => if u == uid then None else Latest(events[..|events| - 1], uid)
  }

  /** What the API server promises: two reads of an object with one resource version are the same. */
  ghost predicate VersionsIdentify(events: seq<Event>) {
    forall i, j :: 0 <= i < |events| && 0 <= j < |events| && events[i].Updated? && events[j].Updated?
                   && events[i].policy.uid == events[j].policy.uid
                   && events[i].policy.resourceVersion == events[j].policy.resourceVersion ==>
                     events[i].policy == events[j].policy
  }

  lemma {:induction false} LatestWasRead(events: seq<Event>, uid: string)
    requires Latest(events, uid).Some?
    ensures exists i :: 0 <= i < |events| && events[i] == Updated(Latest(events, uid).value)
    ensures Latest(events, uid).value.uid == uid
  {
    var last := events[|events| - 1];
    if last.Updated? && last.policy.uid == uid {
      assert events[|events| - 1] == Updated(Latest(events, uid).value);
    } else {
      LatestWasRead(events[..|events| - 1], uid);
    }
  }

  /** Skipping objects whose resource version is known loses nothing: after any events the bundle holds, for every UID,
      exactly the latest read of it, manipulated, and nothing for the others. */
  lemma {:induction false} KeepsLatest(clean: bool, events: seq<Event>, uid: string)
    requires VersionsIdentify(events)
    ensures UniqueIds(Apply(clean, events).objects)
    ensures Find(Apply(clean, events).objects, uid)
            == match Latest(events, uid)
               case None => None
               case Some(p) => Some(if clean then p.(status := []) else p)
  {
    if events != [] {
      var front, last := events[..|events| - 1], events[|events| - 1];
      var b := Apply(clean, front);
      KeepsLatest(clean, front, uid);
      match last
      case Deleted(u) =>
        RemoveUnique(b.objects, u);
        FindRemove(b.objects, u, uid);
      case Updated(p) =>
        PutUnique(b.objects, p.uid, Manipulate(clean, p));
        FindPut(b.objects, p.uid, Manipulate(clean, p), uid);
        if Latest(front, uid).Some? && p.uid == uid {
          LatestWasRead(front, uid);
          var i :| 0 <= i < |front| && front[i] == Updated(Latest(front, uid).value);
          assert events[i] == front[i];
        }
    }
  }

  /** Something the bundle has not taken in yet: a read that is not the latest one of its object, or a delete of an
      object that was read and not deleted since. */
  predicate IsNews(events: seq<Event>, event: Event) {
    match event
    case Updated(p) => Latest(events, p.uid) != Some(p)
    case Deleted(uid) => Latest(events, uid).Some?
  }

  function NewsCount(events: seq<Event>): nat {
    if events == [] then 0
    else
      var front, last := events[..|events| - 1], events[|events| - 1];
      NewsCount(front) + if IsNews(front, last) then 1 else 0
  }

  lemma IdentifyBefore(events: seq<Event>)
    requires VersionsIdentify(events) && events != []
    ensures VersionsIdentify(events[..|events| - 1])
  {}

  /** Exactly news changes the bundle, raising its generation by one. Reading an object again as it was, or deleting one
      that is not held, changes nothing. */
  lemma OnlyNewsChanges(clean: bool, events: seq<Event>, event: Event)
    requires VersionsIdentify(events + [event])
    ensures var b, b' := Apply(clean, events), Apply(clean, events + [event]);
            if IsNews(events, event) then b'.generation == b.generation + 1 else b' == b
  {
    var all := events + [event];
    assert all[..|events|] == events && all[|events|] == event;
    IdentifyBefore(all);
    match event
    case Deleted(uid) => KeepsLatest(clean, events, uid);
    case Updated(p) =>
      KeepsLatest(clean, events, p.uid);
      if Latest(events, p.uid).Some? {
        LatestWasRead(events, p.uid);
        var i :| 0 <= i < |events| && events[i] == Updated(Latest(events, p.uid).value);
        assert all[i] == events[i];
      }
  }

  /** The generation of a bundle counts the news it was told. */
  lemma {:induction false} GenerationCountsNews(clean: bool, events: seq<Event>)
    requires VersionsIdentify(events)
    ensures Apply(clean, events).generation == NewsCount(events)
  {
    if events != [] {
      var front, last := events[..|events| - 1], events[|events| - 1];
      assert front + [last] == events;
      IdentifyBefore(events);
      GenerationCountsNews(clean, front);
      OnlyNewsChanges(clean, front, last);
    }
  }

  // ----- A pass over a collection -----

  /** What was handed to the transport for one bundle at one time. */
  datatype Handover = Handover(generation: nat, objects: seq<Entry<Policy>>)

  datatype CollectionEntry = CollectionEntry(bundle: Listing, clean: bool, lastSent: nat, sent: seq<Handover>) {
    function SyncOne(): CollectionEntry {
      this.(lastSent := bundle.generation, sent := sent + [Handover(bundle.generation, bundle.objects)])
    }
  }

  /** For one entry of a pass: whether its predicate holds and whether marshalling works. */
  datatype EntryTurn = EntryTurn(wanted: bool, marshals: bool)

  predicate NeedsSending(e: CollectionEntry, t: EntryTurn) {
    t.wanted && e.bundle.generation > e.lastSent
  }

  /** Where the pass stops: at the first due entry that cannot be marshalled, or at the end. */
  function StopsAt(entries: seq<CollectionEntry>, turns: seq<EntryTurn>): nat
    requires |turns| == |entries|
    ensures StopsAt(entries, turns) <= |entries|
  {
    if entries == [] || (NeedsSending(entries[0], turns[0]) && !turns[0].marshals) then 0
    else 1 + StopsAt(entries[1..], turns[1..])
  }

  lemma {:induction false} StopsAtFirst(entries: seq<CollectionEntry>, turns: seq<EntryTurn>, n: nat)
    requires |turns| == |entries| && n <= |entries|
    requires forall k :: 0 <= k < n ==> !NeedsSending(entries[k], turns[k]) || turns[k].marshals
    requires n < |entries| ==> NeedsSending(entries[n], turns[n]) && !turns[n].marshals
    ensures StopsAt(entries, turns) == n
  {
    if n > 0 {
      StopsAtFirst(entries[1..], turns[1..], n - 1);
    }
  }

  /** A collection entry: the bundle itself, and a copy of the version last sent. */
  class BundleEntry {
    const bundle: GenericStatusBundle
    var lastSentBundleVersion: Version
    ghost var sent: seq<Handover>

    constructor (bundle: GenericStatusBundle)
      ensures this.bundle == bundle && Valid()
      ensures State() == CollectionEntry(bundle.State(), bundle.clean, bundle.bundleVersion.generation, [])
    {
      this.bundle, sent := bundle, [];
      lastSentBundleVersion := bundle.bundleVersion.Value();
    }

    predicate Valid() reads this {
      lastSentBundleVersion.incarnation == bundle.bundleVersion.incarnation
    }

    ghost function State(): CollectionEntry reads this, bundle, bundle.bundleVersion, bundle.objects {
      CollectionEntry(bundle.State(), bundle.clean, lastSentBundleVersion.generation, sent)
    }

    /** The bundle is handed over as it is now, and its present version becomes the last sent. */
    method Send()
      modifies this
      ensures Valid() && State() == old(State()).SyncOne()
    {
      sent := sent + [Handover(bundle.bundleVersion.generation, Snapshot(bundle.objects))];
      lastSentBundleVersion := bundle.bundleVersion.Value();
    }
  }

  ghost predicate AllValid(entries: seq<BundleEntry>) reads entries {
    Distinct(entries) && forall k :: 0 <= k < |entries| ==> entries[k].Valid()
  }

  ghost function States(entries: seq<BundleEntry>): seq<CollectionEntry>
    reads entries, set k | 0 <= k < |entries| :: entries[k].bundle
    reads set k | 0 <= k < |entries| :: entries[k].bundle.bundleVersion
    reads set k, j | 0 <= k < |entries| && 0 <= j < |entries[k].bundle.objects| :: entries[k].bundle.objects[j]
  {
    seq(|entries|, k requires 0 <= k < |entries|
        reads entries, set k | 0 <= k < |entries| :: entries[k].bundle
        reads set k | 0 <= k < |entries| :: entries[k].bundle.bundleVersion
        reads set k, j | 0 <= k < |entries| && 0 <= j < |entries[k].bundle.objects| :: entries[k].bundle.objects[j]
        => entries[k].State())
  }

  /** One pass: up to where it stops, every due entry is handed over; from there on nothing changes. */
  method SyncBundles(entries: seq<BundleEntry>, turns: seq<EntryTurn>)
    requires |turns| == |entries| && AllValid(entries)
    modifies entries
    ensures AllValid(entries) && States(entries) == Pass(old(States(entries)), turns)
  {
    ghost var before := States(entries);
    for i := 0 to |entries|
      invariant AllValid(entries)
      invariant forall k :: 0 <= k < i ==> !NeedsSending(before[k], turns[k]) || turns[k].marshals
      invariant States(entries) == SyncedBefore(before, turns, i)
    {
      assert States(entries)[i] == before[i];
      if !turns[i].wanted {
        continue;
      }
      if entries[i].bundle.bundleVersion.Value().NewerThan(entries[i].lastSentBundleVersion) {
        if !turns[i].marshals {
          StopsAtFirst(before, turns, i);
          return;
        }
        SendEntry(entries, i);
      }
    }
    StopsAtFirst(before, turns, |entries|);
  }

  /** Sending one entry leaves the others as they are. */
  method SendEntry(entries: seq<BundleEntry>, i: nat)
    requires i < |entries| && AllValid(entries)
    modifies entries[i]
    ensures AllValid(entries)
    ensures States(entries) == old(States(entries))[i := old(States(entries))[i].SyncOne()]
  {
    entries[i].Send();
  }

  /** The entries when the pass has come to the i-th. */
  function SyncedBefore(entries: seq<CollectionEntry>, turns: seq<EntryTurn>, i: nat): seq<CollectionEntry>
    requires |turns| == |entries|
  {
    seq(|entries|, k requires 0 <= k < |entries| =>
      if k < i && NeedsSending(entries[k], turns[k]) then entries[k].SyncOne() else entries[k])
  }

  function Pass(entries: seq<CollectionEntry>, turns: seq<EntryTurn>): seq<CollectionEntry>
    requires |turns| == |entries|
  {
    seq(|entries|, k requires 0 <= k < |entries| =>
      if k < StopsAt(entries, turns) && NeedsSending(entries[k], turns[k]) then entries[k].SyncOne() else entries[k])
  }

  /** What was last handed over for an entry; a new process starts from the empty listing of generation 0. */
  function LastHanded(e: CollectionEntry): Handover {
    if e.sent == [] then Handover(0, []) else e.sent[|e.sent| - 1]
  }

  /** Handed-over generations strictly increase, last-sent is the latest of them and never ahead of the bundle, and when
      the two are equal the content handed over is the bundle's. */
  ghost predicate EntryInv(e: CollectionEntry) {
    && (forall i, j :: 0 <= i < j < |e.sent| ==> e.sent[i].generation < e.sent[j].generation)
    && e.lastSent == LastHanded(e).generation <= e.bundle.generation
    && (e.lastSent == e.bundle.generation ==> LastHanded(e).objects == e.bundle.objects)
  }

  datatype CollectionStep = Observed(event: Event) | Passed(turns: seq<EntryTurn>)

  function Observe(e: CollectionEntry, event: Event): CollectionEntry {
    match event
    case Updated(p) => e.(bundle := UpdateListing(e.bundle, Manipulate(e.clean, p)))
    case Deleted(uid) => e.(bundle := DeleteListing(e.bundle, uid))
  }

  function StepAll(entries: seq<CollectionEntry>, step: CollectionStep): (next: seq<CollectionEntry>)
    ensures |next| == |entries|
  {
    match step
    case Observed(event) => seq(|entries|, k requires 0 <= k < |entries| => Observe(entries[k], event))
    case Passed(turns) => if |turns| == |entries| then Pass(entries, turns) else entries
  }

  function RunAll(entries: seq<CollectionEntry>, steps: seq<CollectionStep>): (next: seq<CollectionEntry>)
    ensures |next| == |entries|
  {
    if steps == [] then entries else StepAll(RunAll(entries, steps[..|steps| - 1]), steps[|steps| - 1])
  }

  function NewEntry(clean: bool): CollectionEntry {
    CollectionEntry(Listing([], 0), clean, 0, [])
  }

  function NewEntries(flags: seq<bool>): seq<CollectionEntry> {
    seq(|flags|, i requires 0 <= i < |flags| => NewEntry(flags[i]))
  }

  lemma ObserveKeepsEntry(e: CollectionEntry, event: Event)
    requires EntryInv(e)
    ensures EntryInv(Observe(e, event))
  {}

  lemma SyncKeepsEntry(e: CollectionEntry)
    requires EntryInv(e) && e.bundle.generation > e.lastSent
    ensures EntryInv(e.SyncOne())
  {
    var s := e.SyncOne().sent;
    assert s[..|e.sent|] == e.sent;
    assert e.sent != [] ==> e.sent[|e.sent| - 1].generation == e.lastSent;
  }

  /** Over any run of a collection: no change is skipped and none is sent twice. */
  lemma {:induction false} NothingSkippedNorRepeated(flags: seq<bool>, steps: seq<CollectionStep>, k: nat)
    requires k < |flags|
    ensures EntryInv(RunAll(NewEntries(flags), steps)[k])
  {
    var entries := NewEntries(flags);
    if steps != [] {
      var prev := RunAll(entries, steps[..|steps| - 1]);
      NothingSkippedNorRepeated(flags, steps[..|steps| - 1], k);
      match steps[|steps| - 1]
      case Observed(event) => ObserveKeepsEntry(prev[k], event);
      case Passed(turns) =>
        if |turns| == |prev| && NeedsSending(prev[k], turns[k]) {
          SyncKeepsEntry(prev[k]);
        }
    }
  }

  lemma {:induction false} CleanPassReachesEnd(entries: seq<CollectionEntry>, turns: seq<EntryTurn>)
    requires |turns| == |entries| && forall k :: 0 <= k < |turns| && turns[k].wanted ==> turns[k].marshals
    ensures StopsAt(entries, turns) == |entries|
  {
    StopsAtFirst(entries, turns, |entries|);
  }

  /** A pass changes only wanted entries whose bundle is newer than what was last sent, and hands these over as they
      are. */
  lemma PassSendsOnlyWanted(entries: seq<CollectionEntry>, turns: seq<EntryTurn>, k: nat)
    requires |turns| == |entries| && k < |entries|
    ensures var e, e' := entries[k], Pass(entries, turns)[k];
            || e' == e
            || (turns[k].wanted && turns[k].marshals && e.bundle.generation > e.lastSent
                && e' == e.(lastSent := e.bundle.generation,
                            sent := e.sent + [Handover(e.bundle.generation, e.bundle.objects)]))
  {
    if k < StopsAt(entries, turns) {
      BeforeStopMarshals(entries, turns, k);
    }
  }

  lemma {:induction false} BeforeStopMarshals(entries: seq<CollectionEntry>, turns: seq<EntryTurn>, k: nat)
    requires |turns| == |entries| && k < StopsAt(entries, turns)
    ensures NeedsSending(entries[k], turns[k]) ==> turns[k].marshals
  {
    if k > 0 {
      BeforeStopMarshals(entries[1..], turns[1..], k - 1);
    }
  }

  /** After a pass without marshalling errors, what was handed over for every wanted entry is the bundle's content. */
  lemma CleanPassIsCurrent(entries: seq<CollectionEntry>, turns: seq<EntryTurn>, k: nat)
    requires |turns| == |entries| && k < |entries| && turns[k].wanted && EntryInv(entries[k])
    requires forall i :: 0 <= i < |turns| && turns[i].wanted ==> turns[i].marshals
    ensures var e := Pass(entries, turns)[k];
            e.bundle == entries[k].bundle && LastHanded(e) == Handover(e.bundle.generation, e.bundle.objects)
  {
    CleanPassReachesEnd(entries, turns);
  }

  /** The reads and deletes of a run. */
  function EventsOf(steps: seq<CollectionStep>): seq<Event> {
    if steps == [] then []
    else
      EventsOf(steps[..|steps| - 1])
      + match steps[|steps| - 1]
        case Observed(event) => [event]
        case Passed(_) => []
  }

  lemma StepOfEntry(entries: seq<CollectionEntry>, step: CollectionStep, k: nat)
    requires k < |entries|
    ensures var e := StepAll(entries, step)[k];
            && e.clean == entries[k].clean
            && e.bundle == match step
                           case Observed(event) => Observe(entries[k], event).bundle
                           case Passed(_) => entries[k].bundle
  {}

  lemma ObserveAppends(clean: bool, events: seq<Event>, e: CollectionEntry, event: Event)
    requires e.clean == clean && e.bundle == Apply(clean, events)
    ensures Observe(e, event).bundle == Apply(clean, events + [event])
  {
    assert (events + [event])[..|events|] == events;
  }

  /** Every bundle of a collection sees every event, whatever is sent in between. */
  lemma {:induction false} EveryBundleSeesAll(flags: seq<bool>, steps: seq<CollectionStep>, k: nat)
    requires k < |flags|
    ensures var e := RunAll(NewEntries(flags), steps)[k];
            e.bundle == Apply(flags[k], EventsOf(steps)) && e.clean == flags[k]
  {
    if steps != [] {
      var front, last := steps[..|steps| - 1], steps[|steps| - 1];
      var prev := RunAll(NewEntries(flags), front);
      EveryBundleSeesAll(flags, front, k);
      StepOfEntry(prev, last, k);
      match last
      case Observed(event) => ObserveAppends(flags[k], EventsOf(front), prev[k], event);
      case Passed(_) => assert EventsOf(steps) == EventsOf(front);
    }
  }

  /** After any run that ends in a pass without marshalling errors, what was handed over for a wanted entry holds, for
      every UID, exactly the latest read of it, manipulated, and nothing for the others. */
  lemma CleanPassSendsLatest(flags: seq<bool>, steps: seq<CollectionStep>, turns: seq<EntryTurn>, k: nat, uid: string)
    requires |turns| == |flags| && k < |flags| && turns[k].wanted
    requires forall i :: 0 <= i < |turns| && turns[i].wanted ==> turns[i].marshals
    requires VersionsIdentify(EventsOf(steps))
    ensures var e := RunAll(NewEntries(flags), steps + [Passed(turns)])[k];
            Find(LastHanded(e).objects, uid)
            == match Latest(EventsOf(steps), uid)
               case None => None
               case Some(p) => Some(if flags[k] then p.(status := []) else p)
  {
    var entries := RunAll(NewEntries(flags), steps);
    assert (steps + [Passed(turns)])[..|steps|] == steps;
    NothingSkippedNorRepeated(flags, steps, k);
    EveryBundleSeesAll(flags, steps, k);
    CleanPassIsCurrent(entries, turns, k);
    KeepsLatest(flags[k], EventsOf(steps), uid);
  }

  lemma {:induction false} MoreEvents(steps: seq<CollectionStep>, longer: seq<CollectionStep>)
    requires steps <= longer
    ensures EventsOf(steps) <= EventsOf(longer)
  {
    if |longer| > |steps| {
      MoreEvents(steps, longer[..|longer| - 1]);
    } else {
      assert longer == steps;
    }
  }

  lemma {:induction false} MoreNews(events: seq<Event>, longer: seq<Event>)
    requires events <= longer
    ensures NewsCount(events) <= NewsCount(longer)
  {
    if |longer| > |events| {
      MoreNews(events, longer[..|longer| - 1]);
    } else {
      assert longer == events;
    }
  }

  /** What was handed over once is handed over again only if there was news in between: from any point of a run at
      which an entry is current to a later one without news since, any passes, reads and deletes leave what was handed
      over for it and its last-sent version. */
  lemma {:induction false} NoNewsNoHandover(flags: seq<bool>, steps: seq<CollectionStep>, longer: seq<CollectionStep>,
                                            k: nat)
    requires k < |flags| && steps <= longer && VersionsIdentify(EventsOf(longer))
    requires NewsCount(EventsOf(longer)) == NewsCount(EventsOf(steps))
    requires var e := RunAll(NewEntries(flags), steps)[k]; e.lastSent == e.bundle.generation
    ensures var e, e' := RunAll(NewEntries(flags), steps)[k], RunAll(NewEntries(flags), longer)[k];
            e'.sent == e.sent && e'.lastSent == e.lastSent
  {
    if |longer| > |steps| {
      var front, last := longer[..|longer| - 1], longer[|longer| - 1];
      MoreEvents(steps, front);
      MoreEvents(front, longer);
      NewsBetween(EventsOf(steps), EventsOf(front), EventsOf(longer));
      NoNewsNoHandover(flags, steps, front, k);
      CurrentGeneration(flags, steps, k);
      CurrentGeneration(flags, front, k);
      match last
      case Observed(_) =>
      case Passed(turns) =>
        if |turns| == |flags| {
          PassSendsOnlyWanted(RunAll(NewEntries(flags), front), turns, k);
        }
    } else {
      assert longer == steps;
    }
  }

  lemma NewsBetween(a: seq<Event>, b: seq<Event>, c: seq<Event>)
    requires a <= b <= c && VersionsIdentify(c) && NewsCount(c) == NewsCount(a)
    ensures VersionsIdentify(a) && VersionsIdentify(b) && NewsCount(b) == NewsCount(a)
  {
    MoreNews(a, b);
    MoreNews(b, c);
    IdentifyPrefix(b, c);
    IdentifyPrefix(a, b);
  }

  lemma IdentifyPrefix(events: seq<Event>, longer: seq<Event>)
    requires events <= longer && VersionsIdentify(longer)
    ensures VersionsIdentify(events)
  {
    assert forall i :: 0 <= i < |events| ==> events[i] == longer[i];
  }

  lemma CurrentGeneration(flags: seq<bool>, steps: seq<CollectionStep>, k: nat)
    requires k < |flags| && VersionsIdentify(EventsOf(steps))
    ensures RunAll(NewEntries(flags), steps)[k].bundle.generation == NewsCount(EventsOf(steps))
  {
    EveryBundleSeesAll(flags, steps, k);
    GenerationCountsNews(flags[k], EventsOf(steps));
  }

  /** After a marshalling error that entry and every later one are as before, last-sent version included, and the pass
      went through every earlier one. */
  lemma FailedPassKeepsRest(entries: seq<CollectionEntry>, turns: seq<EntryTurn>, n: nat)
    requires |turns| == |entries| && n < |entries|
    requires turns[n].wanted && entries[n].bundle.generation > entries[n].lastSent && !turns[n].marshals
    requires forall k :: 0 <= k < n && turns[k].wanted ==> turns[k].marshals
    ensures Pass(entries, turns)[n..] == entries[n..]
    ensures Pass(entries, turns)[..n] == Pass(entries[..n], turns[..n])
  {
    StopsAtFirst(entries, turns, n);
    CleanPassReachesEnd(entries[..n], turns[..n]);
  }
}
