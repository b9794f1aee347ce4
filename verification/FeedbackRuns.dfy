/** No acknowledged feedback is lost, over any run of submissions, deliveries, failed writes and crashes. */
module FeedbackRuns {
  import opened Outcomes
  import opened StableSort
  import opened Feedback

  /** The queue, what was ever submitted, what the submitter was told is safe, and what was delivered. */
  datatype World = World(spill: Spill, submitted: set<Entry>, acknowledged: set<Entry>, delivered: set<Entry>)

  /** The steps of the service, each one queued change or one delivery; a crash forgets the memory. */
  datatype Event =
    | OnAdd(entry: Entry, disk: Disk)
    | OnDeliver(entry: Entry)
    | OnRemove(entry: Entry, disk: Disk)
    | OnDrain(accepted: set<Entry>, disk: Disk)
    | OnCrash

  /** Identifiers are never reused; a submission delivers only what it added, and removes only what it delivered. */
  ghost predicate Possible(w: World, e: Event) {
    match e
    case OnAdd(entry, _) => forall other :: other in w.submitted ==> other.id != entry.id
    case OnDeliver(entry) => entry in w.acknowledged
    case OnRemove(entry, _) => entry in w.delivered
    case OnDrain(_, _) => true
    case OnCrash => true
  }

  function React(w: World, e: Event): World {
    match e
    case OnAdd(entry, disk) =>
      var (spill, error) := Added(w.spill, entry, disk);
      w.(spill := spill, submitted := w.submitted + {entry},
         acknowledged := if error.None? then w.acknowledged + {entry} else w.acknowledged)
    case OnDeliver(entry) => w.(delivered := w.delivered + {entry})
    case OnRemove(entry, disk) => w.(spill := Removed(w.spill, entry.id, disk).0)
    case OnDrain(accepted, disk) =>
      w.(spill := Drained(w.spill, accepted, disk).0, delivered := w.delivered + Offered(w.spill, accepted, disk))
    case OnCrash => w.(spill := Spill([], false, w.spill.file))
  }

  function Run(w: World, events: seq<Event>): World
    decreases |events|
  {
    if events == [] then w else Run(React(w, events[0]), events[1..])
  }

  ghost predicate PossibleRun(w: World, events: seq<Event>)
    decreases |events|
  {
    events == [] || (Possible(w, events[0]) && PossibleRun(React(w, events[0]), events[1..]))
  }

  // --- What every step keeps -----------------------------------------------

  /** The list holds every acknowledged entry that was not delivered, and nothing that was never submitted. */
  ghost predicate Covers(w: World, s: seq<Entry>) {
    && (forall e :: e in w.acknowledged ==> e in w.delivered || e in s)
    && (forall e :: e in s ==> e in w.submitted)
  }

  ghost predicate Inv(w: World) {
    && (forall a, b :: a in w.submitted && b in w.submitted && a.id == b.id ==> a == b)
    && w.acknowledged <= w.submitted && w.delivered <= w.submitted
    && (if w.spill.file.Some? then Covers(w, w.spill.file.value) else w.acknowledged <= w.delivered)
    && (w.spill.loaded ==> Covers(w, w.spill.entries))
  }

  lemma LoadCovers(w: World, disk: Disk)
    requires Inv(w) && Load(w.spill, disk).Ok?
    ensures var ready := w.(spill := Load(w.spill, disk).value);
      Inv(ready) && ready.spill.loaded && ready.spill.file == w.spill.file
  {
  }

  /** Changing the queue, writing it or failing to, keeps the promise if the new list covers everything. */
  lemma PersistKeeps(w: World, entries: seq<Entry>, disk: Disk)
    requires Inv(w) && w.spill.loaded && Covers(w, entries)
    ensures Inv(w.(spill := Persist(w.spill.(entries := entries), disk)))
  {
  }

  lemma {:induction false} AddKeeps(w: World, entry: Entry, disk: Disk)
    requires Inv(w) && Possible(w, OnAdd(entry, disk))
    ensures Inv(React(w, OnAdd(entry, disk)))
  {
    if Load(w.spill, disk).Ok? {
      LoadCovers(w, disk);
      var ready := w.(spill := Load(w.spill, disk).value, submitted := w.submitted + {entry});
      PersistKeeps(ready, ready.spill.entries + [entry], disk);
    }
  }

  lemma {:induction false} RemoveKeeps(w: World, entry: Entry, disk: Disk)
    requires Inv(w) && Possible(w, OnRemove(entry, disk))
    ensures Inv(React(w, OnRemove(entry, disk)))
  {
    if Load(w.spill, disk).Ok? {
      LoadCovers(w, disk);
      var ready := w.(spill := Load(w.spill, disk).value);
      PersistKeeps(ready, Filter(Differs(entry.id), ready.spill.entries), disk);
    }
  }

  lemma {:induction false} DrainKeeps(w: World, accepted: set<Entry>, disk: Disk)
    requires Inv(w)
    ensures Inv(React(w, OnDrain(accepted, disk)))
  {
    if Load(w.spill, disk).Ok? {
      LoadCovers(w, disk);
      var ready := w.(spill := Load(w.spill, disk).value, delivered := w.delivered + Offered(w.spill, accepted, disk));
      PersistKeeps(ready, Filter(Refused(accepted), ready.spill.entries), disk);
    }
  }

  lemma {:induction false} StepKeeps(w: World, e: Event)
    requires Inv(w) && Possible(w, e)
    ensures Inv(React(w, e))
  {
    match e
    case OnAdd(entry, disk) => AddKeeps(w, entry, disk);
    case OnDeliver(_) =>
    case OnRemove(entry, disk) => RemoveKeeps(w, entry, disk);
    case OnDrain(accepted, disk) => DrainKeeps(w, accepted, disk);
    case OnCrash =>
  }

  lemma {:induction false} RunKeeps(w: World, events: seq<Event>)
    requires Inv(w) && PossibleRun(w, events)
    ensures Inv(Run(w, events))
    decreases |events|
  {
    if events != [] {
      StepKeeps(w, events[0]);
      RunKeeps(React(w, events[0]), events[1..]);
    }
  }

  const Start := World(Spill([], false, None), {}, {}, {})

  /** A submission is acknowledged exactly when the queue could be read, or was before, and could be written. */
  lemma AcknowledgedIff(w: World, entry: Entry, disk: Disk)
    ensures React(w, OnAdd(entry, disk)).acknowledged ==
      if disk.writable && (w.spill.loaded || w.spill.file.None? || disk.readable) then w.acknowledged + {entry}
      else w.acknowledged
  {
  }

  /** Whatever happens, every acknowledged message has been delivered or is in the file, so that it survives
      a crash at this very moment; and nothing is delivered or stored that nobody submitted. */
  lemma {:induction false} NothingIsLost(events: seq<Event>)
    requires PossibleRun(Start, events)
    ensures var w := Run(Start, events);
      && (forall e :: e in w.acknowledged ==> e in w.delivered || (w.spill.file.Some? && e in w.spill.file.value))
      && w.delivered <= w.submitted
      && (w.spill.file.Some? ==> forall e :: e in w.spill.file.value ==> e in w.submitted)
  {
    RunKeeps(Start, events);
  }

  /** From any such moment, also after a crash, one drain that reaches the file and the bot delivers every
      acknowledged message, whether or not the file can be written. */
  lemma {:induction false} OneDrainCatchesUp(events: seq<Event>, crash: bool, accepted: set<Entry>, disk: Disk)
    requires PossibleRun(Start, events) && disk.readable
    requires Run(Start, events).submitted <= accepted
    ensures var w := Run(Start, events);
      var now := if crash then React(w, OnCrash) else w;
      w.acknowledged <= React(now, OnDrain(accepted, disk)).delivered
  {
    RunKeeps(Start, events);
    var w := Run(Start, events);
    var now := if crash then React(w, OnCrash) else w;
    StepKeeps(w, OnCrash);
    LoadCovers(now, disk);
  }

  // --- What is removed stays removed ---------------------------------------

  /** The entry is neither in the file nor, once it was read, in memory: no drain can offer it. */
  ghost predicate Gone(w: World, e: Entry) {
    && (w.spill.file.Some? ==> e !in w.spill.file.value)
    && (w.spill.loaded ==> e !in w.spill.entries)
  }

  /** No later drain of the run delivers the entry. */
  ghost predicate NeverOffered(w: World, events: seq<Event>, e: Entry)
    decreases |events|
  {
    events == []
    || ((events[0].OnDrain? ==> e !in Offered(w.spill, events[0].accepted, events[0].disk))
        && NeverOffered(React(w, events[0]), events[1..], e))
  }

  lemma {:induction false} GoneStays(w: World, event: Event, e: Entry)
    requires Possible(w, event) && e in w.submitted && Gone(w, e)
    ensures Gone(React(w, event), e) && e in React(w, event).submitted
    ensures event.OnDrain? ==> e !in Offered(w.spill, event.accepted, event.disk)
  {
  }

  /** An entry leaves the queue by the removal after its delivery, or by the drain that delivers it, if the file can
      be written and no earlier removal of it went unwritten; and then no drain ever offers it again. */
  lemma {:induction false} LeavesForGood(w: World, event: Event, e: Entry, later: seq<Event>)
    requires Inv(w) && Possible(w, event) && e in w.submitted
    requires match event
      case OnRemove(entry, disk) => entry == e && disk.writable && Removed(w.spill, e.id, disk).1.None?
      case OnDrain(accepted, disk) => e in accepted && disk.writable && Drained(w.spill, accepted, disk).1.None?
      case _ => false
    requires w.spill.file.Some? && w.spill.loaded ==> (e in w.spill.file.value ==> e in w.spill.entries)
    requires PossibleRun(React(w, event), later)
    ensures Gone(React(w, event), e) && NeverOffered(React(w, event), later, e)
  {
    var disk := event.disk;
    var ready := Load(w.spill, disk).value;
    if event.OnRemove? {
      AllKept(Differs(e.id), ready.entries);
    } else {
      AllKept(Refused(event.accepted), ready.entries);
    }
    assert Gone(React(w, event), e);
    StepKeeps(w, event);
    NothingOffered(React(w, event), later, e);
  }

  lemma {:induction false} NothingOffered(w: World, events: seq<Event>, e: Entry)
    requires e in w.submitted && Gone(w, e) && PossibleRun(w, events)
    ensures NeverOffered(w, events, e)
    decreases |events|
  {
    if events != [] {
      GoneStays(w, events[0], e);
      NothingOffered(React(w, events[0]), events[1..], e);
    }
  }

  /** A run is its events one after the other. */
  lemma {:induction false} RunGoesOn(w: World, events: seq<Event>, e: Event)
    ensures Run(w, events + [e]) == React(Run(w, events), e)
    decreases |events|
  {
    if events == [] {
      assert [] + [e] == [e] && [e][1..] == [];
      assert Run(React(w, e), []) == React(w, e);
    } else {
      assert (events + [e])[1..] == events[1..] + [e];
      RunGoesOn(React(w, events[0]), events[1..], e);
    }
  }
}
