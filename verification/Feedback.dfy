/**
 The write-ahead feedback queue.  A change runs against the entries in memory and is then written to the
 file as a whole; the file always holds the entries of the last write that succeeded.
 */
module Feedback {
  import opened Outcomes
  import opened StableSort

  datatype Entry = Entry(id: string, receivedAt: string, message: string)

  /** The queue in memory, whether it was read yet, and the file (absent before the first write). */
  datatype Spill = Spill(entries: seq<Entry>, loaded: bool, file: Option<seq<Entry>>)

  datatype StorageError = StorageUnavailable | StorageWriteFailed

  /** How the file system answers during one change. */
  datatype Disk = Disk(readable: bool, writable: bool)

  /** Reading happens once; a missing file is an empty queue. */
  function Load(s: Spill, disk: Disk): Result<Spill, StorageError> {
    if s.loaded then Ok(s)
    else if s.file.None? then Ok(s.(entries := [], loaded := true))
    else if disk.readable then Ok(s.(entries := s.file.value, loaded := true))
    else Err(StorageUnavailable)
  }

  function Persist(s: Spill, disk: Disk): Spill {
    if disk.writable then s.(file := Some(s.entries)) else s
  }

  function Differs(id: string): Entry -> bool {
    (e: Entry) => e.id != id
  }

  function Refused(accepted: set<Entry>): Entry -> bool {
    (e: Entry) => e !in accepted
  }

  function Added(s: Spill, e: Entry, disk: Disk): (Spill, Option<StorageError>) {
    match Load(s, disk)
    case Err(error) => (s, Some(error))
    case Ok(ready) =>
      (Persist(ready.(entries := ready.entries + [e]), disk), if disk.writable then None else Some(StorageWriteFailed))
  }

  function Removed(s: Spill, id: string, disk: Disk): (Spill, Option<StorageError>) {
    match Load(s, disk)
    case Err(error) => (s, Some(error))
    case Ok(ready) =>
      var next := Filter(Differs(id), ready.entries);
      if |next| == |ready.entries| then (ready, None)
      else (Persist(ready.(entries := next), disk), if disk.writable then None else Some(StorageWriteFailed))
  }

  /** Every queued entry is offered once; `accepted` are those the handler takes. */
  function Drained(s: Spill, accepted: set<Entry>, disk: Disk): (Spill, Option<StorageError>) {
    match Load(s, disk)
    case Err(error) => (s, Some(error))
    case Ok(ready) =>
      var remaining := Filter(Refused(accepted), ready.entries);
      if |remaining| == |ready.entries| then (ready, None)
      else (Persist(ready.(entries := remaining), disk), if disk.writable then None else Some(StorageWriteFailed))
  }

  /** The entries a drain delivers. */
  function Offered(s: Spill, accepted: set<Entry>, disk: Disk): set<Entry> {
    match Load(s, disk)
    case Err(_) => {}
    case Ok(ready) => set e | e in ready.entries && e in accepted
  }

  lemma {:induction false} FilterOneMore(keep: Entry -> bool, s: seq<Entry>, i: nat)
    requires i < |s|
    ensures Filter(keep, s[..i + 1]) == Filter(keep, s[..i]) + (if keep(s[i]) then [s[i]] else [])
  {
    assert s[..i + 1] == s[..i] + [s[i]];
    FilterAppend(keep, s[..i], [s[i]]);
    assert [s[i]][1..] == [];
  }

  /** The retry loop: offer each entry once and keep what was refused, in order. */
  method OfferEach(s: seq<Entry>, accepted: set<Entry>) returns (remaining: seq<Entry>, changed: bool)
    ensures remaining == Filter(Refused(accepted), s) && changed == (|remaining| < |s|)
  {
    remaining := [];
    changed := false;
    for i := 0 to |s|
      invariant remaining == Filter(Refused(accepted), s[..i]) && changed == (|remaining| < i)
    {
      FilterOneMore(Refused(accepted), s, i);
      if s[i] in accepted { changed := true; } else { remaining := remaining + [s[i]]; }
    }
    assert s[..|s|] == s;
  }

  class FeedbackSpill {
    var entries: seq<Entry>
    var loaded: bool
    var file: Option<seq<Entry>>

    constructor (file: Option<seq<Entry>>)
      ensures State() == Spill([], false, file)
    {
      entries := [];
      loaded := false;
      this.file := file;
    }

    function State(): Spill
      reads this
    {
      Spill(entries, loaded, file)
    }

    method ReadFile(disk: Disk) returns (error: Option<StorageError>)
      modifies this`entries, this`loaded
      ensures match Load(old(State()), disk)
        case Err(e) => State() == old(State()) && error == Some(e)
        case Ok(ready) => State() == ready && error.None?
    {
      if loaded { return None; }
      if file.None? {
        entries := [];
      } else if disk.readable {
        entries := file.value;
      } else {
        return Some(StorageUnavailable);
      }
      loaded := true;
      return None;
    }

    method WriteFile(disk: Disk) returns (error: Option<StorageError>)
      modifies this`file
      ensures State() == Persist(old(State()), disk)
      ensures error == if disk.writable then None else Some(StorageWriteFailed)
    {
      if !disk.writable { return Some(StorageWriteFailed); }
      file := Some(entries);
      return None;
    }

    method Add(e: Entry, disk: Disk) returns (error: Option<StorageError>)
      modifies this
      ensures (State(), error) == Added(old(State()), e, disk)
    {
      error := ReadFile(disk);
      if error.Some? { return; }
      entries := entries + [e];
      error := WriteFile(disk);
    }

    method Remove(id: string, disk: Disk) returns (error: Option<StorageError>)
      modifies this
      ensures (State(), error) == Removed(old(State()), id, disk)
    {
      error := ReadFile(disk);
      if error.Some? { return; }
      var next := Filter(Differs(id), entries);
      if |next| == |entries| { return; }
      entries := next;
      error := WriteFile(disk);
    }

    /** What the handler accepts leaves the queue. */
    method Drain(accepted: set<Entry>, disk: Disk) returns (error: Option<StorageError>)
      modifies this
      ensures (State(), error) == Drained(old(State()), accepted, disk)
    {
      error := ReadFile(disk);
      if error.Some? { return; }
      var remaining, changed := OfferEach(entries, accepted);
      AllKept(Refused(accepted), entries);
      entries := remaining;
      if !changed { return; }
      error := WriteFile(disk);
    }
  }

  lemma {:induction false} AllKept(keep: Entry -> bool, s: seq<Entry>)
    ensures |Filter(keep, s)| == |s| ==> Filter(keep, s) == s
    decreases |s|
  {
    if s != [] { AllKept(keep, s[1..]); }
  }
}
