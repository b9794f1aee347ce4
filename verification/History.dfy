/**
 Rebuilding game state from the chain's history: drop what a reorganisation removed, sort by accepting
 DAA score, and fold the confirmed events from a checkpoint.
 Scores and confirmation counts are the integers the source coerces them to.
 */
module History {
  import opened Outcomes
  import opened StableSort

  /** A reported game state as script truthiness sees it; `Content` stands for any truthy value. */
  datatype State = Null | False | Zero | EmptyText | Content(text: string)

  predicate Truthy(s: State) { s.Content? }

  /** What a node may say about a transaction; `status` is empty when absent. */
  datatype Observation = Observation(
    status: string,
    conflicting: bool,
    unsupported: bool,
    expired: bool,
    rejected: bool,
    confirmed: bool,
    pending: bool,
    accepted: bool,
    confirmations: Option<int>)

  datatype Class = Conflicting | Unsupported | Expired | Rejected | Confirmed | Pending | Unknown

  function Classify(o: Observation): Class {
    if o.conflicting || o.status == "conflicting" then Conflicting
    else if o.unsupported then Unsupported
    else if o.expired || o.status == "expired" then Expired
    else if o.rejected || o.status == "rejected" then Rejected
    else if o.confirmed || (o.confirmations.Some? && o.confirmations.value >= 1) || o.status == "confirmed"
        then Confirmed
    else if o.pending || o.status == "pending" || o.status == "observed" then Pending
    else if o.accepted || o.status == "accepted" || o.status == "mempool" then Pending
    else Unknown
  }

  datatype Event = Event(id: Option<string>, block: Option<string>, daa: int, daaText: string, seen: Observation,
      state: Option<State>)

  datatype Checkpoint = Checkpoint(id: Option<string>, block: Option<string>, daa: int, applied: seq<string>,
      state: State)

  datatype RunningState = RunningState(state: State, applied: seq<string>, pending: seq<string>)

  datatype Status = IsConfirmed | IsPending | IsUnknown

  datatype Report = Report(state: State, status: Status, pending: seq<string>, applied: seq<string>,
      checkpoint: Checkpoint, rebuilt: bool)

  datatype HistoryError = InvalidHistory

  /** The text of a field that may be missing. */
  function Text(o: Option<string>): string {
    if o.None? then "undefined" else o.value
  }

  predicate HasId(e: Event) {
    e.id.Some? && e.id.value != ""
  }

  function Confirmations(e: Event, depth: int): int {
    if e.seen.confirmations.Some? then e.seen.confirmations.value
    else if Classify(e.seen).Confirmed? then depth else 0
  }

  predicate Qualifies(e: Event, depth: int) {
    Classify(e.seen).Confirmed? && Confirmations(e, depth) >= depth
  }

  predicate Survives(e: Event, removed: set<string>) {
    Text(e.block) !in removed && Text(e.id) !in removed
  }

  predicate NoLater(a: Event, b: Event) {
    a.daa <= b.daa
  }

  lemma DaaOrder()
    ensures TotalPreorder(NoLater)
  {
  }

  function Survivor(removed: set<string>): Event -> bool {
    (e: Event) => Survives(e, removed)
  }

  function Surviving(events: seq<Event>, removed: set<string>): seq<Event> {
    Filter(Survivor(removed), events)
  }

  function Valid(events: seq<Event>, removed: set<string>): seq<Event> {
    Sort(NoLater, Surviving(events, removed))
  }

  predicate Invalid(c: Checkpoint, removed: set<string>) {
    Text(c.block) in removed || Text(c.id) in removed || exists i :: 0 <= i < |c.applied| && c.applied[i] in removed
  }

  function StartFrom(checkpoint: Option<Checkpoint>, removed: set<string>): RunningState {
    if checkpoint.None? || Invalid(checkpoint.value, removed) then RunningState(Null, [], [])
    else RunningState(if Truthy(checkpoint.value.state) then checkpoint.value.state else Null,
        checkpoint.value.applied, [])
  }

  function Decimal(n: nat): string {
    if n < 10 then ["0123456789"[n]] else Decimal(n / 10) + ["0123456789"[n % 10]]
  }

  function Add(applied: seq<string>, name: string): seq<string> {
    if name in applied then applied else applied + [name]
  }

  function NameOf(e: Event, applied: seq<string>): string {
    if e.id.Some? then e.id.value else e.daaText + ":" + Decimal(|applied|)
  }

  function Apply(acc: RunningState, e: Event, depth: int): RunningState {
    if HasId(e) && e.id.value in acc.applied then acc
    else if !Qualifies(e, depth) then
      if Classify(e.seen).Pending? then acc.(pending := acc.pending + [if e.id.Some? then e.id.value else e.daaText])
          else acc
    else acc.(state := if e.state.Some? then e.state.value else acc.state,
        applied := Add(acc.applied, NameOf(e, acc.applied)))
  }

  function Fold(acc: RunningState, events: seq<Event>, depth: int): RunningState
    decreases |events|
  {
    if events == [] then acc else Fold(Apply(acc, events[0], depth), events[1..], depth)
  }

  function Latest(events: seq<Event>, sofar: int): int
    decreases |events|
  {
    if events == [] then sofar else Latest(events[1..], if events[0].daa > sofar then events[0].daa else sofar)
  }

  predicate NotEmpty(name: string) {
    name != ""
  }

  function Replayed(events: seq<Event>, checkpoint: Option<Checkpoint>, removed: set<string>,
          depth: int): RunningState
  {
    Fold(StartFrom(checkpoint, removed), Valid(events, removed), depth)
  }

  function Reduce(events: seq<Event>, checkpoint: Option<Checkpoint>, removed: set<string>,
          depth: int): Result<Report, HistoryError>
  {
    if depth < 1 then Err(InvalidHistory)
    else
      var end := Replayed(events, checkpoint, removed, depth);
      Ok(Report(end.state,
                if Truthy(end.state) then IsConfirmed else if end.pending != [] then IsPending else IsUnknown,
                Filter(NotEmpty, end.pending),
                end.applied,
                Checkpoint(None, None, Latest(Valid(events, removed), 0), end.applied, end.state),
                removed != {}))
  }

  /** The reducer as the source runs it: one pass over the sorted survivors. */
  method ReduceGameHistory(events: seq<Event>, checkpoint: Option<Checkpoint>, removed: set<string>, depth: int)
    returns (r: Result<Report, HistoryError>)
    ensures r == Reduce(events, checkpoint, removed, depth)
  {
    if depth < 1 { return Err(InvalidHistory); }
    var valid := Sort(NoLater, Filter(Survivor(removed), events));
    var applied := if checkpoint.Some? then checkpoint.value.applied else [];
    var invalid := checkpoint.Some? && Invalid(checkpoint.value, removed);
    var state := if invalid || checkpoint.None? || !Truthy(checkpoint.value.state) then Null
        else checkpoint.value.state;
    if invalid { applied := []; }
    var pending: seq<string> := [];
    var latest := 0;
    for i := 0 to |valid|
      invariant Fold(RunningState(state, applied, pending), valid[i..], depth)
          == Fold(StartFrom(checkpoint, removed), valid, depth)
      invariant Latest(valid[i..], latest) == Latest(valid, 0)
    {
      var e := valid[i];
      assert valid[i..][0] == e && valid[i..][1..] == valid[i + 1..];
      if e.daa > latest { latest := e.daa; }
      if HasId(e) && e.id.value in applied {
      } else if !Qualifies(e, depth) {
        if Classify(e.seen).Pending? { pending := pending + [if e.id.Some? then e.id.value else e.daaText]; }
      } else {
        if e.state.Some? { state := e.state.value; }
        applied := Add(applied, NameOf(e, applied));
      }
    }
    assert Fold(RunningState(state, applied, pending), [], depth) == RunningState(state, applied, pending);
    assert Latest([], latest) == latest;
    return Ok(Report(state,
                     if Truthy(state) then IsConfirmed else if pending != [] then IsPending else IsUnknown,
                     Filter(NotEmpty, pending),
                     applied,
                     Checkpoint(None, None, latest, applied, state),
                     removed != {}));
  }
}
