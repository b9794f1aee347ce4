/** What a report of the reducer says, told from the events alone. */
module HistoryReport {
  import opened Outcomes
  import opened StableSort
  import opened History

  // --- What counts ---------------------------------------------------------

  /** The node says something against the transaction. */
  ghost predicate SpokenAgainst(o: Observation) {
    o.conflicting || o.unsupported || o.expired || o.rejected || o.status in ["conflicting", "expired", "rejected"]
  }

  ghost predicate SaidConfirmed(o: Observation) {
    o.confirmed || o.status == "confirmed" || (o.confirmations.Some? && o.confirmations.value >= 1)
  }

  ghost predicate SaidPending(o: Observation) {
    o.pending || o.accepted || o.status in ["pending", "observed", "accepted", "mempool"]
  }

  /** A transaction is confirmed when something says so and nothing speaks against it, pending when it is merely
      seen, and the worst that is said of it decides otherwise. */
  lemma ClassIs(o: Observation)
    ensures Classify(o).Confirmed? <==> SaidConfirmed(o) && !SpokenAgainst(o)
    ensures Classify(o).Pending? <==> SaidPending(o) && !SaidConfirmed(o) && !SpokenAgainst(o)
    ensures Classify(o).Unknown? <==> !SaidPending(o) && !SaidConfirmed(o) && !SpokenAgainst(o)
    ensures o.conflicting || o.status == "conflicting" <==> Classify(o).Conflicting?
    ensures Classify(o).Rejected? ==> !o.unsupported && !o.expired && (o.rejected || o.status == "rejected")
    ensures Classify(o).Expired? ==> !o.unsupported && (o.expired || o.status == "expired")
    ensures Classify(o).Unsupported? ==> o.unsupported
  {
  }

  /** Confirmed, and as deep as was asked for, unless nobody counted. */
  ghost predicate IsDeep(e: Event, depth: int) {
    SaidConfirmed(e.seen) && !SpokenAgainst(e.seen)
    && (e.seen.confirmations.Some? ==> e.seen.confirmations.value >= depth)
  }

  lemma DeepIff(e: Event, depth: int)
    ensures Qualifies(e, depth) <==> IsDeep(e, depth)
  {
    ClassIs(e.seen);
  }

  /** Its block or its id was removed; what is missing goes by the name `undefined`. */
  ghost predicate IsRemoved(e: Event, removed: set<string>) {
    || (e.block.Some? && e.block.value in removed) || (e.id.Some? && e.id.value in removed)
    || ((e.block.None? || e.id.None?) && "undefined" in removed)
  }

  /** The reducer goes through exactly the events that were not removed, by rising score. */
  lemma {:induction false} GoesThrough(events: seq<Event>, removed: set<string>)
    ensures forall e :: e in Valid(events, removed) <==> e in events && !IsRemoved(e, removed)
    ensures forall i, j :: 0 <= i < j < |Valid(events, removed)| ==>
              Valid(events, removed)[i].daa <= Valid(events, removed)[j].daa
  {
    DaaOrder();
    SortIsSorted(NoLater, Surviving(events, removed));
    forall e ensures e in Valid(events, removed) <==> e in events && !IsRemoved(e, removed) {
      SortMembers(NoLater, Surviving(events, removed), e);
    }
  }

  // --- What one pass leaves ------------------------------------------------

  /** The event at `k` is applied: it is deep, and its id was not applied before. */
  ghost predicate AppliesAt(acc: RunningState, s: seq<Event>, k: nat, depth: int)
    requires k < |s|
  {
    IsDeep(s[k], depth)
    && (s[k].id.Some? && s[k].id.value != "" ==> s[k].id.value !in Fold(acc, s[..k], depth).applied)
  }

  ghost predicate SetsAt(acc: RunningState, s: seq<Event>, k: nat, depth: int)
    requires k < |s|
  {
    AppliesAt(acc, s, k, depth) && s[k].state.Some?
  }

  lemma {:induction false} FoldLast(acc: RunningState, s: seq<Event>, e: Event, depth: int)
    ensures Fold(acc, s + [e], depth) == Apply(Fold(acc, s, depth), e, depth)
    decreases |s|
  {
    if s == [] {
      assert s + [e] == [e] && [e][1..] == [];
      assert Fold(Apply(acc, e, depth), [], depth) == Apply(acc, e, depth);
    } else {
      assert (s + [e])[1..] == s[1..] + [e];
      FoldLast(Apply(acc, s[0], depth), s[1..], e, depth);
    }
  }

  lemma {:induction false} FoldTo(acc: RunningState, s: seq<Event>, k: nat, depth: int)
    requires k < |s|
    ensures Fold(acc, s[..k + 1], depth) == Apply(Fold(acc, s[..k], depth), s[k], depth)
  {
    assert s[..k + 1] == s[..k] + [s[k]];
    FoldLast(acc, s[..k], s[k], depth);
  }

  /** The state is the one set last, or the one it started from. */
  lemma {:induction false} StateIsLastSet(acc: RunningState, s: seq<Event>, n: nat, depth: int)
    requires n <= |s|
    ensures var r := Fold(acc, s[..n], depth).state;
      || (r == acc.state && forall k :: 0 <= k < n ==> !SetsAt(acc, s, k, depth))
      || (exists k :: 0 <= k < n && SetsAt(acc, s, k, depth) && s[k].state == Some(r)
                      && forall j :: k < j < n ==> !SetsAt(acc, s, j, depth))
    decreases n
  {
    if n == 0 {
      assert s[..0] == [];
    } else {
      StateIsLastSet(acc, s, n - 1, depth);
      FoldTo(acc, s, n - 1, depth);
      DeepIff(s[n - 1], depth);
    }
  }

  ghost predicate IsDeepAs(e: Event, depth: int, id: string) {
    IsDeep(e, depth) && e.id == Some(id)
  }

  /** The id of a deep event among the first `n`. */
  ghost predicate IsDeepId(s: seq<Event>, n: nat, depth: int, id: string)
    requires n <= |s|
  {
    exists k :: 0 <= k < n && IsDeepAs(s[k], depth, id)
  }

  lemma {:induction false} DeepIdStep(s: seq<Event>, n: nat, depth: int, id: string)
    requires 0 < n <= |s|
    ensures IsDeepId(s, n, depth, id) <==>
      IsDeepId(s, n - 1, depth, id) || IsDeepAs(s[n - 1], depth, id)
  {
  }

  lemma ApplyIs(acc: RunningState, e: Event, depth: int, id: string)
    requires id != "" && (IsDeep(e, depth) ==> e.id.Some? && e.id.value != "")
    ensures id in Apply(acc, e, depth).applied <==> id in acc.applied || IsDeepAs(e, depth, id)
  {
    DeepIff(e, depth);
  }

  /** An id is applied if it was to begin with, or is the id of a deep event; and nothing is ever taken back. */
  lemma {:induction false} AppliedAre(acc: RunningState, s: seq<Event>, n: nat, depth: int, id: string)
    requires n <= |s| && id != ""
    requires forall e :: e in s && IsDeep(e, depth) ==> e.id.Some? && e.id.value != ""
    ensures id in Fold(acc, s[..n], depth).applied <==> id in acc.applied || IsDeepId(s, n, depth, id)
    decreases n
  {
    if n == 0 {
      assert s[..0] == [];
    } else {
      assert s[n - 1] in s;
      AppliedAre(acc, s, n - 1, depth, id);
      FoldTo(acc, s, n - 1, depth);
      ApplyIs(Fold(acc, s[..n - 1], depth), s[n - 1], depth, id);
      DeepIdStep(s, n, depth, id);
    }
  }

  /** The event at `k` is merely seen, and its id was not applied before it. */
  ghost predicate WaitsAt(acc: RunningState, s: seq<Event>, k: nat, depth: int, name: string)
    requires k < |s|
  {
    && SaidPending(s[k].seen) && !SaidConfirmed(s[k].seen) && !SpokenAgainst(s[k].seen)
    && name == (if s[k].id.Some? then s[k].id.value else s[k].daaText)
    && (s[k].id.Some? && s[k].id.value != "" ==> s[k].id.value !in Fold(acc, s[..k], depth).applied)
  }

  ghost predicate IsWaiting(acc: RunningState, s: seq<Event>, n: nat, depth: int, name: string)
    requires n <= |s|
  {
    exists k :: 0 <= k < n && WaitsAt(acc, s, k, depth, name)
  }

  lemma {:induction false} WaitingStep(acc: RunningState, s: seq<Event>, k: nat, depth: int, name: string)
    requires k < |s|
    ensures name in Apply(Fold(acc, s[..k], depth), s[k], depth).pending <==>
      name in Fold(acc, s[..k], depth).pending || WaitsAt(acc, s, k, depth, name)
  {
    ClassIs(s[k].seen);
    DeepIff(s[k], depth);
  }

  /** What is pending are the events that wait. */
  lemma {:induction false} PendingAre(acc: RunningState, s: seq<Event>, n: nat, depth: int, name: string)
    requires n <= |s|
    ensures name in Fold(acc, s[..n], depth).pending <==> name in acc.pending || IsWaiting(acc, s, n, depth, name)
    decreases n
  {
    if n == 0 {
      assert s[..0] == [];
    } else {
      PendingAre(acc, s, n - 1, depth, name);
      FoldTo(acc, s, n - 1, depth);
      WaitingStep(acc, s, n - 1, depth, name);
      assert IsWaiting(acc, s, n, depth, name) <==>
        IsWaiting(acc, s, n - 1, depth, name) || WaitsAt(acc, s, n - 1, depth, name);
    }
  }

  lemma {:induction false} LatestIsMost(events: seq<Event>, sofar: int)
    ensures Latest(events, sofar) >= sofar && forall e :: e in events ==> e.daa <= Latest(events, sofar)
    ensures Latest(events, sofar) == sofar || exists e :: e in events && e.daa == Latest(events, sofar)
    decreases |events|
  {
    if events != [] { LatestIsMost(events[1..], if events[0].daa > sofar then events[0].daa else sofar); }
  }

  // --- The report ----------------------------------------------------------

  /** The checkpoint can be resumed from: neither it nor anything it applied was removed. */
  ghost predicate Stands(checkpoint: Checkpoint, removed: set<string>) {
    && (checkpoint.id.Some? ==> checkpoint.id.value !in removed)
    && (checkpoint.block.Some? ==> checkpoint.block.value !in removed)
    && (checkpoint.id.None? || checkpoint.block.None? ==> "undefined" !in removed)
    && forall id :: id in checkpoint.applied ==> id !in removed
  }

  /** Where a replay starts: from a checkpoint that stands, with its state unless that is falsy, or from nothing. */
  ghost function Start(checkpoint: Option<Checkpoint>, removed: set<string>): RunningState {
    if checkpoint.Some? && Stands(checkpoint.value, removed)
    then RunningState(if checkpoint.value.state.Content? then checkpoint.value.state else Null,
                      checkpoint.value.applied, [])
    else RunningState(Null, [], [])
  }

  /** The reported state, applied list and pending list, from where the replay starts and the surviving events by
      rising score. */
  lemma {:induction false} ReportSays(events: seq<Event>, checkpoint: Option<Checkpoint>, removed: set<string>,
          depth: int)
    requires depth >= 1
    ensures Reduce(events, checkpoint, removed, depth).Ok?
    ensures var r, s, start := Reduce(events, checkpoint, removed, depth).value, Valid(events, removed),
        Start(checkpoint, removed);
      && ((r.state == start.state && forall k :: 0 <= k < |s| ==> !SetsAt(start, s, k, depth))
          || exists k :: 0 <= k < |s| && SetsAt(start, s, k, depth) && s[k].state == Some(r.state)
                         && forall j :: k < j < |s| ==> !SetsAt(start, s, j, depth))
      && (forall name :: name in r.pending <==> name != "" && IsWaiting(start, s, |s|, depth, name))
      && ((forall e :: e in s && IsDeep(e, depth) ==> e.id.Some? && e.id.value != "") ==>
            forall id :: id in r.applied && id != "" <==>
              id != "" && (id in start.applied || exists e :: e in s && IsDeepAs(e, depth, id)))
  {
    var s, start := Valid(events, removed), Start(checkpoint, removed);
    StartIs(checkpoint, removed);
    assert s[..|s|] == s;
    StateIsLastSet(start, s, |s|, depth);
    forall name ensures name in Fold(start, s, depth).pending <==> IsWaiting(start, s, |s|, depth, name) {
      PendingAre(start, s, |s|, depth, name);
    }
    if forall e :: e in s && IsDeep(e, depth) ==> e.id.Some? && e.id.value != "" {
      forall id | id != ""
        ensures id in Fold(start, s, depth).applied <==>
          id in start.applied || exists e :: e in s && IsDeepAs(e, depth, id)
      {
        AppliedAre(start, s, |s|, depth, id);
        assert IsDeepId(s, |s|, depth, id) <==> exists e :: e in s && IsDeepAs(e, depth, id);
      }
    }
  }

  /** Everything else in the report: a depth below one is refused; the status follows the state and the pending
      events; the checkpoint holds what is reported, up to the highest score seen. */
  lemma {:induction false} ReportCarries(events: seq<Event>, checkpoint: Option<Checkpoint>, removed: set<string>,
          depth: int)
    ensures depth < 1 ==> Reduce(events, checkpoint, removed, depth) == Err(InvalidHistory)
    ensures depth >= 1 && Reduce(events, checkpoint, removed, depth).Ok? ==>
      var r, s, start := Reduce(events, checkpoint, removed, depth).value, Valid(events, removed),
        Start(checkpoint, removed);
      && (r.status.IsConfirmed? <==> r.state.Content?)
      && (r.status.IsPending? <==> !r.state.Content? && exists name :: IsWaiting(start, s, |s|, depth, name))
      && (r.rebuilt <==> exists x :: x in removed)
      && r.checkpoint == Checkpoint(None, None, r.checkpoint.daa, r.applied, r.state)
      && r.checkpoint.daa >= 0 && (forall e :: e in s ==> e.daa <= r.checkpoint.daa)
      && (r.checkpoint.daa == 0 || exists e :: e in s && e.daa == r.checkpoint.daa)
  {
    if depth >= 1 {
      var s, start := Valid(events, removed), Start(checkpoint, removed);
      StartIs(checkpoint, removed);
      assert s[..|s|] == s;
      forall name ensures name in Fold(start, s, depth).pending <==> IsWaiting(start, s, |s|, depth, name) {
        PendingAre(start, s, |s|, depth, name);
      }
      var pending := Fold(start, s, depth).pending;
      assert pending != [] ==> pending[0] in pending;
      LatestIsMost(s, 0);
    }
  }

  lemma StartIs(checkpoint: Option<Checkpoint>, removed: set<string>)
    ensures StartFrom(checkpoint, removed) == Start(checkpoint, removed)
  {
    if checkpoint.Some? {
      var applied := checkpoint.value.applied;
      assert (exists i :: 0 <= i < |applied| && applied[i] in removed) <==>
        exists id :: id in applied && id in removed;
    }
  }
}
