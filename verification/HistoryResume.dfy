/** Resuming from a checkpoint against replaying everything, as the history grows and as it is reorganised. */
module HistoryResume {
  import opened Outcomes
  import opened StableSort
  import opened History

  const Fresh := RunningState(Null, [], [])

  /** A state a checkpoint cannot carry: it is falsy, so the resumed run starts from nothing. */
  predicate Lost(s: State) {
    !Truthy(s) && !s.Null?
  }

  function Carried(s: State): State {
    if Truthy(s) then s else Null
  }

  ghost predicate IdsOnConfirmed(events: seq<Event>, depth: int) {
    forall e :: e in events && Qualifies(e, depth) ==> HasId(e)
  }

  ghost predicate NewAreLater(earlier: seq<Event>, later: seq<Event>) {
    forall a, b :: a in earlier && b in later ==> a.daa <= b.daa
  }

  // --- The fold ------------------------------------------------------------

  lemma {:induction false} FoldAppend(acc: RunningState, a: seq<Event>, b: seq<Event>, depth: int)
    ensures Fold(acc, a + b, depth) == Fold(Fold(acc, a, depth), b, depth)
    decreases |a|
  {
    if a == [] {
      assert a + b == b;
    } else {
      assert (a + b)[1..] == a[1..] + b;
      FoldAppend(Apply(acc, a[0], depth), a[1..], b, depth);
    }
  }

  lemma {:induction false} AppliedGrows(acc: RunningState, events: seq<Event>, depth: int)
    ensures acc.applied <= Fold(acc, events, depth).applied
    decreases |events|
  {
    if events != [] { AppliedGrows(Apply(acc, events[0], depth), events[1..], depth); }
  }

  lemma InPrefix(a: seq<string>, b: seq<string>, x: string)
    requires a <= b && x in a
    ensures x in b
  {
    var i :| 0 <= i < |a| && a[i] == x;
    assert b[i] == x;
  }

  lemma {:induction false} ConfirmedIsApplied(acc: RunningState, events: seq<Event>, e: Event, depth: int)
    requires e in events && Qualifies(e, depth) && HasId(e)
    ensures e.id.value in Fold(acc, events, depth).applied
    decreases |events|
  {
    if events[0] == e {
      AppliedGrows(Apply(acc, e, depth), events[1..], depth);
      assert e.id.value in Apply(acc, e, depth).applied;
      InPrefix(Apply(acc, e, depth).applied, Fold(acc, events, depth).applied, e.id.value);
    } else {
      ConfirmedIsApplied(Apply(acc, events[0], depth), events[1..], e, depth);
    }
  }

  /** Events whose confirmations are all applied already change neither the state nor the applied list. */
  lemma {:induction false} Refold(acc: RunningState, events: seq<Event>, depth: int)
    requires forall e :: e in events && Qualifies(e, depth) ==> HasId(e) && e.id.value in acc.applied
    ensures Fold(acc, events, depth).state == acc.state && Fold(acc, events, depth).applied == acc.applied
    decreases |events|
  {
    if events != [] { Refold(Apply(acc, events[0], depth), events[1..], depth); }
  }

  /** Folding these events from this applied list applies one that carries a state. */
  predicate Restates(applied: seq<string>, events: seq<Event>, depth: int)
    decreases |events|
  {
    events != []
    && (Sets(applied, events[0], depth) || Restates(Apply(RunningState(Null, applied, []), events[0], depth).applied,
        events[1..], depth))
  }

  predicate Sets(applied: seq<string>, e: Event, depth: int) {
    !(HasId(e) && e.id.value in applied) && Qualifies(e, depth) && e.state.Some?
  }

  /** The fold reads the running state only to pass it on. */
  lemma {:induction false} FoldForgets(a: RunningState, b: RunningState, events: seq<Event>, depth: int)
    requires a.applied == b.applied
    ensures Fold(a, events, depth).applied == Fold(b, events, depth).applied
    ensures Restates(a.applied, events, depth) ==> Fold(a, events, depth).state == Fold(b, events, depth).state
    ensures !Restates(a.applied, events, depth) ==> Fold(a, events, depth).state == a.state
                                                    && Fold(b, events, depth).state == b.state
    decreases |events|
  {
    if events != [] {
      var a', b' := Apply(a, events[0], depth), Apply(b, events[0], depth);
      FoldForgets(a', b', events[1..], depth);
    }
  }

  /** Resuming over sorted history: `so` is what the checkpoint saw, `sn` what came later. */
  lemma {:induction false} ResumeOver(so: seq<Event>, sn: seq<Event>, state: State, applied: seq<string>, depth: int)
    requires IdsOnConfirmed(so, depth)
    requires state == Fold(Fresh, so, depth).state && applied == Fold(Fresh, so, depth).applied
    ensures var full := Fold(Fresh, so + sn, depth);
      var resumed := Fold(RunningState(Carried(state), applied, []), so + sn, depth);
      && resumed.applied == full.applied
      && (resumed.state == full.state <==> !Lost(state) || Restates(applied, sn, depth))
  {
    var start := RunningState(Carried(state), applied, []);
    FoldAppend(Fresh, so, sn, depth);
    FoldAppend(start, so, sn, depth);
    forall e | e in so && Qualifies(e, depth)
      ensures HasId(e) && e.id.value in applied
    {
      ConfirmedIsApplied(Fresh, so, e, depth);
    }
    Refold(start, so, depth);
    FoldForgets(Fold(start, so, depth), Fold(Fresh, so, depth), sn, depth);
  }

  // --- Growing history -----------------------------------------------------

  lemma {:induction false} NothingRemoved(events: seq<Event>)
    ensures Valid(events, {}) == Sort(NoLater, events)
  {
    FilterAll(Survivor({}), events);
  }

  lemma {:induction false} SurvivingSplits(earlier: seq<Event>, later: seq<Event>, removed: set<string>)
    requires NewAreLater(earlier, later)
    ensures Valid(earlier + later, removed) == Valid(earlier, removed) + Valid(later, removed)
  {
    FilterAppend(Survivor(removed), earlier, later);
    SortSplits(NoLater, Surviving(earlier, removed), Surviving(later, removed));
  }

  lemma {:induction false} IdsSurviveSorting(events: seq<Event>, removed: set<string>, depth: int)
    requires IdsOnConfirmed(events, depth)
    ensures IdsOnConfirmed(Valid(events, removed), depth)
  {
    forall e | e in Valid(events, removed) && Qualifies(e, depth)
      ensures HasId(e)
    {
      SortMembers(NoLater, Surviving(events, removed), e);
    }
  }

  /** Resuming from its own checkpoint applies exactly what a full replay applies, in the same order, when
      the history grew by events no earlier than the old ones and the old confirmed events carry ids.
      The state agrees as well exactly when the checkpoint could carry it or a later event replaces it. */
  lemma {:induction false} ResumeEqualsReplay(earlier: seq<Event>, later: seq<Event>, depth: int)
    requires depth >= 1 && IdsOnConfirmed(earlier, depth) && NewAreLater(earlier, later)
    ensures var checkpoint := Reduce(earlier, None, {}, depth).value.checkpoint;
      var resumed := Reduce(earlier + later, Some(checkpoint), {}, depth).value;
      var full := Reduce(earlier + later, None, {}, depth).value;
      && resumed.applied == full.applied
      && (resumed.state == full.state <==> !Lost(checkpoint.state)
                                           || Restates(checkpoint.applied, Sort(NoLater, later), depth))
  {
    SurvivingSplits(earlier, later, {});
    NothingRemoved(later);
    IdsSurviveSorting(earlier, {}, depth);
    var base := Replayed(earlier, None, {}, depth);
    ResumeOver(Valid(earlier, {}), Valid(later, {}), base.state, base.applied, depth);
  }

  // --- Pending transactions ------------------------------------------------

  function Unapplied(applied: seq<string>): string -> bool {
    (name: string) => name !in applied
  }

  /** An event without an id is pending under its score, which is no applied transaction. */
  ghost predicate ScoresAreNoIds(events: seq<Event>, applied: seq<string>) {
    forall e :: e in events && !HasId(e) ==> (if e.id.Some? then e.id.value else e.daaText) !in applied
  }

  /** Over the old events, what a resumed run leaves out of the pending list is exactly what was applied. */
  lemma {:induction false} PendingOver(acc: RunningState, again: RunningState, events: seq<Event>, depth: int)
    requires IdsOnConfirmed(events, depth) && ScoresAreNoIds(events, again.applied)
    requires again.applied == Fold(acc, events, depth).applied
    requires again.pending == Filter(Unapplied(again.applied), acc.pending)
    ensures Fold(again, events, depth).pending == Filter(Unapplied(again.applied), Fold(acc, events, depth).pending)
    ensures Fold(again, events, depth).applied == again.applied
    decreases |events|
  {
    if events != [] {
      var e := events[0];
      var next, next' := Apply(acc, e, depth), Apply(again, e, depth);
      AppliedGrows(acc, events, depth);
      if Qualifies(e, depth) { ConfirmedIsApplied(acc, events, e, depth); }
      if HasId(e) && e.id.value in acc.applied { InPrefix(acc.applied, again.applied, e.id.value); }
      if next.pending != acc.pending { OneMorePending(acc.pending, next.pending[|acc.pending|], again.applied); }
      PendingOver(next, next', events[1..], depth);
    }
  }

  lemma OneMorePending(pending: seq<string>, name: string, applied: seq<string>)
    ensures Filter(Unapplied(applied), pending + [name])
         == if name in applied then Filter(Unapplied(applied), pending)
             else Filter(Unapplied(applied), pending) + [name]
  {
    FilterAppend(Unapplied(applied), pending, [name]);
    assert [name][1..] == [];
  }

  /** Over the later events the two runs go alike. */
  lemma {:induction false} PendingAfter(acc: RunningState, again: RunningState, events: seq<Event>, held: seq<string>,
          depth: int)
    requires acc.applied == again.applied && held <= acc.applied && ScoresAreNoIds(events, held)
    requires again.pending == Filter(Unapplied(held), acc.pending)
    ensures Fold(again, events, depth).pending == Filter(Unapplied(held), Fold(acc, events, depth).pending)
    decreases |events|
  {
    if events != [] {
      var e := events[0];
      var next, next' := Apply(acc, e, depth), Apply(again, e, depth);
      if HasId(e) && e.id.value in held { InPrefix(held, acc.applied, e.id.value); }
      if next.pending != acc.pending { OneMorePending(acc.pending, next.pending[|acc.pending|], held); }
      PendingAfter(next, next', events[1..], held, depth);
    }
  }

  /** The pending list of a resumed run is that of a full replay less what the checkpoint already applied. */
  lemma {:induction false} ResumedPending(earlier: seq<Event>, later: seq<Event>, depth: int)
    requires depth >= 1 && IdsOnConfirmed(earlier, depth) && NewAreLater(earlier, later)
    requires ScoresAreNoIds(earlier + later, Reduce(earlier, None, {}, depth).value.checkpoint.applied)
    ensures var checkpoint := Reduce(earlier, None, {}, depth).value.checkpoint;
      var resumed := Reduce(earlier + later, Some(checkpoint), {}, depth).value;
      var full := Reduce(earlier + later, None, {}, depth).value;
      resumed.pending == Filter(Unapplied(checkpoint.applied), full.pending)
  {
    var so, sn := Valid(earlier, {}), Valid(later, {});
    SurvivingSplits(earlier, later, {});
    IdsSurviveSorting(earlier, {}, depth);
    var held := Fold(Fresh, so, depth).applied;
    var checkpoint := Reduce(earlier, None, {}, depth).value.checkpoint;
    var start := StartFrom(Some(checkpoint), {});
    assert ScoresAreNoIds(so, held) && ScoresAreNoIds(sn, held) by {
      forall e | e in so || e in sn ensures e in earlier + later {
        SortMembers(NoLater, Surviving(earlier, {}), e);
        SortMembers(NoLater, Surviving(later, {}), e);
      }
    }
    FoldAppend(Fresh, so, sn, depth);
    FoldAppend(start, so, sn, depth);
    PendingOver(Fresh, start, so, depth);
    PendingAfter(Fold(Fresh, so, depth), Fold(start, so, depth), sn, held, depth);
    FiltersCommute(NotEmpty, Unapplied(held), Fold(Fresh, so + sn, depth).pending);
  }

  // --- Reorganisations -----------------------------------------------------

  lemma ApplyAgrees(a: RunningState, b: RunningState, e: Event, depth: int)
    requires a.state == b.state && a.applied == b.applied
    ensures Apply(a, e, depth).state == Apply(b, e, depth).state
    ensures Apply(a, e, depth).applied == Apply(b, e, depth).applied
    ensures !Qualifies(e, depth) ==> Apply(a, e, depth).state == a.state && Apply(a, e, depth).applied == a.applied
  {
  }

  /** Leaving out events that were never applied changes nothing that was. */
  lemma {:induction false} DropUnapplied(acc: RunningState, without: RunningState, events: seq<Event>,
          removed: set<string>, depth: int)
    requires acc.state == without.state && acc.applied == without.applied
    requires forall e :: e in events && !Survives(e, removed) ==> !Qualifies(e, depth)
    ensures Fold(acc, events, depth).state == Fold(without, Filter(Survivor(removed), events), depth).state
    ensures Fold(acc, events, depth).applied == Fold(without, Filter(Survivor(removed), events), depth).applied
    decreases |events|
  {
    if events != [] {
      var e := events[0];
      ApplyAgrees(acc, without, e, depth);
      if Survives(e, removed) {
        assert Filter(Survivor(removed), events)[1..] == Filter(Survivor(removed), events[1..]);
        DropUnapplied(Apply(acc, e, depth), Apply(without, e, depth), events[1..], removed, depth);
      } else {
        assert Filter(Survivor(removed), events) == Filter(Survivor(removed), events[1..]);
        DropUnapplied(Apply(acc, e, depth), without, events[1..], removed, depth);
      }
    }
  }

  /** The removals name transactions, not blocks. */
  ghost predicate RemovesById(events: seq<Event>, removed: set<string>) {
    "undefined" !in removed && forall e :: e in events ==> Text(e.block) !in removed
  }

  lemma {:induction false} CheckpointSurvives(earlier: seq<Event>, removed: set<string>, depth: int)
    requires depth >= 1 && IdsOnConfirmed(earlier, depth) && RemovesById(earlier, removed)
    requires !Invalid(Reduce(earlier, None, {}, depth).value.checkpoint, removed)
    ensures var checkpoint := Reduce(earlier, None, {}, depth).value.checkpoint;
      var base := Fold(Fresh, Valid(earlier, removed), depth);
      base.state == checkpoint.state && base.applied == checkpoint.applied
  {
    var checkpoint := Reduce(earlier, None, {}, depth).value.checkpoint;
    NothingRemoved(earlier);
    DaaOrder();
    FilterSort(NoLater, Survivor(removed), earlier);
    forall e | e in Sort(NoLater, earlier) && !Survives(e, removed)
      ensures !Qualifies(e, depth)
    {
      SortMembers(NoLater, earlier, e);
      if Qualifies(e, depth) {
        ConfirmedIsApplied(Fresh, Sort(NoLater, earlier), e, depth);
        assert false;
      }
    }
    DropUnapplied(Fresh, Fresh, Sort(NoLater, earlier), removed, depth);
  }

  /** When a reorganisation names the transactions it removed, resuming equals replaying the survivors. */
  lemma {:induction false} ReorganisedResumeEqualsReplay(earlier: seq<Event>, later: seq<Event>, removed: set<string>,
          depth: int)
    requires depth >= 1 && IdsOnConfirmed(earlier, depth) && NewAreLater(earlier, later)
    requires RemovesById(earlier + later, removed)
    ensures var checkpoint := Reduce(earlier, None, {}, depth).value.checkpoint;
      var resumed := Reduce(earlier + later, Some(checkpoint), removed, depth).value;
      var full := Reduce(Surviving(earlier + later, removed), None, {}, depth).value;
      && resumed.applied == full.applied
      && (resumed.state == full.state <==>
            Invalid(checkpoint, removed) || !Lost(checkpoint.state)
                || Restates(checkpoint.applied, Valid(later, removed), depth))
  {
    var checkpoint := Reduce(earlier, None, {}, depth).value.checkpoint;
    NothingRemoved(Surviving(earlier + later, removed));
    if !Invalid(checkpoint, removed) {
      SurvivingSplits(earlier, later, removed);
      IdsSurviveSorting(earlier, removed, depth);
      CheckpointSurvives(earlier, removed, depth) by {
        assert forall e :: e in earlier ==> e in earlier + later;
      }
      ResumeOver(Valid(earlier, removed), Valid(later, removed), checkpoint.state, checkpoint.applied, depth);
    }
  }

  /** The order a node reports the events in does not matter when no two share a score. */
  lemma {:induction false} ReplayIgnoresReportingOrder(a: seq<Event>, b: seq<Event>, checkpoint: Option<Checkpoint>,
          removed: set<string>, depth: int)
    requires multiset(a) == multiset(b) && NoTies(NoLater, a)
    ensures Reduce(a, checkpoint, removed, depth) == Reduce(b, checkpoint, removed, depth)
  {
    DaaOrder();
    SortIgnoresOrder(NoLater, a, b);
    FilterSort(NoLater, Survivor(removed), a);
    FilterSort(NoLater, Survivor(removed), b);
  }

  // --- Removal by block ----------------------------------------------------

  ghost function ConfirmedIds(events: seq<Event>, depth: int): set<string>
    requires IdsOnConfirmed(events, depth)
  {
    set e | e in events && Qualifies(e, depth) :: e.id.value
  }

  ghost function Elements(s: seq<string>): set<string> {
    set x | x in s
  }

  /** The applied list, as a set, is the ids of the confirmed events: the order they came in does not matter. */
  lemma {:induction false} AppliedIsConfirmed(acc: RunningState, events: seq<Event>, depth: int)
    requires IdsOnConfirmed(events, depth)
    ensures Elements(Fold(acc, events, depth).applied) == Elements(acc.applied) + ConfirmedIds(events, depth)
    decreases |events|
  {
    if events != [] {
      assert events == [events[0]] + events[1..];
      AppliedIsConfirmed(Apply(acc, events[0], depth), events[1..], depth);
      assert ConfirmedIds(events, depth)
          == ConfirmedIds(events[1..], depth) + (if Qualifies(events[0], depth) then {events[0].id.value} else {});
      assert Elements(Apply(acc, events[0], depth).applied)
          == Elements(acc.applied) + (if Qualifies(events[0], depth) then {events[0].id.value} else {});
    }
  }

  lemma {:induction false} ConfirmedIdsOfValid(events: seq<Event>, removed: set<string>, depth: int)
    requires IdsOnConfirmed(events, depth)
    ensures IdsOnConfirmed(Valid(events, removed), depth)
    ensures ConfirmedIds(Valid(events, removed), depth) == set e | e in events && Survives(e, removed)
        && Qualifies(e, depth) :: e.id.value
  {
    forall e
      ensures e in Valid(events, removed) <==> e in events && Survives(e, removed)
    {
      SortMembers(NoLater, Surviving(events, removed), e);
    }
  }

  ghost predicate StillConfirmed(events: seq<Event>, removed: set<string>, id: string, depth: int) {
    exists e :: e in events && Survives(e, removed) && Qualifies(e, depth) && HasId(e) && e.id.value == id
  }

  /** With removals of any kind, a resumed run reports the applied transactions of the surviving history
      exactly when the checkpoint is dropped or none of its transactions lost its last confirmed event. */
  lemma {:induction false} ReorganisedAppliedIff(earlier: seq<Event>, later: seq<Event>, removed: set<string>,
          depth: int)
    requires depth >= 1 && IdsOnConfirmed(earlier + later, depth)
    ensures var checkpoint := Reduce(earlier, None, {}, depth).value.checkpoint;
      var resumed := Reduce(earlier + later, Some(checkpoint), removed, depth).value;
      var full := Reduce(Surviving(earlier + later, removed), None, {}, depth).value;
      Elements(resumed.applied) == Elements(full.applied) <==>
      Invalid(checkpoint, removed) || forall id :: id in checkpoint.applied ==>
        StillConfirmed(earlier + later, removed, id, depth)
  {
    var checkpoint := Reduce(earlier, None, {}, depth).value.checkpoint;
    NothingRemoved(Surviving(earlier + later, removed));
    ConfirmedIdsOfValid(earlier + later, removed, depth);
    var valid := Valid(earlier + later, removed);
    AppliedIsConfirmed(Fresh, valid, depth);
    AppliedIsConfirmed(StartFrom(Some(checkpoint), removed), valid, depth);
    var survived := ConfirmedIds(valid, depth);
    forall id ensures id in survived <==> StillConfirmed(earlier + later, removed, id, depth) {
      if StillConfirmed(earlier + later, removed, id, depth) {
        var e :| e in earlier + later && Survives(e, removed) && Qualifies(e, depth) && HasId(e) && e.id.value == id;
      }
    }
    if !Invalid(checkpoint, removed) {
      assert Elements(checkpoint.applied) + survived == survived <==> Elements(checkpoint.applied) <= survived;
      assert Elements(checkpoint.applied) <= survived <==> forall id :: id in checkpoint.applied ==> id in survived;
    }
  }

  /** The state the last of these events sets that is not applied yet. */
  function LastSet(applied: seq<string>, events: seq<Event>, depth: int): Option<State>
    decreases |events|
  {
    if events == [] then None
    else
      var later := LastSet(Apply(RunningState(Null, applied, []), events[0], depth).applied, events[1..], depth);
      if later.Some? then later else if Sets(applied, events[0], depth) then events[0].state else None
  }

  function Either(news: Option<State>, kept: State): State {
    if news.Some? then news.value else kept
  }

  lemma {:induction false} FoldSets(acc: RunningState, events: seq<Event>, depth: int)
    ensures Fold(acc, events, depth).state == Either(LastSet(acc.applied, events, depth), acc.state)
    ensures LastSet(acc.applied, events, depth).Some? <==> Restates(acc.applied, events, depth)
    decreases |events|
  {
    if events != [] { FoldSets(Apply(acc, events[0], depth), events[1..], depth); }
  }

  /** The two lists agree on the ids of these events. */
  ghost predicate AgreeOn(a: seq<string>, b: seq<string>, events: seq<Event>) {
    forall e :: e in events && HasId(e) ==> (e.id.value in a <==> e.id.value in b)
  }

  lemma {:induction false} SameLastSet(a: seq<string>, b: seq<string>, events: seq<Event>, depth: int)
    requires AgreeOn(a, b, events) && IdsOnConfirmed(events, depth)
    ensures LastSet(a, events, depth) == LastSet(b, events, depth)
    decreases |events|
  {
    if events != [] {
      var x, y := Apply(RunningState(Null, a, []), events[0], depth).applied, Apply(RunningState(Null, b, []),
          events[0], depth).applied;
      assert AgreeOn(x, y, events[1..]) by {
        forall e | e in events[1..] && HasId(e) ensures e.id.value in x <==> e.id.value in y { assert e in events; }
      }
      SameLastSet(x, y, events[1..], depth);
    }
  }

  /** The old events that a removal of any kind leaves, replayed. */
  function Survived(earlier: seq<Event>, removed: set<string>, depth: int): RunningState {
    Fold(Fresh, Valid(earlier, removed), depth)
  }

  /** With removals of any kind that leave the checkpoint standing, the resumed state is right exactly when the
      later events set the same state over what the checkpoint carries as over what survived. */
  lemma {:induction false} ReorganisedStateIff(earlier: seq<Event>, later: seq<Event>, removed: set<string>, depth: int)
    requires depth >= 1 && IdsOnConfirmed(earlier + later, depth) && NewAreLater(earlier, later)
    requires !Invalid(Reduce(earlier, None, {}, depth).value.checkpoint, removed)
    ensures var checkpoint := Reduce(earlier, None, {}, depth).value.checkpoint;
      var resumed := Reduce(earlier + later, Some(checkpoint), removed, depth).value;
      var full := Reduce(Surviving(earlier + later, removed), None, {}, depth).value;
      var survived, news := Survived(earlier, removed, depth), Valid(later, removed);
      resumed.state == full.state <==>
      Either(LastSet(checkpoint.applied, news, depth), Carried(checkpoint.state))
          == Either(LastSet(survived.applied, news, depth), survived.state)
  {
    var checkpoint := Reduce(earlier, None, {}, depth).value.checkpoint;
    var start := StartFrom(Some(checkpoint), removed);
    var so, sn := Valid(earlier, removed), Valid(later, removed);
    NothingRemoved(Surviving(earlier + later, removed));
    SurvivingSplits(earlier, later, removed);
    FoldAppend(Fresh, so, sn, depth);
    FoldAppend(start, so, sn, depth);
    OldAreApplied(earlier, removed, depth);
    Refold(start, so, depth);
    FoldSets(Fold(start, so, depth), sn, depth);
    FoldSets(Fold(Fresh, so, depth), sn, depth);
  }

  /** What is left of the old confirmed events is in the checkpoint. */
  lemma {:induction false} OldAreApplied(earlier: seq<Event>, removed: set<string>, depth: int)
    requires depth >= 1 && IdsOnConfirmed(earlier, depth)
    ensures forall e :: e in Valid(earlier, removed) && Qualifies(e, depth) ==>
      HasId(e) && e.id.value in Reduce(earlier, None, {}, depth).value.checkpoint.applied
  {
    NothingRemoved(earlier);
    forall e | e in Valid(earlier, removed) && Qualifies(e, depth)
      ensures HasId(e) && e.id.value in Reduce(earlier, None, {}, depth).value.checkpoint.applied
    {
      SortMembers(NoLater, Surviving(earlier, removed), e);
      SortMembers(NoLater, earlier, e);
      ConfirmedIsApplied(Fresh, Sort(NoLater, earlier), e, depth);
    }
  }

  /** Unless a transaction that lost its old event comes back in a later one, that is exactly when a later event
      sets the state or the carried state is that of the surviving old events. */
  lemma {:induction false} ReorganisedStateWithoutReturns(earlier: seq<Event>, later: seq<Event>, removed: set<string>,
          depth: int)
    requires depth >= 1 && IdsOnConfirmed(earlier + later, depth) && NewAreLater(earlier, later)
    requires var checkpoint := Reduce(earlier, None, {}, depth).value.checkpoint;
      !Invalid(checkpoint, removed) && AgreeOn(checkpoint.applied, Survived(earlier, removed, depth).applied, later)
    ensures var checkpoint := Reduce(earlier, None, {}, depth).value.checkpoint;
      var resumed := Reduce(earlier + later, Some(checkpoint), removed, depth).value;
      var full := Reduce(Surviving(earlier + later, removed), None, {}, depth).value;
      resumed.state == full.state <==>
      Restates(checkpoint.applied, Valid(later, removed), depth)
          || Carried(checkpoint.state) == Survived(earlier, removed, depth).state
  {
    var checkpoint := Reduce(earlier, None, {}, depth).value.checkpoint;
    var news := Valid(later, removed);
    ReorganisedStateIff(earlier, later, removed, depth);
    forall e | e in news ensures e in later { SortMembers(NoLater, Surviving(later, removed), e); }
    IdsSurviveSorting(later, removed, depth) by { assert forall e :: e in later ==> e in earlier + later; }
    SameLastSet(checkpoint.applied, Survived(earlier, removed, depth).applied, news, depth);
    FoldSets(RunningState(Null, checkpoint.applied, []), news, depth);
  }

  /** One confirmed event whose block is removed: the checkpoint keeps reporting it, a replay does not. */
  lemma {:induction false} RemovedBlockStaysApplied(e: Event, depth: int)
    requires depth >= 1 && Qualifies(e, depth) && HasId(e) && e.state.Some? && Truthy(e.state.value)
    requires e.block.Some? && e.block.value !in {"undefined", e.id.value}
    ensures var checkpoint := Reduce([e], None, {}, depth).value.checkpoint;
      var removed := {e.block.value};
      var resumed := Reduce([e], Some(checkpoint), removed, depth).value;
      && resumed.applied == [e.id.value] && resumed.state == e.state.value && resumed.status.IsConfirmed?
      && Reduce(Surviving([e], removed), None, {}, depth).value.applied == []
  {
    var removed := {e.block.value};
    assert Surviving([e], {}) == [e] by { assert [e][1..] == []; }
    assert Surviving([e], removed) == [] by { assert [e][1..] == []; }
    assert Sort(NoLater, [e]) == [e] by { assert [e][1..] == []; }
    assert Fold(Fresh, [e], depth) == Apply(Fresh, e, depth) by { assert [e][1..] == []; }
  }
}
