/** Resuming a history some of whose confirmed events carry no id: exactly when it still equals a full replay. */
module NamelessHistory {
  import opened Outcomes
  import opened StableSort
  import opened History
  import opened HistoryResume

  // --- Derived names -------------------------------------------------------

  /** The name the reducer makes up for a confirmed event without an id. */
  function Derived(text: string, n: nat): string {
    text + ":" + Decimal(n)
  }

  ghost predicate IsDerived(name: string) {
    exists text, n: nat :: name == Derived(text, n)
  }

  /** No event's own id looks like a name the reducer makes up. */
  ghost predicate NoDerivedIds(events: seq<Event>) {
    forall e :: e in events && e.id.Some? ==> !IsDerived(e.id.value)
  }

  lemma {:induction false} DecimalHasNoColon(n: nat)
    ensures Decimal(n) != "" && forall i :: 0 <= i < |Decimal(n)| ==> Decimal(n)[i] != ':'
    decreases n
  {
    if n >= 10 { DecimalHasNoColon(n / 10); }
  }

  function DigitOf(d: nat): char
    requires d < 10
  {
    "0123456789"[d]
  }

  lemma DigitIsUnique(d: nat, e: nat)
    requires d < 10 && e < 10 && DigitOf(d) == DigitOf(e)
    ensures d == e
  {
  }

  lemma {:induction false} DecimalSplits(n: nat)
    ensures Decimal(n) != "" && Decimal(n)[|Decimal(n)| - 1] == DigitOf(n % 10)
    ensures Decimal(n)[..|Decimal(n)| - 1] == if n < 10 then "" else Decimal(n / 10)
  {
    DecimalHasNoColon(n);
  }

  lemma {:induction false} DecimalIsUnique(n: nat, m: nat)
    requires Decimal(n) == Decimal(m)
    ensures n == m
    decreases n
  {
    DecimalSplits(n);
    DecimalSplits(m);
    DigitIsUnique(n % 10, m % 10);
    DecimalHasNoColon(n / 10);
    DecimalHasNoColon(m / 10);
    if n >= 10 && m >= 10 { DecimalIsUnique(n / 10, m / 10); }
  }

  /** A made-up name tells the number in it. */
  lemma {:induction false} DerivedIsUnique(a: string, n: nat, b: string, m: nat)
    requires Derived(a, n) == Derived(b, m)
    ensures n == m
  {
    DecimalHasNoColon(n);
    DecimalHasNoColon(m);
    var s := Derived(a, n);
    assert s[|a|] == ':' && s[|b|] == ':';
    assert forall i :: |a| < i < |s| ==> s[i] == Decimal(n)[i - |a| - 1];
    assert forall i :: |b| < i < |s| ==> s[i] == Decimal(m)[i - |b| - 1];
    assert |a| == |b|;
    assert Decimal(n) == s[|a| + 1..] == Decimal(m);
    DecimalIsUnique(n, m);
  }

  // --- Numbered lists ------------------------------------------------------

  /** Every made-up name in the list was made up when the list was shorter. */
  ghost predicate Numbered(applied: seq<string>) {
    forall text, n: nat :: Derived(text, n) in applied ==> n < |applied|
  }

  /** The two lists hold the same ids. */
  ghost predicate SameIds(a: seq<string>, b: seq<string>) {
    forall name :: !IsDerived(name) ==> (name in a <==> name in b)
  }

  /** An event without an id always adds a name; one with an id adds it once. */
  lemma {:induction false} AddsOne(applied: seq<string>, e: Event)
    requires Numbered(applied) && (e.id.Some? ==> !IsDerived(e.id.value))
    ensures Numbered(Add(applied, NameOf(e, applied)))
    ensures |Add(applied, NameOf(e, applied))| == |applied| + (if e.id.Some? && e.id.value in applied then 0 else 1)
    ensures forall name :: !IsDerived(name) ==> (name in Add(applied, NameOf(e, applied)) <==> name in applied
                                                                                               || e.id == Some(name))
  {
    var name := NameOf(e, applied);
    if e.id.None? {
      assert name == Derived(e.daaText, |applied|);
      assert IsDerived(name);
      assert name !in applied;
    }
    var next := Add(applied, name);
    forall text, n: nat | Derived(text, n) in next ensures n < |next| {
      if Derived(text, n) == name {
        assert IsDerived(name);
        DerivedIsUnique(text, n, e.daaText, |applied|);
      }
    }
  }

  lemma {:induction false} StepAlike(a: RunningState, b: RunningState, e: Event, depth: int)
    requires Numbered(a.applied) && Numbered(b.applied) && SameIds(a.applied, b.applied)
    requires (e.id.Some? ==> !IsDerived(e.id.value))
    ensures var x, y := Apply(a, e, depth), Apply(b, e, depth);
      && Numbered(x.applied) && Numbered(y.applied) && SameIds(x.applied, y.applied)
      && |x.applied| - |a.applied| == |y.applied| - |b.applied|
      && (if Sets(a.applied, e, depth) then x.state == y.state else x.state == a.state && y.state == b.state)
  {
    AddsOne(a.applied, e);
    AddsOne(b.applied, e);
  }

  lemma RestatesUnfold(acc: RunningState, events: seq<Event>, depth: int)
    requires events != []
    ensures Restates(acc.applied, events, depth)
      <==> Sets(acc.applied, events[0], depth) || Restates(Apply(acc, events[0], depth).applied, events[1..], depth)
  {
  }

  /** Over later events two lists with the same ids grow alike. */
  lemma {:induction false} GrowAlike(a: RunningState, b: RunningState, events: seq<Event>, depth: int)
    requires Numbered(a.applied) && Numbered(b.applied) && SameIds(a.applied, b.applied) && NoDerivedIds(events)
    ensures var x, y := Fold(a, events, depth), Fold(b, events, depth);
      && |x.applied| - |a.applied| == |y.applied| - |b.applied|
      && (if Restates(a.applied, events, depth) then x.state == y.state else x.state == a.state && y.state == b.state)
    decreases |events|
  {
    if events != [] {
      assert NoDerivedIds(events[1..]);
      StepAlike(a, b, events[0], depth);
      RestatesUnfold(a, events, depth);
      GrowAlike(Apply(a, events[0], depth), Apply(b, events[0], depth), events[1..], depth);
    }
  }

  lemma {:induction false} FoldNumbers(acc: RunningState, events: seq<Event>, depth: int)
    requires Numbered(acc.applied) && NoDerivedIds(events)
    ensures Numbered(Fold(acc, events, depth).applied)
    decreases |events|
  {
    if events != [] {
      assert NoDerivedIds(events[1..]) && (events[0].id.Some? ==> !IsDerived(events[0].id.value));
      AddsOne(acc.applied, events[0]);
      FoldNumbers(Apply(acc, events[0], depth), events[1..], depth);
    }
  }

  // --- The old events again ------------------------------------------------

  /** The state after the old events are folded again: only those without an id to be known by are applied. */
  function Rewound(state: State, events: seq<Event>, depth: int): State
    decreases |events|
  {
    if events == [] then state
    else Rewound(if Qualifies(events[0], depth) && !HasId(events[0]) && events[0].state.Some?
        then events[0].state.value else state, events[1..], depth)
  }

  /** The confirmed events without any id. */
  function Nameless(events: seq<Event>, depth: int): nat {
    if events == [] then 0
    else (if Qualifies(events[0], depth) && events[0].id.None? then 1 else 0) + Nameless(events[1..], depth)
  }

  lemma {:induction false} NamelessIff(events: seq<Event>, depth: int)
    ensures Nameless(events, depth) == 0 <==> forall e :: e in events && Qualifies(e, depth) ==> e.id.Some?
  {
    if events != [] {
      NamelessIff(events[1..], depth);
      assert events == [events[0]] + events[1..];
    }
  }

  ghost predicate AllApplied(applied: seq<string>, events: seq<Event>, depth: int) {
    forall e :: e in events && Qualifies(e, depth) && e.id.Some? ==> e.id.value in applied
  }

  lemma {:induction false} IdsAreApplied(acc: RunningState, events: seq<Event>, depth: int)
    ensures AllApplied(Fold(acc, events, depth).applied, events, depth)
    decreases |events|
  {
    if events != [] {
      var e := events[0];
      IdsAreApplied(Apply(acc, e, depth), events[1..], depth);
      AppliedGrows(Apply(acc, e, depth), events[1..], depth);
      forall x | x in events && Qualifies(x, depth) && x.id.Some?
        ensures x.id.value in Fold(acc, events, depth).applied
      {
        if x == e {
          InPrefix(Apply(acc, e, depth).applied, Fold(acc, events, depth).applied, e.id.value);
        } else {
          assert x in events[1..];
        }
      }
    }
  }

  lemma {:induction false} FoldAgain(acc: RunningState, events: seq<Event>, depth: int)
    requires Numbered(acc.applied) && NoDerivedIds(events) && AllApplied(acc.applied, events, depth)
    ensures var again := Fold(acc, events, depth);
      && again.state == Rewound(acc.state, events, depth)
      && |again.applied| == |acc.applied| + Nameless(events, depth)
      && Numbered(again.applied) && SameIds(acc.applied, again.applied)
      && (Nameless(events, depth) == 0 ==> again.applied == acc.applied)
    decreases |events|
  {
    if events != [] {
      var e := events[0];
      var next := Apply(acc, e, depth);
      assert NoDerivedIds(events[1..]) && (e.id.Some? ==> !IsDerived(e.id.value));
      AddsOne(acc.applied, e);
      assert AllApplied(next.applied, events[1..], depth) by {
        forall x | x in events[1..] && Qualifies(x, depth) && x.id.Some? ensures x.id.value in next.applied {
          assert x in events;
        }
      }
      FoldAgain(next, events[1..], depth);
    }
  }

  /** Without any assumption on the old events: a resumed run applies what a full replay applies exactly when
      every old confirmed event carries an id, be it empty; and it ends in the same state exactly when a later
      event sets the state, or folding the old events without a known id again leads back to it. */
  lemma {:induction false} ResumeEqualsReplayIff(earlier: seq<Event>, later: seq<Event>, depth: int)
    requires depth >= 1 && NewAreLater(earlier, later) && NoDerivedIds(earlier + later)
    ensures var checkpoint := Reduce(earlier, None, {}, depth).value.checkpoint;
      var resumed := Reduce(earlier + later, Some(checkpoint), {}, depth).value;
      var full := Reduce(earlier + later, None, {}, depth).value;
      && (resumed.applied == full.applied <==> forall e :: e in earlier && Qualifies(e, depth) ==> e.id.Some?)
      && (resumed.state == full.state <==>
            Restates(checkpoint.applied, Sort(NoLater, later), depth)
            || Rewound(Carried(checkpoint.state), Sort(NoLater, earlier), depth) == checkpoint.state)
  {
    var so, sn := Sort(NoLater, earlier), Sort(NoLater, later);
    SurvivingSplits(earlier, later, {});
    NothingRemoved(earlier);
    NothingRemoved(later);
    SortedHasNoDerivedIds(earlier, earlier + later);
    SortedHasNoDerivedIds(later, earlier + later);
    ResumeSortedIff(so, sn, depth);
    NamelessIff(so, depth);
    forall e ensures e in so <==> e in earlier { SortMembers(NoLater, earlier, e); }
  }

  lemma SortedHasNoDerivedIds(part: seq<Event>, all: seq<Event>)
    requires NoDerivedIds(all) && forall e :: e in part ==> e in all
    ensures NoDerivedIds(Sort(NoLater, part))
  {
    forall e | e in Sort(NoLater, part) && e.id.Some? ensures !IsDerived(e.id.value) { SortMembers(NoLater, part, e); }
  }

  lemma {:induction false} ResumeSortedIff(so: seq<Event>, sn: seq<Event>, depth: int)
    requires NoDerivedIds(so) && NoDerivedIds(sn)
    ensures var base := Fold(Fresh, so, depth);
      var resumed := Fold(RunningState(Carried(base.state), base.applied, []), so + sn, depth);
      var full := Fold(Fresh, so + sn, depth);
      && (resumed.applied == full.applied <==> Nameless(so, depth) == 0)
      && (resumed.state == full.state <==> Restates(base.applied, sn, depth)
                                           || Rewound(Carried(base.state), so, depth) == base.state)
  {
    var base := Fold(Fresh, so, depth);
    var start := RunningState(Carried(base.state), base.applied, []);
    FoldAppend(Fresh, so, sn, depth);
    FoldAppend(start, so, sn, depth);
    assert Numbered([]);
    FoldNumbers(Fresh, so, depth);
    IdsAreApplied(Fresh, so, depth);
    FoldAgain(start, so, depth);
    var again := Fold(start, so, depth);
    GrowAlike(base, again, sn, depth);
    if again.applied == base.applied { FoldForgets(again, base, sn, depth); }
  }
}
