/**
 Which combinations of a player's coins are tried for the fee of a covenant spend, and which one is kept.
 The pool is the ten smallest coins; `byText` is the text order of outpoints that breaks ties.
 */
module FundingCandidates {
  import opened Outcomes
  import opened StableSort
  import opened UtxoSelection

  const POOL_SIZE := 10
  const MAX_CANDIDATES := 600
  const MOST_COINS: nat := 4
  const MAX_TERMINAL_STORAGE_MASS := 500_000

  function Smallest(byText: (Utxo, Utxo) -> bool): (Utxo, Utxo) -> bool {
    (a: Utxo, b: Utxo) => a.amount < b.amount || (a.amount == b.amount && byText(a, b))
  }

  function Pool(entries: seq<Utxo>, byText: (Utxo, Utxo) -> bool): (r: seq<Utxo>)
    ensures |r| <= POOL_SIZE
  {
    var sorted := Sort(Smallest(byText), entries);
    if |sorted| > POOL_SIZE then sorted[..POOL_SIZE] else sorted
  }

  // --- Increasing index lists ----------------------------------------------

  /** The lists that go on from `prefix` with `size` increasing indices from `from` to `n`, in lexicographic order. */
  function Lists(n: nat, prefix: seq<nat>, size: nat, from: nat): seq<seq<nat>>
    decreases size, n - from
  {
    if size == 0 then [prefix]
    else if from >= n then []
    else Lists(n, prefix + [from], size - 1, from + 1) + Lists(n, prefix, size, from + 1)
  }

  predicate Increasing(t: seq<nat>, from: nat, n: nat) {
    (forall i :: 0 <= i < |t| ==> from <= t[i] < n) && forall i, j :: 0 <= i < j < |t| ==> t[i] < t[j]
  }

  ghost predicate GoesOn(n: nat, prefix: seq<nat>, size: nat, from: nat, t: seq<nat>) {
    |t| == |prefix| + size && t[..|prefix|] == prefix && Increasing(t[|prefix|..], from, n)
  }

  /** They are all of them. */
  lemma {:induction false} ListsAreAll(n: nat, prefix: seq<nat>, size: nat, from: nat, t: seq<nat>)
    ensures t in Lists(n, prefix, size, from) <==> GoesOn(n, prefix, size, from, t)
    decreases size, n - from
  {
    if size == 0 {
      if |t| == |prefix| { assert t[..|prefix|] == t; }
    } else if from < n {
      ListsAreAll(n, prefix + [from], size - 1, from + 1, t);
      ListsAreAll(n, prefix, size, from + 1, t);
      GoesOnEitherWay(n, prefix, size, from, t);
    } else if |t| == |prefix| + size {
      assert t[|prefix|..][0] == t[|prefix|];
    }
  }

  lemma {:induction false} GoesOnEitherWay(n: nat, prefix: seq<nat>, size: nat, from: nat, t: seq<nat>)
    requires size > 0 && from < n
    ensures GoesOn(n, prefix, size, from, t) <==> GoesOn(n, prefix + [from], size - 1, from + 1, t)
                                                  || GoesOn(n, prefix, size, from + 1, t)
  {
    if |t| == |prefix| + size {
      var tail := t[|prefix|..];
      assert tail[1..] == t[|prefix| + 1..];
      assert t[..|prefix| + 1] == t[..|prefix|] + [tail[0]];
      if tail[0] == from {
        IncreasingTail(tail, from, n);
      } else {
        HeadIsLeast(tail, from, n);
      }
      assert t[..|prefix| + 1] == prefix + [from] <==> t[..|prefix|] == prefix && tail[0] == from by {
        if t[..|prefix| + 1] == prefix + [from] {
          assert (prefix + [from])[..|prefix|] == prefix && (prefix + [from])[|prefix|] == from;
        }
      }
    }
  }

  lemma IncreasingTail(t: seq<nat>, from: nat, n: nat)
    requires t != [] && t[0] == from && from < n
    ensures Increasing(t, from, n) <==> Increasing(t[1..], from + 1, n)
  {
    if Increasing(t[1..], from + 1, n) {
      forall i, j | 0 <= i < j < |t| ensures t[i] < t[j] {
        assert t[j] == t[1..][j - 1];
        if i > 0 { assert t[i] == t[1..][i - 1]; }
      }
      forall i | 0 <= i < |t| ensures from <= t[i] < n { if i > 0 { assert t[i] == t[1..][i - 1]; } }
    }
  }

  lemma HeadIsLeast(t: seq<nat>, from: nat, n: nat)
    requires t != [] && t[0] != from
    ensures Increasing(t, from, n) <==> Increasing(t, from + 1, n)
  {
    if Increasing(t, from, n) {
      forall i | 0 <= i < |t| ensures from + 1 <= t[i] < n { if i > 0 { assert t[0] < t[i]; } }
    }
  }

  // --- How many there are --------------------------------------------------

  function Choose(m: nat, k: nat): nat {
    if k == 0 then 1 else if m == 0 then 0 else Choose(m - 1, k - 1) + Choose(m - 1, k)
  }

  lemma {:induction false} ChooseGrows(m: nat, more: nat, k: nat)
    requires m <= more
    ensures Choose(m, k) <= Choose(more, k)
    decreases more
  {
    if k > 0 && m > 0 {
      ChooseGrows(m - 1, more - 1, k - 1);
      ChooseGrows(m - 1, more - 1, k);
    }
  }

  lemma NextRow(m: nat, a: nat, b: nat, c: nat, d: nat)
    requires Choose(m, 1) == a && Choose(m, 2) == b && Choose(m, 3) == c && Choose(m, 4) == d
    ensures Choose(m + 1, 1) == a + 1 && Choose(m + 1, 2) == a + b && Choose(m + 1, 3) == b + c
    ensures Choose(m + 1, 4) == c + d
  {
    assert Choose(m, 0) == 1;
  }

  lemma {:induction false} TenCoins()
    ensures Choose(10, 1) == 10 && Choose(10, 2) == 45 && Choose(10, 3) == 120 && Choose(10, 4) == 210
  {
    NextRow(0, 0, 0, 0, 0);
    NextRow(1, 1, 0, 0, 0);
    NextRow(2, 2, 1, 0, 0);
    NextRow(3, 3, 3, 1, 0);
    NextRow(4, 4, 6, 4, 1);
    NextRow(5, 5, 10, 10, 5);
    NextRow(6, 6, 15, 20, 15);
    NextRow(7, 7, 21, 35, 35);
    NextRow(8, 8, 28, 56, 70);
    NextRow(9, 9, 36, 84, 126);
  }

  // --- Candidates ----------------------------------------------------------

  predicate InPool(pool: seq<Utxo>, t: seq<nat>) {
    forall i :: 0 <= i < |t| ==> t[i] < |pool|
  }

  /** The pool coins at these indices. */
  function Pick(pool: seq<Utxo>, t: seq<nat>): (r: seq<Utxo>)
    ensures InPool(pool, t) ==> |r| == |t| && forall i :: 0 <= i < |t| ==> r[i] == pool[t[i]]
  {
    if t == [] then [] else (if t[0] < |pool| then [pool[t[0]]] else []) + Pick(pool, t[1..])
  }

  /** What tells two selections apart: the outpoints they spend. */
  function Key(selected: seq<Utxo>): set<Outpoint> {
    set u | u in selected :: OutpointOf(u)
  }

  function KeysOf(candidates: seq<seq<Utxo>>): set<set<Outpoint>> {
    set c | c in candidates :: Key(c)
  }

  predicate NoneAlike(candidates: seq<seq<Utxo>>) {
    forall i, j :: 0 <= i < j < |candidates| ==> Key(candidates[i]) != Key(candidates[j])
  }

  /** A selection is listed if it reaches the target and its coins were not listed before. */
  function Considered(candidates: seq<seq<Utxo>>, selected: seq<Utxo>, target: int): seq<seq<Utxo>> {
    if Sum(selected) < target || Key(selected) in KeysOf(candidates) then candidates else candidates + [selected]
  }

  method Consider(candidates: seq<seq<Utxo>>, seen: set<set<Outpoint>>, selected: seq<Utxo>, target: int)
    returns (next: seq<seq<Utxo>>, seenNext: set<set<Outpoint>>)
    requires seen == KeysOf(candidates)
    ensures next == Considered(candidates, selected, target) && seenNext == KeysOf(next)
  {
    if Sum(selected) < target || Key(selected) in seen { return candidates, seen; }
    next := candidates + [selected];
    seenNext := seen + {Key(selected)};
    KeysAppend(candidates, selected);
  }

  lemma {:induction false} KeysAppend(candidates: seq<seq<Utxo>>, selected: seq<Utxo>)
    ensures KeysOf(candidates + [selected]) == KeysOf(candidates) + {Key(selected)}
  {
    var next := candidates + [selected];
    forall k ensures k in KeysOf(next) <==> k in KeysOf(candidates) || k == Key(selected) {
      if k in KeysOf(next) { var c :| c in next && Key(c) == k; assert c in candidates || c == selected; }
      if k in KeysOf(candidates) { var c :| c in candidates && Key(c) == k; assert c in next; }
      assert selected in next;
    }
  }

  /** The selections of `lists`, considered in turn. */
  function ConsideredAll(pool: seq<Utxo>, target: int, candidates: seq<seq<Utxo>>,
          lists: seq<seq<nat>>): (r: seq<seq<Utxo>>)
    ensures |r| <= |candidates| + |lists|
    decreases |lists|
  {
    if lists == [] then candidates
    else ConsideredAll(pool, target, Considered(candidates, Pick(pool, lists[0]), target), lists[1..])
  }

  lemma {:induction false} ConsideredAppend(pool: seq<Utxo>, target: int, candidates: seq<seq<Utxo>>, a: seq<seq<nat>>,
          b: seq<seq<nat>>)
    ensures ConsideredAll(pool, target, candidates, a + b)
        == ConsideredAll(pool, target, ConsideredAll(pool, target, candidates, a), b)
    decreases |a|
  {
    if a == [] {
      assert a + b == b;
    } else {
      assert (a + b)[1..] == a[1..] + b;
      ConsideredAppend(pool, target, Considered(candidates, Pick(pool, a[0]), target), a[1..], b);
    }
  }

  /** `next` lists what `candidates` does, and every selection from `lists` that reaches the target, and no
      more; and it lists no two with the same coins. */
  ghost predicate Extends(pool: seq<Utxo>, target: int, candidates: seq<seq<Utxo>>, next: seq<seq<Utxo>>,
          lists: seq<seq<nat>>)
  {
    && NoneAlike(next)
    && (forall k :: k in KeysOf(candidates) ==> k in KeysOf(next))
    && (forall i ::
          0 <= i < |lists| && Sum(Pick(pool, lists[i])) >= target ==> Key(Pick(pool, lists[i])) in KeysOf(next))
    && (forall c :: c in next ==>
          c in candidates || exists i :: 0 <= i < |lists| && c == Pick(pool, lists[i]) && Sum(c) >= target)
  }

  lemma {:induction false} ConsideredKeeps(candidates: seq<seq<Utxo>>, selected: seq<Utxo>, target: int)
    requires NoneAlike(candidates)
    ensures var next := Considered(candidates, selected, target);
      && NoneAlike(next)
      && KeysOf(next) == KeysOf(candidates) + (if Sum(selected) >= target then {Key(selected)} else {})
  {
    KeysAppend(candidates, selected);
    forall i | 0 <= i < |candidates|
      ensures Key(candidates[i]) in KeysOf(candidates)
    {
      assert candidates[i] in candidates;
    }
  }

  lemma {:induction false} ConsideredAllExtends(pool: seq<Utxo>, target: int, candidates: seq<seq<Utxo>>,
          lists: seq<seq<nat>>)
    requires NoneAlike(candidates)
    ensures Extends(pool, target, candidates, ConsideredAll(pool, target, candidates, lists), lists)
    decreases |lists|
  {
    if lists != [] {
      var first := Pick(pool, lists[0]);
      var after := Considered(candidates, first, target);
      ConsideredKeeps(candidates, first, target);
      ConsideredAllExtends(pool, target, after, lists[1..]);
      ExtendsByOne(pool, target, candidates, ConsideredAll(pool, target, after, lists[1..]), lists);
    }
  }

  lemma {:induction false} ExtendsByOne(pool: seq<Utxo>, target: int, candidates: seq<seq<Utxo>>, next: seq<seq<Utxo>>,
          lists: seq<seq<nat>>)
    requires lists != [] && NoneAlike(candidates)
    requires Extends(pool, target, Considered(candidates, Pick(pool, lists[0]), target), next, lists[1..])
    ensures Extends(pool, target, candidates, next, lists)
  {
    var first := Pick(pool, lists[0]);
    ConsideredKeeps(candidates, first, target);
    forall i | 0 <= i < |lists| && Sum(Pick(pool, lists[i])) >= target
      ensures Key(Pick(pool, lists[i])) in KeysOf(next)
    {
      if i > 0 { assert lists[i] == lists[1..][i - 1]; }
    }
    forall c | c in next
      ensures c in candidates || exists i :: 0 <= i < |lists| && c == Pick(pool, lists[i]) && Sum(c) >= target
    {
      if c !in candidates && !(c in Considered(candidates, first, target)) {
        var i :| 0 <= i < |lists[1..]| && c == Pick(pool, lists[1..][i]) && Sum(c) >= target;
        assert lists[i + 1] == lists[1..][i];
      }
    }
  }

  // --- The nested loops ----------------------------------------------------

  /** What the loops below `prefix` make of the candidates. */
  function Below(pool: seq<Utxo>, target: int, prefix: seq<nat>, size: nat, from: nat,
          candidates: seq<seq<Utxo>>): seq<seq<Utxo>>
    requires from <= |pool|
    decreases size, |pool| - from
  {
    if size == 0 then Considered(candidates, Pick(pool, prefix), target)
    else if from == |pool| then candidates
    else Below(pool, target, prefix, size, from + 1, Below(pool, target, prefix + [from], size - 1, from + 1,
        candidates))
  }

  /** The loops consider the index lists of their size in order. */
  lemma {:induction false} BelowIsConsidered(pool: seq<Utxo>, target: int, prefix: seq<nat>, size: nat, from: nat,
          candidates: seq<seq<Utxo>>)
    requires from <= |pool|
    ensures Below(pool, target, prefix, size, from, candidates)
        == ConsideredAll(pool, target, candidates, Lists(|pool|, prefix, size, from))
    decreases size, |pool| - from
  {
    if size == 0 {
      assert [prefix][1..] == [];
    } else if from < |pool| {
      BelowIsConsidered(pool, target, prefix + [from], size - 1, from + 1, candidates);
      BelowIsConsidered(pool, target, prefix, size, from + 1,
          Below(pool, target, prefix + [from], size - 1, from + 1, candidates));
      ConsideredAppend(pool, target, candidates, Lists(|pool|, prefix + [from], size - 1, from + 1),
          Lists(|pool|, prefix, size, from + 1));
    }
  }

  /** The cap leaves room for every selection of `size` out of the `left` coins still to come. */
  predicate HasRoom(count: nat, left: nat, size: nat) {
    count + Choose(left, size) < MAX_CANDIDATES
  }

  lemma {:induction false} BelowCount(pool: seq<Utxo>, target: int, prefix: seq<nat>, size: nat, from: nat,
          candidates: seq<seq<Utxo>>)
    requires from <= |pool|
    ensures |Below(pool, target, prefix, size, from, candidates)| <= |candidates| + Choose(|pool| - from, size)
    decreases size, |pool| - from
  {
    if size > 0 && from < |pool| {
      BelowCount(pool, target, prefix + [from], size - 1, from + 1, candidates);
      BelowCount(pool, target, prefix, size, from + 1,
          Below(pool, target, prefix + [from], size - 1, from + 1, candidates));
    }
  }

  lemma {:induction false} RoomSplits(pool: seq<Utxo>, target: int, prefix: seq<nat>, size: nat, from: nat,
          candidates: seq<seq<Utxo>>)
    requires size > 0 && from < |pool| && HasRoom(|candidates|, |pool| - from, size)
    ensures HasRoom(|candidates|, |pool| - from - 1, size - 1)
    ensures HasRoom(|Below(pool, target, prefix + [from], size - 1, from + 1, candidates)|, |pool| - from - 1, size)
  {
    BelowCount(pool, target, prefix + [from], size - 1, from + 1, candidates);
  }

  /** One level of the nested loops: each further index in turn, and below it the selection itself or the next level. */
  method ExtendSelections(pool: seq<Utxo>, target: int, prefix: seq<nat>, size: nat, from: nat,
                          candidates: seq<seq<Utxo>>, seen: set<set<Outpoint>>)
    returns (next: seq<seq<Utxo>>, seenNext: set<set<Outpoint>>)
    requires size > 0 && from <= |pool| && seen == KeysOf(candidates)
    requires HasRoom(|candidates|, |pool| - from, size)
    ensures next == Below(pool, target, prefix, size, from, candidates) && seenNext == KeysOf(next)
    decreases size
  {
    next, seenNext := candidates, seen;
    var i := from;
    while i < |pool| && |next| < MAX_CANDIDATES
      invariant from <= i <= |pool| && seenNext == KeysOf(next)
      invariant Below(pool, target, prefix, size, i, next) == Below(pool, target, prefix, size, from, candidates)
      invariant HasRoom(|next|, |pool| - i, size)
    {
      RoomSplits(pool, target, prefix, size, i, next);
      if size == 1 {
        next, seenNext := Consider(next, seenNext, Pick(pool, prefix + [i]), target);
      } else {
        next, seenNext := ExtendSelections(pool, target, prefix + [i], size - 1, i + 1, next, seenNext);
      }
      i := i + 1;
    }
  }

  // --- The whole list ------------------------------------------------------

  /** The coins of the largest-first selection, in the order the node listed them. */
  function Chosen(entries: seq<Utxo>, selected: seq<Utxo>): seq<Utxo> {
    Filter((u: Utxo) => OutpointOf(u) in Key(selected), entries)
  }

  /** One to `most` pool coins, in pool order, that reach the target. */
  ghost predicate IsCombination(pool: seq<Utxo>, target: int, most: nat, c: seq<Utxo>) {
    exists t: seq<nat> :: 1 <= |t| <= most && Increasing(t, 0, |pool|) && c == Pick(pool, t) && Sum(c) >= target
  }

  /** The index lists in the order they are tried: the smaller first, and in lexicographic order. */
  function UpTo(n: nat, size: nat): seq<seq<nat>> {
    if size == 0 then [] else UpTo(n, size - 1) + Lists(n, [], size, 0)
  }

  lemma {:induction false} UpToAreAll(n: nat, size: nat, t: seq<nat>)
    ensures t in UpTo(n, size) <==> 1 <= |t| <= size && Increasing(t, 0, n)
  {
    if size > 0 {
      UpToAreAll(n, size - 1, t);
      ListsAreAll(n, [], size, 0, t);
      assert t[..0] == [] && t[0..] == t;
    }
  }

  function Budget(size: nat): nat {
    if size == 0 then 0 else if size == 1 then 10 else if size == 2 then 55 else if size == 3 then 175 else 385
  }

  lemma {:induction false} WithinBudget(n: nat, size: nat, count: nat)
    requires n <= POOL_SIZE && 1 <= size <= 4 && count <= Budget(size - 1)
    ensures HasRoom(count, n, size) && count + Choose(n, size) <= Budget(size)
  {
    TenCoins();
    ChooseGrows(n, 10, size);
  }

  /** The combinations of up to `size` pool coins, in the order they are tried, without repeats. */
  function Combinations(pool: seq<Utxo>, target: int, size: nat): seq<seq<Utxo>> {
    ConsideredAll(pool, target, [], UpTo(|pool|, size))
  }

  lemma {:induction false} OneSizeMore(pool: seq<Utxo>, target: int, size: nat)
    requires size > 0
    ensures Combinations(pool, target, size) == Below(pool, target, [], size, 0, Combinations(pool, target, size - 1))
  {
    BelowIsConsidered(pool, target, [], size, 0, Combinations(pool, target, size - 1));
    ConsideredAppend(pool, target, [], UpTo(|pool|, size - 1), Lists(|pool|, [], size, 0));
  }

  /** One size of the outer loop. */
  method ListSize(pool: seq<Utxo>, target: int, size: nat, candidates: seq<seq<Utxo>>, seen: set<set<Outpoint>>)
    returns (next: seq<seq<Utxo>>, seenNext: set<set<Outpoint>>)
    requires |pool| <= POOL_SIZE && 1 <= size <= 4 && seen == KeysOf(candidates) && |candidates| <= Budget(size - 1)
    requires candidates == Combinations(pool, target, size - 1)
    ensures next == Combinations(pool, target, size) && seenNext == KeysOf(next) && |next| <= Budget(size)
  {
    WithinBudget(|pool|, size, |candidates|);
    OneSizeMore(pool, target, size);
    BelowCount(pool, target, [], size, 0, candidates);
    next, seenNext := ExtendSelections(pool, target, [], size, 0, candidates, seen);
  }

  method ListUpTo(pool: seq<Utxo>, target: int, most: nat)
          returns (candidates: seq<seq<Utxo>>, seen: set<set<Outpoint>>)
    requires |pool| <= POOL_SIZE && most <= 4
    ensures candidates == Combinations(pool, target, most) && |candidates| <= Budget(most) && seen == KeysOf(candidates)
  {
    candidates, seen := [], {};
    var size := 1;
    while size <= most && |candidates| < MAX_CANDIDATES
      invariant 1 <= size <= most + 1 && seen == KeysOf(candidates)
      invariant candidates == Combinations(pool, target, size - 1) && |candidates| <= Budget(size - 1)
    {
      candidates, seen := ListSize(pool, target, size, candidates, seen);
      size := size + 1;
    }
  }

  /** Every combination of up to `most` coins in the order tried, and the largest-first selection last. */
  function Candidates(entries: seq<Utxo>, target: int, byText: (Utxo, Utxo) -> bool, most: nat): seq<seq<Utxo>> {
    var combinations := Combinations(Pool(entries, byText), target, most);
    var largest := Select(entries, target, {});
    if largest.Err? then combinations else Considered(combinations, Chosen(entries, largest.value.selected), target)
  }

  /** The enumeration.  The cap of 600 never binds. */
  method ListFundingCandidates(entries: seq<Utxo>, target: int, byText: (Utxo, Utxo) -> bool, most: nat := MOST_COINS)
    returns (candidates: seq<seq<Utxo>>)
    requires most <= MOST_COINS
    ensures candidates == Candidates(entries, target, byText, most) && |candidates| <= Budget(most) + 1
  {
    var seen;
    candidates, seen := ListUpTo(Pool(entries, byText), target, most);
    var largest := Select(entries, target, {});
    if largest.Ok? {
      candidates, seen := Consider(candidates, seen, Chosen(entries, largest.value.selected), target);
    }
  }

  lemma {:induction false} CombinationsAreAll(pool: seq<Utxo>, target: int, most: nat)
    ensures NoneAlike(Combinations(pool, target, most))
    ensures forall c :: IsCombination(pool, target, most, c) ==> Key(c) in KeysOf(Combinations(pool, target, most))
    ensures forall c :: c in Combinations(pool, target, most) ==> IsCombination(pool, target, most, c)
  {
    var lists := UpTo(|pool|, most);
    ConsideredAllExtends(pool, target, [], lists);
    forall c | IsCombination(pool, target, most, c) ensures Key(c) in KeysOf(Combinations(pool, target, most)) {
      var t: seq<nat> :| 1 <= |t| <= most && Increasing(t, 0, |pool|) && c == Pick(pool, t) && Sum(c) >= target;
      UpToAreAll(|pool|, most, t);
      var i :| 0 <= i < |lists| && lists[i] == t;
      assert Key(Pick(pool, lists[i])) in KeysOf(Combinations(pool, target, most));
    }
    forall c | c in Combinations(pool, target, most) ensures IsCombination(pool, target, most, c) {
      var i :| 0 <= i < |lists| && c == Pick(pool, lists[i]) && Sum(c) >= target;
      assert lists[i] in lists;
      UpToAreAll(|pool|, most, lists[i]);
    }
  }

  /** The candidates: no two with the same coins; every combination of one to `most` of the ten smallest coins
      that reaches the target; the largest-first selection; nothing else. */
  lemma {:induction false} CandidatesAreAll(entries: seq<Utxo>, target: int, byText: (Utxo, Utxo) -> bool, most: nat)
    ensures var candidates := Candidates(entries, target, byText, most);
      var pool := Pool(entries, byText);
      var largest := Select(entries, target, {});
      && NoneAlike(candidates)
      && (forall c :: IsCombination(pool, target, most, c) ==> Key(c) in KeysOf(candidates))
      && (largest.Ok? && Sum(Chosen(entries, largest.value.selected)) >= target
          ==> Key(Chosen(entries, largest.value.selected)) in KeysOf(candidates))
      && (forall c :: c in candidates ==>
            IsCombination(pool, target, most, c) || (largest.Ok? && c == Chosen(entries, largest.value.selected)
                && Sum(c) >= target))
  {
    var pool := Pool(entries, byText);
    CombinationsAreAll(pool, target, most);
    var largest := Select(entries, target, {});
    if largest.Ok? {
      ConsideredKeeps(Combinations(pool, target, most), Chosen(entries, largest.value.selected), target);
    }
  }

  /** Of two candidates the one of fewer coins comes first, and of as many the one with the smaller coins first. */
  ghost predicate TriedBefore(t: seq<nat>, u: seq<nat>) {
    |t| < |u| || (|t| == |u| && exists i :: 0 <= i < |t| && t[..i] == u[..i] && t[i] < u[i])
  }

  lemma {:induction false} HeadGoesFirst(n: nat, prefix: seq<nat>, size: nat, from: nat, t: seq<nat>, u: seq<nat>)
    requires size > 0 && GoesOn(n, prefix + [from], size - 1, from + 1, t) && GoesOn(n, prefix, size, from + 1, u)
    ensures TriedBefore(t, u)
  {
    assert t[|prefix|] == t[..|prefix| + 1][|prefix|] == from;
    assert u[|prefix|] == u[|prefix|..][0];
    assert t[..|prefix|] == t[..|prefix| + 1][..|prefix|] == prefix;
  }

  lemma {:induction false} ListsAreOrdered(n: nat, prefix: seq<nat>, size: nat, from: nat, i: nat, j: nat)
    requires i < j < |Lists(n, prefix, size, from)|
    ensures TriedBefore(Lists(n, prefix, size, from)[i], Lists(n, prefix, size, from)[j])
    decreases size, n - from
  {
    var a, b := Lists(n, prefix + [from], size - 1, from + 1), Lists(n, prefix, size, from + 1);
    if j < |a| {
      ListsAreOrdered(n, prefix + [from], size - 1, from + 1, i, j);
    } else if i >= |a| {
      ListsAreOrdered(n, prefix, size, from + 1, i - |a|, j - |a|);
    } else {
      ListsAreAll(n, prefix + [from], size - 1, from + 1, a[i]);
      ListsAreAll(n, prefix, size, from + 1, b[j - |a|]);
      HeadGoesFirst(n, prefix, size, from, a[i], b[j - |a|]);
    }
  }

  lemma UpToUnfolds(n: nat, size: nat)
    requires size > 0
    ensures UpTo(n, size) == UpTo(n, size - 1) + Lists(n, [], size, 0)
  {
  }

  /** The combinations are tried in that order, which decides between equally light ones. */
  lemma {:induction false} TriedInOrder(n: nat, size: nat, i: nat, j: nat)
    requires i < j < |UpTo(n, size)|
    ensures TriedBefore(UpTo(n, size)[i], UpTo(n, size)[j])
    decreases size
  {
    UpToUnfolds(n, size);
    var before, last := UpTo(n, size - 1), Lists(n, [], size, 0);
    if j < |before| {
      TriedInOrder(n, size - 1, i, j);
    } else if i >= |before| {
      ListsAreOrdered(n, [], size, 0, i - |before|, j - |before|);
    } else {
      UpToAreAll(n, size - 1, before[i]);
      ListsAreAll(n, [], size, 0, last[j - |before|]);
    }
  }

  lemma SmallestOrders(byText: (Utxo, Utxo) -> bool)
    requires TotalPreorder(byText)
    ensures TotalPreorder(Smallest(byText))
  {
  }

  /** The pool is in order of amount, and of the text of the outpoint among equal amounts. */
  lemma {:induction false} PoolIsOrdered(entries: seq<Utxo>, byText: (Utxo, Utxo) -> bool, i: nat, j: nat)
    requires TotalPreorder(byText) && i < j < |Pool(entries, byText)|
    ensures var a, b := Pool(entries, byText)[i], Pool(entries, byText)[j];
      a in entries && b in entries && a.amount <= b.amount && (a.amount == b.amount ==> byText(a, b))
  {
    SmallestOrders(byText);
    var sorted := Sort(Smallest(byText), entries);
    SortIsSorted(Smallest(byText), entries);
    SortMembers(Smallest(byText), entries, sorted[i]);
    SortMembers(Smallest(byText), entries, sorted[j]);
    assert Smallest(byText)(sorted[i], sorted[j]);
  }

  /** The last candidate holds exactly the listed coins that the largest-first selection took. */
  lemma ChosenAre(entries: seq<Utxo>, selected: seq<Utxo>)
    ensures forall u :: u in Chosen(entries, selected) <==>
        u in entries && exists s :: s in selected && s.txId == u.txId && s.index == u.index
  {
  }

  /** The pool really is the smallest coins: nothing left out is smaller than anything in it. */
  lemma {:induction false} PoolIsSmallest(entries: seq<Utxo>, byText: (Utxo, Utxo) -> bool, outside: Utxo, inside: Utxo)
    requires TotalPreorder(byText)
    requires inside in Pool(entries, byText) && outside in entries && outside !in Pool(entries, byText)
    ensures inside.amount <= outside.amount && |Pool(entries, byText)| == POOL_SIZE
  {
    SmallestOrders(byText);
    var sorted := Sort(Smallest(byText), entries);
    SortIsSorted(Smallest(byText), entries);
    SortMembers(Smallest(byText), entries, outside);
    var i :| 0 <= i < |Pool(entries, byText)| && Pool(entries, byText)[i] == inside;
    var j :| 0 <= j < |sorted| && sorted[j] == outside;
    assert forall k :: 0 <= k < |Pool(entries, byText)| ==> Pool(entries, byText)[k] == sorted[k];
    assert j >= |Pool(entries, byText)|;
    assert Smallest(byText)(sorted[i], sorted[j]);
  }

  // --- The one that is kept ------------------------------------------------

  /** What pricing a candidate gives: a typed failure, or the storage mass of the priced transaction. */
  datatype Pricing<+E> = Failed(error: E) | Priced(storageMass: int)

  datatype FundingError<+E> = StorageMassExceeded | PricingFailed(error: E)

  predicate Fits<E>(p: Pricing<E>) {
    p.Priced? && p.storageMass <= MAX_TERMINAL_STORAGE_MASS
  }

  /** The error of the last candidate that could not be priced. */
  function LastFailure<E>(candidates: seq<seq<Utxo>>, price: seq<Utxo> -> Pricing<E>): Option<E> {
    if candidates == [] then None
    else
      var last := price(candidates[|candidates| - 1]);
      if last.Failed? then Some(last.error) else LastFailure(candidates[..|candidates| - 1], price)
  }

  ghost predicate SomeFit<E>(candidates: seq<seq<Utxo>>, price: seq<Utxo> -> Pricing<E>) {
    exists i :: 0 <= i < |candidates| && Fits(price(candidates[i]))
  }

  /** Candidate `i` fits, none that fits is lighter, and none before it is as light. */
  ghost predicate IsLightest<E>(candidates: seq<seq<Utxo>>, price: seq<Utxo> -> Pricing<E>, i: nat) {
    && i < |candidates| && Fits(price(candidates[i]))
    && (forall j :: 0 <= j < |candidates| && Fits(price(candidates[j])) ==>
          price(candidates[i]).storageMass <= price(candidates[j]).storageMass)
    && (forall j :: 0 <= j < i && Fits(price(candidates[j])) ==>
          price(candidates[i]).storageMass < price(candidates[j]).storageMass)
  }

  ghost predicate SomePriced<E>(candidates: seq<seq<Utxo>>, price: seq<Utxo> -> Pricing<E>) {
    exists i :: 0 <= i < |candidates| && price(candidates[i]).Priced?
  }

  /** The first candidate of least storage mass among those that can be priced and fit; an error exactly when
      there is none, and then the last pricing error unless some candidate was priced but too heavy. */
  method SelectFunding<E(0)>(candidates: seq<seq<Utxo>>, price: seq<Utxo> -> Pricing<E>)
          returns (r: Result<seq<Utxo>, FundingError<E>>)
    ensures r.Ok? <==> SomeFit(candidates, price)
    ensures r.Ok? ==> exists i: nat :: IsLightest(candidates, price, i) && r.value == candidates[i]
    ensures r.Err? && (SomePriced(candidates, price) || LastFailure(candidates, price).None?)
        ==> r.error == StorageMassExceeded
    ensures r.Err? && !SomePriced(candidates, price) && LastFailure(candidates, price).Some? ==>
      r.error == PricingFailed(LastFailure(candidates, price).value)
  {
    var best := -1;
    var bestMass := 0;
    var sawMassFailure := false;
    var lastError: Option<E> := None;
    for k := 0 to |candidates|
      invariant -1 <= best < k
      invariant best == -1 ==> forall j :: 0 <= j < k ==> !Fits(price(candidates[j]))
      invariant best >= 0 ==> Fits(price(candidates[best])) && bestMass == price(candidates[best]).storageMass
      invariant best >= 0 ==>
          forall j :: 0 <= j < k && Fits(price(candidates[j])) ==> bestMass <= price(candidates[j]).storageMass
      invariant best >= 0 ==>
          forall j :: 0 <= j < best && Fits(price(candidates[j])) ==> bestMass < price(candidates[j]).storageMass
      invariant best == -1 ==> (sawMassFailure <==> exists j :: 0 <= j < k && price(candidates[j]).Priced?)
      invariant lastError == LastFailure(candidates[..k], price)
    {
      assert candidates[..k + 1][..k] == candidates[..k] && candidates[..k + 1][k] == candidates[k];
      var p := price(candidates[k]);
      if p.Failed? {
        lastError := Some(p.error);
      } else if p.storageMass <= MAX_TERMINAL_STORAGE_MASS && (best == -1 || p.storageMass < bestMass) {
        best, bestMass := k, p.storageMass;
      } else {
        sawMassFailure := true;
      }
    }
    assert candidates[..|candidates|] == candidates;
    if best >= 0 {
      assert IsLightest(candidates, price, best);
      return Ok(candidates[best]);
    }
    if !sawMassFailure && lastError.Some? { return Err(PricingFailed(lastError.value)); }
    return Err(StorageMassExceeded);
  }
}
