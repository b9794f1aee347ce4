/**
 Choosing ordinary coins to fund a target, largest first.  Amounts are in sompi; a transaction id is the
 number its hexadecimal text stands for.
 */
module UtxoSelection {
  import opened Outcomes
  import opened StableSort

  datatype Utxo = Utxo(txId: nat, index: nat, amount: int, covenant: bool)

  datatype Outpoint = Outpoint(txId: nat, index: nat)

  datatype Selection = Selection(selected: seq<Utxo>, total: int, exact: bool)

  datatype SelectionError = NoUtxos | InvalidUtxo | NoOrdinaryUtxos | InsufficientUtxos

  function OutpointOf(u: Utxo): Outpoint { Outpoint(u.txId, u.index) }

  /** Larger amounts first, then by outpoint. */
  predicate NoLater(a: Utxo, b: Utxo) {
    a.amount > b.amount || (a.amount == b.amount && (a.txId < b.txId || (a.txId == b.txId && a.index <= b.index)))
  }

  lemma LargestFirst()
    ensures TotalPreorder(NoLater)
  {
  }

  function Eligible(exclude: set<Outpoint>): Utxo -> bool {
    (u: Utxo) => OutpointOf(u) !in exclude && !u.covenant
  }

  function Sum(s: seq<Utxo>): int {
    if s == [] then 0 else s[0].amount + Sum(s[1..])
  }

  function Ordinary(utxos: seq<Utxo>, exclude: set<Outpoint>): seq<Utxo> {
    Filter(Eligible(exclude), utxos)
  }

  predicate AllNonNegative(s: seq<Utxo>) {
    forall i :: 0 <= i < |s| ==> s[i].amount >= 0
  }

  /** The first prefix that reaches the target, or everything. */
  function Enough(s: seq<Utxo>, target: int, n: nat): (r: nat)
    requires n <= |s|
    ensures n <= r <= |s|
    decreases |s| - n
  {
    if n == |s| || (n > 0 && Sum(s[..n]) >= target) then n else Enough(s, target, n + 1)
  }

  function Select(utxos: seq<Utxo>, target: int, exclude: set<Outpoint>): Result<Selection, SelectionError> {
    if utxos == [] then Err(NoUtxos)
    else
      var ordinary := Ordinary(utxos, exclude);
      if !AllNonNegative(ordinary) then Err(InvalidUtxo)
      else if ordinary == [] then Err(NoOrdinaryUtxos)
      else
        var sorted := Sort(NoLater, ordinary);
        var taken := sorted[..Enough(sorted, target, 0)];
        if Sum(taken) < target then Err(InsufficientUtxos) else Ok(Selection(taken, Sum(taken), Sum(taken) == target))
  }

  lemma SumPush(s: seq<Utxo>, u: Utxo)
    ensures Sum(s + [u]) == Sum(s) + u.amount
    decreases |s|
  {
    if s == [] {
      assert s + [u] == [u] && [u][1..] == [];
    } else {
      assert (s + [u])[1..] == s[1..] + [u];
      SumPush(s[1..], u);
    }
  }

  /** The accumulating loop of the source. */
  method SelectOrdinaryUtxos(utxos: seq<Utxo>, target: int, exclude: set<Outpoint>)
          returns (r: Result<Selection, SelectionError>)
    ensures r == Select(utxos, target, exclude)
  {
    if utxos == [] { return Err(NoUtxos); }
    var ordinary := Filter(Eligible(exclude), utxos);
    if !AllNonNegative(ordinary) { return Err(InvalidUtxo); }
    ordinary := Sort(NoLater, ordinary);
    if ordinary == [] {
      SortPermutes(NoLater, Ordinary(utxos, exclude));
      return Err(NoOrdinaryUtxos);
    }
    var selected: seq<Utxo> := [];
    var sum := 0;
    var n := 0;
    while n < |ordinary| && (n == 0 || sum < target)
      invariant 0 <= n <= |ordinary| && selected == ordinary[..n] && sum == Sum(selected)
      invariant Enough(ordinary, target, n) == Enough(ordinary, target, 0)
    {
      SumPush(selected, ordinary[n]);
      assert ordinary[..n + 1] == ordinary[..n] + [ordinary[n]];
      selected := selected + [ordinary[n]];
      sum := sum + ordinary[n].amount;
      n := n + 1;
    }
    if sum < target { return Err(InsufficientUtxos); }
    return Ok(Selection(selected, sum, sum == target));
  }

  // --- Fewest coins --------------------------------------------------------

  lemma {:induction false} SumWithout(s: seq<Utxo>, i: nat)
    requires i < |s|
    ensures Sum(s) == s[i].amount + Sum(s[..i] + s[i + 1..])
    ensures multiset(s[..i] + s[i + 1..]) == multiset(s) - multiset{s[i]}
    decreases i
  {
    assert s == s[..i] + [s[i]] + s[i + 1..];
    if i == 0 {
      assert s[..0] + s[1..] == s[1..];
    } else {
      SumWithout(s[1..], i - 1);
      assert s[1..][..i - 1] + s[1..][i..] == (s[..i] + s[i + 1..])[1..];
    }
  }

  /** No choice of coins is worth more than as many of the largest. */
  lemma {:induction false} LargestAreWorthMost(s: seq<Utxo>, other: seq<Utxo>)
    requires Sorted(NoLater, s) && multiset(other) <= multiset(s)
    ensures |other| <= |s| && Sum(other) <= Sum(s[..|other|])
    decreases |s|
  {
    assert |multiset(other)| <= |multiset(s)| by { SubsetSize(multiset(other), multiset(s)); }
    if other != [] {
      TailCount(s);
      var i := PickOne(s, other);
      var rest := other[..i] + other[i + 1..];
      SumWithout(other, i);
      WithoutFits(multiset(other), other[i], multiset(s), s[0]);
      LargestAreWorthMost(s[1..], rest);
      assert s[..|other|][1..] == s[1..][..|rest|];
    }
  }

  lemma SubsetSize(a: multiset<Utxo>, b: multiset<Utxo>)
    requires a <= b
    ensures |a| <= |b|
  {
    assert b == a + (b - a);
  }

  /** A coin to set against the largest: the largest itself if it was chosen, any other if not. */
  lemma {:induction false} PickOne(s: seq<Utxo>, other: seq<Utxo>) returns (i: nat)
    requires Sorted(NoLater, s) && s != [] && other != [] && multiset(other) <= multiset(s)
    ensures i < |other| && other[i].amount <= s[0].amount && (other[i] == s[0] || s[0] !in other)
  {
    if s[0] in other {
      i :| 0 <= i < |other| && other[i] == s[0];
    } else {
      i := 0;
      assert other[0] in multiset(s);
      var j :| 0 <= j < |s| && s[j] == other[0];
      assert j == 0 || NoLater(s[0], s[j]);
    }
  }

  lemma WithoutFits(a: multiset<Utxo>, x: Utxo, b: multiset<Utxo>, largest: Utxo)
    requires a <= b && (x == largest || largest !in a)
    ensures a - multiset{x} <= b - multiset{largest}
  {
  }

  lemma {:induction false} EnoughIsFirst(s: seq<Utxo>, target: int, n: nat)
    requires n <= |s|
    ensures n <= Enough(s, target, n) <= |s|
    ensures forall m :: n <= m < Enough(s, target, n) && m > 0 ==> Sum(s[..m]) < target
    ensures Enough(s, target, n) < |s| ==> Sum(s[..Enough(s, target, n)]) >= target
    decreases |s| - n
  {
    if !(n == |s| || (n > 0 && Sum(s[..n]) >= target)) { EnoughIsFirst(s, target, n + 1); }
  }

  lemma {:induction false} PrefixIsLess(s: seq<Utxo>, n: nat)
    requires n <= |s| && AllNonNegative(s)
    ensures Sum(s[..n]) <= Sum(s)
    decreases n
  {
    if n > 0 {
      PrefixIsLess(s[1..], n - 1);
      assert s[..n][1..] == s[1..][..n - 1];
    } else {
      NonNegativeSum(s);
    }
  }

  lemma {:induction false} NonNegativeSum(s: seq<Utxo>)
    requires AllNonNegative(s)
    ensures Sum(s) >= 0
  {
    if s != [] { NonNegativeSum(s[1..]); }
  }

  lemma {:induction false} SumOfPermutation(a: seq<Utxo>, b: seq<Utxo>)
    requires multiset(a) == multiset(b)
    ensures Sum(a) == Sum(b)
    decreases |a|
  {
    assert |multiset(a)| == |multiset(b)|;
    if a != [] {
      assert a[0] in multiset(b);
      var i :| 0 <= i < |b| && b[i] == a[0];
      SumWithout(b, i);
      TailCount(a);
      SumOfPermutation(a[1..], b[..i] + b[i + 1..]);
    }
  }

  /** A coin the selection may spend: no covenant coin, and none of the excluded ones. */
  predicate MaySpend(u: Utxo, exclude: set<Outpoint>) {
    !u.covenant && Outpoint(u.txId, u.index) !in exclude
  }

  /** Some of the coins, each as often as it is listed, all of which may be spent. */
  ghost predicate IsChoice(choice: seq<Utxo>, utxos: seq<Utxo>, exclude: set<Outpoint>) {
    multiset(choice) <= multiset(utxos) && forall i :: 0 <= i < |choice| ==> MaySpend(choice[i], exclude)
  }

  ghost predicate HasSpendable(utxos: seq<Utxo>, exclude: set<Outpoint>) {
    exists i :: 0 <= i < |utxos| && MaySpend(utxos[i], exclude)
  }

  ghost predicate HasNegative(utxos: seq<Utxo>, exclude: set<Outpoint>) {
    exists i :: 0 <= i < |utxos| && MaySpend(utxos[i], exclude) && utxos[i].amount < 0
  }

  ghost predicate LargestComeFirst(s: seq<Utxo>) {
    forall i, j :: 0 <= i < j < |s| ==>
      s[i].amount > s[j].amount
      || (s[i].amount == s[j].amount && (s[i].txId < s[j].txId || (s[i].txId == s[j].txId && s[i].index <= s[j].index)))
  }

  lemma {:induction false} OrdinaryCounts(utxos: seq<Utxo>, exclude: set<Outpoint>, u: Utxo)
    ensures multiset(Ordinary(utxos, exclude))[u] == if MaySpend(u, exclude) then multiset(utxos)[u] else 0
    decreases |utxos|
  {
    if utxos != [] {
      TailCount(utxos);
      OrdinaryCounts(utxos[1..], exclude, u);
    }
  }

  /** The choices are what can be picked from the ordinary coins. */
  lemma {:induction false} ChoiceIff(choice: seq<Utxo>, utxos: seq<Utxo>, exclude: set<Outpoint>)
    ensures IsChoice(choice, utxos, exclude) <==> multiset(choice) <= multiset(Ordinary(utxos, exclude))
  {
    forall u ensures multiset(Ordinary(utxos, exclude))[u] == if MaySpend(u, exclude) then multiset(utxos)[u] else 0 {
      OrdinaryCounts(utxos, exclude, u);
    }
    if multiset(choice) <= multiset(Ordinary(utxos, exclude)) {
      forall i | 0 <= i < |choice| ensures MaySpend(choice[i], exclude) { assert choice[i] in multiset(choice); }
    }
    if IsChoice(choice, utxos, exclude) {
      forall u ensures multiset(choice)[u] <= multiset(Ordinary(utxos, exclude))[u] {
        if u in multiset(choice) { assert MaySpend(u, exclude); }
      }
    }
  }

  lemma {:induction false} OrdinaryMembers(utxos: seq<Utxo>, exclude: set<Outpoint>)
    ensures forall u :: u in Ordinary(utxos, exclude) <==> u in utxos && MaySpend(u, exclude)
    ensures HasSpendable(utxos, exclude) <==> Ordinary(utxos, exclude) != []
    ensures HasNegative(utxos, exclude) <==> !AllNonNegative(Ordinary(utxos, exclude))
  {
    var ordinary := Ordinary(utxos, exclude);
    forall u ensures u in ordinary <==> u in utxos && MaySpend(u, exclude) {
      OrdinaryCounts(utxos, exclude, u);
      assert u in ordinary <==> multiset(ordinary)[u] > 0;
      assert u in utxos <==> multiset(utxos)[u] > 0;
    }
    assert forall i :: 0 <= i < |utxos| ==> utxos[i] in utxos;
    assert forall i :: 0 <= i < |ordinary| ==> ordinary[i] in ordinary;
  }

  /** The selection takes coins it may spend, at least one, the largest first, reaches the target, and no
      choice of such coins reaches it with fewer.  It fails for want of funds exactly when there are such coins but
      no choice of them reaches the target; the other failures are of an empty list, of a list without such coins,
      and of a negative amount among them. */
  lemma {:induction false} FewestCoins(utxos: seq<Utxo>, target: int, exclude: set<Outpoint>, other: seq<Utxo>)
    requires IsChoice(other, utxos, exclude) && other != []
    ensures var r := Select(utxos, target, exclude);
      && (r == Err(NoUtxos) <==> utxos == [])
      && (r == Err(InvalidUtxo) <==> HasNegative(utxos, exclude))
      && (r == Err(NoOrdinaryUtxos) <==> utxos != [] && !HasSpendable(utxos, exclude))
      && (r == Err(InsufficientUtxos) ==> Sum(other) < target)
      && (r.Ok? ==>
            && IsChoice(r.value.selected, utxos, exclude) && LargestComeFirst(r.value.selected)
            && Sum(r.value.selected) == r.value.total >= target && (r.value.exact <==> r.value.total == target)
            && (Sum(other) >= target ==> 0 < |r.value.selected| <= |other|))
  {
    var ordinary := Ordinary(utxos, exclude);
    OrdinaryMembers(utxos, exclude);
    ChoiceIff(other, utxos, exclude);
    if utxos != [] && ordinary != [] && AllNonNegative(ordinary) {
      FewestOfOrdinary(utxos, target, exclude, other);
      SortIsSorted(NoLater, ordinary) by { LargestFirst(); }
      if Select(utxos, target, exclude).Ok? {
        ChoiceIff(Select(utxos, target, exclude).value.selected, utxos, exclude);
      }
    }
  }

  lemma {:induction false} FewestOfOrdinary(utxos: seq<Utxo>, target: int, exclude: set<Outpoint>, other: seq<Utxo>)
    requires other != [] && utxos != [] && Ordinary(utxos, exclude) != [] && AllNonNegative(Ordinary(utxos, exclude))
    requires multiset(other) <= multiset(Ordinary(utxos, exclude))
    ensures var ordinary, r := Ordinary(utxos, exclude), Select(utxos, target, exclude);
      && (r.Err? <==> Sum(ordinary) < target)
      && (r.Err? ==> r.error.InsufficientUtxos? && Sum(other) < target)
      && (r.Ok? ==> multiset(r.value.selected) <= multiset(ordinary)
                    && Sum(r.value.selected) == r.value.total >= target)
      && (r.Ok? && Sum(other) >= target ==> 0 < |r.value.selected| <= |other|)
  {
    LargestFirst();
    var ordinary := Ordinary(utxos, exclude);
    SortPermutes(NoLater, ordinary);
    SortIsSorted(NoLater, ordinary);
    SortedNonNegative(ordinary);
    FewestOfSorted(Sort(NoLater, ordinary), ordinary, target, other);
  }

  /** The first prefix of the sorted coins that reaches the target, or all of them. */
  lemma {:induction false} FewestOfSorted(sorted: seq<Utxo>, ordinary: seq<Utxo>, target: int, other: seq<Utxo>)
    requires Sorted(NoLater, sorted) && AllNonNegative(sorted) && multiset(sorted) == multiset(ordinary)
    requires ordinary != [] && other != [] && multiset(other) <= multiset(ordinary)
    ensures var n := Enough(sorted, target, 0);
      && multiset(sorted[..n]) <= multiset(ordinary)
      && (Sum(sorted[..n]) < target <==> Sum(ordinary) < target)
      && (Sum(other) >= target ==> 0 < n <= |other| && Sum(sorted[..n]) >= target)
  {
    SumOfPermutation(sorted, ordinary);
    var n := Enough(sorted, target, 0);
    EnoughIsFirst(sorted, target, 0);
    assert sorted == sorted[..n] + sorted[n..];
    if n == |sorted| { assert sorted[..n] == sorted; }
    PrefixIsLess(sorted, n);
    LargestAreWorthMost(sorted, other);
    PrefixIsLess(sorted, |other|);
    assert |multiset(sorted)| == |multiset(ordinary)|;
  }

  lemma SortedNonNegative(s: seq<Utxo>)
    requires AllNonNegative(s)
    ensures AllNonNegative(Sort(NoLater, s))
  {
    var sorted := Sort(NoLater, s);
    forall i | 0 <= i < |sorted| ensures sorted[i].amount >= 0 { SortMembers(NoLater, s, sorted[i]); }
  }

  // --- Order of the input --------------------------------------------------

  ghost predicate DistinctOutpoints(s: seq<Utxo>) {
    forall i, j :: 0 <= i < j < |s| ==> OutpointOf(s[i]) != OutpointOf(s[j])
  }

  /** The order the node lists the coins in does not matter. */
  lemma {:induction false} SelectionIgnoresOrder(a: seq<Utxo>, b: seq<Utxo>, target: int, exclude: set<Outpoint>)
    requires DistinctOutpoints(a) && multiset(a) == multiset(b)
    ensures Select(a, target, exclude) == Select(b, target, exclude)
  {
    LargestFirst();
    assert NoTies(NoLater, a) by {
      forall i, j | 0 <= i < |a| && 0 <= j < |a| && NoLater(a[i], a[j]) && NoLater(a[j], a[i])
        ensures a[i] == a[j]
      {
        assert OutpointOf(a[i]) == OutpointOf(a[j]);
      }
    }
    SortIgnoresOrder(NoLater, a, b);
    FilterSort(NoLater, Eligible(exclude), a);
    FilterSort(NoLater, Eligible(exclude), b);
    SameOrdinary(a, b, exclude);
    assert |multiset(a)| == |multiset(b)|;
  }

  lemma SameOrdinary(a: seq<Utxo>, b: seq<Utxo>, exclude: set<Outpoint>)
    requires multiset(a) == multiset(b) && Sort(NoLater, Ordinary(a, exclude)) == Sort(NoLater, Ordinary(b, exclude))
    ensures AllNonNegative(Ordinary(a, exclude)) <==> AllNonNegative(Ordinary(b, exclude))
    ensures Ordinary(a, exclude) == [] <==> Ordinary(b, exclude) == []
  {
    SortPermutes(NoLater, Ordinary(a, exclude));
    SortPermutes(NoLater, Ordinary(b, exclude));
    forall u ensures u in Ordinary(a, exclude) <==> u in Ordinary(b, exclude) {
      SortMembers(NoLater, Ordinary(a, exclude), u);
      SortMembers(NoLater, Ordinary(b, exclude), u);
    }
    assert AllNonNegative(Ordinary(a, exclude)) <==> forall u :: u in Ordinary(a, exclude) ==> u.amount >= 0;
    assert AllNonNegative(Ordinary(b, exclude)) <==> forall u :: u in Ordinary(b, exclude) ==> u.amount >= 0;
  }
}
