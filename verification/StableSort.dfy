/** Stable sorting by a comparison, as the language's own sort does it, and what may be concluded from it. */
module StableSort {
  ghost predicate TotalPreorder<T(!new)>(le: (T, T) -> bool) {
    && (forall x, y :: le(x, y) || le(y, x))
    && (forall x, y, z :: le(x, y) && le(y, z) ==> le(x, z))
  }

  function Insert<T>(le: (T, T) -> bool, x: T, s: seq<T>): seq<T>
    decreases |s|
  {
    if s == [] then [x]
    else if le(x, s[0]) then [x] + s
    else [s[0]] + Insert(le, x, s[1..])
  }

  function Sort<T>(le: (T, T) -> bool, s: seq<T>): seq<T>
    decreases |s|
  {
    if s == [] then [] else Insert(le, s[0], Sort(le, s[1..]))
  }

  predicate Sorted<T>(le: (T, T) -> bool, s: seq<T>) {
    forall i, j :: 0 <= i < j < |s| ==> le(s[i], s[j])
  }

  lemma {:induction false} InsertPermutes<T>(le: (T, T) -> bool, x: T, s: seq<T>)
    ensures multiset(Insert(le, x, s)) == multiset{x} + multiset(s)
    decreases |s|
  {
    if s != [] && !le(x, s[0]) {
      InsertPermutes(le, x, s[1..]);
      assert s == [s[0]] + s[1..];
    }
  }

  lemma {:induction false} SortPermutes<T>(le: (T, T) -> bool, s: seq<T>)
    ensures multiset(Sort(le, s)) == multiset(s) && |Sort(le, s)| == |s|
    decreases |s|
  {
    if s != [] {
      SortPermutes(le, s[1..]);
      InsertPermutes(le, s[0], Sort(le, s[1..]));
      assert s == [s[0]] + s[1..];
    }
    assert |multiset(Sort(le, s))| == |multiset(s)|;
  }

  lemma {:induction false} SortMembers<T>(le: (T, T) -> bool, s: seq<T>, x: T)
    ensures x in Sort(le, s) <==> x in s
  {
    SortPermutes(le, s);
    assert x in Sort(le, s) <==> x in multiset(Sort(le, s));
    assert x in s <==> x in multiset(s);
  }

  lemma {:induction false} InsertSorted<T(!new)>(le: (T, T) -> bool, x: T, s: seq<T>)
    requires TotalPreorder(le) && Sorted(le, s)
    ensures Sorted(le, Insert(le, x, s))
    decreases |s|
  {
    if s != [] && !le(x, s[0]) {
      InsertSorted(le, x, s[1..]);
      var rest := Insert(le, x, s[1..]);
      forall j | 0 <= j < |rest|
        ensures le(s[0], rest[j])
      {
        InsertPermutes(le, x, s[1..]);
        assert rest[j] in multiset(rest);
        if rest[j] != x { assert rest[j] in s[1..]; }
      }
    }
  }

  lemma {:induction false} SortIsSorted<T(!new)>(le: (T, T) -> bool, s: seq<T>)
    requires TotalPreorder(le)
    ensures Sorted(le, Sort(le, s))
    decreases |s|
  {
    if s != [] {
      SortIsSorted(le, s[1..]);
      InsertSorted(le, s[0], Sort(le, s[1..]));
    }
  }

  lemma {:induction false} InsertFront<T>(le: (T, T) -> bool, x: T, a: seq<T>, b: seq<T>)
    requires forall y :: y in b ==> le(x, y)
    ensures Insert(le, x, a + b) == Insert(le, x, a) + b
    decreases |a|
  {
    if a == [] {
      assert a + b == b;
    } else {
      assert (a + b)[1..] == a[1..] + b;
      InsertFront(le, x, a[1..], b);
    }
  }

  /** What comes no earlier than everything before it is sorted separately. */
  lemma {:induction false} SortSplits<T>(le: (T, T) -> bool, a: seq<T>, b: seq<T>)
    requires forall x, y :: x in a && y in b ==> le(x, y)
    ensures Sort(le, a + b) == Sort(le, a) + Sort(le, b)
    decreases |a|
  {
    if a == [] {
      assert a + b == b;
    } else {
      assert (a + b)[1..] == a[1..] + b;
      SortSplits(le, a[1..], b);
      forall y | y in Sort(le, b) ensures le(a[0], y) { SortMembers(le, b, y); }
      InsertFront(le, a[0], Sort(le, a[1..]), Sort(le, b));
    }
  }

  // --- Filtering -----------------------------------------------------------

  function Filter<T(!new)>(keep: T -> bool, s: seq<T>): (r: seq<T>)
    ensures forall x :: x in r <==> x in s && keep(x)
    ensures |r| <= |s|
    decreases |s|
  {
    if s == [] then [] else (if keep(s[0]) then [s[0]] else []) + Filter(keep, s[1..])
  }

  lemma {:induction false} FilterAppend<T(!new)>(keep: T -> bool, a: seq<T>, b: seq<T>)
    ensures Filter(keep, a + b) == Filter(keep, a) + Filter(keep, b)
    decreases |a|
  {
    if a == [] {
      assert a + b == b;
    } else {
      assert (a + b)[1..] == a[1..] + b;
      FilterAppend(keep, a[1..], b);
    }
  }

  lemma {:induction false} FilterAll<T(!new)>(keep: T -> bool, s: seq<T>)
    requires forall x :: x in s ==> keep(x)
    ensures Filter(keep, s) == s
    decreases |s|
  {
    if s != [] {
      FilterAll(keep, s[1..]);
    }
  }

  lemma Unfold<T(!new)>(p: T -> bool, s: seq<T>)
    requires s != []
    ensures Filter(p, s) == if p(s[0]) then [s[0]] + Filter(p, s[1..]) else Filter(p, s[1..])
    ensures p(s[0]) ==> Filter(p, s)[0] == s[0] && Filter(p, s)[1..] == Filter(p, s[1..])
  {
  }

  lemma {:induction false} FiltersCommute<T(!new)>(p: T -> bool, q: T -> bool, s: seq<T>)
    ensures Filter(p, Filter(q, s)) == Filter(q, Filter(p, s))
    decreases |s|
  {
    if s != [] {
      FiltersCommute(p, q, s[1..]);
      Unfold(p, s);
      Unfold(q, s);
      if q(s[0]) { Unfold(p, Filter(q, s)); }
      if p(s[0]) { Unfold(q, Filter(p, s)); }
    }
  }

  lemma {:induction false} FilterShrinks<T(!new)>(p: T -> bool, s: seq<T>)
    ensures |Filter(p, s)| <= |s|
    decreases |s|
  {
    if s != [] { FilterShrinks(p, s[1..]); }
  }

  lemma {:induction false} FilterInsert<T(!new)>(le: (T, T) -> bool, keep: T -> bool, x: T, s: seq<T>)
    requires TotalPreorder(le) && Sorted(le, s)
    ensures Filter(keep, Insert(le, x, s)) == if keep(x) then Insert(le, x, Filter(keep, s)) else Filter(keep, s)
    decreases |s|
  {
    if s == [] {
    } else if le(x, s[0]) {
      assert ([x] + s)[1..] == s;
      if keep(x) && Filter(keep, s) != [] {
        assert Filter(keep, s)[0] in s;
      }
    } else {
      FilterInsert(le, keep, x, s[1..]);
      assert ([s[0]] + Insert(le, x, s[1..]))[1..] == Insert(le, x, s[1..]);
      if keep(s[0]) {
        assert ([s[0]] + Filter(keep, s[1..]))[1..] == Filter(keep, s[1..]);
      } else if keep(x) {
        assert Filter(keep, s) == Filter(keep, s[1..]);
      }
    }
  }

  /** Filtering commutes with a stable sort. */
  lemma {:induction false} FilterSort<T(!new)>(le: (T, T) -> bool, keep: T -> bool, s: seq<T>)
    requires TotalPreorder(le)
    ensures Filter(keep, Sort(le, s)) == Sort(le, Filter(keep, s))
    decreases |s|
  {
    if s != [] {
      FilterSort(le, keep, s[1..]);
      SortIsSorted(le, s[1..]);
      FilterInsert(le, keep, s[0], Sort(le, s[1..]));
      if keep(s[0]) {
        assert Filter(keep, s)[1..] == Filter(keep, s[1..]);
      } else {
        assert Filter(keep, s) == Filter(keep, s[1..]);
      }
    }
  }

  // --- Order of the input --------------------------------------------------

  /** Nothing in `s` ties with anything else in `s`. */
  predicate NoTies<T(==)>(le: (T, T) -> bool, s: seq<T>) {
    forall i, j :: 0 <= i < |s| && 0 <= j < |s| && le(s[i], s[j]) && le(s[j], s[i]) ==> s[i] == s[j]
  }

  lemma {:induction false} SameFirst<T(!new)>(le: (T, T) -> bool, a: seq<T>, b: seq<T>)
    requires Sorted(le, a) && Sorted(le, b) && NoTies(le, a) && multiset(a) == multiset(b) && a != [] && b != []
    ensures a[0] == b[0]
  {
    assert a[0] in multiset(b) && b[0] in multiset(a);
    var i :| 0 <= i < |b| && b[i] == a[0];
    var j :| 0 <= j < |a| && a[j] == b[0];
    if i > 0 && j > 0 {
      assert le(a[0], a[j]) && le(b[0], b[i]);
    }
  }

  lemma {:induction false} TailCount<T>(a: seq<T>)
    requires a != []
    ensures multiset(a[1..]) == multiset(a) - multiset{a[0]}
  {
    assert a == [a[0]] + a[1..];
  }

  lemma {:induction false} SortedIsUnique<T(!new)>(le: (T, T) -> bool, a: seq<T>, b: seq<T>)
    requires Sorted(le, a) && Sorted(le, b) && NoTies(le, a) && multiset(a) == multiset(b)
    ensures a == b
    decreases |a|
  {
    assert |multiset(a)| == |multiset(b)|;
    if a != [] {
      SameFirst(le, a, b);
      TailCount(a);
      TailCount(b);
      SortedIsUnique(le, a[1..], b[1..]);
      assert a == [a[0]] + a[1..] && b == [b[0]] + b[1..];
    }
  }

  /** Without ties, the order the elements arrive in does not matter. */
  lemma {:induction false} SortIgnoresOrder<T(!new)>(le: (T, T) -> bool, a: seq<T>, b: seq<T>)
    requires TotalPreorder(le) && NoTies(le, a) && multiset(a) == multiset(b)
    ensures Sort(le, a) == Sort(le, b)
  {
    SortIsSorted(le, a);
    SortIsSorted(le, b);
    SortPermutes(le, a);
    SortPermutes(le, b);
    var s := Sort(le, a);
    forall i, j | 0 <= i < |s| && 0 <= j < |s| && le(s[i], s[j]) && le(s[j], s[i])
      ensures s[i] == s[j]
    {
      SortMembers(le, a, s[i]);
      SortMembers(le, a, s[j]);
    }
    SortedIsUnique(le, s, Sort(le, b));
  }

  // --- Mapping -------------------------------------------------------------

  function Map<S, T>(f: S -> T, s: seq<S>): (r: seq<T>)
    ensures |r| == |s|
    ensures forall i :: 0 <= i < |s| ==> r[i] == f(s[i])
  {
    seq(|s|, i requires 0 <= i < |s| => f(s[i]))
  }

  lemma {:induction false} InsertMap<S(!new), T>(le: (S, S) -> bool, leT: (T, T) -> bool, f: S -> T, x: S, s: seq<S>)
    requires forall x, y :: leT(f(x), f(y)) == le(x, y)
    ensures Insert(leT, f(x), Map(f, s)) == Map(f, Insert(le, x, s))
    decreases |s|
  {
    if s != [] {
      assert Map(f, s)[1..] == Map(f, s[1..]);
      InsertMap(le, leT, f, x, s[1..]);
    }
  }

  /** Sorting by something a mapping keeps commutes with the mapping. */
  lemma {:induction false} SortMap<S(!new), T>(le: (S, S) -> bool, leT: (T, T) -> bool, f: S -> T, s: seq<S>)
    requires forall x, y :: leT(f(x), f(y)) == le(x, y)
    ensures Sort(leT, Map(f, s)) == Map(f, Sort(le, s))
    decreases |s|
  {
    if s != [] {
      assert Map(f, s)[1..] == Map(f, s[1..]);
      SortMap(le, leT, f, s[1..]);
      InsertMap(le, leT, f, s[0], Sort(le, s[1..]));
    }
  }
}
