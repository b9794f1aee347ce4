/** Comparing two parsed values by their canonical text, and what a signed transaction may have changed. */
module JsonEquality {
  import opened Outcomes
  import opened StableSort
  import opened Json
  import opened StableJson

  // --- The order of keys ---------------------------------------------------

  predicate MemberNoLater(a: Member, b: Member) { KeyNoLater(a.key, b.key) }

  lemma {:induction false} KeysCompare(a: Units, b: Units)
    ensures KeyNoLater(a, b) || KeyNoLater(b, a)
    ensures KeyNoLater(a, b) && KeyNoLater(b, a) ==> a == b
    decreases |a|
  {
    if a != [] && b != [] && a[0] == b[0] {
      KeysCompare(a[1..], b[1..]);
      assert a == [a[0]] + a[1..] && b == [b[0]] + b[1..];
    }
  }

  lemma {:induction false} KeysChain(a: Units, b: Units, c: Units)
    requires KeyNoLater(a, b) && KeyNoLater(b, c)
    ensures KeyNoLater(a, c)
    decreases |a|
  {
    if a != [] && a[0] == b[0] == c[0] { KeysChain(a[1..], b[1..], c[1..]); }
  }

  lemma KeyOrder()
    ensures TotalPreorder(MemberNoLater)
  {
    forall x, y ensures MemberNoLater(x, y) || MemberNoLater(y, x) { KeysCompare(x.key, y.key); }
    forall x, y, z | MemberNoLater(x, y) && MemberNoLater(y, z)
      ensures MemberNoLater(x, z)
    {
      KeysChain(x.key, y.key, z.key);
    }
  }

  // --- Sorting the members -------------------------------------------------

  /** Every object's members in key order. */
  function Canon(v: Value): Value
    decreases v
  {
    match v
    case Arr(items) => Arr(seq(|items|, i requires 0 <= i < |items| => Canon(items[i])))
    case Obj(members) =>
      Obj(Sort(MemberNoLater, seq(|members|, i requires 0 <= i < |members| =>
          Member(members[i].key, Canon(members[i].value)))))
    case _ => v
  }

  function CanonMembers(members: seq<Member>): (r: seq<Member>)
    ensures |r| == |members|
    ensures forall i :: 0 <= i < |members| ==> r[i] == Member(members[i].key, Canon(members[i].value))
  {
    seq(|members|, i requires 0 <= i < |members| => Member(members[i].key, Canon(members[i].value)))
  }

  function FlatMember(m: Member): Printed {
    Printed(m.key, Flat(m.value))
  }

  lemma FlatObject(members: seq<Member>)
    ensures Flat(Obj(members)) == Bracketed(OPEN_OBJECT, Texts(Map(FlatMember, members)), CLOSE_OBJECT)
  {
    assert Map(FlatMember, members)
        == seq(|members|, i requires 0 <= i < |members| => Printed(members[i].key, Flat(members[i].value)));
  }

  lemma CanonObject(members: seq<Member>)
    ensures Canon(Obj(members)) == Obj(Sort(MemberNoLater, CanonMembers(members)))
  {
    assert CanonMembers(members)
        == seq(|members|, i requires 0 <= i < |members| => Member(members[i].key, Canon(members[i].value)));
  }

  function ShownMembers(members: seq<Member>): (r: seq<Member>)
    ensures |r| == |members|
    ensures forall i :: 0 <= i < |members| ==> r[i] == Member(members[i].key, Shown(members[i].value))
    ensures Shown(Obj(members)) == Obj(r)
  {
    seq(|members|, i requires 0 <= i < |members| => Member(members[i].key, Shown(members[i].value)))
  }

  lemma {:induction false} PrintObjectIsFlat(members: seq<Member>)
    requires forall i :: 0 <= i < |members| ==> Print(members[i].value) == Flat(Canon(Shown(members[i].value)))
    ensures Print(Obj(members)) == Flat(Canon(Shown(Obj(members))))
  {
    var shown := ShownMembers(members);
    var printed := seq(|members|, i requires 0 <= i < |members| => Printed(members[i].key, Print(members[i].value)));
    assert printed == Map(FlatMember, CanonMembers(shown));
    SortMap(MemberNoLater, PrintedNoLater, FlatMember, CanonMembers(shown));
    CanonObject(shown);
    FlatObject(Sort(MemberNoLater, CanonMembers(shown)));
  }

  /** The canonical text is the plain text of the value with its infinities nulled and its members sorted. */
  lemma {:induction false} PrintIsFlat(v: Value)
    ensures Print(v) == Flat(Canon(Shown(v)))
    decreases v
  {
    match v
    case Arr(items) =>
      forall i | 0 <= i < |items| ensures Print(items[i]) == Flat(Canon(Shown(items[i]))) { PrintIsFlat(items[i]); }
      PrintArrayIsFlat(items);
    case Obj(members) =>
      forall i | 0 <= i < |members|
        ensures Print(members[i].value) == Flat(Canon(Shown(members[i].value)))
      {
        PrintIsFlat(members[i].value);
      }
      PrintObjectIsFlat(members);
    case _ =>
  }

  lemma {:induction false} PrintArrayIsFlat(items: seq<Value>)
    requires forall i :: 0 <= i < |items| ==> Print(items[i]) == Flat(Canon(Shown(items[i])))
    ensures Print(Arr(items)) == Flat(Canon(Shown(Arr(items))))
  {
    var canon := Canon(Shown(Arr(items))).items;
    assert |canon| == |items| && forall i :: 0 <= i < |items| ==> canon[i] == Canon(Shown(items[i]));
    assert seq(|items|, i requires 0 <= i < |items| => Print(items[i]))
        == seq(|canon|, i requires 0 <= i < |canon| => Flat(canon[i]));
  }

  // --- Canonical values are equal exactly when the values are the same -----

  /** No object has a key twice. */
  ghost predicate Keyed(v: Value) {
    match v
    case Arr(items) => forall i :: 0 <= i < |items| ==> Keyed(items[i])
    case Obj(members) => DistinctKeys(members) && forall i :: 0 <= i < |members| ==> Keyed(members[i].value)
    case _ => true
  }

  lemma KeysDoNotTie(members: seq<Member>)
    requires DistinctKeys(members)
    ensures NoTies(MemberNoLater, members)
  {
    forall i, j | 0 <= i < |members| && 0 <= j < |members| && MemberNoLater(members[i], members[j])
        && MemberNoLater(members[j], members[i])
      ensures members[i] == members[j]
    {
      KeysCompare(members[i].key, members[j].key);
    }
  }

  lemma {:induction false} OnceEach(members: seq<Member>, m: Member)
    requires DistinctKeys(members)
    ensures multiset(members)[m] == if m in members then 1 else 0
    decreases |members|
  {
    if members != [] {
      assert members == [members[0]] + members[1..];
      OnceEach(members[1..], m);
    }
  }

  ghost function KeySet(members: seq<Member>): set<Units> {
    set m | m in members :: m.key
  }

  lemma {:induction false} KeySetSize(members: seq<Member>)
    requires DistinctKeys(members)
    ensures |KeySet(members)| == |members|
    decreases |members|
  {
    if members == [] {
      assert KeySet(members) == {};
    } else {
      KeySetSize(members[1..]);
      assert members == [members[0]] + members[1..];
      assert KeySet(members) == {members[0].key} + KeySet(members[1..]);
    }
  }

  lemma SubsetOfSameSize(a: set<Units>, b: set<Units>)
    requires a <= b && |a| == |b|
    ensures a == b
  {
    assert b == a + (b - a) && |b| == |a| + |b - a|;
  }

  /** If every member of `a` is in `b`, and there are as many, the two hold the same members. */
  lemma {:induction false} SameMembers(a: seq<Member>, b: seq<Member>)
    requires DistinctKeys(a) && DistinctKeys(b) && |a| == |b| && forall m :: m in a ==> m in b
    ensures multiset(a) == multiset(b)
  {
    KeySetSize(a);
    KeySetSize(b);
    SubsetOfSameSize(KeySet(a), KeySet(b));
    forall m ensures multiset(a)[m] == multiset(b)[m] {
      OnceEach(a, m);
      OnceEach(b, m);
      if m in b && m !in a {
        assert m.key in KeySet(a);
        var n :| n in a && n.key == m.key;
        SameKeySameMember(b, m, n);
        assert false;
      }
    }
  }

  lemma SameKeySameMember(members: seq<Member>, m: Member, n: Member)
    requires DistinctKeys(members) && m in members && n in members && m.key == n.key
    ensures m == n
  {
    var i :| 0 <= i < |members| && members[i] == m;
    var j :| 0 <= j < |members| && members[j] == n;
  }

  ghost predicate HasCanonTwin(m: Member, ns: seq<Member>) {
    exists j :: 0 <= j < |ns| && m.key == ns[j].key && Canon(m.value) == Canon(ns[j].value)
  }

  lemma {:induction false} SameObjects(ms: seq<Member>, ns: seq<Member>)
    requires DistinctKeys(ms) && DistinctKeys(ns) && |ms| == |ns|
    requires forall i :: 0 <= i < |ms| ==> HasCanonTwin(ms[i], ns)
    ensures Canon(Obj(ms)) == Canon(Obj(ns))
  {
    var cm, cn := CanonMembers(ms), CanonMembers(ns);
    forall m | m in cm ensures m in cn {
      var i :| 0 <= i < |cm| && cm[i] == m;
      assert HasCanonTwin(ms[i], ns);
      var j :| 0 <= j < |ns| && ms[i].key == ns[j].key && Canon(ms[i].value) == Canon(ns[j].value);
      assert cn[j] == m;
    }
    SameMembers(cm, cn);
    KeysDoNotTie(cm);
    KeyOrder();
    SortIgnoresOrder(MemberNoLater, cm, cn);
    CanonObject(ms);
    CanonObject(ns);
  }

  lemma {:induction false} CanonFinds(ms: seq<Member>, ns: seq<Member>, i: nat) returns (j: nat)
    requires Canon(Obj(ms)) == Canon(Obj(ns)) && i < |ms|
    ensures |ms| == |ns| && j < |ns| && ms[i].key == ns[j].key && Canon(ms[i].value) == Canon(ns[j].value)
  {
    CanonObject(ms);
    CanonObject(ns);
    var cm, cn := CanonMembers(ms), CanonMembers(ns);
    SortPermutes(MemberNoLater, cm);
    SortPermutes(MemberNoLater, cn);
    SortMembers(MemberNoLater, cm, cm[i]);
    SortMembers(MemberNoLater, cn, cm[i]);
    j :| 0 <= j < |cn| && cn[j] == cm[i];
  }

  /** Sorting the members makes two values equal exactly when they were equal up to member order. */
  lemma {:induction false} CanonIffSame(a: Value, b: Value)
    requires Keyed(a) && Keyed(b)
    ensures Canon(a) == Canon(b) <==> Same(a, b)
    decreases a
  {
    match (a, b)
    case (Arr(xs), Arr(ys)) =>
      forall i | 0 <= i < |xs| && i < |ys|
        ensures Canon(xs[i]) == Canon(ys[i]) <==> Same(xs[i], ys[i])
      {
        CanonIffSame(xs[i], ys[i]);
      }
      CanonArrays(xs, ys);
    case (Obj(ms), Obj(ns)) =>
      forall i, j | 0 <= i < |ms| && 0 <= j < |ns|
        ensures Canon(ms[i].value) == Canon(ns[j].value) <==> Same(ms[i].value, ns[j].value)
      {
        CanonIffSame(ms[i].value, ns[j].value);
      }
      CanonObjects(ms, ns);
    case _ =>
  }

  lemma CanonArrays(xs: seq<Value>, ys: seq<Value>)
    ensures Canon(Arr(xs)) == Canon(Arr(ys)) <==>
      |xs| == |ys| && forall i :: 0 <= i < |xs| ==> Canon(xs[i]) == Canon(ys[i])
  {
    var cx, cy := Canon(Arr(xs)).items, Canon(Arr(ys)).items;
    assert |cx| == |xs| && |cy| == |ys|;
    assert forall i :: 0 <= i < |xs| ==> cx[i] == Canon(xs[i]);
    assert forall i :: 0 <= i < |ys| ==> cy[i] == Canon(ys[i]);
  }

  lemma SameFinds(ms: seq<Member>, ns: seq<Member>, i: nat) returns (j: nat)
    requires Same(Obj(ms), Obj(ns)) && i < |ms|
    ensures |ms| == |ns| && j < |ns| && ms[i].key == ns[j].key && Same(ms[i].value, ns[j].value)
  {
    assert HasTwin(Obj(ms).members[i], Obj(ns).members);
    j :| 0 <= j < |ns| && ms[i].key == ns[j].key && Same(ms[i].value, ns[j].value);
  }

  lemma SameLengths(ms: seq<Member>, ns: seq<Member>)
    requires Same(Obj(ms), Obj(ns))
    ensures |ms| == |ns|
  {
    assert |Obj(ms).members| == |Obj(ns).members|;
  }

  lemma SameByTwins(ms: seq<Member>, ns: seq<Member>)
    requires |ms| == |ns| && forall i :: 0 <= i < |ms| ==> HasTwin(ms[i], ns)
    ensures Same(Obj(ms), Obj(ns))
  {
  }

  lemma {:induction false} CanonObjects(ms: seq<Member>, ns: seq<Member>)
    requires DistinctKeys(ms) && DistinctKeys(ns)
    requires forall i, j :: 0 <= i < |ms| && 0 <= j < |ns| ==>
        (Canon(ms[i].value) == Canon(ns[j].value) <==> Same(ms[i].value, ns[j].value))
    ensures Canon(Obj(ms)) == Canon(Obj(ns)) <==> Same(Obj(ms), Obj(ns))
  {
    if Same(Obj(ms), Obj(ns)) {
      SameLengths(ms, ns);
      forall i | 0 <= i < |ms|
        ensures HasCanonTwin(ms[i], ns)
      {
        var j := SameFinds(ms, ns, i);
        assert Canon(ms[i].value) == Canon(ns[j].value);
      }
      SameObjects(ms, ns);
    }
    if Canon(Obj(ms)) == Canon(Obj(ns)) {
      CanonLengths(ms, ns);
      forall i | 0 <= i < |ms|
        ensures HasTwin(ms[i], ns)
      {
        var j := CanonFinds(ms, ns, i);
      }
      SameByTwins(ms, ns);
    }
  }

  lemma {:induction false} CanonLengths(ms: seq<Member>, ns: seq<Member>)
    requires Canon(Obj(ms)) == Canon(Obj(ns))
    ensures |ms| == |ns|
  {
    CanonObject(ms);
    CanonObject(ns);
    SortPermutes(MemberNoLater, CanonMembers(ms));
    SortPermutes(MemberNoLater, CanonMembers(ns));
  }

  // --- The comparison ------------------------------------------------------

  lemma {:induction false} SortedIsPlain(members: seq<Member>)
    requires forall i :: 0 <= i < |members| ==> IsText(members[i].key) && Plain(members[i].value)
    ensures Plain(Obj(Sort(MemberNoLater, members)))
  {
    var sorted := Sort(MemberNoLater, members);
    forall i | 0 <= i < |sorted| ensures IsText(sorted[i].key) && Plain(sorted[i].value) {
      SortMembers(MemberNoLater, members, sorted[i]);
    }
  }

  lemma {:induction false} ParsedShowsPlain(v: Value)
    requires Parsed(v)
    ensures Plain(Canon(Shown(v))) && Keyed(Shown(v))
    decreases v
  {
    match v
    case Arr(items) =>
      forall i | 0 <= i < |items|
        ensures Plain(Canon(Shown(items[i]))) && Keyed(Shown(items[i]))
      {
        ParsedShowsPlain(items[i]);
      }
    case Obj(members) =>
      forall i | 0 <= i < |members| ensures Plain(Canon(Shown(members[i].value))) && Keyed(Shown(members[i].value)) {
        ParsedShowsPlain(members[i].value);
      }
      var shown := ShownMembers(members);
      CanonObject(shown);
      SortedIsPlain(CanonMembers(shown));
    case _ =>
  }

  /** Two parsed values have one canonical text exactly when what they show is equal up to member order. */
  lemma {:induction false} PrintsAlikeIff(a: Value, b: Value)
    requires Parsed(a) && Parsed(b)
    ensures Print(a) == Print(b) <==> Same(Shown(a), Shown(b))
  {
    ParsedShowsPlain(a);
    ParsedShowsPlain(b);
    PrintIsFlat(a);
    PrintIsFlat(b);
    CanonIffSame(Shown(a), Shown(b));
    if Print(a) == Print(b) { FlatIsUnique(Canon(Shown(a)), [], Canon(Shown(b)), []); }
  }

  lemma {:induction false} FiniteShowsItself(v: Value)
    requires AllFinite(v)
    ensures Shown(v) == v
    decreases v
  {
    match v
    case Arr(items) =>
      forall i | 0 <= i < |items| ensures Shown(items[i]) == items[i] { FiniteShowsItself(items[i]); }
      assert Shown(v).items == items;
    case Obj(members) =>
      forall i | 0 <= i < |members|
        ensures Shown(members[i].value) == members[i].value
      {
        FiniteShowsItself(members[i].value);
      }
      assert ShownMembers(members) == members;
    case _ =>
  }

  /** Without an overflowed number: alike exactly when equal up to member order. */
  lemma {:induction false} FinitePrintsAlikeIff(a: Value, b: Value)
    requires Parsed(a) && Parsed(b) && AllFinite(a) && AllFinite(b)
    ensures Print(a) == Print(b) <==> Same(a, b)
  {
    PrintsAlikeIff(a, b);
    FiniteShowsItself(a);
    FiniteShowsItself(b);
  }

  /** An object with one member. */
  function Single(key: Units, value: Value): Value {
    Obj([Member(key, value)])
  }

  lemma SingleIsParsed(key: Units, value: Value)
    requires IsText(key) && Parsed(value)
    ensures Parsed(Single(key, value)) && Shown(Single(key, value)) == Single(key, Shown(value))
  {
    assert ShownMembers([Member(key, value)]) == [Member(key, Shown(value))];
  }

  lemma SingleSame(key: Units, v: Value, w: Value)
    ensures Same(Single(key, v), Single(key, w)) <==> Same(v, w)
  {
    var ms, ns := [Member(key, v)], [Member(key, w)];
    if Same(Obj(ms), Obj(ns)) {
      var j := SameFinds(ms, ns, 0);
    }
    if Same(v, w) {
      assert ms[0].key == ns[0].key && Same(ms[0].value, ns[0].value);
      SameByTwins(ms, ns);
    }
  }

  /** An overflowed number and null are different values with one text. */
  lemma {:induction false} InfinityPrintsAsNull(key: Units, negative: bool)
    requires IsText(key)
    ensures var a, b := Single(key, Num(Infinite(negative))), Single(key, Null);
      Parsed(a) && Parsed(b) && Print(a) == Print(b) && !Same(a, b)
  {
    SingleIsParsed(key, Num(Infinite(negative)));
    SingleIsParsed(key, Null);
    SingleSame(key, Null, Null);
    SingleSame(key, Num(Infinite(negative)), Null);
    PrintsAlikeIff(Single(key, Num(Infinite(negative))), Single(key, Null));
  }
}
