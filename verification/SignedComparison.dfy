/** What a wallet may change in a creation transaction: its id and the signature scripts of its inputs. */
module SignedComparison {
  import opened Outcomes
  import opened StableSort
  import opened Json
  import opened StableJson
  import opened JsonEquality

  const ID_KEY: Units := [105, 100]
  const INPUTS_KEY: Units := [105, 110, 112, 117, 116, 115]
  const SIGNATURE_KEY: Units := [115, 105, 103, 110, 97, 116, 117, 114, 101, 83, 99, 114, 105, 112, 116]

  function Lookup(members: seq<Member>, key: Units): (r: Option<Value>)
    ensures r.None? <==> forall i :: 0 <= i < |members| ==> members[i].key != key
    ensures r.Some? ==> Member(key, r.value) in members
  {
    if members == [] then None
    else if members[0].key == key then Some(members[0].value)
    else Lookup(members[1..], key)
  }

  // --- Removing the signatures ---------------------------------------------

  /** Assigning a property: in place if it is there, at the end if not. */
  function Assign(members: seq<Member>, key: Units, value: Value): seq<Member> {
    if Lookup(members, key).Some? then Map((m: Member) => if m.key == key then Member(key, value) else m, members)
    else members + [Member(key, value)]
  }

  function Blank(input: Value): Value {
    if input.Obj? then Obj(Assign(input.members, SIGNATURE_KEY, Str([]))) else input
  }

  function BlankAll(inputs: Value): Value {
    if inputs.Arr? then Arr(Map(Blank, inputs.items)) else inputs
  }

  function BlankInputs(m: Member): Member {
    if m.key == INPUTS_KEY then Member(m.key, BlankAll(m.value)) else m
  }

  function NotId(m: Member): bool { m.key != ID_KEY }

  /** A transaction without its id and with every signature script empty. */
  function WithoutSignatures(members: seq<Member>): seq<Member> {
    Map(BlankInputs, Filter(NotId, members))
  }

  // --- Lookups -------------------------------------------------------------

  lemma LookupIs(members: seq<Member>, key: Units, value: Value)
    requires DistinctKeys(members) && Member(key, value) in members
    ensures Lookup(members, key) == Some(value)
  {
    SameKeySameMember(members, Member(key, value), Member(key, Lookup(members, key).value));
  }

  lemma MemberAt(members: seq<Member>, m: Member) returns (i: nat)
    requires m in members
    ensures i < |members| && members[i] == m
  {
    i :| 0 <= i < |members| && members[i] == m;
  }

  ghost predicate SameIfAny(a: Option<Value>, b: Option<Value>) {
    (a.None? && b.None?) || (a.Some? && b.Some? && Same(a.value, b.value))
  }

  lemma SameAtKey(ms: seq<Member>, ns: seq<Member>, i: nat) returns (j: nat)
    requires DistinctKeys(ms) && DistinctKeys(ns) && i < |ms|
    requires SameIfAny(Lookup(ms, ms[i].key), Lookup(ns, ms[i].key))
    ensures j < |ns| && ms[i].key == ns[j].key && Same(ms[i].value, ns[j].value)
  {
    LookupIs(ms, ms[i].key, ms[i].value) by { assert ms[i] == Member(ms[i].key, ms[i].value); }
    j := MemberAt(ns, Member(ms[i].key, Lookup(ns, ms[i].key).value));
  }

  lemma {:induction false} SameKeysSameLength(ms: seq<Member>, ns: seq<Member>)
    requires DistinctKeys(ms) && DistinctKeys(ns)
    requires forall k :: Lookup(ms, k).Some? <==> Lookup(ns, k).Some?
    ensures |ms| == |ns|
  {
    KeySetSize(ms);
    KeySetSize(ns);
    forall k ensures k in KeySet(ms) <==> k in KeySet(ns) {
      KeySetHas(ms, k);
      KeySetHas(ns, k);
    }
    assert KeySet(ms) == KeySet(ns);
  }

  lemma KeySetHas(members: seq<Member>, k: Units)
    ensures k in KeySet(members) <==> Lookup(members, k).Some?
  {
    if Lookup(members, k).Some? { assert Member(k, Lookup(members, k).value).key == k; }
  }

  /** Looking any key up gives the same in both. */
  ghost predicate LookAlike(ms: seq<Member>, ns: seq<Member>) {
    forall k :: SameIfAny(Lookup(ms, k), Lookup(ns, k))
  }

  lemma {:induction false} AlikeIsSame(ms: seq<Member>, ns: seq<Member>)
    requires DistinctKeys(ms) && DistinctKeys(ns) && LookAlike(ms, ns)
    ensures Same(Obj(ms), Obj(ns))
  {
    forall k ensures Lookup(ms, k).Some? <==> Lookup(ns, k).Some? { assert SameIfAny(Lookup(ms, k), Lookup(ns, k)); }
    SameKeysSameLength(ms, ns);
    forall i | 0 <= i < |ms|
      ensures HasTwin(ms[i], ns)
    {
      var j := SameAtKey(ms, ns, i);
    }
    SameByTwins(ms, ns);
  }

  /** Objects are the same exactly when looking any key up gives the same. */
  lemma {:induction false} SameByLookup(ms: seq<Member>, ns: seq<Member>)
    requires DistinctKeys(ms) && DistinctKeys(ns)
    ensures Same(Obj(ms), Obj(ns)) <==> LookAlike(ms, ns)
  {
    if LookAlike(ms, ns) { AlikeIsSame(ms, ns); }
    if Same(Obj(ms), Obj(ns)) {
      forall k ensures SameIfAny(Lookup(ms, k), Lookup(ns, k)) { SameLooksUp(ms, ns, k); }
      assert LookAlike(ms, ns);
    }
  }

  lemma {:induction false} SameKeySets(ms: seq<Member>, ns: seq<Member>)
    requires DistinctKeys(ms) && DistinctKeys(ns) && Same(Obj(ms), Obj(ns))
    ensures KeySet(ms) == KeySet(ns)
  {
    KeySetSize(ms);
    KeySetSize(ns);
    SameLengths(ms, ns);
    forall k | k in KeySet(ms) ensures k in KeySet(ns) { LookupMoves(ms, ns, k); KeySetHas(ms, k); KeySetHas(ns, k); }
    SubsetOfSameSize(KeySet(ms), KeySet(ns));
  }

  lemma {:induction false} SameLooksUp(ms: seq<Member>, ns: seq<Member>, k: Units)
    requires DistinctKeys(ms) && DistinctKeys(ns) && Same(Obj(ms), Obj(ns))
    ensures SameIfAny(Lookup(ms, k), Lookup(ns, k))
  {
    SameKeySets(ms, ns);
    KeySetHas(ms, k);
    KeySetHas(ns, k);
    LookupMoves(ms, ns, k);
  }

  lemma LookupMoves(ms: seq<Member>, ns: seq<Member>, k: Units)
    requires DistinctKeys(ms) && DistinctKeys(ns) && Same(Obj(ms), Obj(ns))
    ensures Lookup(ms, k).Some? ==> SameIfAny(Lookup(ms, k), Lookup(ns, k))
  {
    if Lookup(ms, k).Some? {
      var i := MemberAt(ms, Member(k, Lookup(ms, k).value));
      var j := SameFinds(ms, ns, i);
      LookupIs(ns, k, ns[j].value) by { assert ns[j] == Member(k, ns[j].value); }
    }
  }

  // --- Lookups through the stripping ---------------------------------------

  lemma {:induction false} FilterKeepsDistinct(keep: Member -> bool, members: seq<Member>)
    requires DistinctKeys(members)
    ensures DistinctKeys(Filter(keep, members))
    decreases |members|
  {
    if members != [] {
      FilterKeepsDistinct(keep, members[1..]);
      var rest := Filter(keep, members[1..]);
      forall j | 0 <= j < |rest| ensures rest[j].key != members[0].key {
        assert rest[j] in members[1..];
      }
    }
  }

  lemma {:induction false} LookupFilter(members: seq<Member>, k: Units)
    ensures Lookup(Filter(NotId, members), k) == if k == ID_KEY then None else Lookup(members, k)
    decreases |members|
  {
    if members != [] {
      LookupFilter(members[1..], k);
      if NotId(members[0]) {
        assert Filter(NotId, members)[1..] == Filter(NotId, members[1..]);
      } else {
        assert Filter(NotId, members) == Filter(NotId, members[1..]);
      }
    }
  }

  lemma {:induction false} LookupMap(f: Member -> Member, members: seq<Member>, k: Units)
    requires forall m :: f(m).key == m.key
    ensures Lookup(Map(f, members), k)
      == if Lookup(members, k).None? then None else Some(f(Member(k, Lookup(members, k).value)).value)
    decreases |members|
  {
    if members != [] {
      assert Map(f, members)[1..] == Map(f, members[1..]);
      LookupMap(f, members[1..], k);
    }
  }

  lemma {:induction false} LookupStripped(members: seq<Member>, k: Units)
    ensures Lookup(WithoutSignatures(members), k)
      == if k == ID_KEY || Lookup(members, k).None? then None
         else if k == INPUTS_KEY then Some(BlankAll(Lookup(members, k).value))
         else Lookup(members, k)
  {
    LookupFilter(members, k);
    LookupMap(BlankInputs, Filter(NotId, members), k);
  }

  lemma {:induction false} LookupAppend(a: seq<Member>, m: Member, k: Units)
    ensures Lookup(a + [m], k) == if Lookup(a, k).Some? then Lookup(a, k) else if m.key == k then Some(m.value)
        else None
    decreases |a|
  {
    if a == [] {
      assert a + [m] == [m] && [m][1..] == [];
    } else {
      assert (a + [m])[1..] == a[1..] + [m];
      LookupAppend(a[1..], m, k);
    }
  }

  lemma {:induction false} LookupAssigned(members: seq<Member>, key: Units, value: Value, k: Units)
    ensures Lookup(Assign(members, key, value), k) == if k == key then Some(value) else Lookup(members, k)
  {
    if Lookup(members, key).Some? {
      LookupMap((m: Member) => if m.key == key then Member(key, value) else m, members, k);
    } else {
      LookupAppend(members, Member(key, value), k);
    }
  }

  function ShownMember(m: Member): Member {
    Member(m.key, Shown(m.value))
  }

  function ShownIfAny(o: Option<Value>): Option<Value> {
    if o.None? then None else Some(Shown(o.value))
  }

  lemma {:induction false} LookupShown(members: seq<Member>, k: Units)
    ensures Shown(Obj(members)) == Obj(ShownMembers(members))
    ensures Lookup(ShownMembers(members), k) == ShownIfAny(Lookup(members, k))
  {
    assert ShownMembers(members) == Map(ShownMember, members);
    LookupMap(ShownMember, members, k);
  }

  // --- Parsed values stay parsed -------------------------------------------

  lemma KeysAreText()
    ensures IsText(ID_KEY) && IsText(INPUTS_KEY) && IsText(SIGNATURE_KEY)
  {
  }

  lemma {:induction false} BlankIsParsed(input: Value)
    requires Parsed(input)
    ensures Parsed(Blank(input))
  {
    KeysAreText();
    if input.Obj? {
      var blank := Blank(input).members;
      assert forall i :: 0 <= i < |blank| ==> IsText(blank[i].key) && Parsed(blank[i].value);
    }
  }

  lemma {:induction false} StrippedIsParsed(members: seq<Member>)
    requires Parsed(Obj(members))
    ensures Parsed(Obj(WithoutSignatures(members)))
  {
    var kept := Filter(NotId, members);
    FilterKeepsDistinct(NotId, members);
    var stripped := WithoutSignatures(members);
    forall i | 0 <= i < |stripped| ensures IsText(stripped[i].key) && Parsed(stripped[i].value) {
      assert kept[i] in members;
      var value := kept[i].value;
      if value.Arr? {
        forall j | 0 <= j < |value.items| ensures Parsed(Blank(value.items[j])) { BlankIsParsed(value.items[j]); }
      }
    }
  }

  lemma ShownKeepsDistinct(members: seq<Member>)
    requires DistinctKeys(members)
    ensures DistinctKeys(ShownMembers(members))
  {
  }

  // --- What acceptance means -----------------------------------------------

  /** A validated transaction: a parsed object whose inputs are an array of objects. */
  ghost predicate IsTransaction(members: seq<Member>) {
    && Parsed(Obj(members))
    && Lookup(members, INPUTS_KEY).Some? && Lookup(members, INPUTS_KEY).value.Arr?
    && forall i :: 0 <= i < |Lookup(members, INPUTS_KEY).value.items| ==>
         Lookup(members, INPUTS_KEY).value.items[i].Obj?
  }

  function InputsOf(members: seq<Member>): Value {
    if Lookup(members, INPUTS_KEY).Some? then Lookup(members, INPUTS_KEY).value else Null
  }

  /** Two objects show the same under `k`. */
  ghost predicate SameUnder(a: seq<Member>, b: seq<Member>, k: Units) {
    SameIfAny(ShownIfAny(Lookup(a, k)), ShownIfAny(Lookup(b, k)))
  }

  ghost predicate SameButSignature(x: seq<Member>, y: seq<Member>) {
    forall k :: k != SIGNATURE_KEY ==> SameUnder(x, y, k)
  }

  ghost predicate InputsSameButSignatures(xs: seq<Value>, ys: seq<Value>) {
    && |xs| == |ys|
    && forall i :: 0 <= i < |xs| && xs[i].Obj? && ys[i].Obj? ==> SameButSignature(xs[i].members, ys[i].members)
  }

  lemma {:induction false} BlankLookup(x: seq<Member>, k: Units)
    ensures Lookup(ShownMembers(Blank(Obj(x)).members), k) == if k == SIGNATURE_KEY then Some(Str([]))
        else ShownIfAny(Lookup(x, k))
  {
    LookupShown(Assign(x, SIGNATURE_KEY, Str([])), k);
    LookupAssigned(x, SIGNATURE_KEY, Str([]), k);
  }

  lemma {:induction false} BlankUnder(x: seq<Member>, y: seq<Member>, k: Units)
    ensures SameIfAny(Lookup(ShownMembers(Blank(Obj(x)).members), k), Lookup(ShownMembers(Blank(Obj(y)).members), k))
      <==> (k == SIGNATURE_KEY || SameUnder(x, y, k))
  {
    BlankLookup(x, k);
    BlankLookup(y, k);
  }

  lemma {:induction false} BlankSameIff(x: seq<Member>, y: seq<Member>)
    requires Parsed(Obj(x)) && Parsed(Obj(y))
    ensures Same(Shown(Blank(Obj(x))), Shown(Blank(Obj(y)))) <==> SameButSignature(x, y)
  {
    BlankIsParsed(Obj(x));
    BlankIsParsed(Obj(y));
    var blankX, blankY := Blank(Obj(x)).members, Blank(Obj(y)).members;
    ShownKeepsDistinct(blankX);
    ShownKeepsDistinct(blankY);
    SameByLookup(ShownMembers(blankX), ShownMembers(blankY));
    forall k
      ensures SameIfAny(Lookup(ShownMembers(blankX), k), Lookup(ShownMembers(blankY), k))
          <==> (k == SIGNATURE_KEY || SameUnder(x, y, k))
    {
      BlankUnder(x, y, k);
    }
    assert LookAlike(ShownMembers(blankX), ShownMembers(blankY)) <==> SameButSignature(x, y);
  }

  lemma {:induction false} BlankAllSameIff(xs: seq<Value>, ys: seq<Value>)
    requires Parsed(Arr(xs)) && Parsed(Arr(ys))
    requires (forall i :: 0 <= i < |xs| ==> xs[i].Obj?) && (forall i :: 0 <= i < |ys| ==> ys[i].Obj?)
    ensures Same(Shown(BlankAll(Arr(xs))), Shown(BlankAll(Arr(ys)))) <==> InputsSameButSignatures(xs, ys)
  {
    var sx, sy := Shown(BlankAll(Arr(xs))).items, Shown(BlankAll(Arr(ys))).items;
    assert |sx| == |xs| && |sy| == |ys|;
    forall i | 0 <= i < |xs| && i < |ys|
      ensures Same(sx[i], sy[i]) <==> SameButSignature(xs[i].members, ys[i].members)
    {
      BlankSameIff(xs[i].members, ys[i].members);
    }
  }

  lemma InputsAreParsed(members: seq<Member>)
    requires IsTransaction(members)
    ensures Parsed(InputsOf(members))
  {
    var i := MemberAt(members, Member(INPUTS_KEY, InputsOf(members)));
  }

  /** What the comparison asks of one key. */
  ghost predicate UnchangedAt(prepared: seq<Member>, signed: seq<Member>, k: Units)
    requires IsTransaction(prepared) && IsTransaction(signed)
  {
    if k == ID_KEY then true
    else if k == INPUTS_KEY then InputsSameButSignatures(InputsOf(prepared).items, InputsOf(signed).items)
    else SameUnder(prepared, signed, k)
  }

  lemma {:induction false} StrippedUnder(prepared: seq<Member>, signed: seq<Member>, k: Units)
    requires IsTransaction(prepared) && IsTransaction(signed)
    ensures SameIfAny(Lookup(ShownMembers(WithoutSignatures(prepared)), k),
        Lookup(ShownMembers(WithoutSignatures(signed)), k))
      <==> UnchangedAt(prepared, signed, k)
  {
    LookupShown(WithoutSignatures(prepared), k);
    LookupShown(WithoutSignatures(signed), k);
    LookupStripped(prepared, k);
    LookupStripped(signed, k);
    InputsAreParsed(prepared);
    InputsAreParsed(signed);
    BlankAllSameIff(InputsOf(prepared).items, InputsOf(signed).items);
  }

  lemma {:induction false} StrippedIff(prepared: seq<Member>, signed: seq<Member>)
    requires IsTransaction(prepared) && IsTransaction(signed)
    ensures LookAlike(ShownMembers(WithoutSignatures(prepared)), ShownMembers(WithoutSignatures(signed)))
      <==> forall k :: UnchangedAt(prepared, signed, k)
  {
    var a, b := ShownMembers(WithoutSignatures(prepared)), ShownMembers(WithoutSignatures(signed));
    forall k ensures SameIfAny(Lookup(a, k), Lookup(b, k)) <==> UnchangedAt(prepared, signed, k) {
      StrippedUnder(prepared, signed, k);
    }
    AlikeUnderAll(a, b, k => IsTransaction(prepared) && IsTransaction(signed) && UnchangedAt(prepared, signed, k));
  }

  lemma AlikeUnderAll(a: seq<Member>, b: seq<Member>, keeps: Units -> bool)
    requires forall k :: SameIfAny(Lookup(a, k), Lookup(b, k)) <==> keeps(k)
    ensures LookAlike(a, b) <==> forall k :: keeps(k)
  {
  }

  /** A signed transaction compares equal to the prepared one exactly when they show the same under every
      key but the id, and in every input under every key but the signature script. */
  lemma {:induction false} SigningChangesOnlySignatures(prepared: seq<Member>, signed: seq<Member>)
    requires IsTransaction(prepared) && IsTransaction(signed)
    ensures Print(Obj(WithoutSignatures(prepared))) == Print(Obj(WithoutSignatures(signed)))
      <==> (forall k :: k != ID_KEY && k != INPUTS_KEY ==> SameUnder(prepared, signed, k))
           && InputsSameButSignatures(Lookup(prepared, INPUTS_KEY).value.items, Lookup(signed, INPUTS_KEY).value.items)
  {
    var p, s := WithoutSignatures(prepared), WithoutSignatures(signed);
    StrippedIsParsed(prepared);
    StrippedIsParsed(signed);
    PrintsAlikeIff(Obj(p), Obj(s));
    ShownKeepsDistinct(p);
    ShownKeepsDistinct(s);
    SameByLookup(ShownMembers(p), ShownMembers(s));
    StrippedIff(prepared, signed);
    EveryKey(prepared, signed);
  }

  lemma EveryKey(prepared: seq<Member>, signed: seq<Member>)
    requires IsTransaction(prepared) && IsTransaction(signed)
    ensures (forall k :: UnchangedAt(prepared, signed, k))
      <==> (forall k :: k != ID_KEY && k != INPUTS_KEY ==> SameUnder(prepared, signed, k))
           && InputsSameButSignatures(InputsOf(prepared).items, InputsOf(signed).items)
  {
    if forall k :: UnchangedAt(prepared, signed, k) {
      assert UnchangedAt(prepared, signed, INPUTS_KEY);
      forall k | k != ID_KEY && k != INPUTS_KEY
        ensures SameUnder(prepared, signed, k)
      {
        assert UnchangedAt(prepared, signed, k);
      }
    }
  }
}
