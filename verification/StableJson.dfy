/** The canonical text tells two parsed values apart exactly when they differ beyond member order. */
module StableJson {
  import opened Outcomes
  import opened StableSort
  import opened Json

  // --- Strings read back ---------------------------------------------------

  /** The unit at the front of a quoted text, and how many text units it took. */
  function ReadUnit(t: Units): Option<(int, nat)> {
    if t == [] || t[0] == QUOTE then None
    else if t[0] != BACKSLASH then Some((t[0], 1))
    else if |t| < 2 then None
    else if t[1] == 117 then
      if |t| < 6 then None
      else Some((4096 * FromHexDigit(t[2]) + 256 * FromHexDigit(t[3]) + 16 * FromHexDigit(t[4]) + FromHexDigit(t[5]),
          6))
    else if t[1] == 98 then Some((8, 2))
    else if t[1] == 116 then Some((9, 2))
    else if t[1] == 110 then Some((10, 2))
    else if t[1] == 102 then Some((12, 2))
    else if t[1] == 114 then Some((13, 2))
    else Some((t[1], 2))
  }

  /** A text up to its closing quote, and what follows it. */
  function ReadText(t: Units): Option<(Units, Units)>
    decreases |t|
  {
    if t != [] && t[0] == QUOTE then Some(([], t[1..]))
    else match ReadUnit(t)
      case None => None
      case Some((c, n)) =>
        if n == 0 || n > |t| then None
        else match ReadText(t[n..])
          case None => None
          case Some((s, rest)) => Some(([c] + s, rest))
  }

  lemma DigitReadsBack(d: int)
    requires 0 <= d < 16
    ensures FromHexDigit(HexDigit(d)) == d
  {
  }

  lemma HexReadsBack(c: int)
    requires IsUnit(c)
    ensures var h := Hex4(c);
      4096 * FromHexDigit(h[0]) + 256 * FromHexDigit(h[1]) + 16 * FromHexDigit(h[2]) + FromHexDigit(h[3]) == c
  {
    var c1 := c / 16;
    var c2 := c1 / 16;
    var c3 := c2 / 16;
    DigitReadsBack(c3);
    DigitReadsBack(c2 % 16);
    DigitReadsBack(c1 % 16);
    DigitReadsBack(c % 16);
  }

  lemma UnitReadsBack(c: int, rest: Units)
    requires IsUnit(c)
    ensures ReadUnit(EscapeUnit(c) + rest) == Some((c, |EscapeUnit(c)|))
  {
    HexReadsBack(c);
  }

  lemma OneThenText(t: Units, c: int, front: Units, more: Units, s: Units, rest: Units)
    requires t == front + more && front != [] && ReadUnit(t) == Some((c, |front|)) && ReadText(more) == Some((s, rest))
    ensures ReadText(t) == Some(([c] + s, rest))
  {
    assert t[|front|..] == more;
  }

  lemma SingleReadsBack(c: int, more: Units, s: Units, rest: Units)
    requires IsUnit(c) && ReadText(more) == Some((s, rest))
    ensures ReadText(EscapeUnit(c) + more) == Some(([c] + s, rest))
  {
    UnitReadsBack(c, more);
    OneThenText(EscapeUnit(c) + more, c, EscapeUnit(c), more, s, rest);
  }

  lemma PairReadsBack(high: int, low: int, more: Units, s: Units, rest: Units)
    requires IsHigh(high) && IsLow(low) && ReadText(more) == Some((s, rest))
    ensures ReadText([high, low] + more) == Some(([high, low] + s, rest))
  {
    OneThenText([low] + more, low, [low], more, s, rest);
    OneThenText([high] + ([low] + more), high, [high], [low] + more, [low] + s, rest);
    assert [high, low] + more == [high] + ([low] + more);
    assert [high, low] + s == [high] + ([low] + s);
  }

  lemma SeqAssociates(a: Units, b: Units, c: Units)
    ensures (a + b) + c == a + (b + c)
  {
  }

  lemma {:induction false} TextReadsBack(s: Units, rest: Units)
    requires IsText(s)
    ensures ReadText(Escape(s) + ([QUOTE] + rest)) == Some((s, rest))
    decreases |s|
  {
    var tail := [QUOTE] + rest;
    if s == [] {
      assert Escape(s) + tail == tail && tail[1..] == rest;
    } else if IsHigh(s[0]) && |s| > 1 && IsLow(s[1]) {
      TextReadsBack(s[2..], rest);
      PairReadsBack(s[0], s[1], Escape(s[2..]) + tail, s[2..], rest);
      SeqAssociates([s[0], s[1]], Escape(s[2..]), tail);
      assert s == [s[0], s[1]] + s[2..];
    } else {
      TextReadsBack(s[1..], rest);
      SingleReadsBack(s[0], Escape(s[1..]) + tail, s[1..], rest);
      SeqAssociates(EscapeUnit(s[0]), Escape(s[1..]), tail);
      assert s == [s[0]] + s[1..];
    }
  }

  lemma {:induction false} QuotedReadsBack(s: Units, r: Units)
    requires IsText(s)
    ensures ReadText((Quoted(s) + r)[1..]) == Some((s, r))
  {
    TextReadsBack(s, r);
    assert (Quoted(s) + r)[1..] == Escape(s) + ([QUOTE] + r);
  }

  /** A quoted text is told apart from any other, whatever follows. */
  lemma {:induction false} QuotedIsUnique(s: Units, r: Units, t: Units, q: Units)
    requires IsText(s) && IsText(t) && Quoted(s) + r == Quoted(t) + q
    ensures s == t && r == q
  {
    QuotedReadsBack(s, r);
    QuotedReadsBack(t, q);
  }

  // --- Numbers end where they end ------------------------------------------

  /** What may follow a value: nothing, or a separator or closing bracket. */
  predicate Ends(r: Units) {
    r == [] || r[0] == COMMA || r[0] == CLOSE_ARRAY || r[0] == CLOSE_OBJECT
  }

  lemma {:induction false} NumberIsUnique(n: Units, r: Units, m: Units, q: Units)
    requires (forall i :: 0 <= i < |n| ==> IsNumberUnit(n[i])) && (forall i :: 0 <= i < |m| ==> IsNumberUnit(m[i]))
    requires Ends(r) && Ends(q) && n + r == m + q
    ensures n == m && r == q
    decreases |n|
  {
    if n == [] || m == [] {
      assert n == [] ==> n + r == r;
      assert m == [] ==> m + q == q;
    } else {
      assert (n + r)[0] == n[0] && (m + q)[0] == m[0];
      assert (n + r)[1..] == n[1..] + r && (m + q)[1..] == m[1..] + q;
      NumberIsUnique(n[1..], r, m[1..], q);
      assert n == [n[0]] + n[1..] && m == [m[0]] + m[1..];
    }
  }

  // --- The text without sorting --------------------------------------------

  /** The text of a value whose members are printed in the order they stand. */
  function Flat(v: Value): Units
  {
    match v
    case Null => NULL_TEXT
    case Boolean(truth) => if truth then TRUE_TEXT else FALSE_TEXT
    case Num(Finite(text)) => text
    case Num(Infinite(_)) => NULL_TEXT
    case Str(text) => Quoted(text)
    case Arr(items) => Bracketed(OPEN_ARRAY, seq(|items|, i requires 0 <= i < |items| => Flat(items[i])), CLOSE_ARRAY)
    case Obj(members) =>
      Bracketed(OPEN_OBJECT, Texts(seq(|members|, i requires 0 <= i < |members| =>
          Printed(members[i].key, Flat(members[i].value)))), CLOSE_OBJECT)
  }

  /** Values as they are shown after sorting: no infinity, printed numbers, texts of code units. */
  ghost predicate Plain(v: Value) {
    match v
    case Num(Finite(text)) => IsNumberText(text)
    case Num(Infinite(_)) => false
    case Str(text) => IsText(text)
    case Arr(items) => forall i :: 0 <= i < |items| ==> Plain(items[i])
    case Obj(members) => forall i :: 0 <= i < |members| ==> IsText(members[i].key) && Plain(members[i].value)
    case _ => true
  }

  function MemberText(m: Member): Units {
    Quoted(m.key) + [COLON] + Flat(m.value)
  }

  function ItemTexts(v: Value): (r: seq<Units>)
    requires v.Arr? || v.Obj?
    ensures v.Arr? ==> |r| == |v.items| && forall i :: 0 <= i < |r| ==> r[i] == Flat(v.items[i])
    ensures v.Obj? ==> |r| == |v.members| && forall i :: 0 <= i < |r| ==> r[i] == MemberText(v.members[i])
    ensures Flat(v)
         == Bracketed(if v.Arr? then OPEN_ARRAY else OPEN_OBJECT, r, if v.Arr? then CLOSE_ARRAY else CLOSE_OBJECT)
  {
    if v.Arr? then seq(|v.items|, i requires 0 <= i < |v.items| => Flat(v.items[i]))
    else Texts(seq(|v.members|, i requires 0 <= i < |v.members| => Printed(v.members[i].key, Flat(v.members[i].value))))
  }

  /** The first unit of a value tells what kind of value it is. */
  function FirstOf(v: Value): int
    requires v.Num? && v.number.Finite? ==> v.number.text != []
  {
    match v
    case Null => 110
    case Boolean(truth) => if truth then 116 else 102
    case Num(Finite(text)) => text[0]
    case Num(Infinite(_)) => 110
    case Str(_) => QUOTE
    case Arr(_) => OPEN_ARRAY
    case Obj(_) => OPEN_OBJECT
  }

  lemma FirstUnit(v: Value, r: Units)
    requires Plain(v)
    ensures Flat(v) != [] && (Flat(v) + r)[0] == FirstOf(v)
    ensures FirstOf(v) != COMMA && FirstOf(v) != CLOSE_ARRAY && FirstOf(v) != CLOSE_OBJECT
  {
    if v.Arr? || v.Obj? { var texts := ItemTexts(v); }
  }

  lemma SameKind(a: Value, b: Value)
    requires Plain(a) && Plain(b) && FirstOf(a) == FirstOf(b)
    ensures match a
      case Null => b.Null?
      case Boolean(_) => b == a
      case Num(_) => b.Num?
      case Str(_) => b.Str?
      case Arr(_) => b.Arr?
      case Obj(_) => b.Obj?
  {
  }

  lemma CutFront(x: Units, r: Units, q: Units)
    requires x + r == x + q
    ensures r == q
  {
    assert (x + r)[|x|..] == r && (x + q)[|x|..] == q;
  }

  function CloseOf(v: Value): int {
    if v.Arr? then CLOSE_ARRAY else CLOSE_OBJECT
  }

  lemma AfterEnds(texts: seq<Units>, i: nat, v: Value, r: Units)
    requires i <= |texts|
    ensures Ends(After(texts, i, CloseOf(v)) + r)
    ensures (After(texts, i, CloseOf(v)) + r)[0] == if i == |texts| then CloseOf(v) else COMMA
  {
  }

  /** Two arrays or two objects. */
  ghost predicate Twins(a: Value, b: Value) {
    Plain(a) && Plain(b) && ((a.Arr? && b.Arr?) || (a.Obj? && b.Obj?))
  }

  /** The items of two arrays, or the members of two objects, agree at `i`. */
  ghost predicate AgreeAt(a: Value, b: Value, i: nat)
    requires Twins(a, b) && i < |ItemTexts(a)| && i < |ItemTexts(b)|
  {
    if a.Arr? then a.items[i] == b.items[i] else a.members[i] == b.members[i]
  }

  lemma {:induction false} ItemIsUnique(a: Value, b: Value, i: nat, r: Units, q: Units)
    requires Twins(a, b)
    requires i < |ItemTexts(a)| && i < |ItemTexts(b)| && Ends(r) && Ends(q)
    requires ItemTexts(a)[i] + r == ItemTexts(b)[i] + q
    ensures AgreeAt(a, b, i) && r == q
    decreases a, 0, 0
  {
    if a.Arr? {
      FlatIsUnique(a.items[i], r, b.items[i], q);
    } else {
      var m, n := a.members[i], b.members[i];
      SeqAssociates(Quoted(m.key), [COLON] + Flat(m.value), r);
      SeqAssociates(Quoted(n.key), [COLON] + Flat(n.value), q);
      SeqAssociates(Quoted(m.key), [COLON], Flat(m.value));
      SeqAssociates(Quoted(n.key), [COLON], Flat(n.value));
      QuotedIsUnique(m.key, ([COLON] + Flat(m.value)) + r, n.key, ([COLON] + Flat(n.value)) + q);
      SeqAssociates([COLON], Flat(m.value), r);
      SeqAssociates([COLON], Flat(n.value), q);
      CutFront([COLON], Flat(m.value) + r, Flat(n.value) + q);
      FlatIsUnique(m.value, r, n.value, q);
    }
  }

  lemma {:induction false} HeadIsUnique(a: Value, b: Value, i: nat, r: Units, q: Units)
    requires Twins(a, b) && i < |ItemTexts(a)| && i < |ItemTexts(b)| && Ends(r) && Ends(q)
    requires ItemTexts(a)[i] + (After(ItemTexts(a), i + 1, CloseOf(a)) + r)
        == ItemTexts(b)[i] + (After(ItemTexts(b), i + 1, CloseOf(b)) + q)
    ensures AgreeAt(a, b, i) && After(ItemTexts(a), i + 1, CloseOf(a)) + r == After(ItemTexts(b), i + 1, CloseOf(b)) + q
    decreases a, 0, 1
  {
    AfterEnds(ItemTexts(a), i + 1, a, r);
    AfterEnds(ItemTexts(b), i + 1, b, q);
    ItemIsUnique(a, b, i, After(ItemTexts(a), i + 1, CloseOf(a)) + r, After(ItemTexts(b), i + 1, CloseOf(b)) + q);
  }

  /** They agree from `i` on, and there are as many. */
  ghost predicate AgreeFrom(a: Value, b: Value, i: nat)
    requires Twins(a, b)
  {
    |ItemTexts(a)| == |ItemTexts(b)| && forall k :: i <= k < |ItemTexts(a)| ==> AgreeAt(a, b, k)
  }

  lemma AgreeMore(a: Value, b: Value, i: nat)
    requires Twins(a, b) && i < |ItemTexts(a)| && i < |ItemTexts(b)| && AgreeAt(a, b, i) && AgreeFrom(a, b, i + 1)
    ensures AgreeFrom(a, b, i)
  {
  }

  /** The two texts read alike from `i` on, to their ends and beyond. */
  ghost predicate SameTail(a: Value, b: Value, i: nat, r: Units, q: Units)
    requires Twins(a, b) && i <= |ItemTexts(a)| && i <= |ItemTexts(b)|
  {
    After(ItemTexts(a), i, CloseOf(a)) + r == After(ItemTexts(b), i, CloseOf(b)) + q
  }

  lemma TailEnds(a: Value, b: Value, i: nat, r: Units, q: Units)
    requires Twins(a, b) && i <= |ItemTexts(a)| && i <= |ItemTexts(b)| && SameTail(a, b, i, r, q)
    ensures i == |ItemTexts(a)| <==> i == |ItemTexts(b)|
    ensures i == |ItemTexts(a)| ==> r == q
  {
    StripComma(ItemTexts(a), ItemTexts(b), i, a, r, q);
  }

  lemma {:induction false} TailStep(a: Value, b: Value, i: nat, r: Units, q: Units)
    requires Twins(a, b) && i < |ItemTexts(a)| && i < |ItemTexts(b)| && Ends(r) && Ends(q) && SameTail(a, b, i, r, q)
    ensures AgreeAt(a, b, i) && SameTail(a, b, i + 1, r, q)
    decreases a, 0, 2
  {
    StripComma(ItemTexts(a), ItemTexts(b), i, a, r, q);
    HeadIsUnique(a, b, i, r, q);
  }

  lemma {:induction false} AfterIsUnique(a: Value, b: Value, i: nat, r: Units, q: Units)
    requires Twins(a, b) && i <= |ItemTexts(a)| && i <= |ItemTexts(b)| && Ends(r) && Ends(q) && SameTail(a, b, i, r, q)
    ensures AgreeFrom(a, b, i) && r == q
    decreases a, 1, |ItemTexts(a)| - i
  {
    TailEnds(a, b, i, r, q);
    if i < |ItemTexts(a)| {
      TailStep(a, b, i, r, q);
      AfterIsUnique(a, b, i + 1, r, q);
      AgreeMore(a, b, i);
    }
  }

  lemma {:induction false} StripComma(ta: seq<Units>, tb: seq<Units>, i: nat, v: Value, r: Units, q: Units)
    requires i <= |ta| && i <= |tb|
    requires After(ta, i, CloseOf(v)) + r == After(tb, i, CloseOf(v)) + q
    ensures i == |ta| <==> i == |tb|
    ensures i == |ta| ==> r == q
    ensures i < |ta| ==> ta[i] + (After(ta, i + 1, CloseOf(v)) + r) == tb[i] + (After(tb, i + 1, CloseOf(v)) + q)
  {
    AfterEnds(ta, i, v, r);
    AfterEnds(tb, i, v, q);
    if i == |ta| {
      CutFront([CloseOf(v)], r, q);
    } else {
      AfterUnfolds(ta, i, CloseOf(v), r);
      AfterUnfolds(tb, i, CloseOf(v), q);
      CutFront([COMMA], ta[i] + (After(ta, i + 1, CloseOf(v)) + r), tb[i] + (After(tb, i + 1, CloseOf(v)) + q));
    }
  }

  lemma AfterUnfolds(texts: seq<Units>, i: nat, close: int, r: Units)
    requires i < |texts|
    ensures After(texts, i, close) + r == [COMMA] + (texts[i] + (After(texts, i + 1, close) + r))
  {
  }

  lemma BracketUnfolds(open: int, texts: seq<Units>, close: int, r: Units)
    ensures texts == [] ==> Bracketed(open, texts, close) + r == [open] + ([close] + r)
    ensures texts != [] ==> Bracketed(open, texts, close) + r == [open] + (texts[0] + (After(texts, 1, close) + r))
  {
  }

  lemma ItemStarts(a: Value, i: nat, r: Units)
    requires Plain(a) && (a.Arr? || a.Obj?) && i < |ItemTexts(a)|
    ensures |ItemTexts(a)[i] + r| > 0 && (ItemTexts(a)[i] + r)[0] != CloseOf(a)
  {
    if a.Arr? { FirstUnit(a.items[i], r); }
  }

  lemma {:induction false} BracketIsUnique(a: Value, b: Value, r: Units, q: Units)
    requires Twins(a, b) && Ends(r) && Ends(q) && Flat(a) + r == Flat(b) + q
    ensures a == b && r == q
    decreases a, 2, 0
  {
    StripBracket(a, b, r, q);
    if ItemTexts(a) != [] {
      ItemsAreUnique(a, b, r, q);
    } else {
      AgreeEverywhere(a, b);
    }
  }

  lemma {:induction false} ItemsAreUnique(a: Value, b: Value, r: Units, q: Units)
    requires Twins(a, b) && |ItemTexts(a)| > 0 && |ItemTexts(b)| > 0 && Ends(r) && Ends(q)
    requires ItemTexts(a)[0] + (After(ItemTexts(a), 1, CloseOf(a)) + r)
        == ItemTexts(b)[0] + (After(ItemTexts(b), 1, CloseOf(b)) + q)
    ensures a == b && r == q
    decreases a, 1, |ItemTexts(a)| + 1
  {
    HeadIsUnique(a, b, 0, r, q);
    AfterIsUnique(a, b, 1, r, q);
    AgreeMore(a, b, 0);
    AgreeEverywhere(a, b);
  }

  lemma {:induction false} StripBracket(a: Value, b: Value, r: Units, q: Units)
    requires Twins(a, b) && Flat(a) + r == Flat(b) + q
    ensures ItemTexts(a) == [] <==> ItemTexts(b) == []
    ensures ItemTexts(a) == [] ==> r == q
    ensures ItemTexts(a) != [] ==>
      ItemTexts(a)[0] + (After(ItemTexts(a), 1, CloseOf(a)) + r)
          == ItemTexts(b)[0] + (After(ItemTexts(b), 1, CloseOf(b)) + q)
  {
    var ta, tb := ItemTexts(a), ItemTexts(b);
    var open := if a.Arr? then OPEN_ARRAY else OPEN_OBJECT;
    var ra, rb := Rest(ta, CloseOf(a), r), Rest(tb, CloseOf(b), q);
    BracketUnfolds(open, ta, CloseOf(a), r);
    BracketUnfolds(open, tb, CloseOf(b), q);
    CutFront([open], ra, rb);
    if ta != [] { ItemStarts(a, 0, After(ta, 1, CloseOf(a)) + r); }
    if tb != [] { ItemStarts(b, 0, After(tb, 1, CloseOf(b)) + q); }
    if ta == [] && tb == [] { CutFront([CloseOf(a)], r, q); }
  }

  lemma AgreeEverywhere(a: Value, b: Value)
    requires Twins(a, b) && AgreeFrom(a, b, 0)
    ensures a == b
  {
    if a.Arr? {
      forall k | 0 <= k < |a.items| ensures a.items[k] == b.items[k] { assert AgreeAt(a, b, k); }
      assert a.items == b.items;
    } else {
      forall k | 0 <= k < |a.members| ensures a.members[k] == b.members[k] { assert AgreeAt(a, b, k); }
      assert a.members == b.members;
    }
  }

  /** What stands behind the opening bracket. */
  function Rest(texts: seq<Units>, close: int, r: Units): Units {
    if texts == [] then [close] + r else texts[0] + (After(texts, 1, close) + r)
  }

  /** The unsorted text determines the value and where it ends. */
  lemma {:induction false} FlatIsUnique(a: Value, r: Units, b: Value, q: Units)
    requires Plain(a) && Plain(b) && Ends(r) && Ends(q) && Flat(a) + r == Flat(b) + q
    ensures a == b && r == q
    decreases a, 3, 0
  {
    FirstUnit(a, r);
    FirstUnit(b, q);
    SameKind(a, b);
    match a
    case Null => CutFront(NULL_TEXT, r, q);
    case Boolean(_) => CutFront(Flat(a), r, q);
    case Num(_) => NumberIsUnique(a.number.text, r, b.number.text, q);
    case Str(_) => QuotedIsUnique(a.text, r, b.text, q);
    case Arr(_) => BracketIsUnique(a, b, r, q);
    case Obj(_) => BracketIsUnique(a, b, r, q);
  }
}
