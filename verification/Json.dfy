/**
 Parsed JSON values and the canonical text two of them are compared by.  A text is a sequence of UTF-16
 code units.  A finite number is represented by the shortest decimal the language prints for it; a
 literal too large for a double parses to an infinity, which prints as null.
 */
module Json {
  import opened Outcomes
  import opened StableSort

  type Units = seq<int>

  datatype Number = Finite(text: Units) | Infinite(negative: bool)

  datatype Value =
    | Null
    | Boolean(truth: bool)
    | Num(number: Number)
    | Str(text: Units)
    | Arr(items: seq<Value>)
    | Obj(members: seq<Member>)

  datatype Member = Member(key: Units, value: Value)

  // --- Text ----------------------------------------------------------------

  const QUOTE := 34
  const COMMA := 44
  const COLON := 58
  const BACKSLASH := 92
  const OPEN_ARRAY := 91
  const CLOSE_ARRAY := 93
  const OPEN_OBJECT := 123
  const CLOSE_OBJECT := 125
  const NULL_TEXT: Units := [110, 117, 108, 108]
  const TRUE_TEXT: Units := [116, 114, 117, 101]
  const FALSE_TEXT: Units := [102, 97, 108, 115, 101]

  predicate IsUnit(c: int) { 0 <= c < 0x1_0000 }

  predicate IsHigh(c: int) { 0xD800 <= c < 0xDC00 }

  predicate IsLow(c: int) { 0xDC00 <= c < 0xE000 }

  function HexDigit(d: int): int {
    if d < 10 then 48 + d else 87 + d
  }

  function FromHexDigit(c: int): int {
    if c < 58 then c - 48 else c - 87
  }

  function Hex4(c: int): Units {
    [HexDigit(c / 16 / 16 / 16), HexDigit(c / 16 / 16 % 16), HexDigit(c / 16 % 16), HexDigit(c % 16)]
  }

  function EscapeUnit(c: int): Units {
    if c == QUOTE || c == BACKSLASH then [BACKSLASH, c]
    else if c == 8 then [BACKSLASH, 98]
    else if c == 9 then [BACKSLASH, 116]
    else if c == 10 then [BACKSLASH, 110]
    else if c == 12 then [BACKSLASH, 102]
    else if c == 13 then [BACKSLASH, 114]
    else if c < 32 || IsHigh(c) || IsLow(c) then [BACKSLASH, 117] + Hex4(c)
    else [c]
  }

  /** Surrogates are kept in pairs and escaped alone. */
  function Escape(s: Units): Units {
    if s == [] then []
    else if IsHigh(s[0]) && |s| > 1 && IsLow(s[1]) then [s[0], s[1]] + Escape(s[2..])
    else EscapeUnit(s[0]) + Escape(s[1..])
  }

  function Quoted(s: Units): Units {
    [QUOTE] + Escape(s) + [QUOTE]
  }

  // --- Printing ------------------------------------------------------------

  /** The order of member keys: by code unit. */
  predicate KeyNoLater(a: Units, b: Units) {
    a == [] || (b != [] && (a[0] < b[0] || (a[0] == b[0] && KeyNoLater(a[1..], b[1..]))))
  }

  datatype Printed = Printed(key: Units, text: Units)

  predicate PrintedNoLater(a: Printed, b: Printed) { KeyNoLater(a.key, b.key) }

  function Texts(printed: seq<Printed>): seq<Units> {
    seq(|printed|, i requires 0 <= i < |printed| => Quoted(printed[i].key) + [COLON] + printed[i].text)
  }

  /** The texts after the first, each behind a comma, then the closing bracket. */
  function After(texts: seq<Units>, i: nat, close: int): Units
    requires i <= |texts|
    decreases |texts| - i
  {
    if i == |texts| then [close] else [COMMA] + texts[i] + After(texts, i + 1, close)
  }

  function Bracketed(open: int, texts: seq<Units>, close: int): Units {
    if texts == [] then [open, close] else [open] + texts[0] + After(texts, 1, close)
  }

  function Print(v: Value): Units {
    match v
    case Null => NULL_TEXT
    case Boolean(truth) => if truth then TRUE_TEXT else FALSE_TEXT
    case Num(Finite(text)) => text
    case Num(Infinite(_)) => NULL_TEXT
    case Str(text) => Quoted(text)
    case Arr(items) => Bracketed(OPEN_ARRAY, seq(|items|, i requires 0 <= i < |items| => Print(items[i])), CLOSE_ARRAY)
    case Obj(members) =>
      Bracketed(OPEN_OBJECT, Texts(Sort(PrintedNoLater,
        seq(|members|, i requires 0 <= i < |members| =>
            Printed(members[i].key, Print(members[i].value))))), CLOSE_OBJECT)
  }

  // --- What parsing can produce --------------------------------------------

  predicate IsNumberUnit(c: int) {
    48 <= c < 58 || c == 43 || c == 45 || c == 46 || c == 101
  }

  predicate IsNumberText(text: Units) {
    text != [] && (48 <= text[0] < 58 || text[0] == 45) && forall i :: 0 <= i < |text| ==> IsNumberUnit(text[i])
  }

  predicate IsText(s: Units) {
    forall i :: 0 <= i < |s| ==> IsUnit(s[i])
  }

  predicate DistinctKeys(members: seq<Member>) {
    forall i, j :: 0 <= i < j < |members| ==> members[i].key != members[j].key
  }

  /** A value a parser returns: texts of code units, printed numbers, and no key twice in one object. */
  ghost predicate Parsed(v: Value) {
    match v
    case Null => true
    case Boolean(_) => true
    case Num(Finite(text)) => IsNumberText(text)
    case Num(Infinite(_)) => true
    case Str(text) => IsText(text)
    case Arr(items) => forall i :: 0 <= i < |items| ==> Parsed(items[i])
    case Obj(members) => DistinctKeys(members) && forall i :: 0 <= i < |members| ==> IsText(members[i].key)
                                                                                     && Parsed(members[i].value)
  }

  // --- Equality up to member order -----------------------------------------

  ghost predicate Same(a: Value, b: Value)
    decreases a
  {
    if a.Arr? && b.Arr? then
      |a.items| == |b.items| && forall i :: 0 <= i < |a.items| ==> Same(a.items[i], b.items[i])
    else if a.Obj? && b.Obj? then
      |a.members| == |b.members| && forall i :: 0 <= i < |a.members| ==> HasTwin(a.members[i], b.members)
    else a == b
  }

  /** A member with the same key and the same value. */
  ghost predicate HasTwin(m: Member, ns: seq<Member>)
    decreases m
  {
    exists j :: 0 <= j < |ns| && m.key == ns[j].key && Same(m.value, ns[j].value)
  }

  /** A value as it is shown: an infinity shows as null. */
  function Shown(v: Value): Value {
    match v
    case Num(Infinite(_)) => Null
    case Arr(items) => Arr(seq(|items|, i requires 0 <= i < |items| => Shown(items[i])))
    case Obj(members) => Obj(seq(|members|, i requires 0 <= i < |members| =>
        Member(members[i].key, Shown(members[i].value))))
    case _ => v
  }

  ghost predicate AllFinite(v: Value) {
    match v
    case Num(n) => n.Finite?
    case Arr(items) => forall i :: 0 <= i < |items| ==> AllFinite(items[i])
    case Obj(members) => forall i :: 0 <= i < |members| ==> AllFinite(members[i].value)
    case _ => true
  }
}
