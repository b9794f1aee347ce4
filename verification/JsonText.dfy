/** What the text of a string looks like, whatever the string holds. */
module JsonText {
  import opened Json

  // --- What a string looks like --------------------------------------------

  /** No control character, no quote or backslash of its own, and surrogates in pairs only. */
  predicate NeedsNoEscape(s: Units) {
    s == []
    || (if 0xD800 <= s[0] <= 0xDBFF then |s| > 1 && 0xDC00 <= s[1] <= 0xDFFF && NeedsNoEscape(s[2..])
        else s[0] >= 32 && s[0] != 34 && s[0] != 92 && !(0xDC00 <= s[0] <= 0xDFFF) && NeedsNoEscape(s[1..]))
  }

  /** No control character, and surrogates in pairs only: a text that can be sent. */
  predicate WellFormed(s: Units) {
    s == []
    || (if 0xD800 <= s[0] <= 0xDBFF then |s| > 1 && 0xDC00 <= s[1] <= 0xDFFF && WellFormed(s[2..])
        else s[0] >= 32 && !(0xDC00 <= s[0] <= 0xDFFF) && WellFormed(s[1..]))
  }

  /** What needs no escape is left alone. */
  lemma {:induction false} KeptAsItIs(s: Units)
    requires NeedsNoEscape(s)
    ensures Escape(s) == s
    decreases |s|
  {
    if s != [] {
      if 0xD800 <= s[0] <= 0xDBFF {
        KeptAsItIs(s[2..]);
        assert s == [s[0], s[1]] + s[2..];
      } else {
        KeptAsItIs(s[1..]);
        assert s == [s[0]] + s[1..];
      }
    }
  }

  /** A run of printable ASCII in front of a text. */
  lemma {:induction false} AsciiThenWellFormed(a: Units, rest: Units)
    requires (forall i :: 0 <= i < |a| ==> 32 <= a[i] < 128) && WellFormed(rest)
    ensures WellFormed(a + rest)
  {
    if a == [] {
      assert a + rest == rest;
    } else {
      AsciiThenWellFormed(a[1..], rest);
      assert (a + rest)[1..] == a[1..] + rest;
    }
  }

  /** What a hexadecimal digit stands for, in lower case. */
  function DigitOf(x: int): int {
    if x <= 57 then x - 48 else x - 87
  }

  predicate IsDigit(x: int) {
    48 <= x <= 57 || 97 <= x <= 102
  }

  /** Four hexadecimal digits, the most significant first. */
  predicate IsFourDigits(s: Units, c: int) {
    |s| == 4 && IsDigit(s[0]) && IsDigit(s[1]) && IsDigit(s[2]) && IsDigit(s[3])
    && c == 4096 * DigitOf(s[0]) + 256 * DigitOf(s[1]) + 16 * DigitOf(s[2]) + DigitOf(s[3])
  }

  lemma FourDigits(c: int)
    requires IsUnit(c)
    ensures IsFourDigits(Hex4(c), c)
  {
    var c1 := c / 16;
    var c2 := c1 / 16;
    var c3 := c2 / 16;
    OneDigit(c3);
    OneDigit(c2 % 16);
    OneDigit(c1 % 16);
    OneDigit(c % 16);
  }

  lemma OneDigit(d: int)
    requires 0 <= d < 16
    ensures IsDigit(HexDigit(d)) && DigitOf(HexDigit(d)) == d
  {
  }

  /** The five short escapes, four hexadecimal digits for what else cannot be sent, and nothing else. */
  lemma EscapesAre(c: int)
    requires IsUnit(c)
    ensures c in {34, 92} <==> EscapeUnit(c) == [92, c]
    ensures c == 8 ==> EscapeUnit(c) == [92, 98]
    ensures c == 9 ==> EscapeUnit(c) == [92, 116]
    ensures c == 10 ==> EscapeUnit(c) == [92, 110]
    ensures c == 12 ==> EscapeUnit(c) == [92, 102]
    ensures c == 13 ==> EscapeUnit(c) == [92, 114]
    ensures c in {34, 92, 8, 9, 10, 12, 13} <==> |EscapeUnit(c)| == 2
    ensures |EscapeUnit(c)| == 6 <==> (c < 32 && c !in {8, 9, 10, 12, 13}) || 0xD800 <= c <= 0xDFFF
    ensures |EscapeUnit(c)| > 1 ==>
      EscapeUnit(c)[0] == 92 && forall i :: 0 <= i < |EscapeUnit(c)| ==> 32 <= EscapeUnit(c)[i] < 128
    ensures |EscapeUnit(c)| == 6 ==> EscapeUnit(c)[1] == 117 && IsFourDigits(EscapeUnit(c)[2..], c)
    ensures |EscapeUnit(c)| in {1, 2, 6} && (|EscapeUnit(c)| == 1 ==> EscapeUnit(c) == [c])
  {
    FourDigits(c);
    assert EscapeUnit(c) == [92, 117] + Hex4(c) ==> EscapeUnit(c)[2..] == Hex4(c);
  }

  /** Whatever the string holds, its text can be sent: well-formed, and without control characters (section 7 of
      RFC 8259). */
  lemma {:induction false} EscapedIsWellFormed(s: Units)
    requires IsText(s)
    ensures WellFormed(Escape(s)) && WellFormed(Quoted(s))
    decreases |s|
  {
    EscapeIsWellFormed(s);
    AsciiThenWellFormed([34], []);
    WellFormedAppend(Escape(s), [34]);
    AsciiThenWellFormed([34], Escape(s) + [34]);
    assert Quoted(s) == [34] + (Escape(s) + [34]);
  }

  lemma {:induction false} EscapeIsWellFormed(s: Units)
    requires IsText(s)
    ensures WellFormed(Escape(s))
    decreases |s|
  {
    if s != [] {
      if IsHigh(s[0]) && |s| > 1 && IsLow(s[1]) {
        EscapeIsWellFormed(s[2..]);
        assert ([s[0], s[1]] + Escape(s[2..]))[2..] == Escape(s[2..]);
      } else {
        EscapeIsWellFormed(s[1..]);
        EscapesAre(s[0]);
        if |EscapeUnit(s[0])| > 1 {
          AsciiThenWellFormed(EscapeUnit(s[0]), Escape(s[1..]));
        } else {
          assert ([s[0]] + Escape(s[1..]))[1..] == Escape(s[1..]);
        }
      }
    }
  }

  lemma {:induction false} WellFormedAppend(a: Units, b: Units)
    requires WellFormed(a) && WellFormed(b)
    ensures WellFormed(a + b)
    decreases |a|
  {
    if a == [] {
      assert a + b == b;
    } else if 0xD800 <= a[0] <= 0xDBFF {
      WellFormedAppend(a[2..], b);
      assert (a + b)[2..] == a[2..] + b;
    } else {
      WellFormedAppend(a[1..], b);
      assert (a + b)[1..] == a[1..] + b;
    }
  }

  /** The marks are those of section 2 of RFC 8259. */
  lemma MarksAre(s: Units, text: Units, other: Units)
    ensures Quoted(s) == [34] + Escape(s) + [34]
    ensures Bracketed(OPEN_ARRAY, [], CLOSE_ARRAY) == [91, 93] && Bracketed(OPEN_OBJECT, [], CLOSE_OBJECT) == [123, 125]
    ensures Bracketed(OPEN_ARRAY, [text, other], CLOSE_ARRAY) == [91] + text + [44] + other + [93]
    ensures Texts([Printed(s, text)]) == [Quoted(s) + [58] + text]
    ensures Print(Null) == [110, 117, 108, 108] && Print(Boolean(true)) == [116, 114, 117, 101]
    ensures Print(Boolean(false)) == [102, 97, 108, 115, 101]
  {
    assert After([text, other], 1, CLOSE_ARRAY) == [COMMA] + other + After([text, other], 2, CLOSE_ARRAY);
  }
}
