/** The parts of Python's and JavaScript's string semantics that the core
    relies on: whitespace stripping, splitting, joining, lower-casing and
    substring search. Strings are sequences of Unicode scalar values. */
module PyText {
  import opened Wrappers

  /** `str.isspace()` for one character: the characters that Python's
      argument-less `strip()` and `split()` treat as whitespace. */
  predicate IsPySpace(c: char)
  {
    ('\U{0009}' <= c <= '\U{000D}') || ('\U{001C}' <= c <= '\U{0020}')
    || c == '\U{0085}' || c == '\U{00A0}' || c == '\U{1680}'
    || ('\U{2000}' <= c <= '\U{200A}') || c == '\U{2028}' || c == '\U{2029}'
    || c == '\U{202F}' || c == '\U{205F}' || c == '\U{3000}'
  }

  /** The WhiteSpace and LineTerminator characters that JavaScript's
      `String.prototype.trim` removes. */
  predicate IsJsSpace(c: char)
  {
    ('\U{0009}' <= c <= '\U{000D}') || c == ' ' || c == '\U{00A0}' || c == '\U{1680}'
    || ('\U{2000}' <= c <= '\U{200A}') || c == '\U{2028}' || c == '\U{2029}'
    || c == '\U{202F}' || c == '\U{205F}' || c == '\U{3000}' || c == '\U{FEFF}'
  }

  /** Removes the longest prefix of characters satisfying `space`. */
  function TrimStart(s: string, space: char -> bool): (r: string)
    ensures |r| <= |s|
    ensures r == [] || !space(r[0])
  {
    if s == [] || !space(s[0]) then s else TrimStart(s[1..], space)
  }

  /** Removes the longest suffix of characters satisfying `space`. */
  function TrimEnd(s: string, space: char -> bool): (r: string)
    ensures |r| <= |s| && r == s[..|r|]
    ensures r == [] || !space(r[|r| - 1])
  {
    if s == [] || !space(s[|s| - 1]) then s else TrimEnd(s[..|s| - 1], space)
  }

  /** Neither end of `s` is whitespace. */
  predicate Stripped(s: string)
  {
    s == [] || (!IsPySpace(s[0]) && !IsPySpace(s[|s| - 1]))
  }

  /** Python's `str.strip()` with no argument. */
  function Strip(s: string): (r: string)
    ensures Stripped(r)
    ensures |r| <= |s|
  {
    TrimEnd(TrimStart(s, IsPySpace), IsPySpace)
  }

  /** JavaScript's `String.prototype.trim()`. */
  function JsTrim(s: string): (r: string)
    ensures r == [] || (!IsJsSpace(r[0]) && !IsJsSpace(r[|r| - 1]))
    ensures |r| <= |s|
  {
    TrimEnd(TrimStart(s, IsJsSpace), IsJsSpace)
  }

  /** The pieces joined back together with `sep` between them: Python's
      `sep.join(parts)`. */
  function Join(parts: seq<string>, sep: string): string
  {
    if |parts| == 0 then ""
    else if |parts| == 1 then parts[0]
    else parts[0] + sep + Join(parts[1..], sep)
  }

  /** Python's `s.split(sep)` for a one-character separator: the pieces
      between separators, including empty ones; `"".split(",")` is `[""]`. */
  function Split(s: string, sep: char): (parts: seq<string>)
    ensures |parts| >= 1
    ensures forall i :: 0 <= i < |parts| ==> sep !in parts[i]
  {
    if sep !in s then
      [s]
    else
      var i := IndexOf(s, sep);
      [s[..i]] + Split(s[i + 1..], sep)
  }

  /** The position of the first occurrence of `c` in `s`. */
  function IndexOf(s: string, c: char): (i: nat)
    requires c in s
    ensures i < |s| && s[i] == c && c !in s[..i]
    ensures forall j :: 0 <= j < i ==> s[j] != c
  {
    if s[0] == c then 0 else 1 + IndexOf(s[1..], c)
  }

  /** Splitting and joining on the same separator are inverse. */
  lemma {:induction false} JoinSplit(s: string, sep: char)
    ensures Join(Split(s, sep), [sep]) == s
  {
    if sep in s {
      var i := IndexOf(s, sep);
      var rest := Split(s[i + 1..], sep);
      JoinSplit(s[i + 1..], sep);
      assert Split(s, sep) == [s[..i]] + rest;
      assert s == s[..i] + [sep] + s[i + 1..];
    }
  }

  /** Splitting the join of separator-free pieces gives the pieces back. */
  lemma {:induction false} SplitJoin(parts: seq<string>, sep: char)
    requires |parts| >= 1
    requires forall i :: 0 <= i < |parts| ==> sep !in parts[i]
    ensures Split(Join(parts, [sep]), sep) == parts
  {
    if |parts| > 1 {
      var s := Join(parts, [sep]);
      var tail := Join(parts[1..], [sep]);
      assert s == parts[0] + [sep] + tail;
      assert sep in s by { assert s[|parts[0]|] == sep; }
      var i := IndexOf(s, sep);
      assert forall j :: 0 <= j < |parts[0]| ==> s[j] == parts[0][j];
      assert s[|parts[0]|] == sep;
      assert s[..i] == parts[0];
      assert s[i + 1..] == tail;
      SplitJoin(parts[1..], sep);
    }
  }

  /** The lower-case form of one character, as far as matching against
      ASCII keywords can tell: ASCII capitals, and the two non-ASCII
      characters whose lower-case forms contain ASCII letters (U+0130
      becomes "i" followed by U+0307, the Kelvin sign becomes "k"). */
  function LowerChar(c: char): string
  {
    if 'A' <= c <= 'Z' then [(c as int + 32) as char]
    else if c == '\U{0130}' then ['i', '\U{0307}']
    else if c == '\U{212A}' then ['k']
    else [c]
  }

  /** `str.lower()` in Python and `toLowerCase()` in JavaScript, as far as
      comparing or searching the result for ASCII keywords can tell; other
      non-ASCII letters are left as they are. */
  function Lower(s: string): (r: string)
    ensures forall i :: 0 <= i < |r| ==> !('A' <= r[i] <= 'Z')
  {
    if s == [] then "" else LowerChar(s[0]) + Lower(s[1..])
  }

  /** Python's `k in text` for strings: `k` occurs as a contiguous piece. */
  predicate Contains(text: string, k: string)
  {
    exists i | 0 <= i <= |text| - |k| :: OccursAt(text, k, i)
  }

  /** `k` occurs in `text` starting at position `i`. */
  predicate OccursAt(text: string, k: string, i: int)
  {
    0 <= i <= |text| - |k| && text[i..i + |k|] == k
  }

  /** A string whose ends are not whitespace is its own `strip()`, and
      only such a string is. */
  lemma StripUnchanged(s: string)
    ensures Strip(s) == s <==> Stripped(s)
  {
    if Stripped(s) {
      assert TrimStart(s, IsPySpace) == s;
      assert TrimEnd(s, IsPySpace) == s;
    }
  }

  /** A whitespace character in front of a stripped string is stripped off. */
  lemma StripSpaceBefore(c: char, x: string)
    requires IsPySpace(c) && x != [] && Stripped(x)
    ensures Strip([c] + x) == x
  {
    var s := [c] + x;
    assert s[1..] == x;
    assert TrimStart(s, IsPySpace) == TrimStart(x, IsPySpace);
    assert TrimStart(x, IsPySpace) == x;
    assert TrimEnd(x, IsPySpace) == x;
  }

  /** So is one after it. */
  lemma StripSpaceAfter(x: string, c: char)
    requires IsPySpace(c) && x != [] && Stripped(x)
    ensures Strip(x + [c]) == x
  {
    var s := x + [c];
    assert s[0] == x[0];
    assert TrimStart(s, IsPySpace) == s;
    assert s[..|s| - 1] == x;
    assert TrimEnd(s, IsPySpace) == TrimEnd(x, IsPySpace);
    assert TrimEnd(x, IsPySpace) == x;
  }

  /** `strip()` is idempotent. */
  lemma StripIdempotent(s: string)
    ensures Strip(Strip(s)) == Strip(s)
  {
    StripUnchanged(Strip(s));
  }

  /** `strip()` only removes characters. */
  lemma StripWithin(s: string)
    ensures forall c | c in Strip(s) :: c in s
  {
    var front := TrimStart(s, IsPySpace);
    var r := Strip(s);
    assert r == TrimEnd(front, IsPySpace);
    TrimStartSuffix(s, IsPySpace);
    forall c | c in r
      ensures c in s
    {
      var i :| 0 <= i < |r| && r[i] == c;
      assert r[i] == front[i];
      assert front[i] == s[|s| - |front| + i];
    }
  }

  /** What `TrimStart` leaves is a suffix of its input. */
  lemma {:induction false} TrimStartSuffix(s: string, space: char -> bool)
    ensures TrimStart(s, space) == s[|s| - |TrimStart(s, space)|..]
    decreases |s|
  {
    if s != [] && space(s[0]) {
      TrimStartSuffix(s[1..], space);
      assert s[1..][|s[1..]| - |TrimStart(s[1..], space)|..] == s[|s| - |TrimStart(s, space)|..];
    }
  }

  // ------------------------------------------------------------- int(str)

  predicate IsDecimal(c: char)
  {
    '0' <= c <= '9'
  }

  /** The body `int()` accepts after the sign: ASCII digits, with single
      underscores allowed between two digits. */
  predicate IsDigitGroup(s: string)
  {
    s != [] && IsDecimal(s[0]) && IsDecimal(s[|s| - 1]) &&
    (forall i | 0 <= i < |s| :: IsDecimal(s[i]) || s[i] == '_') &&
    NoDoubleUnderscore(s)
  }

  predicate NoDoubleUnderscore(s: string)
    decreases |s|
  {
    |s| < 2 || (!(s[0] == '_' && s[1] == '_') && NoDoubleUnderscore(s[1..]))
  }

  lemma {:induction false} DigitsNoUnderscore(d: string)
    requires forall i | 0 <= i < |d| :: IsDecimal(d[i])
    ensures NoDoubleUnderscore(d)
    decreases |d|
  {
    if |d| >= 2 {
      DigitsNoUnderscore(d[1..]);
    }
  }

  function DropUnderscores(s: string): (r: string)
    ensures forall i | 0 <= i < |r| :: r[i] != '_'
  {
    if s == [] then [] else (if s[0] == '_' then [] else [s[0]]) + DropUnderscores(s[1..])
  }

  /** The value of a string of decimal digits. */
  function DigitsValue(s: string): nat
    decreases |s|
  {
    if s == [] then 0
    else
      var d := s[|s| - 1] as int - '0' as int;
      DigitsValue(s[..|s| - 1]) * 10 + (if 0 <= d < 10 then d else 0)
  }

  /** `str(n)` for a natural number. */
  function NatString(n: nat): (s: string)
    ensures s != [] && forall i | 0 <= i < |s| :: IsDecimal(s[i])
  {
    var last := [(n % 10 + '0' as int) as char];
    if n < 10 then last else NatString(n / 10) + last
  }

  /** `str(n)` for an integer. */
  function IntString(n: int): string
  {
    if n < 0 then "-" + NatString(-n) else NatString(n)
  }

  /** The whitespace `int()` skips around its digits. Characters below
      U+007F reach the parser unchanged, which skips only the six ASCII
      spaces; above it, every `isspace()` character is read as a space. So
      U+001C to U+001F, which `strip()` removes, are not skipped here. */
  predicate IsIntSpace(c: char)
  {
    ('\U{0009}' <= c <= '\U{000D}') || c == ' ' || ('\U{0080}' <= c && IsPySpace(c))
  }

  /** Python's `int(s)` for a string: surrounding `int()` whitespace is
      ignored, an optional sign may precede the digit group; anything else
      raises a ValueError (None). */
  function ParseInt(s: string): (r: Option<int>)
  {
    ParseSigned(TrimEnd(TrimStart(s, IsIntSpace), IsIntSpace))
  }

  /** `int()` on text that is already stripped. */
  function ParseSigned(t: string): (r: Option<int>)
  {
    if t != [] && (t[0] == '-' || t[0] == '+') then
      if IsDigitGroup(t[1..]) then
        var v: int := DigitsValue(DropUnderscores(t[1..]));
        Some(if t[0] == '-' then -v else v)
      else None
    else if IsDigitGroup(t) then Some(DigitsValue(DropUnderscores(t)))
    else None
  }

  lemma {:induction false} DigitsRoundTrip(n: nat)
    ensures DigitsValue(NatString(n)) == n
  {
    var s := NatString(n);
    if n >= 10 {
      DigitsRoundTrip(n / 10);
      assert s[..|s| - 1] == NatString(n / 10);
    }
  }

  lemma {:induction false} DropUnderscoresDigits(s: string)
    requires forall i | 0 <= i < |s| :: IsDecimal(s[i])
    ensures DropUnderscores(s) == s
  {
    if s != [] {
      DropUnderscoresDigits(s[1..]);
    }
  }

  lemma DigitsAreGroup(d: string)
    requires d != [] && forall i | 0 <= i < |d| :: IsDecimal(d[i])
    ensures IsDigitGroup(d) && !IsIntSpace(d[0]) && !IsIntSpace(d[|d| - 1])
    ensures d[0] != '-' && d[0] != '+'
  {
    DigitsNoUnderscore(d);
  }

  /** Text with no `int()` whitespace at either end is parsed as it is. */
  lemma IntTrimNone(s: string)
    requires s != [] && !IsIntSpace(s[0]) && !IsIntSpace(s[|s| - 1])
    ensures TrimEnd(TrimStart(s, IsIntSpace), IsIntSpace) == s
  {
  }

  lemma ParseSignedDigits(d: string)
    requires d != [] && forall i | 0 <= i < |d| :: IsDecimal(d[i])
    ensures ParseSigned(d) == Some(DigitsValue(d))
  {
    DigitsAreGroup(d);
    DropUnderscoresDigits(d);
  }

  lemma ParseDigits(d: string)
    requires d != [] && forall i | 0 <= i < |d| :: IsDecimal(d[i])
    ensures ParseInt(d) == Some(DigitsValue(d))
  {
    DigitsAreGroup(d);
    IntTrimNone(d);
    ParseSignedDigits(d);
  }

  lemma ParseMinus(t: string, d: string)
    requires |t| > 0 && t[0] == '-' && t[1..] == d
    requires d != [] && forall i | 0 <= i < |d| :: IsDecimal(d[i])
    ensures ParseSigned(t) == Some(-(DigitsValue(d) as int))
  {
    DigitsAreGroup(d);
    DropUnderscoresDigits(d);
  }

  lemma ParseNegativeDigits(d: string)
    requires d != [] && forall i | 0 <= i < |d| :: IsDecimal(d[i])
    ensures var v: int := DigitsValue(d); ParseInt("-" + d) == Some(-v)
  {
    var s := "-" + d;
    assert TrimEnd(TrimStart(s, IsIntSpace), IsIntSpace) == s by {
      DigitsAreGroup(d);
      assert s[|s| - 1] == d[|d| - 1];
      IntTrimNone(s);
    }
    assert s[1..] == d;
    ParseMinus(s, d);
  }

  /** A separator control character (U+001C to U+001F) before the digits
      makes `int()` raise, although `strip()` would remove it. */
  lemma ParseIntControlPrefix(c: char, d: string)
    requires '\U{001C}' <= c <= '\U{001F}'
    requires d != [] && forall i | 0 <= i < |d| :: IsDecimal(d[i])
    ensures IsPySpace(c)
    ensures ParseInt([c] + d) == None
  {
    var s := [c] + d;
    assert TrimEnd(TrimStart(s, IsIntSpace), IsIntSpace) == s by {
      DigitsAreGroup(d);
      assert s[|s| - 1] == d[|d| - 1];
      IntTrimNone(s);
    }
  }

  /** The concrete case: `int("\x1c5")` raises and `int(" 5\n")` is 5. */
  lemma ParseIntSpaces()
    ensures ParseInt("\U{001C}5") == None
    ensures ParseInt(" 5\n") == Some(5)
  {
    ParseIntControlPrefix('\U{001C}', "5");
    assert "\U{001C}5" == ['\U{001C}'] + "5";
    var s := " 5\n";
    assert TrimStart(s, IsIntSpace) == "5\n";
    assert TrimEnd("5\n", IsIntSpace) == "5";
    ParseSignedDigits("5");
  }

  /** `int(str(n)) == n`. */
  lemma ParseIntString(n: int)
    ensures ParseInt(IntString(n)) == Some(n)
  {
    if n < 0 {
      var d := NatString(-n);
      assert IntString(n) == "-" + d;
      ParseNegativeDigits(d);
      DigitsRoundTrip(-n);
    } else {
      var d := NatString(n);
      assert IntString(n) == d;
      ParseDigits(d);
      DigitsRoundTrip(n);
    }
  }
}
