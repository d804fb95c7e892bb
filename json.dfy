/** JSON text as Python's `json` module writes and reads it (RFC 8259):
    `json.dumps` of a list of strings with the default settings
    (`ensure_ascii=True`, separators ", " and ": "), and `json.loads` of any
    text. Numbers are kept as the characters they were written with: the
    model never computes with their values. */
module Json {
  import opened Wrappers
  import opened PyText

  datatype Value =
    | Null
    | Bool(b: bool)
    | Number(lexeme: string)
    | String(s: string)
    | Array(items: seq<Value>)
    | Object(members: seq<(string, Value)>)

  /** The JSON values of a list of Python strings. */
  function StringValues(xs: seq<string>): (vs: seq<Value>)
    ensures |vs| == |xs|
    ensures forall i :: 0 <= i < |xs| ==> vs[i] == String(xs[i])
  {
    if xs == [] then [] else [String(xs[0])] + StringValues(xs[1..])
  }

  // ---------------------------------------------------------------------
  // Writing: json.dumps(list_of_str)
  // ---------------------------------------------------------------------

  /** One lower-case hexadecimal digit, as `json.dumps` writes it. */
  function HexDigit(d: nat): (c: char)
    requires d < 16
    ensures '0' <= c <= '9' || 'a' <= c <= 'f'
  {
    if d < 10 then (48 + d) as char else (87 + d) as char
  }

  /** Four hexadecimal digits for a UTF-16 code unit. */
  function Hex4(n: nat): (r: string)
    requires n < 0x1_0000
    ensures |r| == 4
  {
    [HexDigit(n / 16 / 16 / 16), HexDigit(n / 16 / 16 % 16), HexDigit(n / 16 % 16), HexDigit(n % 16)]
  }

  /** Printable ASCII, the characters `ensure_ascii` lets through. */
  predicate IsPrintableAscii(c: char)
  {
    ' ' <= c <= '~'
  }

  /** A character inside a JSON string as `json.dumps` writes it: `"` and `\`
      and the five characters with short escapes get those, other printable
      ASCII stands for itself, everything else becomes `\uXXXX` (a UTF-16
      surrogate pair of them above U+FFFF). */
  function EscapeChar(c: char): (r: string)
    ensures |r| > 0 && r[0] != '"'
  {
    if c == '"' then "\\\""
    else if c == '\\' then "\\\\"
    else if c == '\n' then "\\n"
    else if c == '\r' then "\\r"
    else if c == '\t' then "\\t"
    else if c == '\U{0008}' then "\\b"
    else if c == '\U{000C}' then "\\f"
    else if IsPrintableAscii(c) then [c]
    else if c as int < 0x1_0000 then "\\u" + Hex4(c as int)
    else "\\u" + Hex4(HighSurrogate(c as int)) + "\\u" + Hex4(LowSurrogate(c as int))
  }

  /** The two halves of the UTF-16 surrogate pair of a code point above U+FFFF. */
  function HighSurrogate(n: int): (hi: int)
    requires 0x1_0000 <= n < 0x11_0000
    ensures 0xD800 <= hi < 0xDC00
  {
    0xD800 + (n - 0x1_0000) / 0x400
  }

  function LowSurrogate(n: int): (lo: int)
    requires 0x1_0000 <= n < 0x11_0000
    ensures 0xDC00 <= lo < 0xE000
  {
    0xDC00 + (n - 0x1_0000) % 0x400
  }

  /** The characters between the quotes of an encoded string. */
  function EscapeBody(s: string): (r: string)
    ensures s != [] ==> r != [] && r[0] != '"'
  {
    if s == [] then "" else EscapeChar(s[0]) + EscapeBody(s[1..])
  }

  /** `json.dumps(s)` for a string. */
  function DumpString(s: string): (r: string)
    ensures |r| >= 2 && r[0] == '"' && r[|r| - 1] == '"'
  {
    "\"" + EscapeBody(s) + "\""
  }

  /** The encoded items of a non-empty list, separated by ", ". */
  function DumpItems(xs: seq<string>): (r: string)
    requires xs != []
    ensures |r| > 0 && r[0] == '"'
  {
    if |xs| == 1 then DumpString(xs[0])
    else DumpString(xs[0]) + ", " + DumpItems(xs[1..])
  }

  /** `json.dumps(xs)` for a list of strings. */
  function DumpStrings(xs: seq<string>): (r: string)
    ensures |r| >= 2 && r[0] == '[' && r[|r| - 1] == ']'
  {
    if xs == [] then "[]" else "[" + DumpItems(xs) + "]"
  }

  /** Every character `json.dumps` writes for a string is printable ASCII. */
  lemma {:induction false} DumpStringIsAscii(s: string)
    ensures forall i :: 0 <= i < |DumpString(s)| ==> IsPrintableAscii(DumpString(s)[i])
  {
    EscapeBodyIsAscii(s);
  }

  lemma {:induction false} EscapeBodyIsAscii(s: string)
    ensures forall i :: 0 <= i < |EscapeBody(s)| ==> IsPrintableAscii(EscapeBody(s)[i])
  {
    if s != [] {
      EscapeCharIsAscii(s[0]);
      EscapeBodyIsAscii(s[1..]);
    }
  }

  lemma EscapeCharIsAscii(c: char)
    ensures forall i :: 0 <= i < |EscapeChar(c)| ==> IsPrintableAscii(EscapeChar(c)[i])
  {
  }

  // ---------------------------------------------------------------------
  // Reading: json.loads(text)
  // ---------------------------------------------------------------------

  /** The insignificant whitespace of RFC 8259, section 2. */
  predicate IsWs(c: char)
  {
    c == ' ' || c == '\t' || c == '\n' || c == '\r'
  }

  function SkipWs(s: string): (r: string)
    ensures |r| <= |s|
  {
    TrimStart(s, IsWs)
  }

  predicate IsDigit(c: char)
  {
    '0' <= c <= '9'
  }

  function HexValue(c: char): Option<nat>
  {
    if '0' <= c <= '9' then Some(c as int - 48)
    else if 'a' <= c <= 'f' then Some(c as int - 87)
    else if 'A' <= c <= 'F' then Some(c as int - 55)
    else None
  }

  /** Four hexadecimal digits (either case) read as a number. */
  function Hex4Value(s: string): (r: Option<nat>)
    requires |s| == 4
    ensures r.Some? ==> r.value < 0x1_0000
  {
    match (HexValue(s[0]), HexValue(s[1]), HexValue(s[2]), HexValue(s[3]))
    case (Some(a), Some(b), Some(c), Some(d)) =>
      if a < 16 && b < 16 && c < 16 && d < 16 then Some(a * 0x1000 + b * 0x100 + c * 0x10 + d) else None
    case _ => None
  }

  /** The code point of a high and a low UTF-16 surrogate. */
  function JoinSurrogates(hi: int, lo: int): (n: int)
    requires 0xD800 <= hi < 0xDC00 && 0xDC00 <= lo < 0xE000
    ensures 0x1_0000 <= n < 0x11_0000
  {
    0x1_0000 + (hi - 0xD800) * 0x400 + (lo - 0xDC00)
  }

  /** The escape after a backslash inside a string, and what follows it.
      A `\u` escape that leaves a lone surrogate is refused. */
  function ParseEscape(s: string): (r: Option<(char, string)>)
    ensures r.Some? ==> |r.value.1| < |s|
  {
    if s == [] then None
    else if s[0] == '"' then Some(('"', s[1..]))
    else if s[0] == '\\' then Some(('\\', s[1..]))
    else if s[0] == '/' then Some(('/', s[1..]))
    else if s[0] == 'b' then Some(('\U{0008}', s[1..]))
    else if s[0] == 'f' then Some(('\U{000C}', s[1..]))
    else if s[0] == 'n' then Some(('\n', s[1..]))
    else if s[0] == 'r' then Some(('\r', s[1..]))
    else if s[0] == 't' then Some(('\t', s[1..]))
    else if s[0] == 'u' && |s| >= 5 then
      match Hex4Value(s[1..5])
      case None => None
      case Some(u) =>
        if 0xD800 <= u < 0xDC00 then
          if |s| >= 11 && s[5] == '\\' && s[6] == 'u' then
            match Hex4Value(s[7..11])
            case Some(l) =>
              if 0xDC00 <= l < 0xE000 then Some((JoinSurrogates(u, l) as char, s[11..])) else None
            case None => None
          else None
        else if 0xDC00 <= u < 0xE000 then None
        else Some((u as char, s[5..]))
    else None
  }

  /** The rest of a string after its opening quote: the decoded characters
      up to the closing quote, and the text after it. Control characters
      must be escaped (Python's `strict=True`). */
  function ParseStringBody(s: string): (r: Option<(string, string)>)
    ensures r.Some? ==> |r.value.1| < |s|
    decreases |s|
  {
    if s == [] then None
    else if s[0] == '"' then Some(("", s[1..]))
    else if s[0] == '\\' then
      match ParseEscape(s[1..])
      case None => None
      case Some((c, rest)) => Prepend(c, ParseStringBody(rest))
    else if s[0] < ' ' then None
    else Prepend(s[0], ParseStringBody(s[1..]))
  }

  function Prepend(c: char, r: Option<(string, string)>): Option<(string, string)>
  {
    match r
    case None => None
    case Some((t, rest)) => Some(([c] + t, rest))
  }

  /** Number of leading ASCII digits. */
  function CountDigits(s: string): (n: nat)
    ensures n <= |s|
    ensures forall i :: 0 <= i < n ==> IsDigit(s[i])
    ensures n < |s| ==> !IsDigit(s[n])
  {
    if s == [] || !IsDigit(s[0]) then 0 else 1 + CountDigits(s[1..])
  }

  /** The length of the number at the start of `s` (the longest prefix of
      the form -?(0|[1-9][0-9]*)(.[0-9]+)?([eE][+-]?[0-9]+)?), or 0 when
      there is none. */
  function NumberLength(s: string): (n: nat)
    ensures n <= |s|
  {
    var a := if |s| > 0 && s[0] == '-' then 1 else 0;
    if a >= |s| || !IsDigit(s[a]) then 0
    else
      var intEnd := if s[a] == '0' then a + 1 else a + 1 + CountDigits(s[a + 1..]);
      var fracEnd :=
        if intEnd + 1 < |s| && s[intEnd] == '.' && IsDigit(s[intEnd + 1])
        then intEnd + 1 + CountDigits(s[intEnd + 1..]) else intEnd;
      if fracEnd < |s| && (s[fracEnd] == 'e' || s[fracEnd] == 'E') then
        var k := if fracEnd + 1 < |s| && (s[fracEnd + 1] == '+' || s[fracEnd + 1] == '-') then fracEnd + 2 else fracEnd + 1;
        var d := CountDigits(s[k..]);
        if d > 0 then k + d else fracEnd
      else fracEnd
  }

  predicate StartsWith(s: string, p: string)
  {
    |p| <= |s| && s[..|p|] == p
  }

  /** A JSON value at the very start of `s`, and the text after it. Besides
      RFC 8259, Python accepts the constants NaN, Infinity and -Infinity. */
  function ParseValue(s: string): (r: Option<(Value, string)>)
    ensures r.Some? ==> |r.value.1| < |s|
    decreases |s|, 1
  {
    if s == [] then None
    else if s[0] == '"' then
      match ParseStringBody(s[1..])
      case None => None
      case Some((t, rest)) => Some((String(t), rest))
    else if s[0] == '[' then ParseArray(SkipWs(s[1..]))
    else if s[0] == '{' then ParseObject(SkipWs(s[1..]))
    else if StartsWith(s, "null") then Some((Null, s[4..]))
    else if StartsWith(s, "true") then Some((Bool(true), s[4..]))
    else if StartsWith(s, "false") then Some((Bool(false), s[5..]))
    else if StartsWith(s, "NaN") then Some((Number("NaN"), s[3..]))
    else if StartsWith(s, "Infinity") then Some((Number("Infinity"), s[8..]))
    else if StartsWith(s, "-Infinity") then Some((Number("-Infinity"), s[9..]))
    else
      var n := NumberLength(s);
      if n == 0 then None else Some((Number(s[..n]), s[n..]))
  }

  /** The rest of an array after "[" and any whitespace. */
  function ParseArray(s: string): (r: Option<(Value, string)>)
    ensures r.Some? ==> |r.value.1| < |s|
    decreases |s|, 3
  {
    if |s| > 0 && s[0] == ']' then Some((Array([]), s[1..]))
    else ParseElements(s, [])
  }

  /** Array elements after those already read into `acc`. */
  function ParseElements(s: string, acc: seq<Value>): (r: Option<(Value, string)>)
    ensures r.Some? ==> |r.value.1| < |s|
    decreases |s|, 2
  {
    match ParseValue(s)
    case None => None
    case Some((v, rest)) =>
      var t := SkipWs(rest);
      if |t| > 0 && t[0] == ']' then Some((Array(acc + [v]), t[1..]))
      else if |t| > 0 && t[0] == ',' then ParseElements(SkipWs(t[1..]), acc + [v])
      else None
  }

  /** The rest of an object after "{" and any whitespace. */
  function ParseObject(s: string): (r: Option<(Value, string)>)
    ensures r.Some? ==> |r.value.1| < |s|
    decreases |s|, 3
  {
    if |s| > 0 && s[0] == '}' then Some((Object([]), s[1..]))
    else ParseMembers(s, [])
  }

  /** Object members after those already read into `acc`. */
  function ParseMembers(s: string, acc: seq<(string, Value)>): (r: Option<(Value, string)>)
    ensures r.Some? ==> |r.value.1| < |s|
    decreases |s|, 2
  {
    if s == [] || s[0] != '"' then None
    else
      match ParseStringBody(s[1..])
      case None => None
      case Some((key, rest)) =>
        var t := SkipWs(rest);
        if t == [] || t[0] != ':' then None
        else
          match ParseValue(SkipWs(t[1..]))
          case None => None
          case Some((v, rest')) =>
            var members := Put(acc, key, v);
            var w := SkipWs(rest');
            if |w| > 0 && w[0] == '}' then Some((Object(members), w[1..]))
            else if |w| > 0 && w[0] == ',' then ParseMembers(SkipWs(w[1..]), members)
            else None
  }

  /** A member added to a Python dict: a repeated key keeps its first
      position and takes the new value. */
  function Put(members: seq<(string, Value)>, key: string, v: Value): (r: seq<(string, Value)>)
    ensures (key, v) in r
    ensures |r| == |members| || |r| == |members| + 1
  {
    if members == [] then [(key, v)]
    else if members[0].0 == key then [(key, v)] + members[1..]
    else [members[0]] + Put(members[1..], key, v)
  }

  /** `json.loads(text)`: the value, or None where Python raises. */
  function Loads(text: string): Option<Value>
  {
    if |text| > 0 && text[0] == '\U{FEFF}' then None
    else
      match ParseValue(SkipWs(text))
      case None => None
      case Some((v, rest)) => if SkipWs(rest) == [] then Some(v) else None
  }

  // ---------------------------------------------------------------------
  // json.loads(json.dumps(xs)) == xs
  // ---------------------------------------------------------------------

  lemma HexDigitValue(d: nat)
    requires d < 16
    ensures HexValue(HexDigit(d)) == Some(d)
  {
  }

  lemma Hex4RoundTrip(n: nat)
    requires n < 0x1_0000
    ensures Hex4Value(Hex4(n)) == Some(n)
  {
    var q1, r0 := n / 16, n % 16;
    var q2, r1 := q1 / 16, q1 % 16;
    var q3, r2 := q2 / 16, q2 % 16;
    DivMod16(n);
    DivMod16(q1);
    DivMod16(q2);
    assert q3 < 16;
    HexDigitValue(q3);
    HexDigitValue(r2);
    HexDigitValue(r1);
    HexDigitValue(r0);
    assert n == q3 * 0x1000 + r2 * 0x100 + r1 * 0x10 + r0;
  }

  lemma DivMod16(x: nat)
    ensures x == 16 * (x / 16) + x % 16 && 0 <= x % 16 < 16
  {
  }

  /** A character written as a backslash escape reads back as itself. */
  lemma EscapedRoundTrip(c: char, rest: string)
    requires EscapeChar(c)[0] == '\\'
    requires ParseEscape(EscapeChar(c)[1..] + rest) == Some((c, rest))
    ensures ParseStringBody(EscapeChar(c) + rest) == Prepend(c, ParseStringBody(rest))
  {
    assert (EscapeChar(c) + rest)[1..] == EscapeChar(c)[1..] + rest;
  }

  lemma ShortEscapeRoundTrip(c: char, rest: string)
    requires c in "\"\\\n\r\t\U{0008}\U{000C}"
    ensures EscapeChar(c)[0] == '\\'
    ensures ParseEscape(EscapeChar(c)[1..] + rest) == Some((c, rest))
  {
    assert ([EscapeChar(c)[1]] + rest)[1..] == rest;
  }

  lemma BmpEscapeRoundTrip(c: char, rest: string)
    requires !IsPrintableAscii(c) && c as int < 0x1_0000
    requires !(c in "\"\\\n\r\t\U{0008}\U{000C}")
    ensures EscapeChar(c)[0] == '\\'
    ensures ParseEscape(EscapeChar(c)[1..] + rest) == Some((c, rest))
  {
    var e := EscapeChar(c);
    assert e == "\\u" + Hex4(c as int);
    var t := e[1..] + rest;
    assert t == "u" + Hex4(c as int) + rest;
    assert t[1..5] == Hex4(c as int);
    Hex4RoundTrip(c as int);
    assert t[5..] == rest;
  }

  lemma AstralEscapeRoundTrip(c: char, rest: string)
    requires c as int >= 0x1_0000
    ensures EscapeChar(c)[0] == '\\'
    ensures ParseEscape(EscapeChar(c)[1..] + rest) == Some((c, rest))
  {
    var hi, lo := HighSurrogate(c as int), LowSurrogate(c as int);
    var e := EscapeChar(c);
    assert e == "\\u" + Hex4(hi) + "\\u" + Hex4(lo);
    var t := e[1..] + rest;
    assert t == "u" + Hex4(hi) + "\\u" + Hex4(lo) + rest;
    assert ParseEscape(t) == Some((JoinSurrogates(hi, lo) as char, rest)) by {
      SurrogatePairParses(hi, lo, rest);
    }
    assert JoinSurrogates(hi, lo) == c as int by { SurrogatesSplit(c as int); }
  }

  /** The surrogate pair of a code point above U+FFFF joins back to it. */
  lemma SurrogatesSplit(n: int)
    requires 0x1_0000 <= n < 0x11_0000
    ensures JoinSurrogates(HighSurrogate(n), LowSurrogate(n)) == n
  {
  }

  /** A `\u` escape of a high surrogate followed by one of a low surrogate
      reads back as the joined character. */
  lemma SurrogatePairParses(hi: int, lo: int, rest: string)
    requires 0xD800 <= hi < 0xDC00 && 0xDC00 <= lo < 0xE000
    ensures ParseEscape("u" + Hex4(hi) + "\\u" + Hex4(lo) + rest) == Some((JoinSurrogates(hi, lo) as char, rest))
  {
    var t := "u" + Hex4(hi) + "\\u" + Hex4(lo) + rest;
    Hex4RoundTrip(hi);
    Hex4RoundTrip(lo);
    assert t[1..5] == Hex4(hi);
    assert t[5] == '\\' && t[6] == 'u';
    assert t[7..11] == Hex4(lo);
    assert t[11..] == rest;
  }

  /** Reading back one written character. */
  lemma EscapeCharRoundTrip(c: char, rest: string)
    ensures ParseStringBody(EscapeChar(c) + rest) == Prepend(c, ParseStringBody(rest))
  {
    if c in "\"\\\n\r\t\U{0008}\U{000C}" {
      ShortEscapeRoundTrip(c, rest);
      EscapedRoundTrip(c, rest);
    } else if IsPrintableAscii(c) {
      PlainCharRoundTrip(c, rest);
    } else if c as int < 0x1_0000 {
      BmpEscapeRoundTrip(c, rest);
      EscapedRoundTrip(c, rest);
    } else {
      AstralEscapeRoundTrip(c, rest);
      EscapedRoundTrip(c, rest);
    }
  }

  lemma PlainCharRoundTrip(c: char, rest: string)
    requires IsPrintableAscii(c) && !(c in "\"\\\n\r\t\U{0008}\U{000C}")
    ensures ParseStringBody(EscapeChar(c) + rest) == Prepend(c, ParseStringBody(rest))
  {
    assert EscapeChar(c) == [c];
    assert ([c] + rest)[1..] == rest;
  }

  /** Reading back the body of a written string. */
  lemma {:induction false} EscapeBodyRoundTrip(x: string, rest: string)
    ensures ParseStringBody(EscapeBody(x) + "\"" + rest) == Some((x, rest))
  {
    if x == [] {
      assert EscapeBody(x) + "\"" + rest == "\"" + rest;
    } else {
      var tail := EscapeBody(x[1..]) + "\"" + rest;
      assert EscapeBody(x) + "\"" + rest == EscapeChar(x[0]) + tail;
      EscapeCharRoundTrip(x[0], tail);
      EscapeBodyRoundTrip(x[1..], rest);
      assert [x[0]] + x[1..] == x;
    }
  }

  lemma DumpStringRoundTrip(x: string, rest: string)
    ensures ParseValue(DumpString(x) + rest) == Some((String(x), rest))
  {
    var s := DumpString(x) + rest;
    assert s[1..] == EscapeBody(x) + "\"" + rest;
    EscapeBodyRoundTrip(x, rest);
  }

  /** Whitespace skipping stops at once before a character that is not whitespace. */
  lemma SkipWsStops(s: string)
    requires s != [] && !IsWs(s[0])
    ensures SkipWs(s) == s
  {
  }

  /** The last element of an array, followed by the closing bracket. */
  lemma LastElement(s: string, acc: seq<Value>, v: Value, rest: string)
    requires ParseValue(s) == Some((v, "]" + rest))
    ensures ParseElements(s, acc) == Some((Array(acc + [v]), rest))
  {
    SkipWsStops("]" + rest);
    assert ("]" + rest)[1..] == rest;
  }

  /** An element followed by ", " and the text of the next element. */
  lemma NextElement(s: string, acc: seq<Value>, v: Value, more: string)
    requires ParseValue(s) == Some((v, ", " + more))
    requires more != [] && !IsWs(more[0])
    ensures ParseElements(s, acc) == ParseElements(more, acc + [v])
  {
    SkipWsStops(", " + more);
    assert (", " + more)[1..] == " " + more;
    assert (" " + more)[1..] == more;
    SkipWsStops(more);
  }

  lemma DumpItemsCons(xs: seq<string>, rest: string)
    requires |xs| > 1
    ensures DumpItems(xs) + "]" + rest == DumpString(xs[0]) + (", " + (DumpItems(xs[1..]) + "]" + rest))
    ensures DumpItems(xs[1..]) + "]" + rest != [] && !IsWs((DumpItems(xs[1..]) + "]" + rest)[0])
  {
    var a, c := DumpString(xs[0]), DumpItems(xs[1..]);
    assert DumpItems(xs) == a + ", " + c;
    Regroup(a, ", ", c, "]", rest);
    assert (c + "]" + rest)[0] == c[0];
  }

  lemma Regroup(a: string, b: string, c: string, d: string, e: string)
    ensures a + b + c + d + e == a + (b + (c + d + e))
  {
    Associate(a, b, c + d + e);
    Associate(a + b, c, d + e);
    Associate(c, d, e);
    Associate(a + b + c, d, e);
  }

  lemma Associate(a: string, b: string, c: string)
    ensures a + b + c == a + (b + c)
  {
  }

  lemma StringValuesCons(xs: seq<string>, acc: seq<Value>)
    requires xs != []
    ensures acc + [String(xs[0])] + StringValues(xs[1..]) == acc + StringValues(xs)
  {
    assert StringValues(xs) == [String(xs[0])] + StringValues(xs[1..]);
  }

  lemma {:induction false} DumpItemsRoundTrip(xs: seq<string>, acc: seq<Value>, rest: string)
    requires xs != []
    ensures ParseElements(DumpItems(xs) + "]" + rest, acc) == Some((Array(acc + StringValues(xs)), rest))
  {
    var s := DumpItems(xs) + "]" + rest;
    if |xs| == 1 {
      assert DumpItems(xs) == DumpString(xs[0]);
      Associate(DumpString(xs[0]), "]", rest);
      DumpStringRoundTrip(xs[0], "]" + rest);
      LastElement(s, acc, String(xs[0]), rest);
      assert StringValues(xs) == [String(xs[0])];
    } else {
      var more := DumpItems(xs[1..]) + "]" + rest;
      DumpItemsCons(xs, rest);
      DumpStringRoundTrip(xs[0], ", " + more);
      NextElement(s, acc, String(xs[0]), more);
      DumpItemsRoundTrip(xs[1..], acc + [String(xs[0])], rest);
      StringValuesCons(xs, acc);
    }
  }

  /** A text that is one value and nothing after it. */
  lemma LoadsWhole(text: string, v: Value)
    requires text != [] && text[0] != '\U{FEFF}' && !IsWs(text[0])
    requires ParseValue(text) == Some((v, ""))
    ensures Loads(text) == Some(v)
  {
    SkipWsStops(text);
  }

  lemma ParseValueArray(s: string)
    requires s != [] && s[0] == '['
    ensures ParseValue(s) == ParseArray(SkipWs(s[1..]))
  {
  }

  /** A list of strings written by `json.dumps` reads back as that list. */
  lemma DumpStringsRoundTrip(xs: seq<string>)
    ensures Loads(DumpStrings(xs)) == Some(Array(StringValues(xs)))
  {
    var text := DumpStrings(xs);
    if xs == [] {
      EmptyListParses(text);
    } else {
      ListParses(xs);
    }
    LoadsWhole(text, Array(StringValues(xs)));
  }

  lemma EmptyListParses(text: string)
    requires text == DumpStrings([])
    ensures ParseValue(text) == Some((Array([]), ""))
  {
    ParseValueArray(text);
    var body := text[1..];
    assert body == "]";
    SkipWsStops(body);
    ArrayClose(body);
  }

  lemma ArrayClose(s: string)
    requires s != [] && s[0] == ']'
    ensures ParseArray(s) == Some((Array([]), s[1..]))
  {
  }

  lemma ArrayOpen(s: string)
    requires s != [] && s[0] != ']'
    ensures ParseArray(s) == ParseElements(s, [])
  {
  }

  lemma ListParses(xs: seq<string>)
    requires xs != []
    ensures ParseValue(DumpStrings(xs)) == Some((Array(StringValues(xs)), ""))
  {
    var body := DumpItems(xs) + "]" + "";
    ListBody(xs, body);
    ParseValueArray(DumpStrings(xs));
    SkipWsStops(body);
    ArrayOpen(body);
    DumpItemsRoundTrip(xs, [], "");
    assert [] + StringValues(xs) == StringValues(xs);
  }

  lemma ListBody(xs: seq<string>, body: string)
    requires xs != [] && body == DumpItems(xs) + "]" + ""
    ensures DumpStrings(xs)[1..] == body
    ensures body != [] && body[0] == '"'
  {
    assert DumpStrings(xs) == "[" + body;
  }

  /** Whitespace before a value is skipped. */
  lemma LoadsAfterSpace(t: string)
    requires t != [] && !IsWs(t[0]) && t[0] != '\U{FEFF}'
    ensures Loads(" " + t) == Loads(t)
  {
    var s := " " + t;
    assert s[0] == ' ' && s[1..] == t;
    assert SkipWs(s) == SkipWs(t);
  }
}
