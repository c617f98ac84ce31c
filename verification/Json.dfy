/** JSON texts: the escaping of strings, a reader after RFC 8259, and what it means for a text to denote a value.
    A string is a sequence of bytes, each written as the character with that code. */
module Json {
  import opened Text

  datatype Json =
    | JString(text: string)
    | JNumber(lexeme: string)
    | JTrue
    | JFalse
    | JNull
    | JArray(items: seq<Json>)
    | JObject(members: seq<Member>)

  datatype Member = Member(key: string, value: Json)

  // ---- writing strings ----

  const BACKSPACE: char := 8 as char
  const FORMFEED: char := 12 as char
  const HEX: string := "0123456789ABCDEF"

  function EscapeChar(c: char): string {
    if c == '\\' then ['\\', '\\']
    else if c == '"' then ['\\', '"']
    else if c == BACKSPACE then ['\\', 'b']
    else if c == FORMFEED then ['\\', 'f']
    else if c == '\n' then ['\\', 'n']
    else if c == '\r' then ['\\', 'r']
    else if c == '\t' then ['\\', 't']
    else if c < ' ' then ['\\', 'u', '0', '0', HEX[c as int / 16], HEX[c as int % 16]]
    else [c]
  }

  function Escaped(s: string): string {
    if s == [] then [] else EscapeChar(s[0]) + Escaped(s[1..])
  }

  function Quoted(s: string): string {
    ['"'] + Escaped(s) + ['"']
  }

  // ---- reading ----

  datatype Read<+T> = Fail | Got(value: T, rest: string)

  function HexDigit(c: char): Option<nat> {
    if '0' <= c <= '9' then Some(c as int - '0' as int)
    else if 'A' <= c <= 'F' then Some(c as int - 'A' as int + 10)
    else if 'a' <= c <= 'f' then Some(c as int - 'a' as int + 10)
    else None
  }

  function Hex4(s: string): Option<nat>
    requires |s| >= 4
  {
    var a, b, c, d := HexDigit(s[0]), HexDigit(s[1]), HexDigit(s[2]), HexDigit(s[3]);
    if a.Some? && b.Some? && c.Some? && d.Some?
    then Some(((a.value * 16 + b.value) * 16 + c.value) * 16 + d.value) else None
  }

  function Unescape(c: char): Option<char> {
    match c
    case '"' => Some('"')
    case '\\' => Some('\\')
    case '/' => Some('/')
    case 'b' => Some(BACKSPACE)
    case 'f' => Some(FORMFEED)
    case 'n' => Some('\n')
    case 'r' => Some('\r')
    case 't' => Some('\t')
    case _ => None
  }

  /** The first character of a string body (section 7 of RFC 8259), decoded. Control characters must be escaped.
      Only the code points of one byte, below 0x80, are read from \u sequences. */
  function ReadChar(s: string): (r: Read<char>)
    ensures r.Got? ==> |r.rest| < |s|
  {
    if s == [] || s[0] == '"' || s[0] < ' ' then Fail
    else if s[0] != '\\' then Got(s[0], s[1..])
    else if |s| == 1 then Fail
    else if Unescape(s[1]).Some? then Got(Unescape(s[1]).value, s[2..])
    else if s[1] == 'u' && |s| >= 6 && Hex4(s[2..]).Some? && Hex4(s[2..]).value < 0x80
      then Got(Hex4(s[2..]).value as char, s[6..])
    else Fail
  }

  /** What follows the opening quote of a string, up to and including the closing quote. */
  function ReadBody(s: string): (r: Read<string>)
    ensures r.Got? ==> |r.rest| < |s|
    decreases |s|
  {
    if s != [] && s[0] == '"' then Got([], s[1..])
    else match ReadChar(s)
      case Fail => Fail
      case Got(c, rest) => match ReadBody(rest)
        case Fail => Fail
        case Got(cs, rest') => Got([c] + cs, rest')
  }

  predicate Digits(s: string) {
    s != [] && forall i :: 0 <= i < |s| ==> IsDigit(s[i])
  }

  /** Numbers of section 6 of RFC 8259: int, optional fraction, optional exponent. */
  predicate IsInt(s: string) {
    Digits(s) && (s[0] == '0' ==> |s| == 1)
  }

  predicate IsFraction(s: string) {
    s == [] || (s[0] == '.' && Digits(s[1..]))
  }

  predicate IsExponent(s: string) {
    s == [] || ((s[0] == 'e' || s[0] == 'E') &&
      (Digits(s[1..]) || (|s| > 1 && (s[1] == '+' || s[1] == '-') && Digits(s[2..]))))
  }

  predicate IsUnsigned(s: string, a: nat, b: nat) {
    a <= b <= |s| && IsInt(s[..a]) && IsFraction(s[a..b]) && IsExponent(s[b..])
  }

  ghost predicate IsNumber(s: string) {
    var m := if s != [] && s[0] == '-' then s[1..] else s;
    exists a: nat, b: nat :: IsUnsigned(m, a, b)
  }

  predicate NumberChar(c: char) {
    IsDigit(c) || c == '-' || c == '+' || c == '.' || c == 'e' || c == 'E'
  }

  /** The longest prefix made of characters a number can contain. */
  function NumberSpan(s: string): (n: nat)
    ensures n <= |s| && forall i :: 0 <= i < n ==> NumberChar(s[i])
    ensures n < |s| ==> !NumberChar(s[n])
  {
    if s == [] || !NumberChar(s[0]) then 0 else 1 + NumberSpan(s[1..])
  }

  ghost function ReadNumber(s: string): (r: Read<Json>)
    ensures r.Got? ==> |r.rest| < |s|
  {
    var n := NumberSpan(s);
    if n > 0 && IsNumber(s[..n]) then Got(JNumber(s[..n]), s[n..]) else Fail
  }

  /** A value (section 3 of RFC 8259), without insignificant whitespace. */
  ghost function ReadValue(s: string): (r: Read<Json>)
    ensures r.Got? ==> |r.rest| < |s|
    decreases |s|, 1
  {
    if s == [] then Fail
    else if s[0] == '"' then
      (match ReadBody(s[1..]) case Fail => Fail case Got(text, rest) => Got(JString(text), rest))
    else if s[0] == '{' then
      if |s| > 1 && s[1] == '}' then Got(JObject([]), s[2..])
      else (match ReadMembers(s[1..]) case Fail => Fail case Got(ms, rest) => Got(JObject(ms), rest))
    else if s[0] == '[' then
      if |s| > 1 && s[1] == ']' then Got(JArray([]), s[2..])
      else (match ReadItems(s[1..]) case Fail => Fail case Got(vs, rest) => Got(JArray(vs), rest))
    else if |s| >= 4 && s[..4] == "true" then Got(JTrue, s[4..])
    else if |s| >= 5 && s[..5] == "false" then Got(JFalse, s[5..])
    else if |s| >= 4 && s[..4] == "null" then Got(JNull, s[4..])
    else ReadNumber(s)
  }

  /** One or more members and the closing brace (section 4 of RFC 8259). */
  ghost function ReadMembers(s: string): (r: Read<seq<Member>>)
    ensures r.Got? ==> |r.rest| < |s|
    decreases |s|, 0
  {
    if s == [] || s[0] != '"' then Fail
    else match ReadBody(s[1..])
      case Fail => Fail
      case Got(key, r1) =>
        if r1 == [] || r1[0] != ':' then Fail
        else match ReadValue(r1[1..])
          case Fail => Fail
          case Got(v, r2) =>
            if r2 == [] then Fail
            else if r2[0] == '}' then Got([Member(key, v)], r2[1..])
            else if r2[0] != ',' then Fail
            else match ReadMembers(r2[1..])
              case Fail => Fail
              case Got(ms, r3) => Got([Member(key, v)] + ms, r3)
  }

  /** One or more elements and the closing bracket (section 5 of RFC 8259). */
  ghost function ReadItems(s: string): (r: Read<seq<Json>>)
    ensures r.Got? ==> |r.rest| < |s|
    decreases |s|, 2
  {
    match ReadValue(s)
    case Fail => Fail
    case Got(v, r1) =>
      if r1 == [] then Fail
      else if r1[0] == ']' then Got([v], r1[1..])
      else if r1[0] != ',' then Fail
      else match ReadItems(r1[1..])
        case Fail => Fail
        case Got(vs, r2) => Got([v] + vs, r2)
  }

  // ---- what a text means ----

  /** What can follow a value inside a larger text. */
  predicate Delimited(rest: string) {
    rest == [] || rest[0] == ',' || rest[0] == '}' || rest[0] == ']'
  }

  /** `text` is read as `v`, by itself and wherever a value may stand. */
  ghost predicate Denotes(text: string, v: Json) {
    forall rest {:trigger text + rest} :: Delimited(rest) ==> ReadValue(text + rest) == Got(v, rest)
  }

  /** A text that denotes a value is a complete JSON document with exactly that value. */
  lemma DenotesDocument(text: string, v: Json)
    requires Denotes(text, v)
    ensures ReadValue(text) == Got(v, [])
  {
    assert text + [] == text;
  }

  // ---- strings ----

  lemma ReadEscapedChar(c: char, tail: string)
    ensures ReadChar(EscapeChar(c) + tail) == Got(c, tail)
  {
    var s := EscapeChar(c) + tail;
    if c < ' ' && EscapeChar(c)[1] == 'u' {
      var n := c as int;
      assert s[2..][0] == '0' && s[2..][1] == '0' && s[2..][2] == HEX[n / 16] && s[2..][3] == HEX[n % 16];
      HexRoundTrip(n / 16);
      HexRoundTrip(n % 16);
      assert Hex4(s[2..]) == Some(n);
      assert s[6..] == tail;
    } else if |EscapeChar(c)| == 2 {
      assert s[2..] == tail;
    } else {
      assert s[1..] == tail;
    }
  }

  lemma HexRoundTrip(d: nat)
    requires d < 16
    ensures HexDigit(HEX[d]) == Some(d)
  {
  }

  lemma BodyStep(s: string, c: char, rest: string, cs: string, r: string)
    requires ReadChar(s) == Got(c, rest) && ReadBody(rest) == Got(cs, r)
    ensures ReadBody(s) == Got([c] + cs, r)
  {
  }

  lemma BodyEnd(rest: string)
    ensures Escaped([]) + ['"'] + rest == ['"'] + rest
    ensures ReadBody(['"'] + rest) == Got([], rest)
  {
    assert (['"'] + rest)[1..] == rest;
  }

  /** The escapes of section 7 of RFC 8259, written out. */
  lemma EscapeTable()
    ensures Quoted("\"") == "\"\\\"\"" && Quoted("\\") == "\"\\\\\"" && Quoted("/") == "\"/\""
    ensures Quoted([8 as char]) == "\"\\b\"" && Quoted([12 as char]) == "\"\\f\"" && Quoted([10 as char]) == "\"\\n\""
    ensures Quoted([13 as char]) == "\"\\r\"" && Quoted([9 as char]) == "\"\\t\""
    ensures Quoted([1 as char]) == "\"\\u0001\"" && Quoted([31 as char]) == "\"\\u001F\"" && Quoted("a") == "\"a\""
  {
    forall c ensures Quoted([c]) == ['"'] + EscapeChar(c) + ['"'] {
      QuotedOne(c);
    }
    hide Quoted, Escaped;
  }

  lemma QuotedOne(c: char)
    ensures Quoted([c]) == ['"'] + EscapeChar(c) + ['"']
  {
    assert Escaped([c]) == EscapeChar(c) + Escaped([]);
    hide EscapeChar;
  }

  lemma EscapedStep(x: string)
    requires x != []
    ensures Escaped(x) == EscapeChar(x[0]) + Escaped(x[1..])
  {
  }

  /** Reading back an escaped string gives the string, whatever bytes it consists of. */
  lemma {:induction false} ReadEscaped(x: string, rest: string)
    ensures ReadBody(Escaped(x) + ['"'] + rest) == Got(x, rest)
  {
    hide *;
    if x == [] {
      BodyEnd(rest);
    } else {
      var tail := Escaped(x[1..]) + ['"'] + rest;
      EscapedStep(x);
      assert Escaped(x) + ['"'] + rest == EscapeChar(x[0]) + tail;
      ReadEscapedChar(x[0], tail);
      ReadEscaped(x[1..], rest);
      BodyStep(EscapeChar(x[0]) + tail, x[0], tail, x[1..], rest);
      assert [x[0]] + x[1..] == x;
    }
  }

  /** The same for a quoted string standing at the start of a text. */
  lemma ReadQuoted(x: string, rest: string)
    ensures (Quoted(x) + rest)[0] == '"'
    ensures ReadBody((Quoted(x) + rest)[1..]) == Got(x, rest)
  {
    assert (Quoted(x) + rest)[1..] == Escaped(x) + ['"'] + rest;
    ReadEscaped(x, rest);
  }

  lemma QuotedDenotes(x: string)
    ensures Denotes(Quoted(x), JString(x))
  {
    forall rest | Delimited(rest) ensures ReadValue(Quoted(x) + rest) == Got(JString(x), rest) {
      ReadQuoted(x, rest);
    }
  }

  /** Distinct strings are printed differently. */
  lemma QuotedInjective(x: string, y: string)
    requires Quoted(x) == Quoted(y)
    ensures x == y
  {
    ReadQuoted(x, []);
    ReadQuoted(y, []);
  }

  /** How many backslashes stand directly before position i. */
  function Backslashes(s: string, i: nat): nat
    requires i <= |s|
  {
    if i == 0 || s[i - 1] != '\\' then 0 else 1 + Backslashes(s, i - 1)
  }

  lemma {:induction false} BackslashesAfter(a: string, b: string, i: nat)
    requires i <= |b|
    ensures Backslashes(b, i) <= i
    ensures Backslashes(a + b, |a| + i) == Backslashes(b, i) + if Backslashes(b, i) == i then Backslashes(a, |a|) else 0
  {
    if i == 0 {
      BackslashesWithin(a, b, |a|);
    } else if b[i - 1] == '\\' {
      BackslashesAfter(a, b, i - 1);
    }
  }

  lemma {:induction false} BackslashesWithin(a: string, b: string, i: nat)
    requires i <= |a|
    ensures Backslashes(a + b, i) == Backslashes(a, i)
  {
    if i > 0 {
      BackslashesWithin(a, b, i - 1);
    }
  }

  /** At position i there is no raw control byte, and an odd number of backslashes stands before it if it is a quote,
      an even number if it is the end. */
  ghost predicate CleanAt(s: string, i: nat)
    requires i <= |s|
  {
    && (i < |s| ==> s[i] >= ' ')
    && (i < |s| && s[i] == '"' ==> Backslashes(s, i) % 2 == 1)
    && (i == |s| ==> Backslashes(s, i) % 2 == 0)
  }

  lemma CleanJoined(e: string, rest: string, i: nat)
    requires i <= |e + rest| && forall j :: 0 <= j <= |e| ==> CleanAt(e, j)
    requires i >= |e| ==> CleanAt(rest, i - |e|)
    ensures CleanAt(e + rest, i)
  {
    if i >= |e| {
      BackslashesAfter(e, rest, i - |e|);
      assert CleanAt(e, |e|);
    } else {
      BackslashesWithin(e, rest, i);
      assert CleanAt(e, i);
    }
  }

  /** No raw control byte is printed, a reader takes every quote in the string as escaped, and the closing one as the
      end. */
  lemma {:induction false} EscapedIsClean(x: string, i: nat)
    requires i <= |Escaped(x)|
    ensures CleanAt(Escaped(x), i)
  {
    if x != [] {
      CleanChar(x[0]);
      EscapedStep(x);
      hide *;
      if i >= |EscapeChar(x[0])| {
        EscapedIsClean(x[1..], i - |EscapeChar(x[0])|);
      }
      CleanJoined(EscapeChar(x[0]), Escaped(x[1..]), i);
    }
  }

  lemma CleanChar(c: char)
    ensures forall j :: 0 <= j <= |EscapeChar(c)| ==> CleanAt(EscapeChar(c), j)
  {
    var e := EscapeChar(c);
    if |e| == 2 && e[1] == '\\' {
      assert Backslashes(e, 1) == 1;
    }
  }
}
