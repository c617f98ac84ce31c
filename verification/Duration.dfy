/** parse8601 and toSeconds: durations such as P1Y2M3W4DT5H6M7S. */
module Duration {
  import opened Text
  import opened DurationNumbers

  // ---- toSeconds ----

  function ToSeconds(value: int, what: char, dayPart: bool): (r: int)
    ensures r == if UnitOf(what, dayPart) then UnitSeconds(what, dayPart) * value else -1
  {
    if dayPart then
      if what == 'Y' then 365 * 24 * 3600 * value
      else if what == 'M' then 30 * 24 * 3600 * value
      else if what == 'W' then 7 * 24 * 3600 * value
      else if what == 'D' then 24 * 3600 * value
      else -1
    else
      if what == 'H' then 3600 * value
      else if what == 'M' then 60 * value
      else if what == 'S' then value
      else -1
  }

  predicate UnitOf(c: char, dayPart: bool) {
    if dayPart then c in "YMDW" else c in "HMS"
  }

  /** The length of a unit: a year is 365 days, a month 30 in the day part and a minute in the time part. */
  function UnitSeconds(c: char, dayPart: bool): nat
    requires UnitOf(c, dayPart)
  {
    if c == 'Y' then 31_536_000
    else if c == 'M' then (if dayPart then 2_592_000 else 60)
    else if c == 'W' then 604_800
    else if c == 'D' then 86_400
    else if c == 'H' then 3_600
    else 1
  }

  // ---- what the parser accepts ----

  datatype Part = Part(number: string, what: char)

  /** Day parts; then, after a T, time parts. Digits right before the T are dropped. */
  datatype Form = Form(days: seq<Part>, time: Option<(string, seq<Part>)>)

  /** A day part whose value is 0 must start with the digit 0. */
  predicate NoDayValue(number: string) {
    Atoi(number) == 0 && (number == [] || number[0] != '0')
  }

  predicate DayPartOk(p: Part) {
    Numeric(p.number) && UnitOf(p.what, true) && !NoDayValue(p.number)
  }

  predicate TimePartOk(p: Part) {
    Numeric(p.number) && UnitOf(p.what, false)
  }

  predicate FormOk(f: Form) {
    && (forall i :: 0 <= i < |f.days| ==> DayPartOk(f.days[i]))
    && (f.time.Some? ==>
          && Numeric(f.time.value.0)
          && forall i :: 0 <= i < |f.time.value.1| ==> TimePartOk(f.time.value.1[i]))
  }

  function PrintParts(ps: seq<Part>): string {
    if ps == [] then [] else PrintParts(ps[..|ps| - 1]) + ps[|ps| - 1].number + [ps[|ps| - 1].what]
  }

  function PrintBody(f: Form): string {
    PrintParts(f.days) + match f.time case None => [] case Some(t) => t.0 + ['T'] + PrintParts(t.1)
  }

  function Print(f: Form): string {
    ['P'] + PrintBody(f)
  }

  function PartValue(p: Part, dayPart: bool, narrow: real -> real): int {
    if !dayPart && p.what == 'S' then Seconds(p.number, narrow) else Atoi(p.number)
  }

  function PartSeconds(p: Part, dayPart: bool, narrow: real -> real): int
    requires UnitOf(p.what, dayPart)
  {
    UnitSeconds(p.what, dayPart) * PartValue(p, dayPart, narrow)
  }

  function Total(ps: seq<Part>, dayPart: bool, narrow: real -> real): int
    requires forall i :: 0 <= i < |ps| ==> UnitOf(ps[i].what, dayPart)
  {
    if ps == [] then 0
    else Total(ps[..|ps| - 1], dayPart, narrow) + PartSeconds(ps[|ps| - 1], dayPart, narrow)
  }

  function FormSeconds(f: Form, narrow: real -> real): int
    requires FormOk(f)
  {
    Total(f.days, true, narrow) + match f.time case None => 0 case Some(t) => Total(t.1, false, narrow)
  }

  // ---- the parser, one character after the other ----

  /** What has been read: the text since the last unit or T, whether T is still to come, and the sum so far. */
  datatype Scan = Scan(pending: string, dayPart: bool, accumulated: int)

  function Eat(before: Option<Scan>, c: char, narrow: real -> real): Option<Scan> {
    match before
    case None => None
    case Some(s) =>
      if IsNumeric(c) then Some(s.(pending := s.pending + [c]))
      else if s.dayPart && UnitOf(c, true) then
        if NoDayValue(s.pending) then None
        else Some(Scan([], true, Wrap64(s.accumulated + ToSeconds(Atoi(s.pending), c, true))))
      else if s.dayPart && c == 'T' then Some(Scan([], false, s.accumulated))
      else if !s.dayPart && UnitOf(c, false) then
        Some(Scan([], false, Wrap64(s.accumulated + ToSeconds(PartValue(Part(s.pending, c), false, narrow), c, false))))
      else None
  }

  function Scanned(t: string, narrow: real -> real): Option<Scan> {
    if t == [] then Some(Scan([], true, 0)) else Eat(Scanned(t[..|t| - 1], narrow), t[|t| - 1], narrow)
  }

  function Parse(s: string, narrow: real -> real): int {
    if s == [] || s[0] != 'P' || |s| == 1 then -1
    else
      match Scanned(s[1..], narrow)
      case None => -1
      case Some(e) => if e.pending != [] then -1 else e.accumulated
  }

  /** What has been read before position `d` of a text that starts with P. */
  function At(text: string, d: nat, narrow: real -> real): Option<Scan>
    requires 1 <= d <= |text|
  {
    Scanned(text[1..d], narrow)
  }

  lemma AtNext(text: string, start: nat, d: nat, dayPart: bool, accumulated: int, narrow: real -> real)
    requires 1 <= start <= d < |text|
    requires At(text, d, narrow) == Some(Scan(text[start..d], dayPart, accumulated))
    ensures At(text, d + 1, narrow) == (
      var c, n := text[d], text[start..d];
      if IsNumeric(c) then Some(Scan(text[start..d + 1], dayPart, accumulated))
      else if dayPart && UnitOf(c, true) then
        if NoDayValue(n) then None
        else Some(Scan(text[d + 1..d + 1], true, Wrap64(accumulated + ToSeconds(Atoi(n), c, true))))
      else if dayPart && c == 'T' then Some(Scan(text[d + 1..d + 1], false, accumulated))
      else if !dayPart && UnitOf(c, false) then
        Some(Scan(text[d + 1..d + 1], false,
                  Wrap64(accumulated + ToSeconds(if c == 'S' then Seconds(n, narrow) else Atoi(n), c, false))))
      else None)
  {
    hide Atoi, Wrap64, ToSeconds, Seconds, UnitOf, IsNumeric;
    ScannedSnoc(text[1..d], text[d], narrow);
    assert text[1..d + 1] == text[1..d] + [text[d]];
    assert text[start..d + 1] == text[start..d] + [text[d]];
    assert text[d + 1..d + 1] == [];
  }

  lemma AtStart(text: string, narrow: real -> real)
    requires |text| > 1
    ensures At(text, 1, narrow) == Some(Scan(text[1..1], true, 0))
  {
    assert text[1..1] == [];
  }

  lemma AtEnd(text: string, d: nat, narrow: real -> real)
    requires 1 < |text| && text[0] == 'P' && 1 <= d <= |text|
    ensures At(text, d, narrow).None? ==> Parse(text, narrow) == -1
    ensures d == |text| && At(text, d, narrow).Some? ==>
      Parse(text, narrow) == if At(text, d, narrow).value.pending != [] then -1 else At(text, d, narrow).value.accumulated
  {
    assert text[1..][..d - 1] == text[1..d];
    FailedStays(text[1..], d - 1, narrow);
    assert text[1..|text|] == text[1..];
  }

  /** The loop of parse8601 on its own copy of the text, with a NUL written over every unit. */
  method Parse8601(s: string, narrow: real -> real) returns (r: int)
    ensures r == Parse(CString(s), narrow)
  {
    if s == "" {
      return -1;
    }
    var text := CString(s);
    var buffer := new char[|text| + 1](i => if 0 <= i < |text| then text[i] else '\0');
    if buffer[0] != 'P' {
      return -1;
    }
    if buffer[1] == '\0' {
      assert |text| == 1;
      return -1;
    }
    r := ParseBody(text, buffer, narrow);
  }

  method ParseBody(text: string, buffer: array<char>, narrow: real -> real) returns (r: int)
    requires |text| > 1 && text[0] == 'P' && '\0' !in text
    requires buffer.Length == |text| + 1 && buffer[|text|] == '\0' && buffer[..|text|] == text
    modifies buffer
    ensures r == Parse(text, narrow)
  {
    hide *;
    var duration, start := 1, 1;
    var dayPart, accumulated, digitsPending := true, 0, false;
    AtStart(text, narrow);
    while buffer[duration] != '\0'
      invariant 1 <= start <= duration <= |text|
      invariant forall i :: start <= i < |text| ==> buffer[i] == text[i]
      invariant buffer[|text|] == '\0'
      invariant digitsPending == (start < duration)
      invariant At(text, duration, narrow) == Some(Scan(text[start..duration], dayPart, accumulated))
      decreases |text| - duration
    {
      var what := buffer[duration];
      assert what == text[duration];
      AtNext(text, start, duration, dayPart, accumulated, narrow);
      AtEnd(text, duration + 1, narrow);
      if IsNumeric(what) {
        duration := duration + 1;
        digitsPending := true;
      } else if dayPart && UnitOf(what, true) {
        buffer[duration] := '\0';
        var number := TextFrom(buffer, text, start, duration);
        var value := Atoi(number);
        if value == 0 && buffer[start] != '0' {
          NoDayValueAt(text, start, duration);
          return -1;
        }
        accumulated := Wrap64(accumulated + ToSeconds(value, what, dayPart));
        NoDayValueAt(text, start, duration);
        digitsPending := false;
        duration := duration + 1;
        start := duration;
      } else if dayPart && what == 'T' {
        dayPart := false;
        duration := duration + 1;
        start := duration;
        digitsPending := false;
      } else if !dayPart && UnitOf(what, false) {
        buffer[duration] := '\0';
        var number := TextFrom(buffer, text, start, duration);
        var value := if what == 'S' then Seconds(number, narrow) else Atoi(number);
        accumulated := Wrap64(accumulated + ToSeconds(value, what, dayPart));
        digitsPending := false;
        duration := duration + 1;
        start := duration;
      } else {
        return -1;
      }
    }
    AtEnd(text, |text|, narrow);
    if digitsPending {
      return -1;
    }
    return accumulated;
  }

  lemma NoDayValueAt(text: string, start: nat, d: nat)
    requires start <= d < |text|
    ensures NoDayValue(text[start..d]) <==> Atoi(text[start..d]) == 0 && (start == d || text[start] != '0')
  {
  }

  /** What a C function reads from `start`: the characters before the NUL. */
  method TextFrom(buffer: array<char>, text: string, start: nat, end: nat) returns (t: string)
    requires start <= end < |text| < buffer.Length && buffer[end] == '\0' && '\0' !in text
    requires forall i :: start <= i < end ==> buffer[i] == text[i]
    ensures t == text[start..end]
  {
    var i := start;
    while buffer[i] != '\0'
      invariant start <= i <= end
      decreases end - i
    {
      i := i + 1;
    }
    t := buffer[start..i];
  }

  lemma ScannedSnoc(t: string, c: char, narrow: real -> real)
    ensures Scanned(t + [c], narrow) == Eat(Scanned(t, narrow), c, narrow)
  {
    assert (t + [c])[..|t|] == t;
  }

  /** The parser never recovers. */
  lemma {:induction false} FailedStays(t: string, n: nat, narrow: real -> real)
    requires n <= |t|
    ensures Scanned(t[..n], narrow).None? ==> Scanned(t, narrow).None?
    decreases |t|
  {
    if n < |t| {
      FailedStays(t[..|t| - 1], n, narrow);
      assert t[..|t| - 1][..n] == t[..n];
    } else {
      assert t[..n] == t;
    }
  }
}
