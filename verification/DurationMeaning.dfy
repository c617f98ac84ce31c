/** Which texts are durations, and how long they are. */
module DurationMeaning {
  import opened Decimals
  import opened Text
  import opened DurationNumbers
  import opened Duration

  // ---- reading what the grammar prints ----

  lemma {:induction false} ScanNumber(a: string, number: string, dayPart: bool, sum: int, narrow: real -> real)
    requires Scanned(a, narrow) == Some(Scan([], dayPart, sum)) && Numeric(number)
    ensures Scanned(a + number, narrow) == Some(Scan(number, dayPart, sum))
    decreases |number|
  {
    hide *;
    if number == [] {
      assert a + number == a;
    } else {
      var n, c := number[..|number| - 1], number[|number| - 1];
      NumericFront(number);
      ScanNumber(a, n, dayPart, sum, narrow);
      EatDigit(n, c, dayPart, sum, narrow);
      ScannedSnoc(a + n, c, narrow);
      assert a + number == a + n + [c];
      assert number == n + [c];
    }
  }

  lemma NumericFront(number: string)
    requires Numeric(number) && number != []
    ensures Numeric(number[..|number| - 1]) && Numeric([number[|number| - 1]])
  {
  }

  lemma EatDigit(n: string, c: char, dayPart: bool, sum: int, narrow: real -> real)
    requires Numeric([c])
    ensures Eat(Some(Scan(n, dayPart, sum)), c, narrow) == Some(Scan(n + [c], dayPart, sum))
  {
    assert c == [c][0];
    hide Atoi, Seconds, Wrap64;
  }

  predicate PartsOk(ps: seq<Part>, dayPart: bool) {
    forall i :: 0 <= i < |ps| ==> if dayPart then DayPartOk(ps[i]) else TimePartOk(ps[i])
  }

  lemma ScanPart(a: string, p: Part, dayPart: bool, sum: int, narrow: real -> real)
    requires Scanned(a, narrow) == Some(Scan([], dayPart, sum))
    requires if dayPart then DayPartOk(p) else TimePartOk(p)
    ensures Scanned(a + p.number + [p.what], narrow) == Some(Scan([], dayPart, Wrap64(sum + PartSeconds(p, dayPart, narrow))))
  {
    ScanNumber(a, p.number, dayPart, sum, narrow);
    ScannedSnoc(a + p.number, p.what, narrow);
    EatUnit(p, dayPart, sum, narrow);
  }

  lemma EatUnit(p: Part, dayPart: bool, sum: int, narrow: real -> real)
    requires if dayPart then DayPartOk(p) else TimePartOk(p)
    ensures Eat(Some(Scan(p.number, dayPart, sum)), p.what, narrow)
         == Some(Scan([], dayPart, Wrap64(sum + PartSeconds(p, dayPart, narrow))))
  {
    hide Atoi, Seconds, Wrap64;
  }

  lemma PartsFacts(ps: seq<Part>, dayPart: bool, narrow: real -> real)
    requires PartsOk(ps, dayPart)
    ensures forall i :: 0 <= i < |ps| ==> UnitOf(ps[i].what, dayPart)
    ensures ps == [] ==> PrintParts(ps) == [] && Total(ps, dayPart, narrow) == 0
    ensures ps != [] ==> var front, p := ps[..|ps| - 1], ps[|ps| - 1];
      && PartsOk(front, dayPart) && (if dayPart then DayPartOk(p) else TimePartOk(p))
      && PrintParts(ps) == PrintParts(front) + p.number + [p.what]
      && Total(ps, dayPart, narrow) == Total(front, dayPart, narrow) + PartSeconds(p, dayPart, narrow)
  {
    hide PartSeconds;
  }

  lemma {:induction false} ScanParts(a: string, ps: seq<Part>, dayPart: bool, sum: int, narrow: real -> real)
    requires PartsOk(ps, dayPart) && Scanned(a, narrow) == Some(Scan([], dayPart, Wrap64(sum)))
    ensures Scanned(a + PrintParts(ps), narrow) == Some(Scan([], dayPart, Wrap64(sum + Total(ps, dayPart, narrow))))
    decreases |ps|
  {
    hide *;
    PartsFacts(ps, dayPart, narrow);
    if ps == [] {
      assert a + PrintParts(ps) == a;
    } else {
      var front, p := ps[..|ps| - 1], ps[|ps| - 1];
      ScanParts(a, front, dayPart, sum, narrow);
      ScanPart(a + PrintParts(front), p, dayPart, Wrap64(sum + Total(front, dayPart, narrow)), narrow);
      WrapWrap(sum + Total(front, dayPart, narrow), PartSeconds(p, dayPart, narrow));
      assert a + PrintParts(ps) == a + PrintParts(front) + p.number + [p.what];
    }
  }

  lemma ScanForm(f: Form, narrow: real -> real)
    requires FormOk(f)
    ensures Scanned(PrintBody(f), narrow) == Some(Scan([], f.time.None?, Wrap64(FormSeconds(f, narrow))))
  {
    hide *;
    FormFacts(f, narrow);
    PartsFacts(f.days, true, narrow);
    var days, sum := PrintParts(f.days), Total(f.days, true, narrow);
    assert [] + days == days;
    ScanNothing(narrow);
    ScanParts([], f.days, true, 0, narrow);
    if f.time.Some? {
      var (dropped, times) := f.time.value;
      ScanNumber(days, dropped, true, Wrap64(sum), narrow);
      ScanT(days + dropped, dropped, Wrap64(sum), narrow);
      ScanParts(days + dropped + ['T'], times, false, sum, narrow);
      assert days + (dropped + ['T'] + PrintParts(times)) == days + dropped + ['T'] + PrintParts(times);
    }
  }

  lemma FormFacts(f: Form, narrow: real -> real)
    requires FormOk(f)
    ensures PartsOk(f.days, true)
    ensures f.time.Some? ==> Numeric(f.time.value.0) && PartsOk(f.time.value.1, false)
    ensures f.time.None? ==> PrintBody(f) == PrintParts(f.days) && FormSeconds(f, narrow) == Total(f.days, true, narrow)
    ensures f.time.Some? ==>
      && PrintBody(f) == PrintParts(f.days) + (f.time.value.0 + ['T'] + PrintParts(f.time.value.1))
      && FormSeconds(f, narrow) == Total(f.days, true, narrow) + Total(f.time.value.1, false, narrow)
  {
    hide Total, PrintParts;
  }

  lemma ScanNothing(narrow: real -> real)
    ensures Scanned([], narrow) == Some(Scan([], true, Wrap64(0)))
  {
  }

  lemma ScanT(t: string, number: string, sum: int, narrow: real -> real)
    requires Scanned(t, narrow) == Some(Scan(number, true, sum))
    ensures Scanned(t + ['T'], narrow) == Some(Scan([], false, sum))
  {
    ScannedSnoc(t, 'T', narrow);
  }

  /** Every duration of the accepted form is parsed to the sum of its parts, modulo 2^64. */
  lemma ParsePrint(f: Form, narrow: real -> real)
    requires FormOk(f) && (f.days != [] || f.time.Some?)
    ensures Parse(Print(f), narrow) == Wrap64(FormSeconds(f, narrow))
  {
    ScanForm(f, narrow);
    assert Print(f)[1..] == PrintBody(f);
    assert f.days != [] ==> PrintParts(f.days) != [];
  }

  // ---- nothing else is accepted ----

  /** Whatever has been read is a form followed by the pending number. */
  lemma {:induction false} ScannedForm(t: string, narrow: real -> real) returns (f: Form)
    requires Scanned(t, narrow).Some?
    ensures FormOk(f) && Numeric(Scanned(t, narrow).value.pending)
    ensures t == PrintBody(f) + Scanned(t, narrow).value.pending
    ensures Scanned(t, narrow).value.dayPart == f.time.None?
    decreases |t|
  {
    hide *;
    if t == [] {
      f := Form([], None);
      NothingRead(narrow);
    } else {
      var u, c := t[..|t| - 1], t[|t| - 1];
      assert t == u + [c];
      ScannedSnoc(u, c, narrow);
      EatNothing(Scanned(u, narrow), c, narrow);
      var g := ScannedForm(u, narrow);
      f := Grown(g, Scanned(u, narrow).value, c, narrow);
    }
  }

  lemma NothingRead(narrow: real -> real)
    ensures Scanned([], narrow) == Some(Scan([], true, 0)) && Numeric([])
    ensures FormOk(Form([], None)) && PrintBody(Form([], None)) == []
  {
  }

  lemma EatNothing(s: Option<Scan>, c: char, narrow: real -> real)
    requires Eat(s, c, narrow).Some?
    ensures s.Some? && Eat(s, c, narrow) == Eat(Some(s.value), c, narrow)
  {
  }

  lemma PrintPartsSnoc(ps: seq<Part>, p: Part)
    ensures PrintParts(ps + [p]) == PrintParts(ps) + p.number + [p.what]
  {
    assert (ps + [p])[..|ps|] == ps;
  }

  lemma Grown(g: Form, before: Scan, c: char, narrow: real -> real) returns (f: Form)
    requires FormOk(g) && Numeric(before.pending) && before.dayPart == g.time.None?
    requires Eat(Some(before), c, narrow).Some?
    ensures var after := Eat(Some(before), c, narrow).value;
      && FormOk(f) && Numeric(after.pending) && after.dayPart == f.time.None?
      && PrintBody(g) + before.pending + [c] == PrintBody(f) + after.pending
  {
    hide *;
    EatCases(before, c, narrow);
    var p := Part(before.pending, c);
    if IsNumeric(c) {
      f := g;
      NumericSnoc(before.pending, c);
    } else if before.dayPart && c == 'T' {
      f := g.(time := Some((before.pending, [])));
      FormT(g, before.pending);
    } else if before.dayPart {
      f := g.(days := g.days + [p]);
      FormDay(g, p);
    } else {
      f := g.(time := Some((g.time.value.0, g.time.value.1 + [p])));
      FormTime(g, p);
    }
  }

  lemma NumericSnoc(n: string, c: char)
    requires Numeric(n) && IsNumeric(c)
    ensures Numeric(n + [c]) && Numeric([])
  {
  }

  lemma EatCases(s: Scan, c: char, narrow: real -> real)
    requires Eat(Some(s), c, narrow).Some? && Numeric(s.pending)
    ensures var e := Eat(Some(s), c, narrow).value;
      if IsNumeric(c) then e == s.(pending := s.pending + [c])
      else if s.dayPart && c == 'T' then e.pending == [] && !e.dayPart
      else if s.dayPart then e.pending == [] && e.dayPart && DayPartOk(Part(s.pending, c))
      else e.pending == [] && !e.dayPart && TimePartOk(Part(s.pending, c))
  {
    hide Atoi, Wrap64, Seconds, ToSeconds;
  }

  lemma FormT(g: Form, dropped: string)
    requires FormOk(g) && g.time.None? && Numeric(dropped)
    ensures var f := g.(time := Some((dropped, [])));
      FormOk(f) && PrintBody(f) == PrintBody(g) + dropped + ['T'] && Numeric([])
  {
    hide DayPartOk;
  }

  lemma FormDay(g: Form, p: Part)
    requires FormOk(g) && g.time.None? && DayPartOk(p)
    ensures var f := g.(days := g.days + [p]);
      FormOk(f) && PrintBody(f) == PrintBody(g) + p.number + [p.what] && Numeric([])
  {
    hide DayPartOk, PrintParts;
    PrintPartsSnoc(g.days, p);
  }

  lemma FormTime(g: Form, p: Part)
    requires FormOk(g) && g.time.Some? && TimePartOk(p)
    ensures var f := g.(time := Some((g.time.value.0, g.time.value.1 + [p])));
      FormOk(f) && PrintBody(f) == PrintBody(g) + p.number + [p.what] && Numeric([])
  {
    hide DayPartOk, TimePartOk, PrintParts;
    PrintPartsSnoc(g.time.value.1, p);
  }

  /** A text that is not of the accepted form gives -1. */
  lemma ParsedIsForm(s: string, narrow: real -> real) returns (f: Form)
    requires Parse(s, narrow) != -1
    ensures FormOk(f) && (f.days != [] || f.time.Some?) && s == Print(f)
  {
    f := ScannedForm(s[1..], narrow);
    assert s == ['P'] + s[1..];
    assert PrintBody(f) + [] == PrintBody(f);
    assert f.days == [] && f.time.None? ==> PrintBody(f) == [];
  }

  /** The two directions together: the result is the wrapped sum of a form the text prints, or there is no such
      form and it is -1. */
  lemma ParseMeaning(s: string, narrow: real -> real)
    ensures forall f :: FormOk(f) && (f.days != [] || f.time.Some?) && s == Print(f) ==>
      Parse(s, narrow) == Wrap64(FormSeconds(f, narrow))
    ensures !(exists f :: FormOk(f) && (f.days != [] || f.time.Some?) && s == Print(f)) ==> Parse(s, narrow) == -1
  {
    forall f | FormOk(f) && (f.days != [] || f.time.Some?) && s == Print(f)
      ensures Parse(s, narrow) == Wrap64(FormSeconds(f, narrow))
    {
      ParsePrint(f, narrow);
    }
    if Parse(s, narrow) != -1 {
      var f := ParsedIsForm(s, narrow);
      assert FormOk(f) && s == Print(f);
    }
  }

  // ---- plain durations ----

  /** The number of a part, read as a decimal number. */
  function PlainValue(p: Part): nat
    requires Plain(p.number)
  {
    Decimal(p.number)
  }

  predicate PlainPart(p: Part, dayPart: bool) {
    && Plain(p.number) && UnitOf(p.what, dayPart)
    && Decimal(p.number) < TWO31
    && (!dayPart && p.what == 'S' ==> Decimal(p.number) <= 0x100_0000)
  }

  predicate PlainParts(ps: seq<Part>, dayPart: bool) {
    forall i :: 0 <= i < |ps| ==> PlainPart(ps[i], dayPart)
  }

  function PlainTotal(ps: seq<Part>, dayPart: bool): nat
    requires PlainParts(ps, dayPart)
  {
    if ps == [] then 0
    else PlainTotal(ps[..|ps| - 1], dayPart) + UnitSeconds(ps[|ps| - 1].what, dayPart) * PlainValue(ps[|ps| - 1])
  }

  lemma PlainPartOk(p: Part, dayPart: bool, narrow: real -> real)
    requires PlainPart(p, dayPart) && ExactOnSmall(narrow)
    ensures if dayPart then DayPartOk(p) else TimePartOk(p)
    ensures PartValue(p, dayPart, narrow) == PlainValue(p)
    ensures UnitSeconds(p.what, dayPart) * PlainValue(p) <= 31_536_000 * (TWO31 - 1)
  {
    PlainAtoi(p.number);
    if !dayPart && p.what == 'S' {
      PlainSeconds(p.number, narrow);
    }
    if Decimal(p.number) == 0 {
      ZeroStartsWithZero(p.number);
    }
    hide Atoi, Seconds, Decimal, ExactOnSmall;
    Product(UnitSeconds(p.what, dayPart), PlainValue(p));
  }

  lemma Product(u: nat, v: nat)
    requires u <= 31_536_000 && v < TWO31
    ensures u * v <= 31_536_000 * (TWO31 - 1)
  {
    MulLe(v, TWO31 - 1, u);
    MulLe(u, 31_536_000, TWO31 - 1);
  }

  lemma MulLe(a: nat, b: nat, c: nat)
    requires a <= b
    ensures a * c <= b * c
  {
  }

  lemma {:induction false} PlainTotalIs(ps: seq<Part>, dayPart: bool, narrow: real -> real)
    requires PlainParts(ps, dayPart) && ExactOnSmall(narrow)
    ensures PartsOk(ps, dayPart) && Total(ps, dayPart, narrow) == PlainTotal(ps, dayPart)
    ensures PlainTotal(ps, dayPart) <= |ps| * (31_536_000 * (TWO31 - 1))
    decreases |ps|
  {
    hide ExactOnSmall, DayPartOk, TimePartOk, PartValue, PlainValue;
    if ps != [] {
      PlainTotalIs(ps[..|ps| - 1], dayPart, narrow);
      PlainPartOk(ps[|ps| - 1], dayPart, narrow);
    }
  }

  /** Up to 136 plain parts, in any order and with repetitions, give exactly the weighted sum of their numbers:
      nothing overflows. */
  lemma PlainDurations(days: seq<Part>, times: Option<seq<Part>>, narrow: real -> real)
    requires PlainParts(days, true) && (times.Some? ==> PlainParts(times.value, false)) && ExactOnSmall(narrow)
    requires days != [] || times.Some?
    requires |days| + (if times.Some? then |times.value| else 0) <= 136
    ensures Parse("P" + PrintParts(days) + (if times.Some? then "T" + PrintParts(times.value) else ""), narrow)
         == PlainTotal(days, true) + (if times.Some? then PlainTotal(times.value, false) else 0)
  {
    hide *;
    var f := Form(days, if times.Some? then Some(([], times.value)) else None);
    PlainForm(days, times, f, narrow);
    ParsePrint(f, narrow);
  }

  lemma PlainForm(days: seq<Part>, times: Option<seq<Part>>, f: Form, narrow: real -> real)
    requires PlainParts(days, true) && (times.Some? ==> PlainParts(times.value, false)) && ExactOnSmall(narrow)
    requires |days| + (if times.Some? then |times.value| else 0) <= 136
    requires f == Form(days, if times.Some? then Some(([], times.value)) else None)
    ensures FormOk(f)
    ensures Print(f) == "P" + PrintParts(days) + (if times.Some? then "T" + PrintParts(times.value) else "")
    ensures Wrap64(FormSeconds(f, narrow))
         == PlainTotal(days, true) + (if times.Some? then PlainTotal(times.value, false) else 0)
  {
    hide ExactOnSmall, PlainParts, PlainTotal, PrintParts, Total, DayPartOk, TimePartOk;
    PlainTotalIs(days, true, narrow);
    if times.Some? {
      PlainTotalIs(times.value, false, narrow);
      assert [] + ['T'] + PrintParts(times.value) == "T" + PrintParts(times.value);
    }
  }

  // ---- what always gives -1 ----

  lemma EatFacts(s: Scan, c: char, narrow: real -> real)
    requires Eat(Some(s), c, narrow).Some?
    ensures var e := Eat(Some(s), c, narrow).value;
      && e.pending == (if IsNumeric(c) then s.pending + [c] else [])
      && e.dayPart == (s.dayPart && c != 'T')
    ensures c == 'T' ==> s.dayPart
    ensures c in "HS" ==> !s.dayPart
    ensures c in "YWD" ==> s.dayPart
    ensures c in "YMWD" && s.dayPart ==> !NoDayValue(s.pending)
  {
    hide Atoi, Wrap64, Seconds, ToSeconds;
  }

  lemma ScannedLast(t: string, narrow: real -> real)
    requires t != [] && Scanned(t, narrow).Some?
    ensures Scanned(t[..|t| - 1], narrow).Some?
    ensures Scanned(t, narrow) == Eat(Some(Scanned(t[..|t| - 1], narrow).value), t[|t| - 1], narrow)
  {
    hide Atoi, Wrap64, Seconds, ToSeconds;
  }

  /** `n` is the run of numeric characters that ends `t`. */
  predicate LastRun(t: string, n: string) {
    && |n| <= |t| && t[|t| - |n|..] == n && Numeric(n)
    && (|n| < |t| ==> !IsNumeric(t[|t| - |n| - 1]))
  }

  lemma RunGrows(u: string, n: string, c: char)
    requires LastRun(u, n) && IsNumeric(c)
    ensures LastRun(u + [c], n + [c])
  {
    hide IsNumeric;
    var t := u + [c];
    assert t[|u| - |n|..] == u[|u| - |n|..] + [c];
  }

  lemma RunRestarts(u: string, c: char)
    requires !IsNumeric(c)
    ensures LastRun(u + [c], [])
  {
  }

  /** T is still to come as long as none has been read, and the pending text is the last numeric run. */
  lemma {:induction false} ScannedFacts(t: string, narrow: real -> real)
    requires Scanned(t, narrow).Some?
    ensures Scanned(t, narrow).value.dayPart <==> 'T' !in t
    ensures LastRun(t, Scanned(t, narrow).value.pending)
    decreases |t|
  {
    if t != [] {
      hide *;
      var u, c := t[..|t| - 1], t[|t| - 1];
      assert t == u + [c];
      ScannedLast(t, narrow);
      ScannedFacts(u, narrow);
      EatFacts(Scanned(u, narrow).value, c, narrow);
      if IsNumeric(c) {
        RunGrows(u, Scanned(u, narrow).value.pending, c);
      } else {
        RunRestarts(u, c);
      }
    }
  }

  /** Whatever is wrong at one position is wrong for the whole text. */
  lemma FailsAt(t: string, i: nat, narrow: real -> real)
    requires i < |t| && (Scanned(t[..i], narrow).Some? ==> Eat(Scanned(t[..i], narrow), t[i], narrow).None?)
    ensures Parse("P" + t, narrow) == -1
  {
    hide Atoi, Wrap64, Seconds, ToSeconds, UnitOf, IsNumeric;
    ScannedSnoc(t[..i], t[i], narrow);
    assert t[..i + 1] == t[..i] + [t[i]];
    FailedStays(t, i + 1, narrow);
    assert ("P" + t)[1..] == t;
  }

  lemma SecondT(t: string, i: nat, j: nat, narrow: real -> real)
    requires i < j < |t| && t[i] == 'T' && t[j] == 'T'
    ensures Parse("P" + t, narrow) == -1
  {
    assert t[..j][i] == 'T';
    hide Scanned, Eat;
    if Scanned(t[..j], narrow).Some? {
      ScannedFacts(t[..j], narrow);
      if Eat(Scanned(t[..j], narrow), t[j], narrow).Some? {
        EatFacts(Scanned(t[..j], narrow).value, t[j], narrow);
      }
    }
    FailsAt(t, j, narrow);
  }

  lemma TimeUnitBeforeT(t: string, i: nat, narrow: real -> real)
    requires i < |t| && t[i] in "HS" && 'T' !in t[..i]
    ensures Parse("P" + t, narrow) == -1
  {
    hide Scanned, Eat;
    if Scanned(t[..i], narrow).Some? {
      ScannedFacts(t[..i], narrow);
      if Eat(Scanned(t[..i], narrow), t[i], narrow).Some? {
        EatFacts(Scanned(t[..i], narrow).value, t[i], narrow);
      }
    }
    FailsAt(t, i, narrow);
  }

  lemma DayUnitAfterT(t: string, i: nat, narrow: real -> real)
    requires i < |t| && t[i] in "YWD" && 'T' in t[..i]
    ensures Parse("P" + t, narrow) == -1
  {
    hide Scanned, Eat;
    if Scanned(t[..i], narrow).Some? {
      ScannedFacts(t[..i], narrow);
      if Eat(Scanned(t[..i], narrow), t[i], narrow).Some? {
        EatFacts(Scanned(t[..i], narrow).value, t[i], narrow);
      }
    }
    FailsAt(t, i, narrow);
  }

  lemma NoLeadingDigit(n: string)
    requires n == [] || !IsDigit(n[0])
    ensures NoDayValue(n)
  {
    assert Leading(n) == [];
  }

  /** A day unit with no number before it, or with one that starts with a point or a comma. */
  lemma DayUnitWithoutDigit(t: string, i: nat, j: nat, narrow: real -> real)
    requires i <= j < |t| && t[j] in "YMWD" && 'T' !in t[..j]
    requires Numeric(t[i..j]) && (i == 0 || !IsNumeric(t[i - 1])) && !IsDigit(t[i])
    ensures Parse("P" + t, narrow) == -1
  {
    hide Scanned, Eat, NoDayValue;
    if Scanned(t[..j], narrow).Some? {
      ScannedFacts(t[..j], narrow);
      var n := Scanned(t[..j], narrow).value.pending;
      PendingRun(t[..j], i, n);
      NoLeadingDigit(n);
      if Eat(Scanned(t[..j], narrow), t[j], narrow).Some? {
        EatFacts(Scanned(t[..j], narrow).value, t[j], narrow);
      }
    }
    FailsAt(t, j, narrow);
  }

  /** The pending text is the whole run of numeric characters. */
  lemma PendingRun(u: string, i: nat, n: string)
    requires i <= |u| && Numeric(u[i..]) && (i == 0 || !IsNumeric(u[i - 1]))
    requires LastRun(u, n)
    ensures n == u[i..]
  {
  }

  lemma TrailingDigits(t: string, narrow: real -> real)
    requires t != [] && IsNumeric(t[|t| - 1])
    ensures Parse("P" + t, narrow) == -1
  {
    assert ("P" + t)[1..] == t;
    if Scanned(t, narrow).Some? {
      ScannedFacts(t, narrow);
    }
  }
}
