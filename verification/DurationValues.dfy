/** Durations over numbers: what is parsed from the decimal texts of the numbers a writer has in mind. */
module DurationValues {
  import opened Decimals
  import opened Text
  import opened DurationNumbers
  import opened Duration
  import opened DurationMeaning

  /** A number of units. */
  datatype Amount = Amount(n: nat, what: char)

  function PartOf(a: Amount): Part {
    Part(NatText(a.n), a.what)
  }

  function PartsOf(amounts: seq<Amount>): (ps: seq<Part>)
    ensures |ps| == |amounts| && forall i :: 0 <= i < |ps| ==> ps[i] == PartOf(amounts[i])
  {
    if amounts == [] then [] else PartsOf(amounts[..|amounts| - 1]) + [PartOf(amounts[|amounts| - 1])]
  }

  /** Seconds are read as a float, which is exact up to 2^24. */
  predicate AmountOk(a: Amount, dayPart: bool) {
    UnitOf(a.what, dayPart) && a.n < (if !dayPart && a.what == 'S' then 0x100_0001 else TWO31)
  }

  predicate AmountsOk(amounts: seq<Amount>, dayPart: bool) {
    forall i :: 0 <= i < |amounts| ==> AmountOk(amounts[i], dayPart)
  }

  function AmountsTotal(amounts: seq<Amount>, dayPart: bool): nat
    requires AmountsOk(amounts, dayPart)
  {
    if amounts == [] then 0
    else
      var front, last := amounts[..|amounts| - 1], amounts[|amounts| - 1];
      AmountsTotal(front, dayPart) + UnitSeconds(last.what, dayPart) * last.n
  }

  lemma AmountPlain(a: Amount, dayPart: bool)
    requires AmountOk(a, dayPart)
    ensures PlainPart(PartOf(a), dayPart) && PlainValue(PartOf(a)) == a.n
  {
    NatTextBack(a.n);
  }

  lemma PartWhat(a: Amount)
    ensures PartOf(a).what == a.what
  {
  }

  lemma {:induction false} AmountsPlain(amounts: seq<Amount>, dayPart: bool)
    requires AmountsOk(amounts, dayPart)
    ensures PlainParts(PartsOf(amounts), dayPart) && PlainTotal(PartsOf(amounts), dayPart) == AmountsTotal(amounts, dayPart)
  {
    hide PlainPart, AmountOk, PartOf, PlainValue;
    forall i | 0 <= i < |amounts| ensures PlainPart(PartsOf(amounts)[i], dayPart) {
      AmountPlain(amounts[i], dayPart);
    }
    if amounts != [] {
      var front, last := amounts[..|amounts| - 1], amounts[|amounts| - 1];
      AmountsPlain(front, dayPart);
      AmountPlain(last, dayPart);
      TotalLast(PartsOf(front), PartOf(last), dayPart);
      PartWhat(last);
    }
  }

  lemma TotalLast(ps: seq<Part>, p: Part, dayPart: bool)
    requires PlainParts(ps + [p], dayPart)
    ensures PlainParts(ps, dayPart) && PlainPart(p, dayPart)
    ensures PlainTotal(ps + [p], dayPart) == PlainTotal(ps, dayPart) + UnitSeconds(p.what, dayPart) * PlainValue(p)
  {
    assert (ps + [p])[|ps|] == p && (ps + [p])[..|ps|] == ps;
    forall i | 0 <= i < |ps| ensures PlainPart(ps[i], dayPart) {
      assert (ps + [p])[i] == ps[i];
    }
  }

  /** Up to 136 numbers of units, written in decimal, give exactly their weighted sum. */
  lemma NumberedDurations(days: seq<Amount>, times: Option<seq<Amount>>, narrow: real -> real)
    requires AmountsOk(days, true) && (times.Some? ==> AmountsOk(times.value, false)) && ExactOnSmall(narrow)
    requires days != [] || times.Some?
    requires |days| + (if times.Some? then |times.value| else 0) <= 136
    ensures Parse("P" + PrintParts(PartsOf(days)) + (if times.Some? then "T" + PrintParts(PartsOf(times.value)) else ""), narrow)
         == AmountsTotal(days, true) + (if times.Some? then AmountsTotal(times.value, false) else 0)
  {
    AmountsPlain(days, true);
    if times.Some? {
      AmountsPlain(times.value, false);
    }
    hide AmountsOk, ExactOnSmall, PlainParts, PlainTotal, AmountsTotal, PrintParts, Parse;
    PlainDurations(PartsOf(days), if times.Some? then Some(PartsOf(times.value)) else None, narrow);
  }

  /** One number of one unit. */
  lemma OneAmount(a: Amount, dayPart: bool, narrow: real -> real)
    requires AmountOk(a, dayPart) && ExactOnSmall(narrow)
    ensures Parse("P" + (if dayPart then "" else "T") + NatText(a.n) + [a.what], narrow) == UnitSeconds(a.what, dayPart) * a.n
  {
    var one := [a];
    assert one[..0] == [] && PartsOf(one) == [PartOf(a)] && AmountsTotal(one, dayPart) == UnitSeconds(a.what, dayPart) * a.n;
    assert [PartOf(a)][..0] == [];
    assert PrintParts([PartOf(a)]) == NatText(a.n) + [a.what] && PrintParts([]) == [];
    assert PartsOf([]) == [] && AmountsTotal([], true) == 0;
    hide UnitSeconds, ExactOnSmall, Parse, AmountsTotal, PrintParts, NatText, PartsOf;
    if dayPart {
      NumberedDurations(one, None, narrow);
      assert "P" + PrintParts([PartOf(a)]) + "" == "P" + "" + NatText(a.n) + [a.what];
    } else {
      NumberedDurations([], Some(one), narrow);
      assert "P" + [] + ("T" + (NatText(a.n) + [a.what])) == "P" + "T" + NatText(a.n) + [a.what];
    }
  }

  /** Every unit, in seconds. */
  lemma Units(n: nat, narrow: real -> real)
    requires n < TWO31 && ExactOnSmall(narrow)
    ensures Parse("P" + NatText(n) + "Y", narrow) == 31_536_000 * n
    ensures Parse("P" + NatText(n) + "M", narrow) == 2_592_000 * n
    ensures Parse("P" + NatText(n) + "W", narrow) == 604_800 * n
    ensures Parse("P" + NatText(n) + "D", narrow) == 86_400 * n
    ensures Parse("PT" + NatText(n) + "H", narrow) == 3_600 * n
    ensures Parse("PT" + NatText(n) + "M", narrow) == 60 * n
    ensures n <= 16_777_216 ==> Parse("PT" + NatText(n) + "S", narrow) == n
  {
    hide Parse, NatText, ExactOnSmall;
    assert "P" + "" == "P" && "P" + "T" == "PT";
    OneAmount(Amount(n, 'Y'), true, narrow);
    OneAmount(Amount(n, 'M'), true, narrow);
    OneAmount(Amount(n, 'W'), true, narrow);
    OneAmount(Amount(n, 'D'), true, narrow);
    OneAmount(Amount(n, 'H'), false, narrow);
    OneAmount(Amount(n, 'M'), false, narrow);
    if n <= 16_777_216 {
      OneAmount(Amount(n, 'S'), false, narrow);
    }
  }

  lemma TwelveDays(narrow: real -> real)
    requires ExactOnSmall(narrow)
    ensures Parse("P12D", narrow) == 1_036_800
  {
    hide Parse, ExactOnSmall;
    Twelve();
    Units(12, narrow);
    assert "P" + "12" + "D" == "P12D";
  }

  // ---- fractions of seconds ----

  lemma {:induction false} DecimalBelow(d: string)
    requires AllDigits(d)
    ensures Decimal(d) < TenTo(|d|)
  {
    if d != [] {
      DecimalBelow(d[..|d| - 1]);
    }
  }

  /** The first digit counts for the others that follow. */
  lemma {:induction false} FirstDigit(d: string)
    requires AllDigits(d) && d != []
    ensures AllDigits(d[1..]) && Decimal(d) == (d[0] as int - '0' as int) * TenTo(|d| - 1) + Decimal(d[1..])
  {
    if |d| == 1 {
      assert d[..0] == [] && d[1..] == [];
    } else {
      var front := d[..|d| - 1];
      FirstDigit(front);
      assert d[1..][..|d| - 2] == front[1..];
      var c, ten, rest := d[0] as int - '0' as int, TenTo(|d| - 2), Decimal(front[1..]);
      assert 10 * (c * ten + rest) == c * (10 * ten) + 10 * rest;
    }
  }

  /** Half a unit or more is what starts with a 5 or a larger digit. */
  lemma HalfOrMore(d: string)
    requires AllDigits(d) && d != []
    ensures 2 * Decimal(d) >= TenTo(|d|) <==> d[0] >= '5'
    ensures Decimal(d) < TenTo(|d|)
  {
    DecimalBelow(d);
    FirstDigit(d);
    DecimalBelow(d[1..]);
    var c, ten := d[0] as int - '0' as int, TenTo(|d| - 1);
    assert TenTo(|d|) == 10 * ten;
    if c >= 5 {
      MulLe(5, c, ten);
    } else {
      MulLe(c, 4, ten);
    }
  }

  lemma RoundedUp(n: nat, a: nat, b: nat)
    requires n < TWO31 - 1 && a < b
    ensures RoundToInt(n as real + a as real / b as real) == n + if 2 * a >= b then 1 else 0
  {
    var x, y, z := a as real / b as real, a as real, b as real;
    assert x * z == y;
    Fraction(x, y, z);
    assert 2.0 * y >= z <==> 2 * a >= b;
    RoundedFraction(n, x);
  }

  lemma RoundedFraction(n: nat, x: real)
    requires n < TWO31 - 1 && 0.0 <= x < 1.0
    ensures RoundToInt(n as real + x) == n + if x >= 0.5 then 1 else 0
  {
  }

  lemma Fraction(x: real, y: real, z: real)
    requires z > 0.0 && x * z == y && 0.0 <= y < z
    ensures 0.0 <= x < 1.0 && (x >= 0.5 <==> 2.0 * y >= z)
  {
    TimesPositive(x, 0.0, z);
    TimesPositive(x, 1.0, z);
    TimesPositive(x, 0.5, z);
  }

  lemma TimesPositive(x: real, y: real, b: real)
    requires b > 0.0
    ensures x >= y <==> x * b >= y * b
  {
    if x >= y {
      assert (x - y) * b >= 0.0;
    } else {
      assert (y - x) * b > 0.0;
    }
  }

  lemma {:induction false} LeadingOf(a: string, rest: string)
    requires AllDigits(a) && (rest == [] || !IsDigit(rest[0]))
    ensures Leading(a + rest) == a && (a + rest)[|a|..] == rest
  {
    if a == [] {
      assert a + rest == rest;
    } else {
      assert (a + rest)[1..] == a[1..] + rest;
      LeadingOf(a[1..], rest);
    }
  }

  lemma ReadFraction(n: nat, d: string)
    requires AllDigits(d)
    ensures Atof(NatText(n) + ("." + d)) == n as real + Decimal(d) as real / TenTo(|d|) as real
  {
    NatTextBack(n);
    LeadingOf(NatText(n), "." + d);
    assert ("." + d)[1..] == d;
    LeadingOf(d, []);
    assert d + [] == d;
    hide Leading, NatText, Decimal, TenTo;
  }

  /** A form with one number of seconds. */
  function SecondsForm(number: string): Form {
    Form([], Some(([], [Part(number, 'S')])))
  }

  lemma SecondsFormOk(number: string)
    requires Numeric(number)
    ensures FormOk(SecondsForm(number)) && SecondsForm(number).time.Some?
  {
    hide DayPartOk;
  }

  lemma SecondsFormText(number: string)
    ensures Print(SecondsForm(number)) == "PT" + number + "S"
  {
    var p := Part(number, 'S');
    assert PrintParts([]) == [] && [p][..0] == [];
    assert PrintParts([p]) == [] + number + ['S'];
    hide PrintParts;
    assert [] + ([] + ['T'] + ([] + number + ['S'])) == "T" + number + "S";
    assert "P" + ("T" + number + "S") == "PT" + number + "S";
  }

  lemma SecondsFormLength(number: string, narrow: real -> real)
    requires FormOk(SecondsForm(number))
    ensures FormSeconds(SecondsForm(number), narrow) == Seconds(number, narrow)
  {
    var p := Part(number, 'S');
    assert [p][..0] == [];
    assert Total([], false, narrow) == 0 && Total([], true, narrow) == 0;
    assert Total([p], false, narrow) == Total([], false, narrow) + PartSeconds(p, false, narrow);
    hide Seconds, Total;
  }

  lemma FormOfSeconds(number: string, narrow: real -> real)
    requires Numeric(number)
    ensures Parse("PT" + number + "S", narrow) == Wrap64(Seconds(number, narrow))
  {
    hide *;
    SecondsFormOk(number);
    SecondsFormText(number);
    SecondsFormLength(number, narrow);
    ParsePrint(SecondsForm(number), narrow);
  }

  lemma FractionNumeric(n: nat, d: string)
    requires AllDigits(d)
    ensures Numeric(NatText(n) + ("." + d))
  {
    NatTextBack(n);
    hide NatText;
  }

  lemma SmallSeconds(t: string, n: nat, narrow: real -> real)
    requires RoundToInt(Atof(t)) == n && forall x :: narrow(x) == x
    ensures Wrap64(Seconds(t, narrow)) == n
  {
    hide Atof, RoundToInt;
  }

  /** Seconds with a fraction are rounded to the nearest integer, and halves up. */
  lemma FractionOfSeconds(n: nat, d: string, narrow: real -> real)
    requires n < TWO31 - 1 && AllDigits(d) && forall x :: narrow(x) == x
    ensures Parse("PT" + (NatText(n) + ("." + d)) + "S", narrow) == n + if d != [] && d[0] >= '5' then 1 else 0
  {
    FractionRounded(n, d);
    hide *;
    FractionNumeric(n, d);
    FormOfSeconds(NatText(n) + ("." + d), narrow);
    SmallSeconds(NatText(n) + ("." + d), n + if d != [] && d[0] >= '5' then 1 else 0, narrow);
  }

  lemma FractionRounded(n: nat, d: string)
    requires n < TWO31 - 1 && AllDigits(d)
    ensures RoundToInt(Atof(NatText(n) + ("." + d))) == n + if d != [] && d[0] >= '5' then 1 else 0
  {
    ReadFraction(n, d);
    if d == [] {
      assert Decimal(d) == 0 && TenTo(|d|) == 1;
    } else {
      HalfOrMore(d);
    }
    hide NatText, Atof, RoundToInt, Decimal, TenTo;
    RoundedUp(n, Decimal(d), TenTo(|d|));
  }
}
