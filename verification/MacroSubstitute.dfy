/** `${name}` substitution in custom notifications: collect the macros in a counting map, compute
    the size of the result, then find and replace macro by macro in map order. */
module MacroSubstitute {
  import opened Words
  import opened Sequences
  import opened MacroMeaning
  import opened MacroReplacement
  import opened MacroTemplate
  import opened Sums
  import opened Text

  const MAX_DYN_MSG_SIZE: nat := 8 * 1024 * 1024

  datatype Outcome = Done(to: string) | TooLargeBefore | Unterminated | TooLargeAfter | Thrown

  function ResultSize(from: string, counts: map<string, nat>, ce: ContextElement): int {
    var order := SortedKeys(counts.Keys);
    |from| + Sum(order, Grow(counts, ce)) - Sum(order, Shrink(counts))
  }

  function Expand(from: string, ce: ContextElement): Outcome {
    if |from| > MAX_DYN_MSG_SIZE then TooLargeBefore
    else match Scan(from, 0)
      case None => Unterminated
      case Some(ps) =>
        if ResultSize(from, Counts(ps), ce) % TWO64 > MAX_DYN_MSG_SIZE then TooLargeAfter
        else match ReplaceAll(from, SortedKeys(Counts(ps).Keys), Counts(ps), ce)
          case None => Thrown
          case Some(to) => Done(to)
  }

  // ---- the whole function ----

  lemma OrderEnumerates(ps: seq<Piece>)
    ensures Distinct(SortedKeys(Counts(ps).Keys))
    ensures forall k :: k in SortedKeys(Counts(ps).Keys) <==> k in Counts(ps)
  {
  }

  /** No macro comes in map order before one that is built on it. */
  ghost predicate SafeNames(names: set<string>) {
    forall n, k :: n in names && k in names && Within(n, k) ==> !LexLe(n, k)
  }

  lemma SafeSorted(ps: seq<Piece>)
    requires SafeNames(Names(ps))
    ensures SafeOrder(SortedKeys(Counts(ps).Keys))
  {
    var order := SortedKeys(Counts(ps).Keys);
    hide Within, LexLe, SortedKeys;
    forall i, j | 0 <= i < j < |order| ensures !Within(order[i], order[j]) {
      assert order[i] in order && order[j] in order;
    }
  }

  /** Names that do not contain "${" are safe. */
  lemma PlainNamesAreSafe(names: set<string>)
    requires forall n :: n in names ==> NoOpening(n)
    ensures SafeNames(names)
  {
    forall n, k | n in names && k in names ensures !Within(n, k) {
      assert |k| >= |n| + 2 ==> !OpensAt(k, |k| - |n| - 2);
    }
  }

  lemma ScannedNames(from: string, ps: seq<Piece>)
    requires Scan(from, 0) == Some(ps)
    ensures ClosedNames(ps) && Flat(ps) == from
  {
    hide Scan, Flat;
    ScanIsScanned(from, 0);
    ScanFlat(from, 0);
    assert from[0..] == from;
  }

  /** A template with safe names is never answered with an exception. It is refused for its size exactly when the
      simultaneous substitution is longer than the limit, and otherwise the result has exactly that length. */
  lemma ExpandSize(from: string, ps: seq<Piece>, ce: ContextElement)
    requires |from| <= MAX_DYN_MSG_SIZE && Scan(from, 0) == Some(ps) && SafeNames(Names(ps))
    ensures Expand(from, ce).Done? || Expand(from, ce).TooLargeAfter?
    ensures Expand(from, ce).Done? ==> |Expand(from, ce).to| == |Substituted(ps, ce)|
    ensures |Substituted(ps, ce)| < TWO64 ==> (Expand(from, ce).Done? <==> |Substituted(ps, ce)| <= MAX_DYN_MSG_SIZE)
  {
    hide ReplaceAll, Scan, SortedKeys, Substituted, Flat, SafeOrder, SafeNames;
    ScannedNames(from, ps);
    OrderEnumerates(ps);
    SafeSorted(ps);
    EveryFindSucceeds(ps, SortedKeys(Counts(ps).Keys), ce);
    SizeIsExact(ps, SortedKeys(Counts(ps).Keys), ce);
  }

  /** In map order: the value of a macro (with `dollar`, also after a '$') is clean for itself and for every macro that
      is replaced after it, apart from those whose value is their own text. */
  ghost predicate ValuesOk(names: set<string>, ce: ContextElement, dollar: bool) {
    forall a, n :: a in names && n in names && LexLe(a, n) ==> Clean(Lead(dollar, MacroValue(ce, a)), n) || Inert(ce, n)
  }

  /** No macro is preceded by a '$'. */
  ghost predicate NoDollarBefore(ps: seq<Piece>) {
    forall i :: 0 <= i < |ps| - 1 && ps[i].Literal? ==> !EndsWithDollar(ps[i].text)
  }

  lemma TidyTemplate(from: string, ps: seq<Piece>, ns: seq<string>, dollar: bool)
    requires Scan(from, 0) == Some(ps) && (dollar || NoDollarBefore(ps))
    ensures Tidy(ps, ns, dollar)
  {
    ScanIsScanned(from, 0);
    ScanAlternates(from, 0);
    hide Scan, Clean, AlmostClean, NotFound, EndsWithDollar;
    forall i, n | 0 <= i < |ps| && n in ns && ps[i].Literal? ensures TidyLiteral(ps, i, n, dollar) {
      assert ps[i] in ps;
      if i == |ps| - 1 {
        NoOpeningNotFound(ps[i].text, n);
      } else if dollar {
        NoOpeningAlmostClean(ps[i].text, n);
      } else {
        NoOpeningIsClean(ps[i].text, n);
      }
    }
  }

  lemma NoOpeningAlmostClean(text: string, n: string)
    requires NoOpening(text)
    ensures AlmostClean(text, n)
  {
    var m := MacroText(n);
    assert m[0] == '$' && m[1] == '{';
    forall p: nat | p + 1 < |text| ensures !Fits(text, m, p) {
      assert !OpensAt(text, p);
      assert text[p + 0] != m[0] || text[p + 1] != m[1];
    }
  }

  lemma NoOpeningNotFound(text: string, n: string)
    requires NoOpening(text)
    ensures NotFound(text, n)
  {
    var m := MacroText(n);
    forall p: nat ensures !OccursAt(text, m, p) {
      assert m[0] == '$' && m[1] == '{' && |m| >= 2;
      assert p < |text| - 1 ==> !OpensAt(text, p);
      assert p + |m| <= |text| ==> text[p + 0] != m[0] || text[p + 1] != m[1];
    }
  }

  lemma SortedValuesOk(ps: seq<Piece>, ce: ContextElement, dollar: bool)
    requires ValuesOk(Names(ps), ce, dollar)
    ensures CleanValues(SortedKeys(Counts(ps).Keys), ce, dollar)
  {
    var order := SortedKeys(Counts(ps).Keys);
    hide Clean, SortedKeys, Lead, Inert, MacroValue;
    forall i, j | 0 <= i <= j < |order| ensures Clean(Lead(dollar, MacroValue(ce, order[i])), order[j]) || Inert(ce, order[j]) {
      assert order[i] in order && order[j] in order;
      LexTotal(order[i], order[i]);
      hide LexLe;
    }
  }

  /** With safe names and values that cannot be mistaken for later macros, a result is the simultaneous substitution:
      for templates with no '$' before a macro, or with `dollar` for all templates. */
  lemma ExpandMeaning(from: string, ps: seq<Piece>, ce: ContextElement, dollar: bool)
    requires Scan(from, 0) == Some(ps) && SafeNames(Names(ps)) && (dollar || NoDollarBefore(ps)) && ValuesOk(Names(ps), ce, dollar)
    ensures Expand(from, ce).Done? ==> Expand(from, ce).to == Substituted(ps, ce)
  {
    var order := SortedKeys(Counts(ps).Keys);
    hide ReplaceAll, Scan, SortedKeys, Substituted, Flat, SafeOrder, SafeNames, ValuesOk, CleanValues, Tidy, NoDollarBefore, Active;
    ScannedNames(from, ps);
    OrderEnumerates(ps);
    SafeSorted(ps);
    SortedValuesOk(ps, ce, dollar);
    TidyTemplate(from, ps, Active(order, ce), dollar);
    SequentialIsSimultaneous(ps, order, dollar, ce);
  }

  /** Values that have no "${" and do not end with '$' (with `dollar`, also after a '$') are always fine. */
  lemma PlainValuesAreOk(names: set<string>, ce: ContextElement, dollar: bool)
    requires forall a :: a in names ==> NoOpening(Lead(dollar, MacroValue(ce, a))) && !EndsWithDollar(Lead(dollar, MacroValue(ce, a)))
    ensures ValuesOk(names, ce, dollar)
  {
    hide MacroValue, NoOpening, EndsWithDollar, Clean, Lead, Inert;
    forall a, n | a in names && n in names && LexLe(a, n) ensures Clean(Lead(dollar, MacroValue(ce, a)), n) {
      NoOpeningIsClean(Lead(dollar, MacroValue(ce, a)), n);
    }
  }

  // ---- the code: three loops ----

  /** What the scan loop knows at `pos`: `done` has been read, and its macros are in the map. */
  ghost predicate Collected(from: string, pos: nat, done: seq<Piece>, macroNames: map<string, nat>) {
    && pos <= |from|
    && macroNames == Counts(done)
    && (Scan(from, 0).Some? <==> Scan(from, pos).Some?)
    && (Scan(from, pos).Some? ==> Scan(from, 0).value == done + Scan(from, pos).value)
  }

  lemma CollectedStart(from: string)
    ensures Collected(from, 0, [], map[])
  {
  }

  lemma CollectedNone(from: string, pos: nat, done: seq<Piece>, macroNames: map<string, nat>)
    requires Collected(from, pos, done, macroNames) && FindOpening(from, pos).Some?
    ensures FindOpening(from, pos).value + 2 <= |from|
    ensures FindClosing(from, FindOpening(from, pos).value).None? ==> Scan(from, 0).None?
  {
  }

  lemma CollectedStep(from: string, pos: nat, done: seq<Piece>, macroNames: map<string, nat>, p: nat, e: nat)
    requires Collected(from, pos, done, macroNames)
    requires FindOpening(from, pos) == Some(p) && FindClosing(from, p) == Some(e) && p + 2 <= e < |from|
    ensures var name := from[p + 2..e];
      Collected(from, e + 1, done + [Literal(from[pos..p]), Macro(name)],
                macroNames[name := if name in macroNames then macroNames[name] + 1 else 1])
  {
    hide Counts;
    var two := [Literal(from[pos..p]), Macro(from[p + 2..e])];
    CountsAppend(done, from[pos..p], from[p + 2..e]);
    if Scan(from, e + 1).Some? {
      var rest := Scan(from, e + 1).value;
      assert Scan(from, pos).value == two + rest;
      assert done + (two + rest) == done + two + rest;
    }
  }

  lemma CollectedEnd(from: string, pos: nat, done: seq<Piece>, macroNames: map<string, nat>)
    requires Collected(from, pos, done, macroNames) && FindOpening(from, pos).None?
    ensures Scan(from, 0).Some? && macroNames == Counts(Scan(from, 0).value)
  {
    ScanLast(from, pos);
    CountsLiteral(done, from[pos..]);
  }

  /** The scan loop of the code: it fills the counting map, or fails on an unterminated macro. */
  method CollectMacros(from: string) returns (ok: bool, macroNames: map<string, nat>)
    ensures ok <==> Scan(from, 0).Some?
    ensures ok ==> macroNames == Counts(Scan(from, 0).value)
  {
    hide *;
    macroNames := map[];
    ghost var done: seq<Piece> := [];
    CollectedStart(from);
    var pos := 0;
    var macroStart := FindOpening(from, 0);
    while macroStart.Some?
      invariant pos <= |from| && macroStart == FindOpening(from, pos)
      invariant Collected(from, pos, done, macroNames)
      decreases |from| - pos
    {
      CollectedNone(from, pos, done, macroNames);
      var macroEnd := FindClosing(from, macroStart.value);
      if macroEnd.None? {
        return false, map[];
      }
      ScanUnfold(from, pos);
      CollectedStep(from, pos, done, macroNames, macroStart.value, macroEnd.value);
      var macroName := from[macroStart.value + 2..macroEnd.value];
      done := done + [Literal(from[pos..macroStart.value]), Macro(macroName)];
      if macroName in macroNames {
        macroNames := macroNames[macroName := macroNames[macroName] + 1];
      } else {
        macroNames := macroNames[macroName := 1];
      }
      pos := macroEnd.value + 1;
      macroStart := FindOpening(from, pos);
    }
    CollectedEnd(from, pos, done, macroNames);
    ok := true;
  }

  lemma SumSnoc(order: seq<string>, i: nat, f: string -> int)
    requires i < |order|
    ensures Sum(order[..i + 1], f) == Sum(order[..i], f) + f(order[i])
  {
    assert order[..i + 1] == order[..i] + [order[i]];
    SumAppend(order[..i], [order[i]], f);
    assert Sum([order[i]], f) == f(order[i]) + Sum([], f);
  }

  lemma AddModulo(a: int, b: int, c: int)
    requires a == b % TWO64
    ensures (a + c) % TWO64 == (b + c) % TWO64
  {
    var q := b / TWO64;
    assert b == TWO64 * q + a;
    ModShift(a + c, q);
    assert b + c == (a + c) + TWO64 * q;
  }

  lemma ModNegate(red: int, r: int, x: int)
    requires r == red % TWO64
    ensures (x - r) % TWO64 == (x - red) % TWO64
  {
    var q := red / TWO64;
    assert red == TWO64 * q + r;
    ModShift(x - red, q);
    assert (x - red) + TWO64 * q == x - r;
  }

  lemma SizeStep(order: seq<string>, i: nat, acc: int, f: string -> int, w: int)
    requires i < |order| && acc == Sum(order[..i], f) % TWO64 && w == f(order[i])
    ensures (acc + w) % TWO64 == Sum(order[..i + 1], f) % TWO64
  {
    SumSnoc(order, i, f);
    AddModulo(acc, Sum(order[..i], f), w);
  }

  lemma SizeEnd(length: nat, toAdd: int, add: int, toReduce: int, red: int)
    requires toAdd == add % TWO64 && toReduce == red % TWO64
    ensures (length + toAdd - toReduce) % TWO64 == (length + add - red) % TWO64
  {
    AddModulo(toAdd, add, length - toReduce);
    ModNegate(red, toReduce, add + length);
  }

  /** The size loop of the code, in 64-bit unsigned arithmetic. */
  method SizeAfter(from: string, macroNames: map<string, nat>, ce: ContextElement) returns (size: nat)
    ensures size == ResultSize(from, macroNames, ce) % TWO64
  {
    hide Sum, SortedKeys, MacroValue;
    var order := SortedKeys(macroNames.Keys);
    ghost var shrink, grow := Shrink(macroNames), Grow(macroNames, ce);
    var toReduce, toAdd := 0, 0;
    var i := 0;
    SumEmpty(order, shrink);
    SumEmpty(order, grow);
    while i < |order|
      invariant 0 <= i <= |order|
      invariant toReduce == Sum(order[..i], shrink) % TWO64
      invariant toAdd == Sum(order[..i], grow) % TWO64
    {
      var macroName := order[i];
      var times := macroNames[macroName];
      SizeStep(order, i, toReduce, shrink, (|macroName| + 3) * times);
      SizeStep(order, i, toAdd, grow, |MacroValue(ce, macroName)| * times);
      toReduce := (toReduce + (|macroName| + 3) * times) % TWO64;
      toAdd := (toAdd + |MacroValue(ce, macroName)| * times) % TWO64;
      i := i + 1;
    }
    assert order[..i] == order;
    SizeEnd(|from|, toAdd, Sum(order, grow), toReduce, Sum(order, shrink));
    size := (|from| + toAdd - toReduce) % TWO64;
  }

  lemma SumEmpty(order: seq<string>, f: string -> int)
    ensures Sum(order[..0], f) == 0
  {
  }

  /** The replacement loops of the code, macro by macro in map order. */
  method Replace(from: string, macroNames: map<string, nat>, ce: ContextElement) returns (to: Option<string>)
    ensures to == ReplaceAll(from, SortedKeys(macroNames.Keys), macroNames, ce)
  {
    hide *;
    var order := SortedKeys(macroNames.Keys);
    var text := from;
    var i := 0;
    assert order[0..] == order;
    while i < |order|
      invariant 0 <= i <= |order|
      invariant ReplaceAll(from, order, macroNames, ce) == ReplaceAll(text, order[i..], macroNames, ce)
    {
      var macroName := order[i];
      var times := macroNames[macroName];
      var macro := MacroText(macroName);
      var value := MacroValue(ce, macroName);
      ReplaceAllStep(text, order, i, macroNames, ce);
      ghost var start := text;
      var ix := 0;
      while ix < times
        invariant 0 <= ix <= times
        invariant ReplaceTimes(start, macro, value, times) == ReplaceTimes(text, macro, value, times - ix)
      {
        var p := Find(text, macro, 0);
        ReplaceTimesRound(text, macro, value, times - ix);
        if p.None? {
          return None;
        }
        text := Splice(text, p.value, |macro|, value);
        ix := ix + 1;
      }
      ReplaceTimesEnd(text, macro, value);
      i := i + 1;
    }
    ReplaceAllEnd(text, order[i..], macroNames, ce);
    to := Some(text);
  }

  /** macroSubstitute: `*to` is set to "" and false is returned in every case but Done. */
  method Substitute(from: string, ce: ContextElement) returns (outcome: Outcome)
    ensures outcome == Expand(from, ce)
  {
    hide ReplaceAll, Scan, SortedKeys, Counts, ResultSize;
    if |from| > MAX_DYN_MSG_SIZE {
      return TooLargeBefore;
    }
    var ok, macroNames := CollectMacros(from);
    if !ok {
      return Unterminated;
    }
    var size := SizeAfter(from, macroNames, ce);
    if size > MAX_DYN_MSG_SIZE {
      return TooLargeAfter;
    }
    var to := Replace(from, macroNames, ce);
    outcome := match to case None => Thrown case Some(text) => Done(text);
  }
}
