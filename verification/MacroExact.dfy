/** The conditions under which macro substitution does what it should cannot be dropped: templates with two macros
    that throw, or give something else than the simultaneous substitution, wherever a condition fails. */
module MacroExact {
  import opened Sequences
  import opened MacroMeaning
  import opened MacroReplacement
  import opened MacroSubstitute
  import opened MacroTemplate
  import opened Text

  // ---- templates with two macros ----

  function TwoMacros(pre: string, a: string, lit: string, n: string): string {
    pre + MacroText(a) + lit + MacroText(n)
  }

  function TwoPieces(pre: string, a: string, lit: string, n: string): seq<Piece> {
    [Literal(pre), Macro(a), Literal(lit), Macro(n), Literal("")]
  }

  /** One literal and one macro at the start of a text, character by character. */
  ghost predicate StartsWith(s: string, pre: string, a: string) {
    && |s| >= |pre| + |a| + 3
    && (forall j :: 0 <= j < |pre| ==> s[j] == pre[j])
    && s[|pre|] == '$' && s[|pre| + 1] == '{' && s[|pre| + 2 + |a|] == '}'
    && (forall j :: |pre| + 2 <= j < |pre| + 2 + |a| ==> s[j] == a[j - |pre| - 2])
  }

  lemma StartsWithIs(pre: string, a: string, rest: string, s: string)
    requires s == pre + MacroText(a) + rest
    ensures StartsWith(s, pre, a) && |s| == |pre| + |a| + 3 + |rest| && |pre + MacroText(a)| == |pre| + |a| + 3
  {
    var first := pre + MacroText(a);
    assert MacroText(a)[0] == '$' && MacroText(a)[1] == '{' && MacroText(a)[2 + |a|] == '}';
    assert forall j :: 0 <= j < |first| ==> s[j] == first[j];
  }

  lemma OpeningOfOne(s: string, pre: string, a: string)
    requires Closed(a) && NoOpening(pre) && StartsWith(s, pre, a)
    ensures FindOpening(s, 0) == Some(|pre|) && FindClosing(s, |pre|) == Some(|pre| + |a| + 2)
    ensures forall j :: 0 <= j < |pre| ==> !OpensAt(s, j)
  {
    forall j | 0 <= j < |pre| ensures !OpensAt(s, j) {
      assert j + 1 < |pre| ==> !OpensAt(pre, j);
    }
    assert OpensAt(s, |pre|);
    forall j | |pre| <= j < |pre| + |a| + 2 ensures s[j] != '}' {
      if j >= |pre| + 2 {
        assert a[j - |pre| - 2] in a;
      }
    }
  }

  lemma SlicesOfOne(s: string, pre: string, a: string)
    requires StartsWith(s, pre, a)
    ensures s[0..|pre|] == pre && s[|pre| + 2..|pre| + |a| + 2] == a
  {
  }

  lemma {:induction false} OpeningShift(a: string, b: string, k: nat)
    requires k <= |b|
    ensures FindOpening(a + b, |a| + k) == (match FindOpening(b, k) case None => None case Some(p) => Some(|a| + p))
    decreases |b| - k
  {
    assert forall j :: 0 <= j < |b| ==> (a + b)[|a| + j] == b[j];
    assert OpensAt(a + b, |a| + k) <==> OpensAt(b, k);
    if k < |b| {
      OpeningShift(a, b, k + 1);
    }
  }

  lemma {:induction false} ClosingShift(a: string, b: string, k: nat)
    requires k <= |b|
    ensures FindClosing(a + b, |a| + k) == (match FindClosing(b, k) case None => None case Some(p) => Some(|a| + p))
    decreases |b| - k
  {
    if k < |b| {
      assert (a + b)[|a| + k] == b[k];
      ClosingShift(a, b, k + 1);
    }
  }

  /** Scanning does not depend on what comes before. */
  lemma {:induction false} ScanShift(a: string, b: string, k: nat)
    requires k <= |b|
    ensures Scan(a + b, |a| + k) == Scan(b, k)
    decreases |b| - k
  {
    hide Scan, FindOpening, FindClosing;
    OpeningShift(a, b, k);
    if FindOpening(b, k).None? {
      ScanLast(b, k);
      ScanLast(a + b, |a| + k);
      assert (a + b)[|a| + k..] == b[k..];
    } else {
      var p := FindOpening(b, k).value;
      ClosingShift(a, b, p);
      ScanUnfold(b, k);
      ScanUnfold(a + b, |a| + k);
      if FindClosing(b, p).Some? {
        var e := FindClosing(b, p).value;
        ScanShift(a, b, e + 1);
        SlicesShift(a, b, k, p, e);
      }
    }
  }

  lemma SlicesShift(a: string, b: string, k: nat, p: nat, e: nat)
    requires k <= p && p + 2 <= e < |b|
    ensures (a + b)[|a| + k..|a| + p] == b[k..p] && (a + b)[|a| + p + 2..|a| + e] == b[p + 2..e]
  {
  }

  /** The scan of a text whose first macro is known. */
  lemma ScanFrom(s: string, p: nat, e: nat, text: string, a: string, rest: seq<Piece>)
    requires FindOpening(s, 0) == Some(p) && FindClosing(s, p) == Some(e)
    requires p + 2 <= e < |s| && Scan(s, e + 1) == Some(rest) && s[0..p] == text && s[p + 2..e] == a
    ensures Scan(s, 0) == Some([Literal(text), Macro(a)] + rest)
  {
    hide *;
    ScanMacro(s, 0, p, e, rest);
  }

  lemma ScanRest(first: string, rest: string, s: string)
    requires s == first + rest
    ensures Scan(s, |first|) == Scan(rest, 0)
  {
    hide *;
    ScanShift(first, rest, 0);
  }

  lemma ScanOpened(s: string, pre: string, a: string, rest: seq<Piece>)
    requires Closed(a) && NoOpening(pre) && StartsWith(s, pre, a) && |pre| + |a| + 3 <= |s| && Scan(s, |pre| + |a| + 3) == Some(rest)
    ensures Scan(s, 0) == Some([Literal(pre), Macro(a)] + rest)
  {
    hide *;
    OpeningOfOne(s, pre, a);
    SlicesOfOne(s, pre, a);
    ScanFrom(s, |pre|, |pre| + |a| + 2, pre, a, rest);
  }

  lemma ScanOne(pre: string, a: string, rest: string, s: string)
    requires Closed(a) && NoOpening(pre) && Scan(rest, 0).Some? && s == pre + MacroText(a) + rest
    ensures Scan(s, 0) == Some([Literal(pre), Macro(a)] + Scan(rest, 0).value)
  {
    hide *;
    StartsWithIs(pre, a, rest, s);
    ScanRest(pre + MacroText(a), rest, s);
    ScanOpened(s, pre, a, Scan(rest, 0).value);
  }

  lemma ScanTwo(pre: string, a: string, lit: string, n: string)
    requires Closed(a) && Closed(n) && NoOpening(pre) && NoOpening(lit)
    ensures Scan(TwoMacros(pre, a, lit, n), 0) == Some(TwoPieces(pre, a, lit, n))
  {
    ScanLast("", 0);
    hide Scan, MacroText, NoOpening, Closed;
    var rest := lit + MacroText(n) + "";
    ScanOne(lit, n, "", rest);
    assert TwoMacros(pre, a, lit, n) == pre + MacroText(a) + rest;
    ScanOne(pre, a, rest, TwoMacros(pre, a, lit, n));
    assert [Literal(pre), Macro(a)] + ([Literal(lit), Macro(n)] + [Literal("")]) == TwoPieces(pre, a, lit, n);
  }

  lemma CountsOfTwo(pre: string, a: string, lit: string, n: string)
    ensures var ps := TwoPieces(pre, a, lit, n);
      Names(ps) == {a, n} && Counts(ps) == if a == n then map[n := 2] else map[a := 1, n := 1]
  {
    var ps := TwoPieces(pre, a, lit, n);
    forall x ensures x in Names(ps) <==> x == a || x == n {
      NamesMember(ps, x);
    }
    forall x ensures Occurrences(ps, x) == (if x == a then 1 else 0) + (if x == n then 1 else 0) {
      var p1, p2, p3, p4 := ps[1..], ps[2..], ps[3..], ps[4..];
      assert p1[1..] == p2 && p2[1..] == p3 && p3[1..] == p4 && p4[1..] == [];
      assert Occurrences(p4, x) == 0;
      assert Occurrences(p3, x) == if x == n then 1 else 0;
      assert Occurrences(p2, x) == Occurrences(p3, x);
    }
  }

  lemma SortedPair(a: string, n: string)
    requires a != n && LexLe(a, n)
    ensures SortedKeys({a, n}) == [a, n]
  {
    var k := Least({a, n});
    if k == n {
      LexAntisymmetric(a, n);
    }
    assert {a, n} - {a} == {n} && {n} - {n} == {};
    assert Least({n}) == n;
    assert SortedKeys({n}) == [n] + SortedKeys({});
    assert SortedKeys({a, n}) == [a] + SortedKeys({n});
  }

  lemma SubstitutedTwo(pre: string, a: string, lit: string, n: string, ce: ContextElement)
    ensures Substituted(TwoPieces(pre, a, lit, n), ce) == pre + MacroValue(ce, a) + lit + MacroValue(ce, n)
  {
    hide MacroValue;
    var ps := TwoPieces(pre, a, lit, n);
    assert ps[1..] == [Macro(a), Literal(lit), Macro(n), Literal("")];
    assert ps[1..][1..] == [Literal(lit), Macro(n), Literal("")];
    assert ps[1..][1..][1..] == [Macro(n), Literal("")];
    assert ps[1..][1..][1..][1..] == [Literal("")];
    assert ps[1..][1..][1..][1..][1..] == [];
    assert Substituted([Literal("")], ce) == "";
    assert Substituted([Macro(n), Literal("")], ce) == MacroValue(ce, n) + "";
    assert Substituted([Literal(lit), Macro(n), Literal("")], ce) == lit + (MacroValue(ce, n) + "");
    assert Substituted(ps[1..], ce) == MacroValue(ce, a) + (lit + (MacroValue(ce, n) + ""));
  }

  /** The texts are short enough to be accepted. */
  predicate Fitting(pre: string, a: string, lit: string, n: string, ce: ContextElement) {
    && |TwoMacros(pre, a, lit, n)| <= MAX_DYN_MSG_SIZE
    && |pre| + |MacroValue(ce, a)| + |lit| + |MacroValue(ce, n)| <= MAX_DYN_MSG_SIZE
  }

  function Verdict(r: Option<string>): Outcome {
    match r case None => Thrown case Some(to) => Done(to)
  }

  /** The whole function on a template with two different macros, the first of which in map order is `first`. */
  lemma ExpandTwo(pre: string, a: string, lit: string, n: string, first: string, second: string, ce: ContextElement)
    requires Closed(a) && Closed(n) && a != n && NoOpening(pre) && NoOpening(lit) && Fitting(pre, a, lit, n, ce)
    requires ((first == a && second == n) || (first == n && second == a)) && LexLe(first, second)
    ensures Expand(TwoMacros(pre, a, lit, n), ce)
         == Verdict(ReplaceAll(TwoMacros(pre, a, lit, n), [first, second], map[first := 1, second := 1], ce))
  {
    hide *;
    CountsOfTwo(pre, a, lit, n);
    PairCounts(a, n, first, second);
    SortedPair(first, second);
    ExpandTwoIn(pre, a, lit, n, [first, second], map[first := 1, second := 1], ce);
  }

  lemma PairCounts(a: string, n: string, first: string, second: string)
    requires a != n && ((first == a && second == n) || (first == n && second == a))
    ensures map[a := 1, n := 1] == map[first := 1, second := 1] && map[first := 1, second := 1].Keys == {first, second}
  {
  }

  /** The same with one macro twice. */
  lemma ExpandTwice(pre: string, lit: string, n: string, ce: ContextElement)
    requires Closed(n) && NoOpening(pre) && NoOpening(lit) && Fitting(pre, n, lit, n, ce)
    ensures Expand(TwoMacros(pre, n, lit, n), ce) == Verdict(ReplaceAll(TwoMacros(pre, n, lit, n), [n], map[n := 2], ce))
  {
    CountsOfTwo(pre, n, lit, n);
    var counts := map[n := 2];
    assert counts.Keys == {n} && {n} - {n} == {} && SortedKeys({n}) == [Least({n})] + SortedKeys({});
    hide *;
    ExpandTwoIn(pre, n, lit, n, [n], counts, ce);
  }

  lemma ExpandTwoIn(pre: string, a: string, lit: string, n: string, order: seq<string>, counts: map<string, nat>, ce: ContextElement)
    requires Closed(a) && Closed(n) && NoOpening(pre) && NoOpening(lit) && Fitting(pre, a, lit, n, ce)
    requires Counts(TwoPieces(pre, a, lit, n)) == counts && SortedKeys(counts.Keys) == order && forall k :: k in order ==> k in counts
    ensures Expand(TwoMacros(pre, a, lit, n), ce) == Verdict(ReplaceAll(TwoMacros(pre, a, lit, n), order, counts, ce))
  {
    var s, ps := TwoMacros(pre, a, lit, n), TwoPieces(pre, a, lit, n);
    assert |s| <= MAX_DYN_MSG_SIZE && |pre + MacroValue(ce, a) + lit + MacroValue(ce, n)| <= MAX_DYN_MSG_SIZE;
    hide *;
    ScanTwo(pre, a, lit, n);
    SubstitutedTwo(pre, a, lit, n, ce);
    ScannedNames(s, ps);
    OrderEnumerates(ps);
    ExpandIs(s, ps, order, ce);
  }

  /** The function once scan, counts, order and size are known. */
  lemma ExpandIs(from: string, ps: seq<Piece>, order: seq<string>, ce: ContextElement)
    requires |from| <= MAX_DYN_MSG_SIZE && Scan(from, 0) == Some(ps) && SortedKeys(Counts(ps).Keys) == order && Flat(ps) == from
    requires Distinct(order) && (forall k :: k in order <==> k in Counts(ps)) && |Substituted(ps, ce)| <= MAX_DYN_MSG_SIZE
    ensures Expand(from, ce) == Verdict(ReplaceAll(from, order, Counts(ps), ce))
  {
    hide Scan, ReplaceAll, SortedKeys, Substituted, Counts, Flat;
    SizeIsExact(ps, order, ce);
  }

  // ---- two replacements in a row ----

  lemma ReplaceOnce(s: string, m: string, value: string, p: nat)
    requires OccursAt(s, m, p) && forall j :: 0 <= j < p ==> !OccursAt(s, m, j)
    ensures ReplaceTimes(s, m, value, 1) == Some(s[..p] + value + s[p + |m|..])
  {
    assert Find(s, m, 0) == Some(p);
    assert ReplaceTimes(Splice(s, p, |m|, value), m, value, 0) == Some(Splice(s, p, |m|, value));
  }

  lemma ReplaceTwo(s: string, a: string, b: string, ce: ContextElement, t: string)
    requires a != b && ReplaceTimes(s, MacroText(a), MacroValue(ce, a), 1) == Some(t)
    ensures ReplaceAll(s, [a, b], map[a := 1, b := 1], ce) == ReplaceTimes(t, MacroText(b), MacroValue(ce, b), 1)
  {
    hide ReplaceTimes;
    var counts := map[a := 1, b := 1];
    assert [a, b][1..] == [b] && [b][1..] == [];
    assert counts[a] == 1 && counts[b] == 1;
    assert forall u: string :: ReplaceAll(u, [], counts, ce) == Some(u);
    assert ReplaceAll(t, [b], counts, ce) == ReplaceTimes(t, MacroText(b), MacroValue(ce, b), 1);
  }

  // ---- a name built on an earlier one throws ----

  /** In the text of two macros, the second built on nothing, the first occurrence of `n` is the one inside `k`. */
  lemma InnerFirst(k: string, n: string)
    requires Closed(k) && Closed(n) && Within(n, k)
    ensures |n| + 2 <= |k| && OccursAt(TwoMacros("", k, "", n), MacroText(n), |k| - |n|)
    ensures forall p :: 0 <= p < |k| - |n| ==> !OccursAt(TwoMacros("", k, "", n), MacroText(n), p)
  {
    var s := TwoMacros("", k, "", n);
    assert s == MacroText(k) + MacroText(n);
    assert OccursAt(s, MacroText(k), 0);
    InsideOccurs(k, n);
    forall i | 0 <= i < |n| + 3 ensures s[|k| - |n| + i] == MacroText(n)[i] {
      assert MacroText(k)[|k| - |n| + i] == MacroText(n)[i];
    }
    forall p | 0 <= p < |k| - |n| ensures !OccursAt(s, MacroText(n), p) {
      if OccursAt(s, MacroText(n), p) {
        Overlap(s, k, 0, n, p);
      }
    }
  }

  /** What is left of `k` once `n` inside it has been replaced. */
  lemma OuterGone(k: string, n: string, t: string)
    requires Within(n, k) && t == MacroText(k)[..|k| - |n|] + "x" + MacroText(n)
    ensures Find(t, MacroText(k), 0) == None
  {
    var m := MacroText(k);
    assert m[|k| - |n|] == '$' && m[0] == '$' && m[1] == '{';
    assert t[|k| - |n|] == 'x' && t[1] == '{';
    forall p: nat ensures !OccursAt(t, m, p) {
      if p == 0 {
        assert t[0 + (|k| - |n|)] != m[|k| - |n|];
      } else if p == 1 {
        assert t[1 + 0] != m[0];
      }
    }
  }

  lemma InnerReplaced(k: string, n: string, ce: ContextElement)
    requires Closed(k) && Closed(n) && Within(n, k) && MacroValue(ce, n) == "x"
    ensures ReplaceAll(TwoMacros("", k, "", n), [n, k], map[n := 1, k := 1], ce) == None
  {
    hide *;
    var s, p := TwoMacros("", k, "", n), |k| - |n|;
    InnerFirst(k, n);
    LongerName(k, n);
    ReplaceOnce(s, MacroText(n), "x", p);
    var t := MacroText(k)[..p] + "x" + MacroText(n);
    assert s[..p] + "x" + s[p + |MacroText(n)|..] == t by {
      InnerSpliced(k, n);
    }
    ReplaceTwo(s, n, k, ce, t);
    OuterGone(k, n, t);
    ReplaceTimesRound(t, MacroText(k), MacroValue(ce, k), 1);
  }

  lemma LongerName(k: string, n: string)
    requires Within(n, k)
    ensures n != k && |MacroText(k)| == |k| + 3 && |MacroText(n)| == |n| + 3
    ensures |TwoMacros("", k, "", n)| == |k| + |n| + 6
  {
  }

  lemma InnerSpliced(k: string, n: string)
    requires |n| + 2 <= |k|
    ensures var s, p := TwoMacros("", k, "", n), |k| - |n|;
      p + |MacroText(n)| <= |s| && s[..p] == MacroText(k)[..p] && s[p + |MacroText(n)|..] == MacroText(n)
  {
    var s := TwoMacros("", k, "", n);
    assert s == MacroText(k) + MacroText(n);
  }

  /** Whenever a macro comes in map order before one that is built on it, there is a template that throws. */
  lemma NestedNameThrows(n: string, k: string, ce: ContextElement)
    requires Closed(k) && Closed(n) && Within(n, k) && LexLe(n, k)
    requires |k| + |n| + 6 <= MAX_DYN_MSG_SIZE && MacroValue(ce, n) == "x" && |MacroValue(ce, k)| < MAX_DYN_MSG_SIZE
    ensures Expand(MacroText(k) + MacroText(n), ce) == Thrown
  {
    assert |MacroValue(ce, n)| == 1;
    hide *;
    EmptyLiteral(k, n);
    LongerName(k, n);
    FittingWithin(k, n, ce);
    InnerReplaced(k, n, ce);
    VerdictThrown();
    ExpandTwo("", k, "", n, n, k, ce);
  }

  lemma FittingWithin(k: string, n: string, ce: ContextElement)
    requires |TwoMacros("", k, "", n)| <= MAX_DYN_MSG_SIZE && |MacroValue(ce, n)| == 1 && |MacroValue(ce, k)| < MAX_DYN_MSG_SIZE
    ensures Fitting("", k, "", n, ce)
  {
    hide MacroValue, TwoMacros;
  }

  lemma VerdictThrown()
    ensures Verdict(None) == Thrown
  {
  }

  lemma NestedNameExample(ce: ContextElement)
    requires MacroValue(ce, "b") == "x" && |MacroValue(ce, "c${b")| < MAX_DYN_MSG_SIZE
    ensures Expand("${c${b}${b}", ce) == Thrown
  {
    hide *;
    NestedTexts();
    NestedNameThrows("b", "c${b", ce);
  }

  lemma NestedTexts()
    ensures Closed("b") && Closed("c${b") && Within("b", "c${b") && LexLe("b", "c${b")
    ensures |"c${b"| + |"b"| + 6 <= MAX_DYN_MSG_SIZE
    ensures MacroText("c${b") + MacroText("b") == "${c${b}${b}"
  {
    assert OpensAt("c${b", 1);
    assert "b"[0] < "c${b"[0];
  }

  ghost predicate ThrowsWith(from: string, ce: ContextElement, names: set<string>) {
    Scan(from, 0).Some? && Names(Scan(from, 0).value) <= names && Expand(from, ce) == Thrown
  }

  /** An entity in which the value of `n` is "x" and no value is longer. */
  function SmallValues(n: string): ContextElement {
    ContextElement("x", "x", [Attribute(CString(n), "x")])
  }

  lemma SmallValuesAre(n: string, k: string)
    ensures MacroValue(SmallValues(n), n) == "x" && |MacroValue(SmallValues(n), k)| <= 1
  {
    var attributes := SmallValues(n).attributes;
    assert attributes[1..] == [];
    assert AttributeValue(attributes, CString(k)) == if CString(n) == CString(k) then "x" else "";
  }

  /** Templates over given names never throw, whatever they look like and whatever the values are, exactly when the
      names are safe. */
  lemma ThrowsIff(names: set<string>)
    requires forall n :: n in names ==> Closed(n) && 2 * |n| + 6 <= MAX_DYN_MSG_SIZE
    ensures (exists from, ce :: ThrowsWith(from, ce, names)) <==> !SafeNames(names)
  {
    if from, ce :| ThrowsWith(from, ce, names) {
      ThrowsOnlyUnsafe(from, ce, names);
    }
    if !SafeNames(names) {
      var n, k :| n in names && k in names && Within(n, k) && LexLe(n, k);
      hide *;
      UnsafeThrows(n, k, names);
    }
  }

  lemma UnsafeThrows(n: string, k: string, names: set<string>)
    requires n in names && k in names && Within(n, k) && LexLe(n, k)
    requires Closed(n) && Closed(k) && |k| + |n| + 6 <= MAX_DYN_MSG_SIZE
    ensures ThrowsWith(MacroText(k) + MacroText(n), SmallValues(n), names)
  {
    hide *;
    EmptyLiteral(k, n);
    SmallValuesAre(n, k);
    NestedNameThrows(n, k, SmallValues(n));
    ScanTwo("", k, "", n);
    LongerName(k, n);
    CountsOfTwo("", k, "", n);
    ThrowsWithIs(MacroText(k) + MacroText(n), SmallValues(n), names, TwoPieces("", k, "", n));
  }

  lemma EmptyLiteral(k: string, n: string)
    ensures TwoMacros("", k, "", n) == MacroText(k) + MacroText(n) && NoOpening("")
  {
  }

  lemma ThrowsWithIs(from: string, ce: ContextElement, names: set<string>, ps: seq<Piece>)
    requires Scan(from, 0) == Some(ps) && Names(ps) <= names && Expand(from, ce) == Thrown
    ensures ThrowsWith(from, ce, names)
  {
    hide Scan, Expand;
  }

  lemma ThrowsOnlyUnsafe(from: string, ce: ContextElement, names: set<string>)
    requires ThrowsWith(from, ce, names)
    ensures !SafeNames(names)
  {
    var ps := Scan(from, 0).value;
    if SafeNames(names) {
      assert SafeNames(Names(ps));
      if |from| <= MAX_DYN_MSG_SIZE {
        ExpandSize(from, ps, ce);
      }
    }
  }

  // ---- a value that can be mistaken for a later macro ----

  lemma RestOfMacro(n: string, d: nat)
    requires Closed(n) && NoOpening(n) && 0 < d
    ensures var lit := if d < |n| + 3 then MacroText(n)[d..] else ""; NoOpening(lit) && !EndsWithDollar(lit)
  {
    var m := MacroText(n);
    if d < |m| {
      var lit := m[d..];
      assert lit[|lit| - 1] == '}';
      forall p | 0 <= p < |lit| - 1 ensures !OpensAt(lit, p) {
        assert lit[p] == m[d + p] && lit[p + 1] == m[d + p + 1];
        assert 2 <= d + p < |n| + 1 ==> !OpensAt(n, d + p - 2);
      }
    }
  }

  lemma Completed(v: string, n: string, p: nat, lit: string)
    requires p < |v| && Fits(v, MacroText(n), p)
    requires lit == if |v| - p < |n| + 3 then MacroText(n)[|v| - p..] else ""
    ensures OccursAt(v + lit, MacroText(n), p)
  {
    var m := MacroText(n);
    forall i | 0 <= i < |m| ensures p + i < |v + lit| && (v + lit)[p + i] == m[i] {
      if p + i >= |v| {
        assert lit[p + i - |v|] == m[i];
      }
    }
  }

  lemma FirstFound(s: string, pre: string, a: string)
    requires Closed(a) && NoOpening(pre) && StartsWith(s, pre, a)
    ensures Find(s, MacroText(a), 0) == Some(|pre|)
  {
    var m := MacroText(a);
    OpeningOfOne(s, pre, a);
    forall i | 0 <= i < |m| ensures s[|pre| + i] == m[i] {
      assert m[i] == if i < 2 then "${"[i] else if i < |a| + 2 then a[i - 2] else '}';
    }
    assert OccursAt(s, m, |pre|);
    forall j | 0 <= j < |pre| ensures !OccursAt(s, m, j) {
      assert !OpensAt(s, j) && m[0] == '$' && m[1] == '{';
      assert s[j + 0] != m[0] || s[j + 1] != m[1];
    }
  }

  lemma FirstReplaced(pre: string, a: string, lit: string, n: string, value: string, times: nat)
    requires Closed(a) && NoOpening(pre) && times > 0
    ensures ReplaceTimes(TwoMacros(pre, a, lit, n), MacroText(a), value, times)
         == ReplaceTimes(pre + value + lit + MacroText(n), MacroText(a), value, times - 1)
  {
    var m, rest, s := MacroText(a), lit + MacroText(n), TwoMacros(pre, a, lit, n);
    assert s == pre + m + rest && pre + value + rest == pre + value + lit + MacroText(n);
    hide *;
    StartsWithIs(pre, a, rest, s);
    FirstFound(s, pre, a);
    ReplaceTimesRound(s, m, value, times);
    SpliceMiddle(pre, m, rest, value);
  }

  /** Once the first macro has been replaced, one replacement of `n` is left, also when both macros are `n`. */
  lemma OneIsLeft(pre: string, a: string, lit: string, n: string, ce: ContextElement)
    requires Closed(a) && Closed(n) && NoOpening(pre) && NoOpening(lit) && LexLe(a, n) && Fitting(pre, a, lit, n, ce)
    ensures Expand(TwoMacros(pre, a, lit, n), ce)
         == Verdict(ReplaceTimes(pre + MacroValue(ce, a) + lit + MacroText(n), MacroText(n), MacroValue(ce, n), 1))
  {
    var s, v := TwoMacros(pre, a, lit, n), MacroValue(ce, a);
    var t := pre + v + lit + MacroText(n);
    if a == n {
      assert ReplaceAll(s, [n], map[n := 2], ce) == ReplaceTimes(s, MacroText(n), v, 2) by {
        assert [n][1..] == [] && forall u: string :: ReplaceAll(u, [], map[n := 2], ce) == Some(u);
        hide ReplaceTimes;
      }
      hide *;
      ExpandTwice(pre, lit, n, ce);
      FirstReplaced(pre, n, lit, n, v, 2);
    } else {
      hide *;
      ExpandTwo(pre, a, lit, n, a, n, ce);
      FirstReplaced(pre, a, lit, n, v, 1);
      ReplaceTimesEnd(t, MacroText(a), v);
      ReplaceTwo(s, a, n, ce, t);
    }
  }

  function Fill(c: char, k: nat): (s: string)
    ensures |s| == k && forall i :: 0 <= i < k ==> s[i] == c
  {
    seq(k, _ => c)
  }

  /** The filling is as long as the value and the text differ in length, and begins like neither. */
  ghost predicate Separates(g: string, w: string, m: string) {
    && |g| == (if |w| > |m| then |w| - |m| else |m| - |w|)
    && (g != [] && w != [] ==> g[0] != w[0]) && (g != [] && m != [] ==> g[0] != m[0])
  }

  /** Exchanging the value and the text shows then. */
  lemma Exchanged(w: string, z: string, m: string, g: string, l: string, r: string)
    requires w != m && Separates(g, w, m) && l == w + z + g + m && r == m + z + g + w
    ensures l != r
  {
    if |w| == |m| {
      assert l[..|m|] == w && r[..|m|] == m;
    } else if |w| < |m| {
      assert l[|m| + |z|] == m[0] && r[|m| + |z|] == g[0];
    } else {
      assert l[|w| + |z|] == g[0] && r[|w| + |z|] == w[0];
    }
  }

  /** The parts of the text around the occurrence at q. */
  lemma PartsAround(u: string, g: string, m: string, q: nat, t: string)
    requires t == u + g + m && q + |m| <= |u| && OccursAt(t, m, q)
    ensures u == u[..q] + m + u[q + |m|..] && t[..q] == u[..q] && t[q + |m|..] == u[q + |m|..] + g + m
  {
    forall i | 0 <= i < |m| ensures u[q + i] == m[i] {
      assert t[q + i] == m[i];
    }
    assert u[q..q + |m|] == m;
  }

  lemma Joined(x: string, w: string, z: string, g: string, m: string)
    ensures x + w + (z + g + m) == x + (w + z + g + m)
  {
  }

  lemma Joined'(x: string, w: string, z: string, g: string, m: string)
    ensures (x + w + z) + g + m == x + (w + z + g + m)
  {
  }

  lemma FoundBefore(u: string, g: string, m: string, p: nat) returns (q: nat)
    requires OccursAt(u, m, p)
    ensures q <= p && q + |m| <= |u| && OccursAt(u + g + m, m, q) && forall j :: 0 <= j < q ==> !OccursAt(u + g + m, m, j)
  {
    var t := u + g + m;
    assert OccursAt(t, m, p) by {
      forall i | 0 <= i < |m| ensures t[p + i] == m[i] {
        assert u[p + i] == m[i];
      }
    }
    q := Find(t, m, 0).value;
  }

  /** The wrong one is replaced, and it shows. */
  lemma WrongOneReplaced(u: string, g: string, m: string, w: string, p: nat, t: string, other: string)
    requires t == u + g + m && other == u + g + w && OccursAt(u, m, p) && w != m && Separates(g, w, m)
    ensures ReplaceTimes(t, m, w, 1).Some? && ReplaceTimes(t, m, w, 1).value != other
  {
    hide *;
    var q := FoundBefore(u, g, m, p);
    var l, r := w + u[q + |m|..] + g + m, m + u[q + |m|..] + g + w;
    ReplacedFrom(u, g, m, w, q, t);
    Exchanged(w, u[q + |m|..], m, g, l, r);
    Apart(u[..q], l, r, ReplaceTimes(t, m, w, 1).value, other);
  }

  lemma ReplacedFrom(u: string, g: string, m: string, w: string, q: nat, t: string)
    requires t == u + g + m && q + |m| <= |u| && OccursAt(t, m, q) && forall j :: 0 <= j < q ==> !OccursAt(t, m, j)
    ensures ReplaceTimes(t, m, w, 1) == Some(u[..q] + (w + u[q + |m|..] + g + m))
    ensures u + g + w == u[..q] + (m + u[q + |m|..] + g + w)
  {
    hide *;
    ReplaceOnce(t, m, w, q);
    PartsAround(u, g, m, q, t);
    Joined(u[..q], w, u[q + |m|..], g, m);
    Joined'(u[..q], m, u[q + |m|..], g, w);
  }

  lemma Apart(x: string, l: string, r: string, to: string, other: string)
    requires l != r && to == x + l && other == x + r
    ensures to != other
  {
    assert (x + l)[|x|..] == l && (x + r)[|x|..] == r;
  }

  /** A literal that completes what the value begins. */
  lemma Completion(v: string, n: string) returns (p: nat, lit: string)
    requires Closed(n) && NoOpening(n) && !Clean(v, n)
    ensures OccursAt(v + lit, MacroText(n), p) && |lit| <= |n| + 2 && NoOpening(lit) && !EndsWithDollar(lit)
  {
    p :| p < |v| && Fits(v, MacroText(n), p);
    lit := if |v| - p < |n| + 3 then MacroText(n)[|v| - p..] else "";
    RestOfMacro(n, |v| - p);
    Completed(v, n, p, lit);
  }

  /** A result is the simultaneous substitution; without `dollar`, for templates with no '$' before a macro. */
  ghost predicate Agrees(from: string, ce: ContextElement, names: set<string>, dollar: bool) {
    match Scan(from, 0)
    case None => true
    case Some(ps) =>
      Names(ps) <= names && (dollar || NoDollarBefore(ps)) && Expand(from, ce).Done? ==> Expand(from, ce).to == Substituted(ps, ce)
  }

  /** A name, its value and the texts made of them are far from the limit. */
  ghost predicate Small(ce: ContextElement, n: string) {
    Closed(n) && NoOpening(n) && 8 * |n| <= MAX_DYN_MSG_SIZE && 8 * |MacroValue(ce, n)| <= MAX_DYN_MSG_SIZE
  }

  /** The literal: it completes what the value begins, and makes the two ends of the text differ. */
  lemma Between(v: string, n: string, w: string) returns (p: nat, y: string, g: string)
    requires Closed(n) && NoOpening(n) && !Clean(v, n)
    ensures OccursAt(v + y, MacroText(n), p) && Separates(g, w, MacroText(n))
    ensures NoOpening(y + g) && !EndsWithDollar(y + g) && |y + g| <= 2 * |n| + 5 + |w|
  {
    p, y := Completion(v, n);
    var c := if w != [] && w[0] == 'x' then 'y' else 'x';
    g := Fill(c, if |w| > |n| + 3 then |w| - |n| - 3 else |n| + 3 - |w|);
    assert |MacroText(n)| == |n| + 3 && MacroText(n)[0] == '$';
    var lit := y + g;
    forall j | 0 <= j < |lit| - 1 ensures !OpensAt(lit, j) {
      if j < |y| - 1 {
        assert !OpensAt(y, j) && lit[j] == y[j] && lit[j + 1] == y[j + 1];
      } else {
        assert lit[j] != '$';
      }
    }
  }

  lemma FittingIs(pre: string, a: string, lit: string, n: string, ce: ContextElement)
    requires |pre| <= 1 && Small(ce, a) && Small(ce, n) && |lit| <= 2 * |n| + 5 + |MacroValue(ce, n)|
    ensures Fitting(pre, a, lit, n, ce)
  {
  }

  /** The result on a template with such a literal between the macros. */
  lemma WrongResult(pre: string, a: string, y: string, g: string, n: string, ce: ContextElement, p: nat)
    requires Closed(a) && Closed(n) && NoOpening(pre) && NoOpening(y + g) && LexLe(a, n) && Fitting(pre, a, y + g, n, ce)
    requires OccursAt(pre + MacroValue(ce, a) + y, MacroText(n), p) && MacroValue(ce, n) != MacroText(n)
    requires Separates(g, MacroValue(ce, n), MacroText(n))
    ensures var r := Expand(TwoMacros(pre, a, y + g, n), ce);
      r.Done? && r.to != pre + MacroValue(ce, a) + (y + g) + MacroValue(ce, n)
  {
    hide *;
    var u, w := pre + MacroValue(ce, a) + y, MacroValue(ce, n);
    OneIsLeft(pre, a, y + g, n, ce);
    Grouped(pre + MacroValue(ce, a), y, g);
    WrongOneReplaced(u, g, MacroText(n), w, p, u + g + MacroText(n), u + g + w);
    VerdictDone(ReplaceTimes(u + g + MacroText(n), MacroText(n), w, 1).value);
  }

  lemma Grouped(v: string, y: string, g: string)
    ensures v + (y + g) == v + y + g
  {
  }

  /** Whenever the value of a macro is not clean for a macro that is replaced then or later, and that is not inert,
      there is a template whose result is not the simultaneous substitution. */
  lemma UncleanValueDiffers(a: string, n: string, ce: ContextElement, names: set<string>, dollar: bool) returns (from: string)
    requires a in names && n in names && Small(ce, a) && Small(ce, n) && LexLe(a, n)
    requires !Clean(Lead(dollar, MacroValue(ce, a)), n) && !Inert(ce, n)
    ensures !Agrees(from, ce, names, dollar)
  {
    var pre := Lead(dollar, "");
    assert pre + MacroValue(ce, a) == Lead(dollar, MacroValue(ce, a));
    assert NoOpening(pre) && |pre| <= 1 && MacroValue(ce, n) != MacroText(n) && Closed(a) && Closed(n) && NoOpening(n);
    hide *;
    var p, y, g := Between(pre + MacroValue(ce, a), n, MacroValue(ce, n));
    var lit := y + g;
    FittingIs(pre, a, lit, n, ce);
    WrongResult(pre, a, y, g, n, ce, p);
    from := TwoMacros(pre, a, lit, n);
    Disagrees(pre, a, lit, n, ce, names, dollar);
  }

  lemma Disagrees(pre: string, a: string, lit: string, n: string, ce: ContextElement, names: set<string>, dollar: bool)
    requires Closed(a) && Closed(n) && NoOpening(pre) && NoOpening(lit) && !EndsWithDollar(lit) && a in names && n in names
    requires pre == Lead(dollar, "") && Expand(TwoMacros(pre, a, lit, n), ce).Done?
    requires Expand(TwoMacros(pre, a, lit, n), ce).to != pre + MacroValue(ce, a) + lit + MacroValue(ce, n)
    ensures !Agrees(TwoMacros(pre, a, lit, n), ce, names, dollar)
  {
    hide *;
    ScanTwo(pre, a, lit, n);
    CountsOfTwo(pre, a, lit, n);
    SubstitutedTwo(pre, a, lit, n, ce);
    DiffersIs(TwoMacros(pre, a, lit, n), pre, a, lit, n, ce, names, dollar, Expand(TwoMacros(pre, a, lit, n), ce).to);
  }

  lemma VerdictDone(to: string)
    ensures Verdict(Some(to)) == Done(to)
  {
  }

  lemma DiffersIs(from: string, pre: string, a: string, lit: string, n: string, ce: ContextElement, names: set<string>, dollar: bool, to: string)
    requires Scan(from, 0) == Some(TwoPieces(pre, a, lit, n)) && Names(TwoPieces(pre, a, lit, n)) <= names
    requires pre == Lead(dollar, "") && !EndsWithDollar(lit)
    requires Expand(from, ce) == Done(to) && to != Substituted(TwoPieces(pre, a, lit, n), ce)
    ensures !Agrees(from, ce, names, dollar)
  {
    hide Scan, Expand, Substituted, Names;
  }

  /** For given values: every template over the names that has a result gives the simultaneous substitution exactly
      when the value of every macro is clean for itself and the macros replaced after it, apart from inert ones. */
  lemma SubstitutesIff(names: set<string>, ce: ContextElement, dollar: bool)
    requires forall n :: n in names ==> Small(ce, n)
    ensures (forall from :: Agrees(from, ce, names, dollar)) <==> ValuesOk(names, ce, dollar)
  {
    hide Clean, Inert, Lead, LexLe, MacroValue;
    if ValuesOk(names, ce, dollar) {
      forall from ensures Agrees(from, ce, names, dollar) {
        AgreesIfOk(from, ce, names, dollar);
      }
    } else {
      var a, n :| a in names && n in names && LexLe(a, n) && !Clean(Lead(dollar, MacroValue(ce, a)), n) && !Inert(ce, n);
      hide *;
      var from := UncleanValueDiffers(a, n, ce, names, dollar);
    }
  }

  lemma AgreesIfOk(from: string, ce: ContextElement, names: set<string>, dollar: bool)
    requires ValuesOk(names, ce, dollar) && forall n :: n in names ==> NoOpening(n)
    ensures Agrees(from, ce, names, dollar)
  {
    hide Scan, Expand, Substituted, Names, NoDollarBefore, Clean, Inert, Lead, LexLe, MacroValue, SafeNames, NoOpening;
    if Scan(from, 0).Some? && Names(Scan(from, 0).value) <= names && (dollar || NoDollarBefore(Scan(from, 0).value)) {
      PlainNamesAreSafe(Names(Scan(from, 0).value));
      ExpandMeaning(from, Scan(from, 0).value, ce, dollar);
    }
  }

  /** The text of a later macro in a value is replaced instead of the macro. */
  lemma DollarInValueDiffers(ce: ContextElement)
    requires MacroValue(ce, "a") == "${b}" && MacroValue(ce, "b") == "x"
    ensures Expand("${a}${b}", ce) == Done("x${b}")
    ensures Scan("${a}${b}", 0) == Some(TwoPieces("", "a", "", "b")) && Substituted(TwoPieces("", "a", "", "b"), ce) == "${b}x"
  {
    ExampleTexts();
    assert Fitting("", "a", "", "b", ce);
    hide *;
    ScanTwo("", "a", "", "b");
    SubstitutedTwo("", "a", "", "b", ce);
    OneIsLeft("", "a", "", "b", ce);
    ExampleReplaced();
  }

  /** A '$' before a macro and a value that begins with '{' make up the text of another macro. */
  lemma DollarBeforeDiffers(ce: ContextElement)
    requires MacroValue(ce, "a") == "{b}" && MacroValue(ce, "b") == "x"
    ensures Expand("$${a}${b}", ce) == Done("x${b}")
    ensures Scan("$${a}${b}", 0) == Some(TwoPieces("$", "a", "", "b")) && Substituted(TwoPieces("$", "a", "", "b"), ce) == "${b}x"
  {
    ExampleTexts();
    assert Fitting("$", "a", "", "b", ce);
    hide *;
    ScanTwo("$", "a", "", "b");
    SubstitutedTwo("$", "a", "", "b", ce);
    OneIsLeft("$", "a", "", "b", ce);
    ExampleReplaced();
  }

  lemma ExampleTexts()
    ensures TwoMacros("", "a", "", "b") == "${a}${b}" && TwoMacros("$", "a", "", "b") == "$${a}${b}"
    ensures MacroText("b") == "${b}" && Closed("a") && Closed("b") && NoOpening("") && NoOpening("$") && LexLe("a", "b")
    ensures "" + "${b}" + "" + "x" == "${b}x" && "" + "${b}" + "" + "${b}" == "${b}${b}"
    ensures "$" + "{b}" + "" + "x" == "${b}x" && "$" + "{b}" + "" + "${b}" == "${b}${b}"
  {
  }

  lemma ExampleReplaced()
    ensures ReplaceTimes("${b}${b}", "${b}", "x", 1) == Some("x${b}")
  {
    var t := "${b}${b}";
    assert OccursAt(t, "${b}", 0);
    ReplaceOnce(t, "${b}", "x", 0);
    assert t[..0] + "x" + t[0 + 4..] == "x${b}";
  }
}
