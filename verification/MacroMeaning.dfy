/** Values that cannot be mistaken for a macro: replacing macro by macro is the simultaneous substitution. */
module MacroMeaning {
  import opened Sequences
  import opened MacroReplacement
  import opened MacroTemplate
  import opened Text

  // ---- texts in which a macro is not found ----

  /** From position `p` on, the text agrees with `m` as far as it goes. */
  predicate Fits(text: string, m: string, p: nat) {
    forall i :: 0 <= i < |m| && p + i < |text| ==> text[p + i] == m[i]
  }

  /** The text of macro `n` does not begin in `text`, whatever follows. */
  ghost predicate Clean(text: string, n: string) {
    forall p: nat :: p < |text| ==> !Fits(text, MacroText(n), p)
  }

  predicate EndsWithDollar(s: string) {
    s != [] && s[|s| - 1] == '$'
  }

  /** A text that has no "${" and does not end with '$' is clean for every macro. */
  lemma NoOpeningIsClean(text: string, n: string)
    requires NoOpening(text) && !EndsWithDollar(text)
    ensures Clean(text, n)
  {
    var m := MacroText(n);
    assert m[0] == '$' && m[1] == '{';
    forall p: nat | p < |text| ensures !Fits(text, m, p) {
      assert p < |text| - 1 ==> !OpensAt(text, p);
      assert text[p + 0] != m[0] || (p + 1 < |text| && text[p + 1] != m[1]);
    }
  }

  /** The text of macro `n` does not begin in `text`, except perhaps at its last character. */
  ghost predicate AlmostClean(text: string, n: string) {
    forall p: nat :: p + 1 < |text| ==> !Fits(text, MacroText(n), p)
  }

  /** No macro of `ns` is found in the literals, nor across the seam to the next piece. With `dollar`, a literal in
      front of a macro may end with '$'. */
  ghost predicate Tidy(ps: seq<Piece>, ns: seq<string>, dollar: bool) {
    forall i, n :: 0 <= i < |ps| && n in ns && ps[i].Literal? ==> TidyLiteral(ps, i, n, dollar)
  }

  ghost predicate TidyLiteral(ps: seq<Piece>, i: nat, n: string, dollar: bool)
    requires i < |ps| && ps[i].Literal?
  {
    || (i == |ps| - 1 && NotFound(ps[i].text, n))
    || Clean(ps[i].text, n)
    || (dollar && i < |ps| - 1 && ps[i + 1].Macro? && AlmostClean(ps[i].text, n))
  }

  ghost predicate NotFound(text: string, n: string) {
    forall p: nat :: !OccursAt(text, MacroText(n), p)
  }

  lemma TidyTail(ps: seq<Piece>, ns: seq<string>, dollar: bool)
    requires Tidy(ps, ns, dollar) && ps != []
    ensures Tidy(ps[1..], ns, dollar)
  {
    forall i, n | 0 <= i < |ps[1..]| && n in ns && ps[1..][i].Literal? ensures TidyLiteral(ps[1..], i, n, dollar) {
      assert TidyLiteral(ps, i + 1, n, dollar);
    }
  }

  /** What a tidy literal and the text after it look like for macro `n`. */
  ghost predicate NothingStarts(text: string, rest: string, n: string) {
    Clean(text, n) || (rest == [] && NotFound(text, n)) || (rest != [] && rest[0] == '$' && AlmostClean(text, n))
  }

  lemma NotInLiteral(text: string, rest: string, n: string, p: nat)
    requires NothingStarts(text, rest, n) && p < |text|
    ensures !OccursAt(text + rest, MacroText(n), p)
  {
    assert rest == [] ==> text + rest == text;
    assert MacroText(n)[1] == '{';
    OccursFits(text, rest, MacroText(n), p);
  }

  lemma OccursFits(text: string, rest: string, m: string, p: nat)
    ensures OccursAt(text + rest, m, p) ==> Fits(text, m, p)
    ensures OccursAt(text + rest, m, p) && p + 1 == |text| && rest != [] && |m| > 1 ==> rest[0] == m[1]
  {
    if OccursAt(text + rest, m, p) {
      forall i | 0 <= i < |m| && p + i < |text| ensures text[p + i] == m[i] {
        assert (text + rest)[p + i] == m[i];
      }
      if p + 1 == |text| && rest != [] && |m| > 1 {
        assert (text + rest)[p + 1] == m[1];
      }
    }
  }

  lemma FlatPrefix(ps: seq<Piece>, j: nat)
    requires j < |ps|
    ensures |Flat(ps[..j + 1])| == |Show(ps[0])| + |Flat(ps[1..][..j])|
  {
    assert ps[..j + 1][1..] == ps[1..][..j];
  }

  lemma CleanNotFound(text: string, n: string)
    requires Clean(text, n)
    ensures NotFound(text, n)
  {
    forall p: nat | OccursAt(text, MacroText(n), p) ensures false {
      assert Fits(text, MacroText(n), p);
    }
  }

  lemma FlatHead(ps: seq<Piece>, ns: seq<string>, n: string, dollar: bool)
    requires ps != [] && Tidy(ps, ns, dollar) && n in ns
    ensures Flat(ps) == Show(ps[0]) + Flat(ps[1..])
    ensures ps[0].Literal? ==> NothingStarts(Show(ps[0]), Flat(ps[1..]), n)
    ensures ps[0].Macro? ==> OccursAt(Flat(ps), MacroText(ps[0].name), 0) && |Show(ps[0])| == |ps[0].name| + 3
    ensures |Flat(ps[..0])| == 0
  {
    hide Clean, AlmostClean, NotFound;
    if ps[0].Macro? {
      MacroTextOccurs(ps[0].name, Flat(ps[1..]));
    } else {
      assert TidyLiteral(ps, 0, n, dollar);
      if |ps| > 1 && ps[1].Macro? {
        assert Flat(ps[1..])[0] == MacroText(ps[1].name)[0] == '$';
      }
    }
  }

  lemma OccursNonEmpty(ps: seq<Piece>, n: string, p: nat)
    requires OccursAt(Flat(ps), MacroText(n), p)
    ensures ps != []
  {
  }

  /** No macro of the template is built on `n`. */
  ghost predicate NothingBuiltOn(ps: seq<Piece>, n: string) {
    forall p :: p in ps && p.Macro? ==> Closed(p.name) && !Within(n, p.name)
  }

  lemma BuiltOnTail(ps: seq<Piece>, n: string)
    requires NothingBuiltOn(ps, n) && ps != []
    ensures NothingBuiltOn(ps[1..], n)
    ensures ps[0].Macro? ==> Closed(ps[0].name) && !Within(n, ps[0].name)
  {
    assert ps[0] in ps && forall p :: p in ps[1..] ==> p in ps;
  }

  /** In a tidy text a macro is found only where the template has that macro. */
  lemma {:induction false} Located(ps: seq<Piece>, ns: seq<string>, dollar: bool, n: string, p: nat) returns (i: nat)
    requires Tidy(ps, ns, dollar) && n in ns && Closed(n) && NothingBuiltOn(ps, n) && OccursAt(Flat(ps), MacroText(n), p)
    ensures i < |ps| && ps[i] == Macro(n) && p == |Flat(ps[..i])|
  {
    hide *;
    OccursNonEmpty(ps, n, p);
    FlatHead(ps, ns, n, dollar);
    BuiltOnTail(ps, n);
    var first, rest := Show(ps[0]), Flat(ps[1..]);
    if p >= |first| {
      OccursInConcat(first, rest, MacroText(n), p);
      TidyTail(ps, ns, dollar);
      var j := Located(ps[1..], ns, dollar, n, p - |first|);
      i := j + 1;
      FlatPrefix(ps, j);
    } else if ps[0].Literal? {
      i := 0;
      NotInLiteral(first, rest, n, p);
    } else {
      i := 0;
      Overlap(Flat(ps), ps[0].name, 0, n, p);
    }
  }

  // ---- a macro becomes a literal ----

  /** The macro at i is replaced by a value, which joins the literal in front of it. */
  function Put(ps: seq<Piece>, i: nat, value: string): seq<Piece>
    requires i < |ps|
  {
    if i > 0 && ps[i - 1].Literal? then ps[i - 1 := Literal(ps[i - 1].text + value)][i := Literal("")] else ps[i := Literal(value)]
  }

  lemma PutParts(ps: seq<Piece>, i: nat, value: string) returns (a: seq<Piece>, x: seq<Piece>, y: seq<Piece>, b: seq<Piece>)
    requires i < |ps| && ps[i].Macro?
    ensures ps == a + x + [ps[i]] + b && Put(ps, i, value) == a + y + b
    ensures (x == [] && y == [Literal(value)]) || exists text :: x == [Literal(text)] && y == [Literal(text + value), Literal("")]
    ensures a + x == ps[..i]
  {
    b := ps[i + 1..];
    if i > 0 && ps[i - 1].Literal? {
      a, x, y := ps[..i - 1], [ps[i - 1]], [Literal(ps[i - 1].text + value), Literal("")];
      assert x == [Literal(ps[i - 1].text)];
    } else {
      a, x, y := ps[..i], [], [Literal(value)];
    }
  }

  lemma PutPieces(x: seq<Piece>, y: seq<Piece>, value: string, ce: ContextElement)
    requires (x == [] && y == [Literal(value)]) || exists text :: x == [Literal(text)] && y == [Literal(text + value), Literal("")]
    ensures Flat(y) == Flat(x) + value && Substituted(y, ce) == Substituted(x, ce) + value
    ensures forall k :: Occurrences(x, k) == 0 && Occurrences(y, k) == 0
  {
    hide *;
    OneLiteral(value, ce);
    NoPieces(ce);
    if x != [] {
      var text :| x == [Literal(text)] && y == [Literal(text + value), Literal("")];
      OneLiteral(text, ce);
      OneLiteral(text + value, ce);
      OneLiteral("", ce);
      assert y == [Literal(text + value)] + [Literal("")];
      FlatAppend([Literal(text + value)], [Literal("")]);
      SubstitutedAppend([Literal(text + value)], [Literal("")], ce);
      forall k ensures Occurrences(y, k) == 0 {
        OccurrencesAppend([Literal(text + value)], [Literal("")], k);
      }
    }
  }

  lemma OneLiteral(text: string, ce: ContextElement)
    ensures Flat([Literal(text)]) == text && Substituted([Literal(text)], ce) == text
    ensures forall k :: Occurrences([Literal(text)], k) == 0
  {
    assert [Literal(text)][1..] == [];
  }

  lemma NoPieces(ce: ContextElement)
    ensures Flat([]) == "" && Substituted([], ce) == "" && forall k :: Occurrences([], k) == 0
  {
  }

  lemma SubstitutedParts(a: seq<Piece>, x: seq<Piece>, b: seq<Piece>, ce: ContextElement)
    ensures Substituted(a + x + b, ce) == Substituted(a, ce) + Substituted(x, ce) + Substituted(b, ce)
  {
    hide *;
    SubstitutedAppend(a + x, b, ce);
    SubstitutedAppend(a, x, ce);
  }

  lemma OccurrencesParts(a: seq<Piece>, x: seq<Piece>, b: seq<Piece>, k: string)
    ensures Occurrences(a + x + b, k) == Occurrences(a, k) + Occurrences(x, k) + Occurrences(b, k)
  {
    hide *;
    OccurrencesAppend(a + x, b, k);
    OccurrencesAppend(a, x, k);
  }

  lemma FlatParts(a: seq<Piece>, x: seq<Piece>, b: seq<Piece>)
    ensures Flat(a + x + b) == Flat(a) + Flat(x) + Flat(b)
  {
    hide *;
    FlatAppend(a + x, b);
    FlatAppend(a, x);
  }

  /** The piece before the macro and the macro, and what they become. */
  lemma PutPair(x: seq<Piece>, p: Piece, y: seq<Piece>, ce: ContextElement)
    requires p.Macro?
    requires var value := MacroValue(ce, p.name);
      (x == [] && y == [Literal(value)]) || exists text :: x == [Literal(text)] && y == [Literal(text + value), Literal("")]
    ensures Substituted(x + [p], ce) == Substituted(y, ce)
    ensures forall k :: Occurrences(x + [p], k) == Occurrences(y, k) + (if p == Macro(k) then 1 else 0)
  {
    var value := MacroValue(ce, p.name);
    PutPieces(x, y, value, ce);
    assert [p][1..] == [];
    assert Substituted([p], ce) == value + "" && forall k :: Occurrences([p], k) == if p == Macro(k) then 1 else 0;
    hide *;
    SubstitutedAppend(x, [p], ce);
    forall k ensures Occurrences(x + [p], k) == Occurrences(x, k) + Occurrences([p], k) {
      OccurrencesAppend(x, [p], k);
    }
  }

  lemma PutMeaning(ps: seq<Piece>, i: nat, ce: ContextElement, k: string)
    requires i < |ps| && ps[i].Macro?
    ensures var qs := Put(ps, i, MacroValue(ce, ps[i].name));
      && Substituted(qs, ce) == Substituted(ps, ce)
      && Occurrences(qs, k) == Occurrences(ps, k) - (if ps[i] == Macro(k) then 1 else 0)
  {
    hide *;
    var a, x, y, b := PutParts(ps, i, MacroValue(ce, ps[i].name));
    PutPair(x, ps[i], y, ce);
    assert ps == a + (x + [ps[i]]) + b;
    SubstitutedParts(a, x + [ps[i]], b, ce);
    SubstitutedParts(a, y, b, ce);
    OccurrencesParts(a, x + [ps[i]], b, k);
    OccurrencesParts(a, y, b, k);
  }

  lemma PutFlat(ps: seq<Piece>, i: nat, value: string, ce: ContextElement)
    requires i < |ps| && ps[i].Macro?
    ensures |Flat(ps[..i])| + |ps[i].name| + 3 <= |Flat(ps)|
    ensures Flat(Put(ps, i, value)) == Splice(Flat(ps), |Flat(ps[..i])|, |ps[i].name| + 3, value)
  {
    var m := [ps[i]];
    assert Flat(m) == MacroText(ps[i].name) by {
      assert m[1..] == [] && Flat(m) == Show(ps[i]) + Flat([]);
    }
    assert |MacroText(ps[i].name)| == |ps[i].name| + 3;
    hide *;
    var a, x, y, b := PutParts(ps, i, value);
    PutPieces(x, y, value, ce);
    FlatParts(a + x, m, b);
    FlatParts(a, y, b);
    FlatAppend(a, x);
    SpliceMiddle(Flat(a + x), MacroText(ps[i].name), Flat(b), value);
    Regroup(Flat(a), Flat(x), value);
  }

  lemma Regroup(a: string, b: string, c: string)
    ensures a + (b + c) == a + b + c
  {
  }

  lemma SpliceMiddle(a: string, m: string, b: string, value: string)
    ensures Splice(a + m + b, |a|, |m|, value) == a + value + b
  {
    assert (a + m + b)[..|a|] == a && (a + m + b)[|a| + |m|..] == b;
  }

  /** What a macro with this value leaves behind, seen from what comes before it. */
  function Lead(dollar: bool, value: string): string {
    (if dollar then "$" else "") + value
  }

  lemma JoinedClean(text: string, value: string, n: string, dollar: bool)
    requires Clean(text, n) || (dollar && AlmostClean(text, n))
    requires Clean(Lead(dollar, value), n)
    ensures Clean(text + value, n) && Clean(value, n)
  {
    var m := MacroText(n);
    forall p: nat | p < |value| ensures !Fits(value, m, p) {
      FitsTail(if dollar then "$" else "", value, m, p);
    }
    forall p: nat | p < |text + value| ensures !Fits(text + value, m, p) {
      if p >= |text| {
        FitsTail(text, value, m, p - |text|);
      } else {
        FitsHead(text, value, m, p);
        if p + 1 == |text| && text[p] == '$' && dollar {
          assert text + value == text[..p] + Lead(dollar, value);
          FitsTail(text[..p], Lead(dollar, value), m, 0);
        }
      }
    }
  }

  lemma FitsTail(a: string, b: string, m: string, p: nat)
    ensures Fits(a + b, m, |a| + p) <==> Fits(b, m, p)
  {
    if Fits(a + b, m, |a| + p) {
      forall i | 0 <= i < |m| && p + i < |b| ensures b[p + i] == m[i] {
        assert (a + b)[|a| + p + i] == m[i];
      }
    }
  }

  lemma FitsHead(a: string, b: string, m: string, p: nat)
    ensures Fits(a + b, m, p) ==> Fits(a, m, p)
    ensures Fits(a + b, m, p) && p < |a| && m != [] ==> a[p] == m[0]
  {
    if Fits(a + b, m, p) {
      forall i | 0 <= i < |m| && p + i < |a| ensures a[p + i] == m[i] {
        assert (a + b)[p + i] == m[i];
      }
      if p < |a| && m != [] {
        assert a[p + 0] == m[0];
      }
    }
  }

  lemma PutTidyFor(ps: seq<Piece>, ns: seq<string>, dollar: bool, i: nat, value: string, j: nat, n: string)
    requires Tidy(ps, ns, dollar) && i < |ps| && ps[i].Macro? && n in ns && Clean(Lead(dollar, value), n)
    requires j < |ps| && Put(ps, i, value)[j].Literal?
    ensures TidyLiteral(Put(ps, i, value), j, n, dollar)
  {
    hide Clean, AlmostClean, NotFound;
    EmptyIsClean(n);
    if j == i && !(i > 0 && ps[i - 1].Literal?) {
      JoinedClean("", value, n, dollar);
    } else if j + 1 == i && ps[i - 1].Literal? {
      assert TidyLiteral(ps, j, n, dollar);
      JoinedClean(ps[j].text, value, n, dollar);
    } else if j != i {
      assert TidyLiteral(ps, j, n, dollar);
    }
  }

  lemma EmptyIsClean(n: string)
    ensures Clean("", n)
  {
  }

  lemma PutTidy(ps: seq<Piece>, ns: seq<string>, dollar: bool, i: nat, value: string)
    requires Tidy(ps, ns, dollar) && i < |ps| && ps[i].Macro? && CleanFor(Lead(dollar, value), ns)
    ensures Tidy(Put(ps, i, value), ns, dollar)
  {
    hide Clean, TidyLiteral;
    var qs := Put(ps, i, value);
    forall j, n | 0 <= j < |qs| && n in ns && qs[j].Literal? ensures TidyLiteral(qs, j, n, dollar) {
      PutTidyFor(ps, ns, dollar, i, value, j, n);
    }
  }

  lemma PutMacros(ps: seq<Piece>, i: nat, value: string)
    requires i < |ps|
    ensures forall p :: p in Put(ps, i, value) && p.Macro? ==> p in ps
  {
    var qs := Put(ps, i, value);
    forall p | p in qs && p.Macro? ensures p in ps {
      var j :| 0 <= j < |qs| && qs[j] == p;
      assert ps[j] == p;
    }
  }

  lemma BuiltOnSome(ps: seq<Piece>, qs: seq<Piece>, n: string)
    requires NothingBuiltOn(ps, n) && forall p :: p in qs && p.Macro? ==> p in ps
    ensures NothingBuiltOn(qs, n)
  {
  }

  /** One round of the inner loop turns `to` into `next`. */
  ghost predicate Replaces(to: string, n: string, value: string, next: string) {
    var p := Find(to, MacroText(n), 0);
    p.Some? && next == Splice(to, p.value, |MacroText(n)|, value)
  }

  /** `qs` is `ps` with `d` occurrences of the macro `n` fewer. */
  ghost predicate Consumed(ps: seq<Piece>, qs: seq<Piece>, n: string, d: nat) {
    forall k :: Occurrences(qs, k) == Occurrences(ps, k) - (if k == n then d else 0)
  }

  /** The value of macro `n` is clean for every macro of `ns`. */
  ghost predicate CleanFor(value: string, ns: seq<string>) {
    forall n :: n in ns ==> Clean(value, n)
  }

  /** Any occurrence of macro `n` becomes a literal. */
  lemma PutAny(ps: seq<Piece>, ns: seq<string>, dollar: bool, i: nat, n: string, ce: ContextElement) returns (qs: seq<Piece>)
    requires Tidy(ps, ns, dollar) && i < |ps| && ps[i] == Macro(n) && CleanFor(Lead(dollar, MacroValue(ce, n)), ns)
    ensures |Flat(ps[..i])| + |n| + 3 <= |Flat(ps)| && Flat(qs) == Splice(Flat(ps), |Flat(ps[..i])|, |n| + 3, MacroValue(ce, n))
    ensures Tidy(qs, ns, dollar) && Substituted(qs, ce) == Substituted(ps, ce)
    ensures Consumed(ps, qs, n, 1) && (forall p :: p in qs && p.Macro? ==> p in ps)
  {
    qs := Put(ps, i, MacroValue(ce, n));
    hide *;
    PutFlat(ps, i, MacroValue(ce, n), ce);
    PutTidy(ps, ns, dollar, i, MacroValue(ce, n));
    PutMacros(ps, i, MacroValue(ce, n));
    PutMeaning(ps, i, ce, n);
    ConsumedOne(ps, i, n, ce);
  }

  lemma ConsumedOne(ps: seq<Piece>, i: nat, n: string, ce: ContextElement)
    requires i < |ps| && ps[i] == Macro(n)
    ensures Consumed(ps, Put(ps, i, MacroValue(ce, n)), n, 1)
  {
    hide Put, Occurrences;
    forall k ensures Occurrences(Put(ps, i, MacroValue(ce, n)), k) == Occurrences(ps, k) - (if k == n then 1 else 0) {
      PutMeaning(ps, i, ce, k);
    }
  }

  /** One `find` and `replace` in a tidy text replaces exactly one macro of the template. */
  lemma ReplaceOne(ps: seq<Piece>, ns: seq<string>, dollar: bool, n: string, ce: ContextElement) returns (qs: seq<Piece>)
    requires Tidy(ps, ns, dollar) && n in ns && Closed(n) && NothingBuiltOn(ps, n) && Occurrences(ps, n) > 0
    requires CleanFor(Lead(dollar, MacroValue(ce, n)), ns)
    ensures Replaces(Flat(ps), n, MacroValue(ce, n), Flat(qs))
    ensures Tidy(qs, ns, dollar) && NothingBuiltOn(qs, n) && Substituted(qs, ce) == Substituted(ps, ce)
    ensures Consumed(ps, qs, n, 1) && (forall p :: p in qs && p.Macro? ==> p in ps)
  {
    CountAtLeastOccurrences(ps, n);
    CountZeroIfAbsent(Flat(ps), MacroText(n));
    var p := Find(Flat(ps), MacroText(n), 0).value;
    assert |MacroText(n)| == |n| + 3;
    hide Tidy, CleanFor, NothingBuiltOn, Closed, Within, Clean, Count, Consumed, Substituted, Splice, Flat;
    var i := Located(ps, ns, dollar, n, p);
    qs := PutAny(ps, ns, dollar, i, n, ce);
    BuiltOnSome(ps, qs, n);
  }

  lemma ConsumedTwice(ps: seq<Piece>, rs: seq<Piece>, qs: seq<Piece>, n: string, d: nat)
    requires Consumed(ps, rs, n, 1) && Consumed(rs, qs, n, d)
    ensures Consumed(ps, qs, n, d + 1)
  {
    forall k ensures Occurrences(qs, k) == Occurrences(ps, k) - (if k == n then d + 1 else 0) {
      assert Occurrences(rs, k) == Occurrences(ps, k) - (if k == n then 1 else 0);
    }
  }

  ghost predicate Yields(to: string, n: string, value: string, times: nat, last: string) {
    ReplaceTimes(to, MacroText(n), value, times) == Some(last)
  }

  lemma ConsumedAt(ps: seq<Piece>, qs: seq<Piece>, n: string, d: nat)
    requires Consumed(ps, qs, n, d)
    ensures Occurrences(qs, n) == Occurrences(ps, n) - d
  {
  }

  lemma YieldsNone(ps: seq<Piece>, to: string, n: string, value: string)
    ensures Yields(to, n, value, 0, to) && Consumed(ps, ps, n, 0)
  {
  }

  lemma YieldsStep(to: string, n: string, value: string, times: nat, next: string, last: string)
    requires Replaces(to, n, value, next)
    requires Yields(next, n, value, times, last)
    ensures Yields(to, n, value, times + 1, last)
  {
  }

  lemma {:induction false} ReplaceTimesTidy(ps: seq<Piece>, ns: seq<string>, dollar: bool, to: string, n: string, times: nat, ce: ContextElement, value: string)
    returns (qs: seq<Piece>, last: string)
    requires to == Flat(ps) && value == MacroValue(ce, n)
    requires Tidy(ps, ns, dollar) && n in ns && Closed(n) && NothingBuiltOn(ps, n) && Occurrences(ps, n) >= times
    requires CleanFor(Lead(dollar, value), ns)
    ensures last == Flat(qs) && Yields(to, n, value, times, last)
    ensures Tidy(qs, ns, dollar) && Substituted(qs, ce) == Substituted(ps, ce)
    ensures Consumed(ps, qs, n, times) && (forall p :: p in qs && p.Macro? ==> p in ps)
    decreases times
  {
    hide *;
    if times == 0 {
      qs, last := ps, to;
      YieldsNone(ps, to, n, value);
    } else {
      var rs := ReplaceOne(ps, ns, dollar, n, ce);
      var next := Flat(rs);
      var fewer := times - 1;
      assert Occurrences(rs, n) == Occurrences(ps, n) - 1 by {
        ConsumedAt(ps, rs, n, 1);
      }
      qs, last := ReplaceTimesTidy(rs, ns, dollar, next, n, fewer, ce, value);
      ConsumedTwice(ps, rs, qs, n, fewer);
      YieldsStep(to, n, value, fewer, next, last);
    }
  }

  lemma {:induction false} NoMacroLeft(ps: seq<Piece>, ce: ContextElement)
    requires forall p :: p in ps ==> p.Literal?
    ensures Flat(ps) == Substituted(ps, ce)
  {
    if ps != [] {
      NoMacroLeft(ps[1..], ce);
    }
  }

  // ---- all macros, in order ----

  /** A macro whose value is its own text: replacing it changes nothing. */
  predicate Inert(ce: ContextElement, n: string) {
    MacroValue(ce, n) == MacroText(n)
  }

  function Active(order: seq<string>, ce: ContextElement): seq<string> {
    if order == [] then [] else (if Inert(ce, order[0]) then [] else [order[0]]) + Active(order[1..], ce)
  }

  lemma {:induction false} ActiveIs(order: seq<string>, ce: ContextElement, n: string)
    ensures n in Active(order, ce) <==> n in order && !Inert(ce, n)
  {
    if order != [] {
      ActiveIs(order[1..], ce, n);
      assert order == [order[0]] + order[1..];
    }
  }

  /** The value of each macro is clean for itself and for the macros replaced after it, apart from inert ones. */
  ghost predicate CleanValues(order: seq<string>, ce: ContextElement, dollar: bool) {
    forall i, j :: 0 <= i <= j < |order| ==> Clean(Lead(dollar, MacroValue(ce, order[i])), order[j]) || Inert(ce, order[j])
  }

  lemma CleanValuesHead(order: seq<string>, ce: ContextElement, dollar: bool)
    requires CleanValues(order, ce, dollar) && order != []
    ensures CleanFor(Lead(dollar, MacroValue(ce, order[0])), Active(order, ce)) && CleanValues(order[1..], ce, dollar)
  {
    hide Clean, Inert, MacroValue;
    forall n | n in Active(order, ce) ensures Clean(Lead(dollar, MacroValue(ce, order[0])), n) {
      ActiveIs(order, ce, n);
      var j :| 0 <= j < |order| && order[j] == n;
      assert 0 <= j < |order|;
    }
    forall i, j | 0 <= i <= j < |order[1..]|
      ensures Clean(Lead(dollar, MacroValue(ce, order[1..][i])), order[1..][j]) || Inert(ce, order[1..][j])
    {
      assert order[1..][i] == order[i + 1] && order[1..][j] == order[j + 1];
    }
  }

  /** All occurrences of an inert macro become literals: the text they are and stay. */
  lemma {:induction false} Frozen(ps: seq<Piece>, ns: seq<string>, dollar: bool, n: string, ce: ContextElement) returns (qs: seq<Piece>)
    requires Tidy(ps, ns, dollar) && Inert(ce, n) && CleanFor(Lead(dollar, MacroValue(ce, n)), ns)
    ensures Flat(qs) == Flat(ps) && Tidy(qs, ns, dollar) && Substituted(qs, ce) == Substituted(ps, ce)
    ensures Consumed(ps, qs, n, Occurrences(ps, n)) && (forall p :: p in qs && p.Macro? ==> p in ps)
    decreases Occurrences(ps, n)
  {
    hide *;
    OccurrencesPositive(ps, n);
    if Occurrences(ps, n) == 0 {
      qs := ps;
      YieldsNone(ps, "", n, "");
    } else {
      var i :| 0 <= i < |ps| && ps[i] == Macro(n);
      var rs := PutAny(ps, ns, dollar, i, n, ce);
      ConsumedAt(ps, rs, n, 1);
      SpliceSame(ps, i, n, ce);
      qs := Frozen(rs, ns, dollar, n, ce);
      ConsumedTwice(ps, rs, qs, n, Occurrences(rs, n));
    }
  }

  lemma SpliceSame(ps: seq<Piece>, i: nat, n: string, ce: ContextElement)
    requires i < |ps| && ps[i] == Macro(n) && Inert(ce, n)
    ensures |Flat(ps[..i])| + |n| + 3 <= |Flat(ps)|
    ensures Splice(Flat(ps), |Flat(ps[..i])|, |n| + 3, MacroValue(ce, n)) == Flat(ps)
  {
    FlatAppend(ps[..i], ps[i..]);
    assert ps == ps[..i] + ps[i..] && ps[i..][1..] == ps[i + 1..];
    assert Flat(ps[i..]) == MacroText(n) + Flat(ps[i + 1..]);
    SpliceMiddle(Flat(ps[..i]), MacroText(n), Flat(ps[i + 1..]), MacroText(n));
    assert Flat(ps) == Flat(ps[..i]) + MacroText(n) + Flat(ps[i + 1..]);
  }

  lemma {:induction false} ReplaceByItself(to: string, n: string, times: nat)
    requires times > 0 ==> Find(to, MacroText(n), 0).Some?
    ensures ReplaceTimes(to, MacroText(n), MacroText(n), times) == Some(to)
  {
    hide *;
    if times > 0 {
      SpliceItself(to, MacroText(n), Find(to, MacroText(n), 0).value);
      ReplaceTimesRound(to, MacroText(n), MacroText(n), times);
      ReplaceByItself(to, n, times - 1);
    } else {
      ReplaceTimesEnd(to, MacroText(n), MacroText(n));
    }
  }

  lemma SpliceItself(to: string, m: string, p: nat)
    requires OccursAt(to, m, p)
    ensures p + |m| <= |to| && Splice(to, p, |m|, m) == to
  {
    assert to[p..p + |m|] == m;
  }

  lemma FirstIsFree(ps: seq<Piece>, order: seq<string>)
    requires SafeOrder(order) && order != [] && forall p :: p in ps && p.Macro? ==> p.name in order && Closed(p.name)
    ensures NothingBuiltOn(ps, order[0])
  {
    forall p | p in ps && p.Macro? ensures Closed(p.name) && !Within(order[0], p.name) {
      var j :| 0 <= j < |order| && order[j] == p.name;
      NotWithinItself(order[0]);
    }
  }

  lemma TidyLess(ps: seq<Piece>, ns: seq<string>, fewer: seq<string>, dollar: bool)
    requires Tidy(ps, ns, dollar) && forall n :: n in fewer ==> n in ns
    ensures Tidy(ps, fewer, dollar)
  {
    hide TidyLiteral;
  }

  lemma ActiveHead(order: seq<string>, ce: ContextElement)
    requires order != []
    ensures Active(order, ce) == (if Inert(ce, order[0]) then [] else [order[0]]) + Active(order[1..], ce)
  {
  }

  /** The round of the first macro: its pieces become literals. */
  lemma RoundTidy(ps: seq<Piece>, order: seq<string>, dollar: bool, times: nat, ce: ContextElement) returns (qs: seq<Piece>)
    requires order != [] && Tidy(ps, Active(order, ce), dollar)
    requires CleanFor(Lead(dollar, MacroValue(ce, order[0])), Active(order, ce))
    requires NothingBuiltOn(ps, order[0]) && Closed(order[0]) && times == Occurrences(ps, order[0])
    ensures ReplaceTimes(Flat(ps), MacroText(order[0]), MacroValue(ce, order[0]), times) == Some(Flat(qs))
    ensures Tidy(qs, Active(order[1..], ce), dollar) && Substituted(qs, ce) == Substituted(ps, ce)
    ensures Consumed(ps, qs, order[0], times) && (forall p :: p in qs && p.Macro? ==> p in ps)
  {
    var n := order[0];
    ActiveHead(order, ce);
    hide Tidy, CleanFor, NothingBuiltOn, Closed, Active, Consumed, ReplaceTimes, MacroValue, Flat, Lead;
    if Inert(ce, n) {
      assert Active(order, ce) == Active(order[1..], ce);
      CountAtLeastOccurrences(ps, n);
      if times > 0 {
        CountZeroIfAbsent(Flat(ps), MacroText(n));
      }
      ReplaceByItself(Flat(ps), n, times);
      qs := Frozen(ps, Active(order, ce), dollar, n, ce);
    } else {
      var last;
      qs, last := ReplaceTimesTidy(ps, Active(order, ce), dollar, Flat(ps), n, times, ce, MacroValue(ce, n));
      TidyLess(qs, Active(order, ce), Active(order[1..], ce), dollar);
    }
  }

  lemma {:induction false} ReplaceAllTidy(ps: seq<Piece>, order: seq<string>, dollar: bool, counts: map<string, nat>, ce: ContextElement)
    requires Tidy(ps, Active(order, ce), dollar) && Distinct(order) && SafeOrder(order) && CleanValues(order, ce, dollar)
    requires forall k :: k in order ==> k in counts && counts[k] == Occurrences(ps, k) && Closed(k)
    requires forall p :: p in ps && p.Macro? ==> p.name in order && Closed(p.name)
    ensures ReplaceAll(Flat(ps), order, counts, ce) == Some(Substituted(ps, ce))
    decreases |order|
  {
    if order == [] {
      NoMacroLeft(ps, ce);
    } else {
      var n := order[0];
      CleanValuesHead(order, ce, dollar);
      FirstIsFree(ps, order);
      hide Tidy, CleanValues, CleanFor, NothingBuiltOn, Closed, Active;
      var qs := RoundTidy(ps, order, dollar, counts[n], ce);
      assert order == [n] + order[1..];
      assert SafeOrder(order[1..]);
      ConsumedAt(ps, qs, n, counts[n]);
      forall p | p in qs && p.Macro? ensures p.name in order[1..] && Closed(p.name) {
        if p.name == n {
          OccurrencesPositive(qs, n);
        }
      }
      ReplaceAllTidy(qs, order[1..], dollar, counts, ce);
    }
  }

  /** The sequential find-and-replace is the simultaneous substitution, in every safe order of the macros. */
  lemma SequentialIsSimultaneous(ps: seq<Piece>, order: seq<string>, dollar: bool, ce: ContextElement)
    requires ClosedNames(ps) && Tidy(ps, Active(order, ce), dollar) && SafeOrder(order) && CleanValues(order, ce, dollar)
    requires Distinct(order) && forall k :: k in order <==> k in Counts(ps)
    ensures ReplaceAll(Flat(ps), order, Counts(ps), ce) == Some(Substituted(ps, ce))
  {
    EnumeratesNames(ps, order);
    hide Tidy, SafeOrder, CleanValues, Active;
    ReplaceAllTidy(ps, order, dollar, Counts(ps), ce);
  }
}
