/** Notification templates: the values `${name}` macros stand for, and the scan that finds the macros. */
module MacroTemplate {
  import opened Text

  /** An attribute with its value already rendered as a string. */
  datatype Attribute = Attribute(name: string, value: string)
  datatype ContextElement = ContextElement(id: string, entityType: string, attributes: seq<Attribute>)

  function AttributeValue(attributes: seq<Attribute>, name: string): string {
    if attributes == [] then ""
    else if attributes[0].name == name then attributes[0].value
    else AttributeValue(attributes[1..], name)
  }

  function MacroValue(ce: ContextElement, name: string): string {
    if name == "id" then ce.id
    else if name == "type" then ce.entityType
    else AttributeValue(ce.attributes, CString(name))
  }

  // ---- templates as a sequence of pieces ----

  datatype Piece = Literal(text: string) | Macro(name: string)

  function MacroText(name: string): string {
    ['$', '{'] + name + ['}']
  }

  function Show(p: Piece): string {
    match p
    case Literal(text) => text
    case Macro(name) => MacroText(name)
  }

  function Flat(ps: seq<Piece>): string {
    if ps == [] then "" else Show(ps[0]) + Flat(ps[1..])
  }

  predicate OpensAt(s: string, p: int) {
    0 <= p < |s| - 1 && s[p] == '$' && s[p + 1] == '{'
  }

  predicate NoOpening(s: string) {
    forall p :: 0 <= p < |s| - 1 ==> !OpensAt(s, p)
  }

  /** from.find("${", k) */
  function FindOpening(s: string, k: nat): (r: Option<nat>)
    requires k <= |s|
    ensures r.Some? ==> k <= r.value && OpensAt(s, r.value) && forall j :: k <= j < r.value ==> !OpensAt(s, j)
    ensures r.None? ==> forall j :: k <= j ==> !OpensAt(s, j)
    decreases |s| - k
  {
    if k == |s| then None else if OpensAt(s, k) then Some(k) else FindOpening(s, k + 1)
  }

  /** from.find("}", k) */
  function FindClosing(s: string, k: nat): (r: Option<nat>)
    requires k <= |s|
    ensures r.Some? ==> k <= r.value < |s| && s[r.value] == '}' && forall j :: k <= j < r.value ==> s[j] != '}'
    ensures r.None? ==> forall j :: k <= j < |s| ==> s[j] != '}'
    decreases |s| - k
  {
    if k == |s| then None else if s[k] == '}' then Some(k) else FindClosing(s, k + 1)
  }

  /** Splits `from[k..]` at its macros; None when a macro is not terminated. */
  function Scan(from: string, k: nat): (r: Option<seq<Piece>>)
    requires k <= |from|
    decreases |from| - k
  {
    match FindOpening(from, k)
    case None => Some([Literal(from[k..])])
    case Some(p) =>
      match FindClosing(from, p)
      case None => None
      case Some(e) =>
        match Scan(from, e + 1)
        case None => None
        case Some(rest) => Some([Literal(from[k..p]), Macro(from[p + 2..e])] + rest)
  }

  /** The simple specification: every macro of the template replaced at once, left to right. */
  function Substituted(ps: seq<Piece>, ce: ContextElement): string {
    if ps == [] then ""
    else (match ps[0] case Literal(text) => text case Macro(name) => MacroValue(ce, name)) + Substituted(ps[1..], ce)
  }

  function Occurrences(ps: seq<Piece>, name: string): nat {
    if ps == [] then 0 else (if ps[0] == Macro(name) then 1 else 0) + Occurrences(ps[1..], name)
  }

  function Names(ps: seq<Piece>): set<string> {
    set p | p in ps && p.Macro? :: p.name
  }

  function Counts(ps: seq<Piece>): map<string, nat> {
    map name | name in Names(ps) :: Occurrences(ps, name)
  }

  // ---- pieces: small facts ----

  lemma {:induction false} FlatAppend(a: seq<Piece>, b: seq<Piece>)
    ensures Flat(a + b) == Flat(a) + Flat(b)
  {
    if a == [] {
      assert a + b == b;
    } else {
      assert (a + b)[1..] == a[1..] + b;
      FlatAppend(a[1..], b);
    }
  }

  lemma {:induction false} OccurrencesAppend(a: seq<Piece>, b: seq<Piece>, name: string)
    ensures Occurrences(a + b, name) == Occurrences(a, name) + Occurrences(b, name)
  {
    if a == [] {
      assert a + b == b;
    } else {
      assert (a + b)[1..] == a[1..] + b;
      OccurrencesAppend(a[1..], b, name);
    }
  }

  lemma {:induction false} SubstitutedAppend(a: seq<Piece>, b: seq<Piece>, ce: ContextElement)
    ensures Substituted(a + b, ce) == Substituted(a, ce) + Substituted(b, ce)
  {
    if a == [] {
      assert a + b == b;
    } else {
      assert (a + b)[1..] == a[1..] + b;
      SubstitutedAppend(a[1..], b, ce);
    }
  }

  lemma NamesMember(ps: seq<Piece>, name: string)
    ensures name in Names(ps) <==> Macro(name) in ps
  {
    if Macro(name) in ps {
      assert Macro(name).name == name;
    }
  }

  lemma {:induction false} OccurrencesPositive(ps: seq<Piece>, name: string)
    ensures Macro(name) in ps <==> Occurrences(ps, name) > 0
  {
    if ps != [] {
      OccurrencesPositive(ps[1..], name);
      assert ps == [ps[0]] + ps[1..];
    }
  }

  /** What scanning guarantees: a literal contains no "${", a macro name no "}". */
  ghost predicate Scanned(ps: seq<Piece>) {
    forall p :: p in ps ==> (p.Literal? ==> NoOpening(p.text)) && (p.Macro? ==> '}' !in p.name)
  }

  /** One step of the scan, with nothing lost between the pieces. */
  lemma ScanPiece(from: string, k: nat, p: nat, e: nat)
    requires k <= p && p + 2 <= e < |from|
    requires from[p] == '$' && from[p + 1] == '{' && from[e] == '}'
    ensures from[k..] == from[k..p] + MacroText(from[p + 2..e]) + from[e + 1..]
  {
    assert from[k..] == from[k..p] + [from[p], from[p + 1]] + from[p + 2..e] + [from[e]] + from[e + 1..];
    assert from[k..p] + MacroText(from[p + 2..e]) == from[k..p] + ['$', '{'] + from[p + 2..e] + ['}'];
  }

  lemma FlatTwo(text: string, name: string, rest: seq<Piece>)
    ensures Flat([Literal(text), Macro(name)] + rest) == text + MacroText(name) + Flat(rest)
  {
    var ps := [Literal(text), Macro(name)] + rest;
    assert ps[1..] == [Macro(name)] + rest;
    assert ps[1..][1..] == rest;
  }

  lemma ScanLast(from: string, k: nat)
    requires k <= |from| && FindOpening(from, k).None?
    ensures Scan(from, k) == Some([Literal(from[k..])])
  {
  }

  lemma ScanStep(from: string, k: nat) returns (p: nat, e: nat)
    requires k <= |from| && FindOpening(from, k).Some? && Scan(from, k).Some?
    ensures k <= p && p + 2 <= e < |from| && from[p] == '$' && from[p + 1] == '{' && from[e] == '}'
    ensures forall j :: k <= j < p ==> !OpensAt(from, j)
    ensures forall j :: p <= j < e ==> from[j] != '}'
    ensures Scan(from, e + 1).Some?
    ensures Scan(from, k).value == [Literal(from[k..p]), Macro(from[p + 2..e])] + Scan(from, e + 1).value
  {
    p := FindOpening(from, k).value;
    e := FindClosing(from, p).value;
  }

  lemma FlatOne(text: string)
    ensures Flat([Literal(text)]) == text
  {
    assert Flat([Literal(text)]) == text + Flat([]);
  }

  /** Scanning cuts the template up without losing or adding a character. */
  lemma {:induction false} ScanFlat(from: string, k: nat)
    requires k <= |from| && Scan(from, k).Some?
    ensures Flat(Scan(from, k).value) == from[k..]
    decreases |from| - k
  {
    hide *;
    if FindOpening(from, k).Some? {
      var p, e := ScanStep(from, k);
      ScanFlat(from, e + 1);
      FlatTwo(from[k..p], from[p + 2..e], Scan(from, e + 1).value);
      ScanPiece(from, k, p, e);
    } else {
      ScanLast(from, k);
      FlatOne(from[k..]);
    }
  }

  lemma LiteralHasNoOpening(from: string, k: nat, p: nat)
    requires k <= p <= |from| && forall j :: k <= j < p ==> !OpensAt(from, j)
    ensures NoOpening(from[k..p])
  {
    forall j | 0 <= j < p - k - 1 ensures !OpensAt(from[k..p], j) {
      assert !OpensAt(from, k + j);
    }
  }

  lemma ScannedTwo(text: string, name: string, rest: seq<Piece>)
    requires NoOpening(text) && '}' !in name && Scanned(rest)
    ensures Scanned([Literal(text), Macro(name)] + rest)
  {
  }

  lemma {:induction false} ScanIsScanned(from: string, k: nat)
    requires k <= |from| && Scan(from, k).Some?
    ensures Scanned(Scan(from, k).value)
    decreases |from| - k
  {
    hide Scan, NoOpening;
    if FindOpening(from, k).Some? {
      var p, e := ScanStep(from, k);
      LiteralHasNoOpening(from, k, p);
      ScanIsScanned(from, e + 1);
      ScannedTwo(from[k..p], from[p + 2..e], Scan(from, e + 1).value);
    } else {
      ScanLast(from, k);
      LiteralHasNoOpening(from, k, |from|);
      assert from[k..|from|] == from[k..];
    }
  }

  lemma ScanMacro(from: string, k: nat, p: nat, e: nat, rest: seq<Piece>)
    requires k <= |from| && FindOpening(from, k) == Some(p) && FindClosing(from, p) == Some(e) && Scan(from, e + 1) == Some(rest)
    ensures p + 2 <= e < |from| && Scan(from, k) == Some([Literal(from[k..p]), Macro(from[p + 2..e])] + rest)
  {
    hide FindOpening, FindClosing;
  }

  /** Between two macros there is always a literal, if an empty one, and after a literal a macro. */
  ghost predicate Alternating(ps: seq<Piece>) {
    forall i :: 0 <= i < |ps| - 1 && ps[i].Literal? ==> ps[i + 1].Macro?
  }

  lemma {:induction false} ScanAlternates(from: string, k: nat)
    requires k <= |from| && Scan(from, k).Some?
    ensures Alternating(Scan(from, k).value)
    decreases |from| - k
  {
    hide Scan;
    if FindOpening(from, k).Some? {
      var p, e := ScanStep(from, k);
      ScanAlternates(from, e + 1);
      var ps, rest := Scan(from, k).value, Scan(from, e + 1).value;
      forall i | 0 <= i < |ps| - 1 && ps[i].Literal? ensures ps[i + 1].Macro? {
        if i >= 2 {
          assert ps[i] == rest[i - 2] && ps[i + 1] == rest[i - 1];
        }
      }
    } else {
      ScanLast(from, k);
    }
  }

  lemma ScanUnfold(from: string, k: nat)
    requires k <= |from| && FindOpening(from, k).Some?
    ensures var p := FindOpening(from, k).value;
      && p + 2 <= |from|
      && (FindClosing(from, p).None? ==> Scan(from, k).None?)
      && (FindClosing(from, p).Some? ==>
        var e := FindClosing(from, p).value;
        && p + 2 <= e < |from|
        && (Scan(from, k).Some? <==> Scan(from, e + 1).Some?)
        && (Scan(from, k).Some? ==> Scan(from, k).value == [Literal(from[k..p]), Macro(from[p + 2..e])] + Scan(from, e + 1).value))
  {
  }

  lemma CountsAppend(done: seq<Piece>, text: string, name: string)
    ensures Counts(done + [Literal(text), Macro(name)])
         == Counts(done)[name := if name in Counts(done) then Counts(done)[name] + 1 else 1]
  {
    var two := [Literal(text), Macro(name)];
    var all := done + two;
    assert Names(all) == Names(done) + {name} by {
      forall k ensures k in Names(all) <==> k in Names(done) + {name} {
        NamesMember(all, k);
        NamesMember(done, k);
      }
    }
    forall k ensures Occurrences(all, k) == Occurrences(done, k) + (if k == name then 1 else 0) {
      OccurrencesAppend(done, two, k);
      assert two[1..] == [Macro(name)] && two[1..][1..] == [];
      assert Occurrences(two, k) == Occurrences([Macro(name)], k) == if k == name then 1 else 0;
    }
    NamesMember(done, name);
    OccurrencesPositive(done, name);
  }

  lemma CountsLiteral(done: seq<Piece>, text: string)
    ensures Counts(done + [Literal(text)]) == Counts(done)
  {
    var all := done + [Literal(text)];
    assert Names(all) == Names(done) by {
      forall k ensures k in Names(all) <==> k in Names(done) {
        NamesMember(all, k);
        NamesMember(done, k);
      }
    }
    forall k ensures Occurrences(all, k) == Occurrences(done, k) {
      OccurrencesAppend(done, [Literal(text)], k);
    }
  }
}
