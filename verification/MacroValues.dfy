/** What a macro stands for: the id and the type of the entity, and the values of its attributes. */
module MacroValues {
  import opened Sequences
  import opened MacroExact
  import opened MacroMeaning
  import opened MacroReplacement
  import opened MacroSubstitute
  import opened MacroTemplate
  import opened Text

  function OnePiece(n: string): seq<Piece> {
    [Literal(""), Macro(n), Literal("")]
  }

  lemma ScanMacroText(n: string)
    requires Closed(n)
    ensures Scan(MacroText(n), 0) == Some(OnePiece(n))
  {
    ScanLast("", 0);
    assert MacroText(n) == "" + MacroText(n) + "";
    hide Scan, MacroText, Closed;
    ScanOne("", n, "", MacroText(n));
    assert [Literal(""), Macro(n)] + [Literal("")] == OnePiece(n);
  }

  lemma CountsOfOne(n: string)
    ensures Counts(OnePiece(n)) == map[n := 1] && SortedKeys({n}) == [n] && Distinct([n])
  {
    var ps := OnePiece(n);
    forall x ensures x in Names(ps) <==> x == n {
      NamesMember(ps, x);
    }
    var p1, p2 := ps[1..], ps[2..];
    assert p1[1..] == p2 && p2[1..] == [];
    assert Occurrences(p2, n) == 0;
    assert Occurrences(p1, n) == 1;
    assert {n} - {n} == {} && SortedKeys({n}) == [Least({n})] + SortedKeys({});
  }

  lemma SubstitutedOne(n: string, ce: ContextElement)
    ensures Substituted(OnePiece(n), ce) == MacroValue(ce, n)
  {
    hide MacroValue;
    var ps := OnePiece(n);
    assert ps[1..] == [Macro(n), Literal("")] && ps[1..][1..] == [Literal("")] && ps[1..][1..][1..] == [];
    assert Substituted([Literal("")], ce) == "" && Substituted([Macro(n), Literal("")], ce) == MacroValue(ce, n) + "";
  }

  lemma ReplacedOne(n: string, ce: ContextElement)
    ensures ReplaceAll(MacroText(n), [n], map[n := 1], ce) == Some(MacroValue(ce, n))
  {
    var m, counts := MacroText(n), map[n := 1];
    hide MacroValue, MacroText;
    assert OccursAt(m, m, 0);
    ReplaceOnce(m, m, MacroValue(ce, n), 0);
    assert m[..0] + MacroValue(ce, n) + m[0 + |m|..] == MacroValue(ce, n);
    hide ReplaceTimes;
    assert [n][1..] == [] && forall u: string :: ReplaceAll(u, [], counts, ce) == Some(u);
  }

  lemma ExpandOne(n: string, ce: ContextElement)
    requires Closed(n) && |n| + 3 <= MAX_DYN_MSG_SIZE && |MacroValue(ce, n)| <= MAX_DYN_MSG_SIZE
    ensures Expand(MacroText(n), ce) == Done(MacroValue(ce, n))
  {
    assert |MacroText(n)| == |n| + 3 && map[n := 1].Keys == {n};
    hide *;
    ScanMacroText(n);
    ScannedNames(MacroText(n), OnePiece(n));
    CountsOfOne(n);
    SubstitutedOne(n, ce);
    ReplacedOne(n, ce);
    OrderEnumerates(OnePiece(n));
    ExpandIs(MacroText(n), OnePiece(n), [n], ce);
    VerdictDone(MacroValue(ce, n));
  }

  lemma IdMacro(ce: ContextElement)
    requires |ce.id| <= MAX_DYN_MSG_SIZE
    ensures Expand("${id}", ce) == Done(ce.id)
  {
    assert MacroText("id") == "${id}" && Closed("id") && |"id"| + 3 <= MAX_DYN_MSG_SIZE && MacroValue(ce, "id") == ce.id;
    hide *;
    ExpandOne("id", ce);
  }

  lemma TypeMacro(ce: ContextElement)
    requires |ce.entityType| <= MAX_DYN_MSG_SIZE
    ensures Expand("${type}", ce) == Done(ce.entityType)
  {
    assert MacroText("type") == "${type}" && Closed("type") && |"type"| + 3 <= MAX_DYN_MSG_SIZE && |"type"| != |"id"|;
    assert MacroValue(ce, "type") == ce.entityType;
    hide *;
    ExpandOne("type", ce);
  }

  lemma {:induction false} AttributeFound(attributes: seq<Attribute>, name: string, i: nat)
    requires i <= |attributes| && forall j :: 0 <= j < i ==> attributes[j].name != name
    requires i < |attributes| ==> attributes[i].name == name
    ensures AttributeValue(attributes, name) == if i < |attributes| then attributes[i].value else ""
  {
    if i > 0 {
      AttributeFound(attributes[1..], name, i - 1);
    }
  }

  lemma {:induction false} NoNul(s: string)
    requires '\0' !in s
    ensures CString(s) == s
  {
    if s != [] {
      assert s[0] in s && forall c :: c in s[1..] ==> c in s;
      NoNul(s[1..]);
    }
  }

  /** Any other name stands for the value of the first attribute that has it, or for nothing. */
  lemma AttributeMacro(n: string, ce: ContextElement, i: nat, value: string)
    requires Closed(n) && '\0' !in n && n != "id" && n != "type" && |n| + 3 <= MAX_DYN_MSG_SIZE
    requires i <= |ce.attributes| && forall j :: 0 <= j < i ==> ce.attributes[j].name != n
    requires if i < |ce.attributes| then ce.attributes[i] == Attribute(n, value) else value == ""
    requires |value| <= MAX_DYN_MSG_SIZE
    ensures Expand(['$', '{'] + n + ['}'], ce) == Done(value)
  {
    NoNul(n);
    AttributeFound(ce.attributes, n, i);
    assert MacroValue(ce, n) == value;
    hide MacroValue, AttributeValue, Expand, CString;
    ExpandOne(n, ce);
  }
}
