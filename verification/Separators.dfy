/** The texts that separate an attribute name from its id: "__" in old documents, "()" in new ones. */
module Separators {
  import opened Text
  import opened Dots

  /** s.replace("__", "()") */
  function Replaced(s: string): string {
    if |s| < 2 then s
    else if s[0] == '_' && s[1] == '_' then "()" + Replaced(s[2..])
    else [s[0]] + Replaced(s[1..])
  }

  /** s.replace("()", "__") */
  function Restored(s: string): string {
    if |s| < 2 then s
    else if s[0] == '(' && s[1] == ')' then "__" + Restored(s[2..])
    else [s[0]] + Restored(s[1..])
  }

  /** base_name: what is before the first "()" */
  function BaseName(s: string): string {
    if s == [] || (|s| >= 2 && s[0] == '(' && s[1] == ')') then [] else [s[0]] + BaseName(s[1..])
  }

  /** The two characters stand in the text, one right after the other. */
  predicate Has(s: string, a: char, b: char) {
    exists i :: 0 <= i < |s| - 1 && Pair(s, i, a, b)
  }

  predicate Pair(s: string, i: int, a: char, b: char) {
    0 <= i < |s| - 1 && s[i] == a && s[i + 1] == b
  }

  lemma TailHas(s: string, a: char, b: char, k: nat)
    requires k <= |s| && !Has(s, a, b)
    ensures !Has(s[k..], a, b)
  {
    if Has(s[k..], a, b) {
      var i :| 0 <= i < |s[k..]| - 1 && Pair(s[k..], i, a, b);
      assert Pair(s, i + k, a, b);
    }
  }

  /** The first character of a replaced text. */
  lemma ReplacedHead(s: string)
    ensures |Replaced(s)| == 0 <==> s == []
    ensures s != [] ==> Replaced(s)[0] == if |s| >= 2 && s[0] == '_' && s[1] == '_' then '(' else s[0]
  {
  }

  /** Replacing leaves no "__". */
  lemma {:induction false} NothingLeft(s: string)
    ensures !Has(Replaced(s), '_', '_')
  {
    if |s| >= 2 {
      var r := Replaced(s);
      if s[0] == '_' && s[1] == '_' {
        NothingLeft(s[2..]);
        ConsTwo(Replaced(s[2..]));
      } else {
        NothingLeft(s[1..]);
        ReplacedHead(s[1..]);
        ConsOne(s[0], Replaced(s[1..]));
      }
    }
  }

  lemma ConsOne(c: char, t: string)
    requires !Has(t, '_', '_') && (c == '_' && t != [] ==> t[0] != '_')
    ensures !Has([c] + t, '_', '_')
  {
    var s := [c] + t;
    forall i | 0 <= i < |s| - 1 ensures !Pair(s, i, '_', '_') {
      if i > 0 {
        assert s[i] == t[i - 1] && s[i + 1] == t[i];
        assert !Pair(t, i - 1, '_', '_');
      }
    }
  }

  lemma ConsTwo(t: string)
    requires !Has(t, '_', '_')
    ensures !Has("()" + t, '_', '_')
  {
    var s := "()" + t;
    forall i | 0 <= i < |s| - 1 ensures !Pair(s, i, '_', '_') {
      if i > 1 {
        assert s[i] == t[i - 2] && s[i + 1] == t[i - 1];
        assert !Pair(t, i - 2, '_', '_');
      }
    }
  }

  /** Where there was no "()", the replacement can be undone; so it loses nothing. */
  lemma {:induction false} RestoreReplaced(s: string)
    requires !Has(s, '(', ')')
    ensures Restored(Replaced(s)) == s
  {
    if |s| >= 2 {
      if s[0] == '_' && s[1] == '_' {
        TailHas(s, '(', ')', 2);
        RestoreReplaced(s[2..]);
        var r := Replaced(s);
        assert r[2..] == Replaced(s[2..]) && r[0] == '(' && r[1] == ')';
        assert s == "__" + s[2..];
      } else {
        TailHas(s, '(', ')', 1);
        RestoreReplaced(s[1..]);
        ReplacedHead(s[1..]);
        var r := Replaced(s);
        assert r[1..] == Replaced(s[1..]);
        assert !Pair(s, 0, '(', ')');
        assert s == [s[0]] + s[1..];
      }
    }
  }

  lemma ReplacedInjective(s: string, t: string)
    requires !Has(s, '(', ')') && !Has(t, '(', ')') && Replaced(s) == Replaced(t)
    ensures s == t
  {
    RestoreReplaced(s);
    RestoreReplaced(t);
  }

  /** A text without "__" is not changed. */
  lemma {:induction false} ReplacedSame(s: string)
    requires !Has(s, '_', '_')
    ensures Replaced(s) == s
  {
    if |s| >= 2 {
      assert !Pair(s, 0, '_', '_');
      TailHas(s, '_', '_', 1);
      ReplacedSame(s[1..]);
      assert s == [s[0]] + s[1..];
    }
  }

  lemma ReplacedStep(c: char, s: string)
    requires s != [] && !(c == '_' && s[0] == '_')
    ensures Replaced([c] + s) == [c] + Replaced(s)
  {
    assert ([c] + s)[1..] == s;
  }

  lemma ReplacedSeparator(s: string)
    ensures Replaced("__" + s) == "()" + Replaced(s)
  {
    assert ("__" + s)[2..] == s;
  }

  /** A name that has no "__" and does not end with '_' keeps its place before the separator. */
  lemma {:induction false} ReplacedKey(name: string, id: string)
    requires name != [] && !Has(name, '_', '_') && name[|name| - 1] != '_'
    ensures Replaced(name + "__" + id) == name + "()" + Replaced(id)
    decreases |name|
  {
    hide Replaced;
    var c, rest := name[0], name[1..];
    assert name == [c] + rest;
    assert name + "__" + id == [c] + (rest + "__" + id);
    if rest == [] {
      assert rest + "__" + id == "__" + id;
      ReplacedSeparator(id);
    } else {
      assert !Pair(name, 0, '_', '_');
      TailHas(name, '_', '_', 1);
      ReplacedKey(rest, id);
    }
    ReplacedStep(c, rest + "__" + id);
  }

  lemma {:induction false} BaseOfPlain(s: string)
    requires !Has(s, '(', ')')
    ensures BaseName(s) == s
  {
    if s != [] {
      assert |s| >= 2 ==> !Pair(s, 0, '(', ')');
      TailHas(s, '(', ')', 1);
      BaseOfPlain(s[1..]);
      assert s == [s[0]] + s[1..];
    }
  }

  lemma {:induction false} BaseOfKey(name: string, rest: string)
    requires !Has(name, '(', ')')
    ensures BaseName(name + "()" + rest) == name
    decreases |name|
  {
    var s := name + "()" + rest;
    if name != [] {
      assert |name| >= 2 ==> !Pair(name, 0, '(', ')');
      TailHas(name, '(', ')', 1);
      BaseOfKey(name[1..], rest);
      assert s[1..] == name[1..] + "()" + rest;
      assert name == [name[0]] + name[1..];
    }
  }

  /** The base name ends at the first "()", or is the whole text. */
  lemma {:induction false} BaseEnds(s: string)
    ensures |BaseName(s)| <= |s| && BaseName(s) == s[..|BaseName(s)|]
    ensures |BaseName(s)| < |s| ==> Pair(s, |BaseName(s)|, '(', ')')
    ensures forall i :: 0 <= i < |BaseName(s)| ==> !Pair(s, i, '(', ')')
  {
    var b := BaseName(s);
    if b != [] {
      BaseEnds(s[1..]);
      forall i | 0 <= i < |b| ensures !Pair(s, i, '(', ')') {
        if i > 0 && Pair(s, i, '(', ')') {
          assert Pair(s[1..], i - 1, '(', ')');
        }
      }
    }
  }

  lemma {:induction false} ReplacedLength(s: string)
    ensures |Replaced(s)| == |s|
  {
    if |s| >= 2 {
      if s[0] == '_' && s[1] == '_' {
        ReplacedLength(s[2..]);
      } else {
        ReplacedLength(s[1..]);
      }
    }
  }

  /** Where there was a "__" there is a "()" afterwards, there or before. */
  lemma {:induction false} ReplacedBefore(s: string, p: nat) returns (q: nat)
    requires Pair(s, p, '_', '_')
    ensures q <= p && Pair(Replaced(s), q, '(', ')')
    decreases |s|
  {
    var r := Replaced(s);
    if s[0] == '_' && s[1] == '_' {
      q := 0;
    } else {
      var q' := ReplacedBefore(s[1..], p - 1);
      q := q' + 1;
      assert r[1..] == Replaced(s[1..]);
    }
  }

  /** Dots and equal signs do not meet the separators. */
  lemma DotsApart(s: string, a: char, b: char)
    requires a !in ".=" && b !in ".="
    ensures Has(DotForEq(s), a, b) <==> Has(s, a, b)
  {
    var d := DotForEq(s);
    forall i | 0 <= i < |s| - 1 ensures Pair(d, i, a, b) <==> Pair(s, i, a, b) {}
  }
}
