/** String searching as std::string does it, and the ordering of std::map keys. */
module Text {
  datatype Option<+T> = None | Some(value: T)

  predicate IsDigit(c: char) {
    '0' <= c <= '9'
  }

  predicate OccursAt(s: string, pat: string, p: nat) {
    p + |pat| <= |s| && forall i :: 0 <= i < |pat| ==> s[p + i] == pat[i]
  }

  predicate Contains(s: string, pat: string) {
    exists p: nat :: p <= |s| && OccursAt(s, pat, p)
  }

  /** std::string::find(pat, from): the first occurrence at or after `from`. */
  function Find(s: string, pat: string, from: nat): (r: Option<nat>)
    ensures r.Some? ==> from <= r.value && r.value + |pat| <= |s| && OccursAt(s, pat, r.value)
    ensures r.Some? ==> forall j :: from <= j < r.value ==> !OccursAt(s, pat, j)
    ensures r.None? ==> forall j :: from <= j ==> !OccursAt(s, pat, j)
    decreases |s| - from
  {
    if from + |pat| > |s| then None
    else if OccursAt(s, pat, from) then Some(from)
    else Find(s, pat, from + 1)
  }

  /** What a C function sees of a string: everything before the first NUL. */
  function CString(s: string): (r: string)
    ensures r <= s && '\0' !in r
    ensures |r| < |s| ==> s[|r|] == '\0'
  {
    if s == [] || s[0] == '\0' then [] else [s[0]] + CString(s[1..])
  }

  /** An occurrence in a concatenation lies in the left part, in the right part, or across the seam. */
  lemma OccursInConcat(a: string, b: string, pat: string, p: nat)
    requires OccursAt(a + b, pat, p)
    ensures p + |pat| <= |a| ==> OccursAt(a, pat, p)
    ensures p >= |a| ==> OccursAt(b, pat, p - |a|)
  {
    if p >= |a| {
      forall i | 0 <= i < |pat| ensures b[p - |a| + i] == pat[i] {
        assert (a + b)[p + i] == pat[i];
      }
    }
  }

  // ---- the order in which std::map<std::string, ...> visits its keys ----

  predicate LexLe(a: string, b: string) {
    a == [] || (b != [] && (a[0] < b[0] || (a[0] == b[0] && LexLe(a[1..], b[1..]))))
  }

  lemma {:induction false} LexTotal(a: string, b: string)
    ensures LexLe(a, b) || LexLe(b, a)
  {
    if a != [] && b != [] && a[0] == b[0] {
      LexTotal(a[1..], b[1..]);
    }
  }

  lemma {:induction false} LexAntisymmetric(a: string, b: string)
    requires LexLe(a, b) && LexLe(b, a)
    ensures a == b
  {
    if a != [] {
      LexAntisymmetric(a[1..], b[1..]);
      assert a == [a[0]] + a[1..] == b;
    }
  }

  lemma {:induction false} LexTransitive(a: string, b: string, c: string)
    requires LexLe(a, b) && LexLe(b, c)
    ensures LexLe(a, c)
  {
    if a != [] && a[0] == b[0] == c[0] {
      LexTransitive(a[1..], b[1..], c[1..]);
    }
  }

  predicate IsLeast(k: string, keys: set<string>) {
    k in keys && forall j :: j in keys ==> LexLe(k, j)
  }

  lemma {:induction false} LeastExists(keys: set<string>) returns (k: string)
    requires keys != {}
    ensures IsLeast(k, keys)
    decreases keys
  {
    var x :| x in keys;
    var rest := keys - {x};
    if rest == {} {
      k := x;
      LexTotal(x, x);
      assert keys == {x};
    } else {
      var y := LeastExists(rest);
      LexTotal(x, y);
      LexTotal(x, x);
      k := if LexLe(x, y) then x else y;
      forall j | j in keys ensures LexLe(k, j) {
        if j != x && k == x {
          LexTransitive(x, y, j);
        }
      }
    }
  }

  predicate StrictlySorted(ks: seq<string>) {
    forall i, j :: 0 <= i < j < |ks| ==> LexLe(ks[i], ks[j]) && ks[i] != ks[j]
  }

  /** The keys of a std::map in iteration order: every key once, ascending. */
  function SortedKeys(keys: set<string>): (ks: seq<string>)
    ensures forall k :: k in ks <==> k in keys
    ensures StrictlySorted(ks)
    decreases keys
  {
    if keys == {} then []
    else
      var k := Least(keys);
      [k] + SortedKeys(keys - {k})
  }

  function Least(keys: set<string>): (k: string)
    requires keys != {}
    ensures IsLeast(k, keys)
  {
    assert exists k :: IsLeast(k, keys) by {
      var k := LeastExists(keys);
    }
    assert forall a, b | IsLeast(a, keys) && IsLeast(b, keys) :: a == b by {
      forall a, b | IsLeast(a, keys) && IsLeast(b, keys) ensures a == b {
        LexAntisymmetric(a, b);
      }
    }
    var k :| k in keys && IsLeast(k, keys);
    k
  }
}
