/** MongoDB allows no dots in keys, so they are stored as equal signs. */
module Dots {
  function DotForEq(s: string): (r: string)
    ensures |r| == |s|
    ensures forall i :: 0 <= i < |s| ==> r[i] == if s[i] == '.' then '=' else s[i]
  {
    seq(|s|, i requires 0 <= i < |s| => if s[i] == '.' then '=' else s[i])
  }

  function EqForDot(s: string): (r: string)
    ensures |r| == |s|
    ensures forall i :: 0 <= i < |s| ==> r[i] == if s[i] == '=' then '.' else s[i]
  {
    seq(|s|, i requires 0 <= i < |s| => if s[i] == '=' then '.' else s[i])
  }

  /** The key comes back from its dot form exactly when it has no dot. */
  lemma DotRoundTrip(key: string)
    ensures DotForEq(EqForDot(key)) == key <==> '.' !in key
  {
    if '.' in key {
      var i :| 0 <= i < |key| && key[i] == '.';
      assert DotForEq(EqForDot(key))[i] == '=';
    }
  }

  /** The dot forms of two keys without dots are different when the keys are; and a key with a dot has the dot form
      of another key. */
  lemma DotFormsDiffer(a: string, b: string)
    ensures '.' !in a && '.' !in b && EqForDot(a) == EqForDot(b) ==> a == b
    ensures '.' in a ==> DotForEq(a) != a && EqForDot(DotForEq(a)) == EqForDot(a)
  {
    if '.' !in a && '.' !in b {
      DotRoundTrip(a);
      DotRoundTrip(b);
    }
    if '.' in a {
      var i :| 0 <= i < |a| && a[i] == '.';
      assert DotForEq(a)[i] == '=';
      assert EqForDot(DotForEq(a)) == EqForDot(a);
    }
  }
}
