/** Sequences without repetitions, and sequences that only go down. */
module Sequences {
  ghost predicate Distinct<T>(s: seq<T>) {
    forall i, j :: 0 <= i < j < |s| ==> s[i] != s[j]
  }

  lemma DistinctAt<T>(s: seq<T>)
    requires Distinct(s)
    ensures forall i, j :: 0 <= i < j < |s| ==> s[i] != s[j]
  {
  }

  /** Integers that fall at every step and do not end below 0 are no more than the first one allows. */
  lemma {:induction false} Descent(ws: seq<int>)
    requires ws != [] && ws[|ws| - 1] >= 0 && forall i :: 0 <= i < |ws| - 1 ==> ws[i + 1] < ws[i]
    ensures |ws| - 1 <= ws[0]
  {
    if |ws| > 1 {
      var rest := ws[1..];
      forall i | 0 <= i < |rest| - 1 ensures rest[i + 1] < rest[i] {
        assert ws[i + 1 + 1] < ws[i + 1];
      }
      Descent(rest);
      assert ws[0 + 1] < ws[0];
    }
  }
}
