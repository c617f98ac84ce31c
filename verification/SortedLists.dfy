/** Sorting by a string key, as Python's sort and sorted do it. */
module SortedLists {
  import opened Text

  ghost predicate Ordered<T>(s: seq<T>, key: T -> string) {
    forall i, j :: 0 <= i < j < |s| ==> LexLe(key(s[i]), key(s[j]))
  }

  ghost predicate Injective<A(!new), B>(f: A -> B) {
    forall x, y :: f(x) == f(y) ==> x == y
  }

  function Insert<T>(x: T, s: seq<T>, key: T -> string): seq<T> {
    if s == [] then [x]
    else if LexLe(key(s[0]), key(x)) then [s[0]] + Insert(x, s[1..], key)
    else [x] + s
  }

  function Sorted<T>(s: seq<T>, key: T -> string): seq<T> {
    if s == [] then [] else Insert(s[|s| - 1], Sorted(s[..|s| - 1], key), key)
  }

  lemma {:induction false} InsertMultiset<T>(x: T, s: seq<T>, key: T -> string)
    ensures multiset(Insert(x, s, key)) == multiset(s) + multiset{x}
  {
    if s != [] {
      assert s == [s[0]] + s[1..];
      if LexLe(key(s[0]), key(x)) {
        InsertMultiset(x, s[1..], key);
      }
    }
  }

  /** Sorting neither loses nor invents anything. */
  lemma {:induction false} SortedMultiset<T>(s: seq<T>, key: T -> string)
    ensures multiset(Sorted(s, key)) == multiset(s)
  {
    if s != [] {
      var u, x := s[..|s| - 1], s[|s| - 1];
      assert s == u + [x];
      SortedMultiset(u, key);
      InsertMultiset(x, Sorted(u, key), key);
    }
  }

  lemma OrderedCons<T>(x: T, s: seq<T>, key: T -> string)
    requires Ordered(s, key) && forall y :: y in s ==> LexLe(key(x), key(y))
    ensures Ordered([x] + s, key)
  {
    hide LexLe;
    var t := [x] + s;
    forall i, j | 0 <= i < j < |t| ensures LexLe(key(t[i]), key(t[j])) {
      assert t[j] == s[j - 1] && s[j - 1] in s;
    }
  }

  lemma OrderedTail<T>(s: seq<T>, key: T -> string)
    requires Ordered(s, key) && s != []
    ensures Ordered(s[1..], key) && forall y :: y in s[1..] ==> LexLe(key(s[0]), key(y))
  {
    hide LexLe;
    forall y | y in s[1..] ensures LexLe(key(s[0]), key(y)) {
      var i :| 0 <= i < |s[1..]| && s[1..][i] == y;
      assert s[i + 1] == y;
    }
  }

  lemma {:induction false} InsertOrdered<T>(x: T, s: seq<T>, key: T -> string)
    requires Ordered(s, key)
    ensures Ordered(Insert(x, s, key), key)
  {
    if s != [] {
      OrderedTail(s, key);
      LexTotal(key(s[0]), key(x));
      if LexLe(key(s[0]), key(x)) {
        InsertOrdered(x, s[1..], key);
        InsertMultiset(x, s[1..], key);
        hide LexLe, Ordered;
        forall y | y in Insert(x, s[1..], key) ensures LexLe(key(s[0]), key(y)) {
          assert y in multiset(Insert(x, s[1..], key));
          assert y == x || y in s[1..];
        }
        OrderedCons(s[0], Insert(x, s[1..], key), key);
      } else {
        forall y | y in s ensures LexLe(key(x), key(y)) {
          hide LexLe, Ordered;
          if y != s[0] {
            assert s == [s[0]] + s[1..];
            LexTransitive(key(x), key(s[0]), key(y));
          }
        }
        OrderedCons(x, s, key);
      }
    }
  }

  lemma {:induction false} SortedOrdered<T>(s: seq<T>, key: T -> string)
    ensures Ordered(Sorted(s, key), key)
  {
    if s != [] {
      SortedOrdered(s[..|s| - 1], key);
      InsertOrdered(s[|s| - 1], Sorted(s[..|s| - 1], key), key);
    }
  }

  /** With a key that tells elements apart there is only one order. */
  lemma {:induction false} OrderedUnique<T(!new)>(a: seq<T>, b: seq<T>, key: T -> string)
    requires Ordered(a, key) && Ordered(b, key) && multiset(a) == multiset(b) && Injective(key)
    ensures a == b
  {
    SameLength(a, b);
    if a != [] {
      OrderedTail(a, key);
      OrderedTail(b, key);
      hide Ordered, LexLe, Injective;
      FirstIsLeast(a, b, key);
      SameRest(a, b);
      OrderedUnique(a[1..], b[1..], key);
      assert a == [a[0]] + a[1..] && b == [b[0]] + b[1..];
    }
  }

  lemma SameLength<T>(a: seq<T>, b: seq<T>)
    requires multiset(a) == multiset(b)
    ensures |a| == |b|
  {
    assert |multiset(a)| == |a| && |multiset(b)| == |b|;
  }

  lemma SameRest<T>(a: seq<T>, b: seq<T>)
    requires multiset(a) == multiset(b) && a != [] && b != [] && a[0] == b[0]
    ensures multiset(a[1..]) == multiset(b[1..])
  {
    assert a == [a[0]] + a[1..] && b == [b[0]] + b[1..];
    assert multiset(a[1..]) == multiset(a) - multiset{a[0]};
  }

  lemma FirstIsLeast<T(!new)>(a: seq<T>, b: seq<T>, key: T -> string)
    requires a != [] && b != [] && multiset(a) == multiset(b) && Injective(key)
    requires forall y :: y in a[1..] ==> LexLe(key(a[0]), key(y))
    requires forall y :: y in b[1..] ==> LexLe(key(b[0]), key(y))
    ensures a[0] == b[0]
  {
    assert a == [a[0]] + a[1..] && b == [b[0]] + b[1..];
    assert a[0] in multiset(b) && b[0] in multiset(a);
    hide LexLe;
    if a[0] != b[0] {
      assert a[0] in b[1..] && b[0] in a[1..];
      LexAntisymmetric(key(a[0]), key(b[0]));
    }
  }

  /** Two lists are sorted to the same list exactly when one is a reordering of the other. */
  lemma SameSorted<T(!new)>(a: seq<T>, b: seq<T>, key: T -> string)
    requires Injective(key)
    ensures Sorted(a, key) == Sorted(b, key) <==> multiset(a) == multiset(b)
  {
    SortedMultiset(a, key);
    SortedMultiset(b, key);
    SortedOrdered(a, key);
    SortedOrdered(b, key);
    if multiset(a) == multiset(b) {
      OrderedUnique(Sorted(a, key), Sorted(b, key), key);
    }
  }
}
