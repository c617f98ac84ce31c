/** The find-and-replace loops and the size computation, for arbitrary values: occurrences of macro texts overlap
    only where one name is nested at the end of another, so in a safe order every find succeeds and the computed
    size is exact. */
module MacroReplacement {
  import opened Sequences
  import opened MacroTemplate
  import opened Sums
  import opened Text

  // ---- the two computations of the code ----

  function Shrink(counts: map<string, nat>): string -> int {
    k => if k in counts then (|k| + 3) * counts[k] else 0
  }

  function Grow(counts: map<string, nat>, ce: ContextElement): string -> int {
    k => if k in counts then |MacroValue(ce, k)| * counts[k] else 0
  }

  function Splice(s: string, p: nat, len: nat, value: string): string
    requires p + len <= |s|
  {
    s[..p] + value + s[p + len..]
  }

  /** `to->replace(to->find(macro), ...)` repeated; None is the exception thrown when find fails. */
  function ReplaceTimes(to: string, macro: string, value: string, times: nat): Option<string>
    decreases times
  {
    if times == 0 then Some(to)
    else match Find(to, macro, 0)
      case None => None
      case Some(p) => ReplaceTimes(Splice(to, p, |macro|, value), macro, value, times - 1)
  }

  function ReplaceAll(to: string, order: seq<string>, counts: map<string, nat>, ce: ContextElement): Option<string>
    requires forall k :: k in order ==> k in counts
    decreases |order|
  {
    if order == [] then Some(to)
    else match ReplaceTimes(to, MacroText(order[0]), MacroValue(ce, order[0]), counts[order[0]])
      case None => None
      case Some(t) => ReplaceAll(t, order[1..], counts, ce)
  }

  lemma ReplaceAllStep(to: string, order: seq<string>, i: nat, counts: map<string, nat>, ce: ContextElement)
    requires i < |order| && forall k :: k in order ==> k in counts
    ensures var r := ReplaceTimes(to, MacroText(order[i]), MacroValue(ce, order[i]), counts[order[i]]);
      ReplaceAll(to, order[i..], counts, ce) == if r.None? then None else ReplaceAll(r.value, order[i + 1..], counts, ce)
  {
    assert order[i..][1..] == order[i + 1..];
  }

  lemma ReplaceAllEnd(to: string, order: seq<string>, counts: map<string, nat>, ce: ContextElement)
    requires order == []
    ensures ReplaceAll(to, order, counts, ce) == Some(to)
  {
  }

  lemma ReplaceTimesRound(to: string, macro: string, value: string, times: nat)
    requires times > 0
    ensures var p := Find(to, macro, 0);
      ReplaceTimes(to, macro, value, times) ==
      if p.None? then None else ReplaceTimes(Splice(to, p.value, |macro|, value), macro, value, times - 1)
  {
  }

  lemma ReplaceTimesEnd(to: string, macro: string, value: string)
    ensures ReplaceTimes(to, macro, value, 0) == Some(to)
  {
  }

  // ---- how occurrences of macro texts can overlap ----

  /** A name the scan can produce. */
  predicate Closed(name: string) {
    '}' !in name
  }

  /** `k` ends with "${" and `n`, so that the text of macro `k` ends with the text of macro `n`. */
  predicate Within(n: string, k: string) {
    |k| >= |n| + 2 && OpensAt(k, |k| - |n| - 2) && forall i :: 0 <= i < |n| ==> k[|k| - |n| + i] == n[i]
  }

  lemma MacroTextAt(s: string, name: string, p: nat)
    requires OccursAt(s, MacroText(name), p)
    ensures p + |name| + 3 <= |s|
    ensures s[p] == '$' && s[p + 1] == '{' && s[p + 2 + |name|] == '}'
    ensures forall i :: 0 <= i < |name| ==> s[p + 2 + i] == name[i]
  {
    var m := MacroText(name);
    assert m[0] == '$' && m[1] == '{' && m[2 + |name|] == '}';
    assert s[p + 0] == m[0] && s[p + 1] == m[1] && s[p + (2 + |name|)] == m[2 + |name|];
    forall i | 0 <= i < |name| ensures s[p + 2 + i] == name[i] {
      assert s[p + (2 + i)] == m[2 + i];
    }
  }

  lemma ClosingAfterName(s: string, k: nat, name: string)
    requires k + |name| < |s| && s[k + |name|] == '}' && '}' !in name
    requires forall i :: 0 <= i < |name| ==> s[k + i] == name[i]
    ensures FindClosing(s, k) == Some(k + |name|)
  {
    forall j | k <= j < k + |name| ensures s[j] != '}' {
      assert s[k + (j - k)] == name[j - k];
    }
  }

  /** Two macro texts that share a character are the same occurrence, or end together with the second name at the
      end of the first. */
  lemma Overlap(s: string, n: string, p: nat, k: string, q: nat)
    requires Closed(n) && Closed(k)
    requires OccursAt(s, MacroText(n), p) && OccursAt(s, MacroText(k), q)
    requires p <= q < p + |n| + 3
    ensures q + |k| == p + |n|
    ensures if p == q then n == k else Within(k, n)
  {
    MacroTextAt(s, n, p);
    MacroTextAt(s, k, q);
    ClosingAfterName(s, p + 2, n);
    ClosingAfterName(s, q + 2, k);
    assert q != p + 1 && q != p + |n| + 2 && q != p + |n| + 1;
    var d := q - p;
    if p < q {
      assert s[p + 2 + (d - 2)] == n[d - 2];
      assert q + 2 <= p + 2 + |n|;
      assert FindClosing(s, q + 2) == Some(p + 2 + |n|) by {
        forall j | q + 2 <= j < p + 2 + |n| ensures s[j] != '}' {
          assert s[p + 2 + (j - p - 2)] == n[j - p - 2];
        }
      }
      assert |n| - |k| - 2 == d - 2;
      assert s[p + 2 + (d - 2)] == n[d - 2] && s[p + 2 + (d - 1)] == n[d - 1];
      forall i | 0 <= i < |k| ensures n[|n| - |k| + i] == k[i] {
        assert s[p + 2 + (d + i)] == n[d + i] && s[q + 2 + i] == k[i];
      }
    } else {
      assert |n| == |k|;
      forall i | 0 <= i < |n| ensures n[i] == k[i] {
        assert s[p + 2 + i] == n[i];
      }
    }
  }

  /** The number of positions at which `m` occurs in `s`. */
  function Count(s: string, m: string): nat {
    if s == [] then 0 else (if OccursAt(s, m, 0) then 1 else 0) + Count(s[1..], m)
  }

  lemma OccursInTail(s: string, m: string, p: nat)
    requires s != []
    ensures OccursAt(s[1..], m, p) <==> OccursAt(s, m, p + 1)
  {
    if OccursAt(s, m, p + 1) {
      forall i | 0 <= i < |m| ensures s[1..][p + i] == m[i] {
        assert s[p + 1 + i] == m[i];
      }
    }
    if OccursAt(s[1..], m, p) {
      forall i | 0 <= i < |m| ensures s[p + 1 + i] == m[i] {
        assert s[1..][p + i] == m[i];
      }
    }
  }

  lemma {:induction false} CountZero(s: string, m: string)
    requires forall p: nat :: p < |s| ==> !OccursAt(s, m, p)
    ensures Count(s, m) == 0
  {
    if s != [] {
      forall p: nat | p < |s[1..]| ensures !OccursAt(s[1..], m, p) {
        OccursInTail(s, m, p);
      }
      CountZero(s[1..], m);
    }
  }

  lemma {:induction false} CountSuper(a: string, b: string, m: string)
    ensures Count(a + b, m) >= Count(a, m) + Count(b, m)
  {
    if a == [] {
      assert a + b == b;
    } else {
      assert (a + b)[1..] == a[1..] + b;
      CountSuper(a[1..], b, m);
    }
  }

  /** When no occurrence straddles the seam, the counts add up exactly. */
  lemma {:induction false} CountSplit(a: string, b: string, m: string)
    requires forall p: nat :: p < |a| < p + |m| ==> !OccursAt(a + b, m, p)
    ensures Count(a + b, m) == Count(a, m) + Count(b, m)
  {
    if a == [] {
      assert a + b == b;
    } else {
      assert (a + b)[1..] == a[1..] + b;
      forall p: nat | p < |a[1..]| < p + |m| ensures !OccursAt(a[1..] + b, m, p) {
        OccursInTail(a + b, m, p);
        assert p + 1 < |a| < p + 1 + |m|;
      }
      CountSplit(a[1..], b, m);
      assert OccursAt(a + b, m, 0) ==> OccursAt(a, m, 0) by {
        if OccursAt(a + b, m, 0) {
          assert !(0 < |a| < 0 + |m|);
          OccursInConcat(a, b, m, 0);
        }
      }
    }
  }

  lemma MacroTextOccurs(n: string, b: string)
    ensures OccursAt(MacroText(n) + b, MacroText(n), 0)
  {
  }

  lemma {:induction false} CountAtMostOne(s: string, m: string, q: nat)
    requires forall p: nat :: p < |s| && OccursAt(s, m, p) ==> p == q
    ensures Count(s, m) <= 1
  {
    if s != [] {
      if q == 0 {
        forall p: nat | p < |s[1..]| ensures !OccursAt(s[1..], m, p) {
          OccursInTail(s, m, p);
        }
        CountZero(s[1..], m);
      } else {
        forall p: nat | p < |s[1..]| && OccursAt(s[1..], m, p) ensures p == q - 1 {
          OccursInTail(s, m, p);
        }
        CountAtMostOne(s[1..], m, q - 1);
      }
    }
  }

  /** How often the text of macro `k` occurs in that of macro `n`. */
  function Inside(k: string, n: string): nat {
    if k == n || Within(k, n) then 1 else 0
  }

  lemma CountInside(n: string, k: string)
    requires Closed(n) && Closed(k)
    ensures Count(MacroText(n), MacroText(k)) == Inside(k, n)
  {
    var m, m' := MacroText(n), MacroText(k);
    MacroTextOccurs(n, []);
    assert m + [] == m;
    forall p: nat | p < |m| && OccursAt(m, m', p) ensures p + |k| == |n| && Inside(k, n) == 1 {
      Overlap(m, n, 0, k, p);
    }
    if Inside(k, n) == 1 {
      InsideOccurs(n, k);
      CountPositive(m, m', |n| - |k|);
      CountAtMostOne(m, m', |n| - |k|);
    } else {
      CountZero(m, m');
    }
  }

  lemma InsideOccurs(n: string, k: string)
    requires Inside(k, n) == 1
    ensures |k| <= |n| && OccursAt(MacroText(n), MacroText(k), |n| - |k|)
  {
    var m, m' := MacroText(n), MacroText(k);
    var d := |n| - |k|;
    forall i | 0 <= i < |m'| ensures m[d + i] == m'[i] {
      if k != n && 2 <= i < |k| + 2 {
        assert n[|n| - |k| + (i - 2)] == k[i - 2];
      }
    }
  }

  lemma {:induction false} CountPositive(s: string, m: string, p: nat)
    requires p < |s| && OccursAt(s, m, p)
    ensures Count(s, m) > 0
    decreases |s|
  {
    if p > 0 {
      OccursInTail(s, m, p - 1);
      CountPositive(s[1..], m, p - 1);
    }
  }

  lemma CountAround(a: string, n: string, b: string, k: string)
    requires Closed(n) && Closed(k) && !Within(n, k)
    ensures Count(a + (MacroText(n) + b), MacroText(k)) == Count(a, MacroText(k)) + Inside(k, n) + Count(b, MacroText(k))
  {
    var m, m' := MacroText(n), MacroText(k);
    MacroTextOccurs(n, b);
    forall p: nat | p < |m| < p + |m'| ensures !OccursAt(m + b, m', p) {
      if OccursAt(m + b, m', p) {
        Overlap(m + b, n, 0, k, p);
      }
    }
    CountSplit(m, b, m');
    CountInside(n, k);
    var s := a + (m + b);
    assert OccursAt(s, m, |a|) by {
      forall i | 0 <= i < |m| ensures s[|a| + i] == m[i] {}
    }
    forall p: nat | p < |a| < p + |m'| ensures !OccursAt(s, m', p) {
      if OccursAt(s, m', p) {
        Overlap(s, k, p, n, |a|);
      }
    }
    CountSplit(a, m + b, m');
  }

  /** Replacing one occurrence of macro `n` destroys at most one occurrence of a macro that is not built on it, and
      only if it is the same or nested in it; whatever the value is. */
  lemma SpliceKeepsCounts(to: string, n: string, p: nat, value: string, k: string)
    requires Closed(n) && Closed(k) && !Within(n, k)
    requires OccursAt(to, MacroText(n), p)
    ensures Count(Splice(to, p, |n| + 3, value), MacroText(k)) >= Count(to, MacroText(k)) - Inside(k, n)
  {
    var a, b := to[..p], to[p + |n| + 3..];
    CutAt(to, n, p);
    hide *;
    CountAround(a, n, b, k);
    CountSuper(a + value, b, MacroText(k));
    CountSuper(a, value, MacroText(k));
    SpliceIs(to, p, |n| + 3, value);
  }

  lemma CutAt(to: string, n: string, p: nat)
    requires OccursAt(to, MacroText(n), p)
    ensures p + |n| + 3 <= |to| && to == to[..p] + (MacroText(n) + to[p + |n| + 3..])
  {
    assert to[p..p + |n| + 3] == MacroText(n);
  }

  lemma SpliceIs(s: string, p: nat, len: nat, value: string)
    requires p + len <= |s|
    ensures Splice(s, p, len, value) == s[..p] + value + s[p + len..]
  {
  }

  lemma {:induction false} CountZeroIfAbsent(s: string, m: string)
    requires Count(s, m) > 0
    ensures Find(s, m, 0).Some?
  {
    if Find(s, m, 0).None? {
      CountZero(s, m);
    }
  }

  lemma NotWithinItself(n: string)
    ensures !Within(n, n) && Inside(n, n) == 1
  {
  }

  /** The inner replacement loop: every find succeeds, the other macros lose no more than what was nested, and the
      length is exact. */
  lemma {:induction false} ReplaceTimesSucceeds(to: string, n: string, value: string, times: nat)
    requires Closed(n) && Count(to, MacroText(n)) >= times
    ensures ReplaceTimes(to, MacroText(n), value, times).Some?
    ensures |ReplaceTimes(to, MacroText(n), value, times).value| == |to| + times * (|value| - (|n| + 3))
    ensures forall k :: Closed(k) && !Within(n, k) ==>
      Count(ReplaceTimes(to, MacroText(n), value, times).value, MacroText(k)) >= Count(to, MacroText(k)) - times * Inside(k, n)
    decreases times
  {
    hide ReplaceTimes, Count, Find, Splice, Within, Inside, Closed;
    if times == 0 {
      ReplaceTimesEnd(to, MacroText(n), value);
    } else {
      CountZeroIfAbsent(to, MacroText(n));
      var p := Find(to, MacroText(n), 0).value;
      var t := Splice(to, p, |MacroText(n)|, value);
      ReplaceTimesRound(to, MacroText(n), value, times);
      NotWithinItself(n);
      SpliceKeepsCounts(to, n, p, value, n);
      SpliceLength(to, p, |MacroText(n)|, value);
      ReplaceTimesSucceeds(t, n, value, times - 1);
      forall k | Closed(k) && !Within(n, k) ensures Count(t, MacroText(k)) >= Count(to, MacroText(k)) - Inside(k, n) {
        SpliceKeepsCounts(to, n, p, value, k);
      }
      Telescope(times, |value| - (|n| + 3));
      forall k ensures times * Inside(k, n) == Inside(k, n) + (times - 1) * Inside(k, n) {
        Telescope(times, Inside(k, n));
      }
    }
  }

  lemma Telescope(times: nat, x: int)
    ensures times * x == x + (times - 1) * x
  {
  }

  lemma SpliceLength(s: string, p: nat, len: nat, value: string)
    requires p + len <= |s|
    ensures |Splice(s, p, len, value)| == |s| - len + |value|
  {
  }

  /** No macro is replaced before one that is built on it. */
  ghost predicate SafeOrder(order: seq<string>) {
    forall i, j :: 0 <= i < j < |order| ==> !Within(order[i], order[j])
  }

  /** The occurrences of macro `k` that the rest of the replacement can use up: its own, and those nested in others. */
  function Needed(order: seq<string>, counts: map<string, nat>, k: string): nat
    requires forall n :: n in order ==> n in counts
  {
    if order == [] then 0 else counts[order[0]] * Inside(k, order[0]) + Needed(order[1..], counts, k)
  }

  lemma {:induction false} NeededAtLeast(order: seq<string>, counts: map<string, nat>, k: string)
    requires (forall n :: n in order ==> n in counts) && k in order
    ensures Needed(order, counts, k) >= counts[k]
  {
    if order[0] == k {
      NotWithinItself(k);
    } else {
      NeededAtLeast(order[1..], counts, k);
    }
  }

  /** The whole replacement, in any safe order of the macros. */
  lemma {:induction false} ReplaceAllSucceeds(to: string, order: seq<string>, counts: map<string, nat>, ce: ContextElement)
    requires Distinct(order) && SafeOrder(order)
    requires forall k :: k in order ==> k in counts
    requires forall k :: k in order ==> Closed(k) && Count(to, MacroText(k)) >= Needed(order, counts, k)
    ensures ReplaceAll(to, order, counts, ce).Some?
    ensures |ReplaceAll(to, order, counts, ce).value| == |to| + Sum(order, Grow(counts, ce)) - Sum(order, Shrink(counts))
    decreases |order|
  {
    if order != [] {
      var n := order[0];
      var v := MacroValue(ce, n);
      NeededAtLeast(order, counts, n);
      ReplaceTimesSucceeds(to, n, v, counts[n]);
      var t := ReplaceTimes(to, MacroText(n), v, counts[n]).value;
      forall k | k in order[1..] ensures Count(t, MacroText(k)) >= Needed(order[1..], counts, k) {
        var j :| 0 <= j < |order[1..]| && order[1..][j] == k;
        assert k == order[j + 1] && !Within(n, k);
      }
      ReplaceAllSucceeds(t, order[1..], counts, ce);
      assert counts[n] * (|v| - (|n| + 3)) == |v| * counts[n] - (|n| + 3) * counts[n];
    }
  }

  // ---- the size computation ----

  function ByKey(ps: seq<Piece>, w: string -> int): string -> int {
    k => w(k) * Occurrences(ps, k)
  }

  function PieceWeight(ps: seq<Piece>, w: string -> int): int {
    if ps == [] then 0 else (if ps[0].Macro? then w(ps[0].name) else 0) + PieceWeight(ps[1..], w)
  }

  lemma {:induction false} SumBump(order: seq<string>, f: string -> int, g: string -> int, n: string, d: int)
    requires Distinct(order)
    requires forall k :: k in order ==> f(k) == g(k) + (if k == n then d else 0)
    ensures Sum(order, f) == Sum(order, g) + (if n in order then d else 0)
  {
    if order != [] {
      SumBump(order[1..], f, g, n, d);
      assert order == [order[0]] + order[1..];
    }
  }

  lemma ByKeyStep(ps: seq<Piece>, w: string -> int, k: string)
    requires ps != []
    ensures ByKey(ps, w)(k) == ByKey(ps[1..], w)(k) + (if ps[0] == Macro(k) then w(k) else 0)
  {
    var o := Occurrences(ps[1..], k);
    assert w(k) * (1 + o) == w(k) + w(k) * o;
  }

  /** Adding up per distinct macro, weighted by its count, is adding up per occurrence. */
  lemma {:induction false} WeightByKey(ps: seq<Piece>, order: seq<string>, w: string -> int)
    requires Distinct(order)
    requires forall p :: p in ps && p.Macro? ==> p.name in order
    ensures Sum(order, ByKey(ps, w)) == PieceWeight(ps, w)
  {
    if ps == [] {
      SumZero(order, ByKey(ps, w));
    } else {
      WeightByKey(ps[1..], order, w);
      var d := if ps[0].Macro? then w(ps[0].name) else 0;
      var n := if ps[0].Macro? then ps[0].name else "";
      forall k | k in order ensures ByKey(ps, w)(k) == ByKey(ps[1..], w)(k) + (if k == n then d else 0) {
        ByKeyStep(ps, w, k);
      }
      SumBump(order, ByKey(ps, w), ByKey(ps[1..], w), n, d);
      assert ps[0] in ps;
    }
  }

  function NameWeight(): string -> int { k => |k| + 3 }

  function ValueWeight(ce: ContextElement): string -> int { k => |MacroValue(ce, k)| }

  lemma {:induction false} SubstitutedLength(ps: seq<Piece>, ce: ContextElement)
    ensures |Substituted(ps, ce)| == |Flat(ps)| - PieceWeight(ps, NameWeight()) + PieceWeight(ps, ValueWeight(ce))
    ensures 0 <= PieceWeight(ps, NameWeight()) <= |Flat(ps)|
  {
    if ps != [] {
      SubstitutedLength(ps[1..], ce);
    }
  }

  lemma SumSame(order: seq<string>, f: string -> int, g: string -> int)
    requires Distinct(order)
    requires forall k :: k in order ==> f(k) == g(k)
    ensures Sum(order, f) == Sum(order, g)
  {
    SumBump(order, f, g, "", 0);
  }

  lemma EnumeratesNames(ps: seq<Piece>, order: seq<string>)
    requires forall k :: k in order <==> k in Counts(ps)
    ensures forall p :: p in ps && p.Macro? ==> p.name in order
    ensures forall k :: k in order ==> Macro(k) in ps && Counts(ps)[k] == Occurrences(ps, k)
  {
    forall p | p in ps && p.Macro? ensures p.name in order {
      assert p.name in Names(ps);
    }
    forall k | k in order ensures Macro(k) in ps {
      NamesMember(ps, k);
    }
  }

  /** The precomputed size is the length of the simultaneous substitution, and toReduce never exceeds
      the length of the template, for every template and every entity. */
  lemma SizeIsExact(ps: seq<Piece>, order: seq<string>, ce: ContextElement)
    requires Distinct(order) && forall k :: k in order <==> k in Counts(ps)
    ensures 0 <= Sum(order, Shrink(Counts(ps))) <= |Flat(ps)|
    ensures |Flat(ps)| + Sum(order, Grow(Counts(ps), ce)) - Sum(order, Shrink(Counts(ps))) == |Substituted(ps, ce)|
  {
    EnumeratesNames(ps, order);
    WeightByKey(ps, order, NameWeight());
    WeightByKey(ps, order, ValueWeight(ce));
    SumSame(order, Shrink(Counts(ps)), ByKey(ps, NameWeight()));
    SumSame(order, Grow(Counts(ps), ce), ByKey(ps, ValueWeight(ce)));
    SubstitutedLength(ps, ce);
  }

  // ---- arbitrary values: every find succeeds ----

  ghost predicate ClosedNames(ps: seq<Piece>) {
    forall p :: p in ps && p.Macro? ==> Closed(p.name)
  }

  lemma {:induction false} CountAtLeastOccurrences(ps: seq<Piece>, n: string)
    requires Closed(n)
    ensures Count(Flat(ps), MacroText(n)) >= Occurrences(ps, n)
  {
    if ps != [] {
      CountAtLeastOccurrences(ps[1..], n);
      CountSuper(Show(ps[0]), Flat(ps[1..]), MacroText(n));
      CountInside(n, n);
    }
  }

  /** The weight of a macro is how often it can be mistaken for `k`. */
  function InsideWeight(k: string): string -> int { n => Inside(k, n) }

  lemma {:induction false} CountAtLeastInside(ps: seq<Piece>, k: string)
    requires Closed(k) && ClosedNames(ps)
    ensures Count(Flat(ps), MacroText(k)) >= PieceWeight(ps, InsideWeight(k))
  {
    if ps != [] {
      assert ps[0] in ps && forall p :: p in ps[1..] ==> p in ps;
      CountAtLeastInside(ps[1..], k);
      CountSuper(Show(ps[0]), Flat(ps[1..]), MacroText(k));
      if ps[0].Macro? {
        CountInside(ps[0].name, k);
      }
    }
  }

  lemma {:induction false} NeededIsSum(order: seq<string>, counts: map<string, nat>, k: string, f: string -> int)
    requires forall n :: n in order ==> n in counts && f(n) == Inside(k, n) * counts[n]
    ensures Needed(order, counts, k) == Sum(order, f)
  {
    if order != [] {
      NeededIsSum(order[1..], counts, k, f);
    }
  }

  /** Whatever the values are, and in every safe order of the macros, every find succeeds and the length of the
      result is the one computed beforehand. */
  lemma EveryFindSucceeds(ps: seq<Piece>, order: seq<string>, ce: ContextElement)
    requires ClosedNames(ps) && SafeOrder(order)
    requires Distinct(order) && forall k :: k in order <==> k in Counts(ps)
    ensures ReplaceAll(Flat(ps), order, Counts(ps), ce).Some?
    ensures |ReplaceAll(Flat(ps), order, Counts(ps), ce).value| == |Substituted(ps, ce)|
  {
    EnumeratesNames(ps, order);
    forall k | k in order ensures Closed(k) && Count(Flat(ps), MacroText(k)) >= Needed(order, Counts(ps), k) {
      CountAtLeastInside(ps, k);
      WeightByKey(ps, order, InsideWeight(k));
      NeededIsSum(order, Counts(ps), k, ByKey(ps, InsideWeight(k)));
    }
    ReplaceAllSucceeds(Flat(ps), order, Counts(ps), ce);
    SizeIsExact(ps, order, ce);
  }
}
