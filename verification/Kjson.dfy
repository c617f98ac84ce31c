/** Trees of JSON nodes, kept as singly linked lists of children that are changed in place. */
module Kjson {
  import opened Sequences

  datatype Kind = KjObject | KjArray | KjString | KjInt | KjOther

  class KjNode {
    var name: string
    const kind: Kind
    const text: string  // value.s
    var number: int     // value.i
    var next: KjNode?
    var firstChild: KjNode?
    var lastChild: KjNode?

    constructor (name: string, kind: Kind, text: string, number: int)
      ensures this.name == name && this.kind == kind && this.text == text && this.number == number
      ensures next == null && firstChild == null && lastChild == null
    {
      this.name, this.kind, this.text, this.number := name, kind, text, number;
      next, firstChild, lastChild := null, null, null;
    }
  }

  // ---- the shape of a forest ----

  /** The children of every node in order, the parent of every child, and the nodes whose children were given to
      another node without being unlinked from the first one. */
  datatype Shape = Shape(kids: map<KjNode, seq<KjNode>>, parent: map<KjNode, KjNode>, stale: set<KjNode>)

  /** Every child has one parent, and is in its list once. */
  ghost predicate ShapeOk(s: Shape) {
    && (forall n, i {:trigger s.kids[n][i]} :: n in s.kids && 0 <= i < |s.kids[n]| ==>
          s.kids[n][i] in s.kids && s.kids[n][i] in s.parent && s.parent[s.kids[n][i]] == n)
    && (forall k :: k in s.parent ==> s.parent[k] in s.kids && k in s.kids[s.parent[k]])
    && (forall n :: n in s.kids ==> Distinct(s.kids[n]))
    && (forall n :: n in s.stale ==> n in s.kids && s.kids[n] == [])
  }

  /** A node that can be given a child. */
  ghost predicate Live(s: Shape, n: KjNode) {
    n in s.kids && n !in s.stale
  }

  /** A node that is nobody's child. */
  ghost predicate Free(s: Shape, n: KjNode) {
    n in s.kids && n !in s.parent
  }

  ghost function Created(s: Shape, n: KjNode): Shape {
    s.(kids := s.kids[n := []])
  }

  ghost function Added(s: Shape, p: KjNode, c: KjNode): Shape
    requires p in s.kids
  {
    s.(kids := s.kids[p := s.kids[p] + [c]], parent := s.parent[c := p])
  }

  ghost function Dropped<T>(s: seq<T>, i: nat): seq<T>
    requires i < |s|
  {
    s[..i] + s[i + 1..]
  }

  ghost function Removed(s: Shape, p: KjNode, i: nat): Shape
    requires p in s.kids && i < |s.kids[p]|
  {
    s.(kids := s.kids[p := Dropped(s.kids[p], i)], parent := s.parent - {s.kids[p][i]})
  }

  ghost function Disowned(s: Shape, p: KjNode): Shape
    requires p in s.kids
  {
    s.(kids := s.kids[p := []], parent := s.parent - (set k | k in s.kids[p]), stale := s.stale + {p})
  }

  lemma CreatedOk(s: Shape, n: KjNode)
    requires ShapeOk(s) && n !in s.kids
    ensures ShapeOk(Created(s, n)) && Free(Created(s, n), n) && Live(Created(s, n), n)
  {
    forall k | k in s.parent ensures k in s.kids {
      var i :| 0 <= i < |s.kids[s.parent[k]]| && s.kids[s.parent[k]][i] == k;
    }
  }

  lemma AddedOk(s: Shape, p: KjNode, c: KjNode)
    requires ShapeOk(s) && Live(s, p) && Free(s, c)
    ensures ShapeOk(Added(s, p, c))
    ensures c !in s.kids[p] && Distinct(s.kids[p]) && Apart(s, p) && AwayFrom(s, c)
  {
    ApartOk(s, p);
    var r := Added(s, p, c);
    forall k | k in r.parent ensures r.parent[k] in r.kids && k in r.kids[r.parent[k]] {
      if k == c {
        assert r.kids[p][|s.kids[p]|] == c;
      }
    }
  }

  /** No node of p's list is in another one. */
  ghost predicate Apart(s: Shape, p: KjNode) {
    p in s.kids && forall n, i {:trigger s.kids[n][i]} :: n in s.kids && n != p && 0 <= i < |s.kids[n]| ==> s.kids[n][i] !in s.kids[p]
  }

  ghost predicate AwayFrom(s: Shape, c: KjNode) {
    forall n, i {:trigger s.kids[n][i]} :: n in s.kids && 0 <= i < |s.kids[n]| ==> s.kids[n][i] != c
  }

  lemma ApartOk(s: Shape, p: KjNode)
    requires ShapeOk(s) && p in s.kids
    ensures Apart(s, p)
    ensures forall c :: Free(s, c) ==> AwayFrom(s, c)
  {
  }

  lemma DroppedDistinct<T>(s: seq<T>, i: nat)
    requires i < |s| && Distinct(s)
    ensures var r := Dropped(s, i); Distinct(r) && s[i] !in r && forall x :: x in r <==> x in s && x != s[i]
  {
    var r := Dropped(s, i);
    forall j | 0 <= j < |r| ensures r[j] == s[if j < i then j else j + 1] {}
    forall x | x in s && x != s[i] ensures x in r {
      var j :| 0 <= j < |s| && s[j] == x;
      assert r[if j < i then j else j - 1] == x;
    }
  }

  lemma RemovedOk(s: Shape, p: KjNode, i: nat)
    requires ShapeOk(s) && p in s.kids && i < |s.kids[p]|
    ensures ShapeOk(Removed(s, p, i)) && Free(Removed(s, p, i), s.kids[p][i])
    ensures s.kids[p][i] !in Removed(s, p, i).kids[p] && Apart(s, p)
  {
    ApartOk(s, p);
    var r, c := Removed(s, p, i), s.kids[p][i];
    DroppedDistinct(s.kids[p], i);
    hide Dropped;
    forall n, j {:trigger r.kids[n][j]} | n in r.kids && 0 <= j < |r.kids[n]|
      ensures r.kids[n][j] in r.kids && r.kids[n][j] in r.parent && r.parent[r.kids[n][j]] == n
    {
      var k := r.kids[n][j];
      if n == p {
        assert k in s.kids[p] && k != c;
      }
    }
  }

  lemma DisownedOk(s: Shape, p: KjNode)
    requires ShapeOk(s) && p in s.kids
    ensures ShapeOk(Disowned(s, p)) && Apart(s, p)
    ensures forall k :: k in s.kids[p] ==> Free(Disowned(s, p), k)
  {
    ApartOk(s, p);
  }

  lemma StaleKnown(s: Shape)
    requires ShapeOk(s)
    ensures s.stale <= s.kids.Keys
  {
  }

  /** What can be given a child stays so. */
  lemma StillLive(s: Shape, p: KjNode, c: KjNode, i: nat)
    requires p in s.kids
    ensures forall n :: Live(s, n) ==> Live(Added(s, p, c), n) && Live(Created(s, c), n) && n in s.kids
    ensures forall n :: Live(s, n) && i < |s.kids[p]| ==> Live(Removed(s, p, i), n)
  {
    hide Dropped;
  }

  // ---- the pointers ----

  type Pointers = map<KjNode, KjNode?>

  ghost function Nexts(ns: set<KjNode>): Pointers
    reads ns`next
  {
    map n | n in ns :: n.next
  }

  type NameMap = map<KjNode, string>

  ghost function Names(ns: set<KjNode>): NameMap
    reads ns`name
  {
    map n | n in ns :: n.name
  }

  type NumberMap = map<KjNode, int>

  ghost function Numbers(ns: set<KjNode>): NumberMap
    reads ns`number
  {
    map n | n in ns :: n.number
  }

  lemma AllNumbers(ns: set<KjNode>)
    ensures Numbers(ns).Keys == ns && forall n :: n in ns ==> Numbers(ns)[n] == n.number
  {
  }

  ghost function Firsts(ns: set<KjNode>): Pointers
    reads ns`firstChild
  {
    map n | n in ns :: n.firstChild
  }

  ghost function Lasts(ns: set<KjNode>): Pointers
    reads ns`lastChild
  {
    map n | n in ns :: n.lastChild
  }

  /** Each node points to the following one, and the last one to NULL. */
  ghost predicate Linked(ns: seq<KjNode>, next: Pointers) {
    forall i {:trigger ns[i]} :: 0 <= i < |ns| ==> ns[i] in next && next[ns[i]] == if i + 1 < |ns| then ns[i + 1] else null
  }

  ghost predicate NextsOk(s: Shape, next: Pointers) {
    next.Keys == s.kids.Keys && forall n :: n in s.kids ==> Linked(s.kids[n], next)
  }

  ghost predicate FirstsOk(s: Shape, first: Pointers) {
    && first.Keys == s.kids.Keys
    && forall n :: n in s.kids && n !in s.stale ==> first[n] == if s.kids[n] == [] then null else s.kids[n][0]
  }

  ghost predicate LastsOk(s: Shape, last: Pointers) {
    && last.Keys == s.kids.Keys
    && forall n :: n in s.kids && n !in s.stale ==> last[n] == if s.kids[n] == [] then null else s.kids[n][|s.kids[n]| - 1]
  }

  /** A list that shares no node with p's list. */
  lemma OtherList(s: Shape, p: KjNode, c: KjNode, n: KjNode)
    requires ShapeOk(s) && p in s.kids && (c !in s.parent || s.parent[c] == p) && n in s.kids && n != p
    ensures forall k :: k in s.kids[n] ==> k != c && k !in s.kids[p] && k in s.kids
  {
    hide Distinct;
  }

  /** A list is still linked when the pointers of its nodes have not changed. */
  lemma LinkedSame(ns: seq<KjNode>, next: Pointers, next': Pointers)
    requires Linked(ns, next) && forall k :: k in ns ==> k in next' && (k in next ==> next'[k] == next[k])
    ensures Linked(ns, next')
  {
  }

  lemma NextsElsewhere(s: Shape, next: Pointers, p: KjNode, c: KjNode, n: KjNode, next': Pointers)
    requires ShapeOk(s) && NextsOk(s, next) && next'.Keys == next.Keys
    requires p in s.kids && (c !in s.parent || s.parent[c] == p) && n in s.kids && n != p
    requires forall k :: k in next && k != c && k !in s.kids[p] ==> next'[k] == next[k]
    ensures Linked(s.kids[n], next')
  {
    OtherList(s, p, c, n);
    hide ShapeOk;
    LinkedSame(s.kids[n], next, next');
  }

  ghost function Set(m: Pointers, k: KjNode, v: KjNode?): Pointers {
    m[k := v]
  }

  /** The pointers after appending c to a list that ends with l. */
  ghost function NextsAdded(next: Pointers, l: KjNode?, c: KjNode): Pointers {
    if l == null then Set(next, c, null) else Set(Set(next, c, null), l, c)
  }

  lemma FirstsAddedOk(s: Shape, first: Pointers, p: KjNode, c: KjNode)
    requires p in s.kids && p !in s.stale && FirstsOk(s, first)
    ensures FirstsOk(Added(s, p, c), if first[p] == null then Set(first, p, c) else first)
    ensures first[p] == null <==> s.kids[p] == []
  {
    assert (s.kids[p] + [c])[0] == if s.kids[p] == [] then c else s.kids[p][0];
  }

  lemma LastsAddedOk(s: Shape, last: Pointers, p: KjNode, c: KjNode)
    requires p in s.kids && p !in s.stale && LastsOk(s, last)
    ensures LastsOk(Added(s, p, c), Set(last, p, c))
    ensures last[p] == LastOf(s.kids[p])
  {
  }

  lemma LastIn(s: Shape, p: KjNode)
    requires ShapeOk(s) && p in s.kids
    ensures LastOf(s.kids[p]) == null <==> s.kids[p] == []
    ensures LastOf(s.kids[p]) != null ==> LastOf(s.kids[p]) in s.kids[p] && LastOf(s.kids[p]) in s.kids
  {
  }

  ghost function LastOf(ns: seq<KjNode>): KjNode? {
    if ns == [] then null else ns[|ns| - 1]
  }

  lemma LinkedSnoc(ns: seq<KjNode>, c: KjNode, next: Pointers)
    requires Linked(ns, next) && c !in ns && Distinct(ns)
    ensures Linked(ns + [c], NextsAdded(next, LastOf(ns), c))
  {
  }

  lemma NextsAddedOk(s: Shape, next: Pointers, p: KjNode, c: KjNode)
    requires ShapeOk(s) && Live(s, p) && Free(s, c) && NextsOk(s, next)
    ensures NextsOk(Added(s, p, c), NextsAdded(next, LastOf(s.kids[p]), c))
  {
    hide *;
    LiveFree(s, p, c);
    AddedOk(s, p, c);
    LastIn(s, p);
    var next' := NextsAdded(next, LastOf(s.kids[p]), c);
    NextsKeys(s, next, p);
    NextsAddedSame(next, s.kids[p], c);
    forall n | n in s.kids && n != p ensures Linked(s.kids[n], next') {
      NextsElsewhere(s, next, p, c, n, next');
    }
    LinkedSnoc(s.kids[p], c, next);
    AddedKeys(s, p, c);
    NextsFrom(s, Added(s, p, c), next', p);
  }

  lemma NextsKeys(s: Shape, next: Pointers, p: KjNode)
    requires NextsOk(s, next) && p in s.kids
    ensures next.Keys == s.kids.Keys && Linked(s.kids[p], next)
  {
  }

  lemma NextsAddedSame(next: Pointers, ns: seq<KjNode>, c: KjNode)
    requires c in next && (LastOf(ns) != null ==> LastOf(ns) in next)
    ensures var next' := NextsAdded(next, LastOf(ns), c);
      next'.Keys == next.Keys && forall k :: k in next && k != c && k !in ns ==> next'[k] == next[k]
  {
  }

  lemma NextsFrom(s: Shape, t: Shape, next: Pointers, p: KjNode)
    requires p in s.kids && t.kids.Keys == s.kids.Keys && next.Keys == s.kids.Keys
    requires forall n :: n in s.kids && n != p ==> t.kids[n] == s.kids[n]
    requires forall n :: n in s.kids && n != p ==> Linked(s.kids[n], next)
    requires Linked(t.kids[p], next)
    ensures NextsOk(t, next)
  {
    hide Linked;
  }

  lemma LiveFree(s: Shape, p: KjNode, c: KjNode)
    requires Live(s, p) && Free(s, c)
    ensures p in s.kids && p !in s.stale && c in s.kids && c !in s.parent
  {
  }

  lemma AddedKeys(s: Shape, p: KjNode, c: KjNode)
    requires p in s.kids
    ensures Added(s, p, c).kids.Keys == s.kids.Keys && Added(s, p, c).kids[p] == s.kids[p] + [c]
    ensures forall n :: n in s.kids && n != p ==> Added(s, p, c).kids[n] == s.kids[n]
  {
  }

  // ---- one assignment ----

  method SetNext(n: KjNode, v: KjNode?, ghost nodes: set<KjNode>)
    requires n in nodes
    modifies n`next
    ensures n.next == v && Nexts(nodes) == Set(old(Nexts(nodes)), n, v)
    ensures Firsts(nodes) == old(Firsts(nodes)) && Lasts(nodes) == old(Lasts(nodes)) && Names(nodes) == old(Names(nodes))
  {
    n.next := v;
  }

  method SetFirst(n: KjNode, v: KjNode?, ghost nodes: set<KjNode>)
    requires n in nodes
    modifies n`firstChild
    ensures n.firstChild == v && Firsts(nodes) == Set(old(Firsts(nodes)), n, v)
    ensures Nexts(nodes) == old(Nexts(nodes)) && Lasts(nodes) == old(Lasts(nodes)) && Names(nodes) == old(Names(nodes))
  {
    n.firstChild := v;
  }

  method SetLast(n: KjNode, v: KjNode?, ghost nodes: set<KjNode>)
    requires n in nodes
    modifies n`lastChild
    ensures n.lastChild == v && Lasts(nodes) == Set(old(Lasts(nodes)), n, v)
    ensures Nexts(nodes) == old(Nexts(nodes)) && Firsts(nodes) == old(Firsts(nodes)) && Names(nodes) == old(Names(nodes))
  {
    n.lastChild := v;
  }

  lemma PointersOf(n: KjNode, nodes: set<KjNode>)
    requires n in nodes
    ensures Nexts(nodes).Keys == nodes && Nexts(nodes)[n] == n.next
    ensures Firsts(nodes).Keys == nodes && Firsts(nodes)[n] == n.firstChild
    ensures Lasts(nodes).Keys == nodes && Lasts(nodes)[n] == n.lastChild
  {
  }

  /** The assignments of kjChildAdd. */
  method Append(p: KjNode, c: KjNode, ghost nodes: set<KjNode>)
    requires p in nodes && c in nodes && (p.lastChild != null ==> p.lastChild in nodes) && (p.firstChild == null <==> p.lastChild == null)
    modifies p`firstChild, p`lastChild, nodes`next
    ensures Nexts(nodes) == old(NextsAdded(Nexts(nodes), p.lastChild, c))
    ensures Firsts(nodes) == old(if p.firstChild == null then Set(Firsts(nodes), p, c) else Firsts(nodes))
    ensures Lasts(nodes) == old(Set(Lasts(nodes), p, c)) && Names(nodes) == old(Names(nodes))
  {
    hide Nexts, Firsts, Lasts, Names, Set;
    SetNext(c, null, nodes);
    if p.firstChild == null {
      SetFirst(p, c, nodes);
    } else {
      SetNext(p.lastChild, c, nodes);
    }
    SetLast(p, c, nodes);
  }

  method NewNode(name: string, kind: Kind, text: string, number: int, ghost nodes: set<KjNode>) returns (n: KjNode)
    ensures fresh(n) && n !in nodes
    ensures n.name == name && n.kind == kind && n.text == text && n.number == number
    ensures Nexts(nodes + {n}) == Set(old(Nexts(nodes)), n, null)
    ensures Firsts(nodes + {n}) == Set(old(Firsts(nodes)), n, null)
    ensures Lasts(nodes + {n}) == Set(old(Lasts(nodes)), n, null)
    ensures Names(nodes + {n}) == old(Names(nodes))[n := name]
  {
    n := new KjNode(name, kind, text, number);
  }

  lemma CreatedPointers(s: Shape, next: Pointers, first: Pointers, last: Pointers, n: KjNode)
    requires ShapeOk(s) && NextsOk(s, next) && FirstsOk(s, first) && LastsOk(s, last) && n !in s.kids
    ensures var t := Created(s, n);
      && t.kids.Keys == s.kids.Keys + {n}
      && NextsOk(t, Set(next, n, null)) && FirstsOk(t, Set(first, n, null)) && LastsOk(t, Set(last, n, null))
  {
    hide ShapeOk, Linked;
    CreatedNexts(s, next, n);
  }

  lemma CreatedNexts(s: Shape, next: Pointers, n: KjNode)
    requires ShapeOk(s) && NextsOk(s, next) && n !in s.kids
    ensures NextsOk(Created(s, n), Set(next, n, null))
  {
    hide ShapeOk, Linked;
    var t, next' := Created(s, n), Set(next, n, null);
    NothingLinked(next');
    forall k | k in s.kids ensures Linked(s.kids[k], next') {
      NotIn(s, n, k);
      LinkedSame(s.kids[k], next, next');
    }
  }

  lemma NothingLinked(next: Pointers)
    ensures Linked([], next)
  {
  }

  lemma CreatedKeys(s: Shape, n: KjNode)
    ensures Created(s, n).kids.Keys == s.kids.Keys + {n}
    ensures forall k :: k in s.kids && k != n ==> Created(s, n).kids[k] == s.kids[k]
    ensures Created(s, n).kids[n] == []
  {
  }

  lemma FreeNotIn(s: Shape, c: KjNode)
    requires ShapeOk(s) && Free(s, c)
    ensures forall n :: n in s.kids ==> c !in s.kids[n]
  {
  }

  lemma NotIn(s: Shape, n: KjNode, k: KjNode)
    requires ShapeOk(s) && n !in s.kids && k in s.kids
    ensures forall x :: x in s.kids[k] ==> x in s.kids && x != n
  {
  }

  // ---- taking a node out of a list ----

  /** The node before position i. */
  ghost function Before(ns: seq<KjNode>, i: nat): KjNode?
    requires i < |ns|
  {
    if i == 0 then null else ns[i - 1]
  }

  ghost function NextsRemoved(next: Pointers, prev: KjNode?, c: KjNode): Pointers
    requires c in next
  {
    if prev == null then Set(next, c, null) else Set(Set(next, prev, next[c]), c, null)
  }

  lemma LinkedDropped(ns: seq<KjNode>, i: nat, next: Pointers)
    requires Linked(ns, next) && Distinct(ns) && i < |ns|
    ensures ns[i] in next && Linked(Dropped(ns, i), NextsRemoved(next, Before(ns, i), ns[i]))
  {
    var r, next' := Dropped(ns, i), NextsRemoved(next, Before(ns, i), ns[i]);
    assert |r| == |ns| - 1 && ns[i] in next;
    forall k | 0 <= k < |r| ensures r[k] in next' && next'[r[k]] == if k + 1 < |r| then r[k + 1] else null {
      LinkKept(ns, i, next, k);
    }
    hide Dropped, NextsRemoved, Before, Distinct;
  }

  /** The node after ns[j] once ns[i] is gone. */
  lemma LinkedPast(ns: seq<KjNode>, next: Pointers, i: nat, j: nat)
    requires Linked(ns, next) && Distinct(ns) && i < |ns| && j < |ns| && j != i
    ensures ns[i] in next && ns[j] in NextsRemoved(next, Before(ns, i), ns[i])
    ensures var s := if j + 1 == i then i + 1 else j + 1;
      NextsRemoved(next, Before(ns, i), ns[i])[ns[j]] == if s < |ns| then ns[s] else null
  {
    assert Before(ns, i) == if i == 0 then null else ns[i - 1];
    hide *;
    LinkedAt(ns, next, i);
    LinkedAt(ns, next, j);
    DistinctApart(ns, i, j);
    NextRemovedAt(next, Before(ns, i), ns[i], ns[j]);
    if i > 0 && j + 1 != i {
      DistinctApart(ns, i - 1, j);
    }
  }

  lemma LinkKept(ns: seq<KjNode>, i: nat, next: Pointers, k: nat)
    requires Linked(ns, next) && Distinct(ns) && i < |ns| && k < |ns| - 1
    ensures ns[i] in next && |Dropped(ns, i)| == |ns| - 1 && Dropped(ns, i)[k] in NextsRemoved(next, Before(ns, i), ns[i])
    ensures NextsRemoved(next, Before(ns, i), ns[i])[Dropped(ns, i)[k]] == if k + 1 < |ns| - 1 then Dropped(ns, i)[k + 1] else null
  {
    hide *;
    DroppedAt(ns, i, k);
    if k + 1 < |ns| - 1 {
      DroppedAt(ns, i, k + 1);
    }
    LinkedPast(ns, next, i, if k < i then k else k + 1);
  }

  lemma DistinctApart(ns: seq<KjNode>, i: nat, j: nat)
    requires Distinct(ns) && i < |ns| && j < |ns| && i != j
    ensures ns[i] != ns[j]
  {
  }

  lemma DroppedAt(ns: seq<KjNode>, i: nat, k: nat)
    requires i < |ns| && k < |ns| - 1
    ensures |Dropped(ns, i)| == |ns| - 1 && Dropped(ns, i)[k] == ns[if k < i then k else k + 1]
  {
  }

  lemma NextRemovedAt(next: Pointers, prev: KjNode?, c: KjNode, n: KjNode)
    requires c in next && n in next && n != c
    ensures n in NextsRemoved(next, prev, c) && NextsRemoved(next, prev, c)[n] == if n == prev then next[c] else next[n]
  {
  }

  lemma NextsRemovedSame(next: Pointers, ns: seq<KjNode>, i: nat)
    requires i < |ns| && forall k :: k in ns ==> k in next
    ensures var next' := NextsRemoved(next, Before(ns, i), ns[i]);
      next'.Keys == next.Keys && forall k :: k in next && k !in ns ==> next'[k] == next[k]
  {
  }

  lemma RemovedKeys(s: Shape, p: KjNode, i: nat)
    requires p in s.kids && i < |s.kids[p]|
    ensures var t := Removed(s, p, i);
      && t.kids.Keys == s.kids.Keys && t.kids[p] == Dropped(s.kids[p], i) && t.stale == s.stale
      && forall n :: n in s.kids && n != p ==> t.kids[n] == s.kids[n]
  {
  }

  lemma KidsIn(s: Shape, p: KjNode)
    requires ShapeOk(s) && p in s.kids
    ensures forall k :: k in s.kids[p] ==> k in s.kids && k in s.parent && s.parent[k] == p
    ensures Distinct(s.kids[p])
  {
  }

  lemma NextsRemovedOk(s: Shape, next: Pointers, p: KjNode, i: nat)
    requires ShapeOk(s) && p in s.kids && i < |s.kids[p]| && NextsOk(s, next)
    ensures s.kids[p][i] in next
    ensures NextsOk(Removed(s, p, i), NextsRemoved(next, Before(s.kids[p], i), s.kids[p][i]))
  {
    hide *;
    var ns, c := s.kids[p], s.kids[p][i];
    assert c in ns;
    KidsIn(s, p);
    NextsKeys(s, next, p);
    var next' := NextsRemoved(next, Before(ns, i), c);
    NextsRemovedSame(next, ns, i);
    forall n | n in s.kids && n != p ensures Linked(s.kids[n], next') {
      NextsElsewhere(s, next, p, c, n, next');
    }
    LinkedDropped(ns, i, next);
    RemovedKeys(s, p, i);
    NextsFrom(s, Removed(s, p, i), next', p);
  }

  lemma DroppedEnds(ns: seq<KjNode>, i: nat)
    requires i < |ns| && Distinct(ns)
    ensures var r := Dropped(ns, i);
      && (if r == [] then null else r[0]) == (if i > 0 then ns[0] else if |ns| > 1 then ns[1] else null)
      && LastOf(r) == (if ns[i] == LastOf(ns) then Before(ns, i) else LastOf(ns))
  {
  }

  lemma FirstsRemovedOk(s: Shape, first: Pointers, p: KjNode, i: nat, after: KjNode?)
    requires p in s.kids && p !in s.stale && i < |s.kids[p]| && Distinct(s.kids[p]) && FirstsOk(s, first)
    requires after == if i + 1 < |s.kids[p]| then s.kids[p][i + 1] else null
    ensures FirstsOk(Removed(s, p, i), if i == 0 then Set(first, p, after) else first)
  {
    DroppedEnds(s.kids[p], i);
    RemovedKeys(s, p, i);
    hide Removed, Dropped, Distinct, Before, LastOf;
  }

  lemma LastsRemovedOk(s: Shape, last: Pointers, p: KjNode, i: nat)
    requires p in s.kids && p !in s.stale && i < |s.kids[p]| && Distinct(s.kids[p]) && LastsOk(s, last)
    ensures LastsOk(Removed(s, p, i), if last[p] == s.kids[p][i] then Set(last, p, Before(s.kids[p], i)) else last)
  {
    DroppedEnds(s.kids[p], i);
    RemovedKeys(s, p, i);
    hide Removed, Dropped, Distinct, Before;
  }

  lemma RemoveFacts(s: Shape, next: Pointers, first: Pointers, last: Pointers, p: KjNode, c: KjNode, i: nat, prev: KjNode?)
    requires ShapeOk(s) && NextsOk(s, next) && FirstsOk(s, first) && LastsOk(s, last)
    requires Live(s, p) && i < |s.kids[p]| && c == s.kids[p][i] && prev == Before(s.kids[p], i)
    ensures p in s.kids && c in s.kids && c in next && p in last && p in first
    ensures var t := Removed(s, p, i);
      && ShapeOk(t) && t.kids.Keys == s.kids.Keys && NextsOk(t, NextsRemoved(next, prev, c))
      && FirstsOk(t, if prev == null then Set(first, p, next[c]) else first)
      && LastsOk(t, if last[p] == c then Set(last, p, prev) else last)
  {
    HeadKeys(s, first, last, p);
    hide *;
    RemovedOk(s, p, i);
    NextsRemovedOk(s, next, p, i);
    KidsIn(s, p);
    NextsKeys(s, next, p);
    BeforeIs(s.kids[p]);
    LinkedAt(s.kids[p], next, i);
    FirstsRemovedOk(s, first, p, i, next[c]);
    LastsRemovedOk(s, last, p, i);
    RemovedKeys(s, p, i);
  }

  lemma HeadKeys(s: Shape, first: Pointers, last: Pointers, p: KjNode)
    requires Live(s, p) && FirstsOk(s, first) && LastsOk(s, last)
    ensures p in s.kids && p !in s.stale && p in first && p in last
  {
  }

  /** The assignments of kjChildRemove, once the node before is known. */
  method Unlink(p: KjNode, prev: KjNode?, c: KjNode, ghost nodes: set<KjNode>)
    requires p in nodes && c in nodes && (prev != null ==> prev in nodes && prev != c)
    modifies p`firstChild, p`lastChild, nodes`next
    ensures c in old(Nexts(nodes)) && Nexts(nodes) == old(NextsRemoved(Nexts(nodes), prev, c))
    ensures Firsts(nodes) == old(if prev == null then Set(Firsts(nodes), p, c.next) else Firsts(nodes))
    ensures Lasts(nodes) == old(if p.lastChild == c then Set(Lasts(nodes), p, prev) else Lasts(nodes))
    ensures Names(nodes) == old(Names(nodes))
  {
    PointersOf(c, nodes);
    hide Nexts, Firsts, Lasts, Names, Set;
    if prev == null {
      SetFirst(p, c.next, nodes);
    } else {
      SetNext(prev, c.next, nodes);
    }
    if p.lastChild == c {
      SetLast(p, prev, nodes);
    }
    SetNext(c, null, nodes);
  }

  lemma LinkedAt(ns: seq<KjNode>, next: Pointers, i: nat)
    requires Linked(ns, next) && i < |ns|
    ensures ns[i] in next && next[ns[i]] == if i + 1 < |ns| then ns[i + 1] else null
  {
  }

  lemma BeforeIs(ns: seq<KjNode>)
    ensures forall j {:trigger Before(ns, j)} :: 0 <= j < |ns| ==> Before(ns, j) == if j == 0 then null else ns[j - 1]
  {
  }

  lemma DisownedPointers(s: Shape, next: Pointers, first: Pointers, last: Pointers, p: KjNode)
    requires p in s.kids && NextsOk(s, next) && FirstsOk(s, first) && LastsOk(s, last)
    ensures var t := Disowned(s, p);
      t.kids.Keys == s.kids.Keys && NextsOk(t, next) && FirstsOk(t, first) && LastsOk(t, last)
  {
    hide Linked;
    NothingLinked(next);
  }

  /** Pointers have changed only in one list, or in new nodes. */
  ghost predicate NextKept(next: Pointers, next': Pointers, ns: seq<KjNode>) {
    next.Keys <= next'.Keys && forall k :: k in next && k !in ns ==> next'[k] == next[k]
  }

  lemma KeptByAdd(next: Pointers, ns: seq<KjNode>, c: KjNode)
    requires c in next && (LastOf(ns) != null ==> LastOf(ns) in next)
    ensures NextKept(next, NextsAdded(next, LastOf(ns), c), ns + [c])
  {
    NextsAddedSame(next, ns, c);
  }

  lemma KeptByRemove(next: Pointers, ns: seq<KjNode>, i: nat)
    requires i < |ns| && forall k :: k in ns ==> k in next
    ensures NextKept(next, NextsRemoved(next, Before(ns, i), ns[i]), ns)
  {
    NextsRemovedSame(next, ns, i);
  }

  lemma KeptByNew(next: Pointers, ns: seq<KjNode>, n: KjNode)
    requires n !in next && (LastOf(ns) != null ==> LastOf(ns) in next)
    ensures NextKept(next, NextsAdded(Set(next, n, null), LastOf(ns), n), ns)
  {
    NextsAddedSame(Set(next, n, null), ns, n);
  }

  class Forest {
    ghost var shape: Shape

    ghost predicate Valid()
      reads this, shape.kids.Keys`next, shape.kids.Keys`firstChild, shape.kids.Keys`lastChild
    {
      && ShapeOk(shape)
      && NextsOk(shape, Nexts(shape.kids.Keys))
      && FirstsOk(shape, Firsts(shape.kids.Keys))
      && LastsOk(shape, Lasts(shape.kids.Keys))
    }

    lemma ValidFacts()
      requires Valid()
      ensures ShapeOk(shape)
      ensures NextsOk(shape, Nexts(shape.kids.Keys))
      ensures FirstsOk(shape, Firsts(shape.kids.Keys))
      ensures LastsOk(shape, Lasts(shape.kids.Keys))
    {
    }

    lemma ValidFrom(nodes: set<KjNode>, next: Pointers, first: Pointers, last: Pointers)
      requires nodes == shape.kids.Keys && ShapeOk(shape)
      requires Nexts(nodes) == next && NextsOk(shape, next)
      requires Firsts(nodes) == first && FirstsOk(shape, first)
      requires Lasts(nodes) == last && LastsOk(shape, last)
      ensures Valid()
    {
    }

    ghost method Reshape(s: Shape, nodes: set<KjNode>)
      modifies this`shape
      ensures shape == s
      ensures Nexts(nodes) == old(Nexts(nodes)) && Firsts(nodes) == old(Firsts(nodes)) && Lasts(nodes) == old(Lasts(nodes))
      ensures Names(nodes) == old(Names(nodes))
    {
      shape := s;
    }

    constructor ()
      ensures Valid() && shape == Shape(map[], map[], {})
    {
      shape := Shape(map[], map[], {});
    }

    method Create(name: string, kind: Kind, text: string, number: int) returns (n: KjNode)
      requires Valid()
      modifies this`shape
      ensures Valid() && fresh(n) && n !in old(shape).kids && shape == Created(old(shape), n)
      ensures n.name == name && n.kind == kind && n.text == text && n.number == number
      ensures Nexts(shape.kids.Keys) == Set(old(Nexts(shape.kids.Keys)), n, null)
      ensures Names(shape.kids.Keys) == old(Names(shape.kids.Keys))[n := name]
    {
      hide *;
      ValidFacts();
      ghost var s, nodes := shape, shape.kids.Keys;
      ghost var next, first, last := Nexts(nodes), Firsts(nodes), Lasts(nodes);
      n := NewNode(name, kind, text, number, nodes);
      CreatedOk(s, n);
      CreatedPointers(s, next, first, last, n);
      Reshape(Created(s, n), nodes + {n});
      ValidFrom(nodes + {n}, Set(next, n, null), Set(first, n, null), Set(last, n, null));
    }

    /** kjChildAdd: the child becomes the last one. */
    method ChildAdd(p: KjNode, c: KjNode)
      requires Valid() && Live(shape, p) && Free(shape, c)
      modifies this`shape, p`firstChild, p`lastChild, shape.kids.Keys`next
      ensures Valid() && shape == Added(old(shape), p, c)
      ensures Nexts(shape.kids.Keys) == NextsAdded(old(Nexts(shape.kids.Keys)), old(LastOf(shape.kids[p])), c)
      ensures Names(shape.kids.Keys) == old(Names(shape.kids.Keys))
    {
      hide *;
      ValidFacts();
      ghost var s, nodes := shape, shape.kids.Keys;
      ghost var next, first, last := Nexts(nodes), Firsts(nodes), Lasts(nodes);
      AddedOk(s, p, c);
      NextsAddedOk(s, next, p, c);
      LiveFree(s, p, c);
      FirstsAddedOk(s, first, p, c);
      LastsAddedOk(s, last, p, c);
      LastIn(s, p);
      AddedKeys(s, p, c);
      PointersOf(p, nodes);
      Append(p, c, nodes);
      Reshape(Added(s, p, c), nodes);
      ValidFrom(nodes, NextsAdded(next, last[p], c), if first[p] == null then Set(first, p, c) else first, Set(last, p, c));
    }

    /** Walking a list of children. */
    lemma Follow(p: KjNode, i: nat)
      requires Valid() && p in shape.kids && i < |shape.kids[p]|
      ensures var ks := shape.kids[p]; ks[i].next == (if i + 1 < |ks| then ks[i + 1] else null) && ks[i] in shape.kids
    {
      hide *;
      ValidFacts();
      var ks, next := shape.kids[p], Nexts(shape.kids.Keys);
      NextsKeys(shape, next, p);
      LinkedAt(ks, next, i);
      PointersOf(ks[i], shape.kids.Keys);
    }

    lemma Start(p: KjNode)
      requires Valid() && Live(shape, p)
      ensures p in shape.kids && p !in shape.stale
      ensures var ks := shape.kids[p]; p.firstChild == (if ks == [] then null else ks[0]) && p.lastChild == LastOf(ks)
    {
    }

    /** kjChildRemove: exactly this child is taken out. */
    method ChildRemove(p: KjNode, c: KjNode, ghost i: nat)
      requires Valid() && Live(shape, p) && i < |shape.kids[p]| && shape.kids[p][i] == c
      modifies this`shape, p`firstChild, p`lastChild, shape.kids.Keys`next
      ensures Valid() && shape == Removed(old(shape), p, i)
      ensures c in old(Nexts(shape.kids.Keys))
      ensures Nexts(shape.kids.Keys) == NextsRemoved(old(Nexts(shape.kids.Keys)), old(Before(shape.kids[p], i)), c)
      ensures Names(shape.kids.Keys) == old(Names(shape.kids.Keys))
    {
      hide *;
      var prev := FindBefore(p, c, i);
      ValidFacts();
      ghost var s, nodes := shape, shape.kids.Keys;
      ghost var next, first, last := Nexts(nodes), Firsts(nodes), Lasts(nodes);
      RemoveFacts(s, next, first, last, p, c, i, prev);
      PointersOf(p, nodes);
      PointersOf(c, nodes);
      Unlink(p, prev, c, nodes);
      Reshape(Removed(s, p, i), nodes);
      ValidFrom(nodes, NextsRemoved(next, prev, c), if prev == null then Set(first, p, next[c]) else first,
                if last[p] == c then Set(last, p, prev) else last);
    }

    method FindBefore(p: KjNode, c: KjNode, ghost i: nat) returns (prev: KjNode?)
      requires Valid() && Live(shape, p) && i < |shape.kids[p]| && shape.kids[p][i] == c
      ensures prev == Before(shape.kids[p], i)
      ensures prev != null ==> prev in shape.kids && prev != c
    {
      hide *;
      Start(p);
      ValidFacts();
      KidsIn(shape, p);
      ghost var ks := shape.kids[p];
      prev := null;
      var current := p.firstChild;
      ghost var j := 0;
      BeforeIs(ks);
      DistinctAt(ks);
      while current != c
        invariant 0 <= j <= i && current == ks[j]
        invariant prev == Before(ks, j)
        decreases i - j
      {
        Follow(p, j);
        prev := current;
        current := current.next;
        j := j + 1;
      }
    }

    /** kjLookup: the first child with that name. */
    method Lookup(p: KjNode, name: string) returns (r: KjNode?, ghost i: nat)
      requires Valid() && Live(shape, p)
      ensures r == null ==> i == |shape.kids[p]|
      ensures r != null ==> i < |shape.kids[p]| && r == shape.kids[p][i] && r.name == name
      ensures forall j :: 0 <= j < i ==> shape.kids[p][j].name != name
    {
      hide *;
      Start(p);
      r, i := p.firstChild, 0;
      while r != null
        invariant i <= |shape.kids[p]| && r == if i < |shape.kids[p]| then shape.kids[p][i] else null
        invariant forall j :: 0 <= j < i ==> shape.kids[p][j].name != name
        decreases |shape.kids[p]| - i
      {
        if r.name == name {
          return;
        }
        Follow(p, i);
        r := r.next;
        i := i + 1;
      }
    }

    /** The children of p are about to be linked elsewhere, one by one, without being taken out of p's list. */
    ghost method Disown(p: KjNode)
      requires Valid() && Live(shape, p)
      modifies this`shape
      ensures Valid() && shape == Disowned(old(shape), p)
      ensures Nexts(shape.kids.Keys) == old(Nexts(shape.kids.Keys))
      ensures Names(shape.kids.Keys) == old(Names(shape.kids.Keys))
    {
      hide *;
      ValidFacts();
      Start(p);
      var s, nodes := shape, shape.kids.Keys;
      var next, first, last := Nexts(nodes), Firsts(nodes), Lasts(nodes);
      DisownedOk(s, p);
      DisownedPointers(s, next, first, last, p);
      Reshape(Disowned(s, p), nodes);
      ValidFrom(nodes, next, first, last);
    }
  }
}
