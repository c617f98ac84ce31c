/** The subscription cache: a singly linked list with head and tail, changed in place. */
module CacheList {
  import opened Sequences
  import opened Text
  import opened ServicePath
  import opened CacheMatch

  class CachedSubscription {
    var data: SubData
    var next: CachedSubscription?

    constructor (data: SubData)
      ensures this.data == data && next == null
    {
      this.data, next := data, null;
    }
  }

  /** The list without one node: the others keep their order. */
  ghost function Without<T>(s: seq<T>, x: T): (r: seq<T>)
    ensures x !in s ==> r == s
  {
    if s == [] then [] else if s[0] == x then s[1..] else [s[0]] + Without(s[1..], x)
  }

  lemma {:induction false} WithoutAt<T>(s: seq<T>, i: nat)
    requires i < |s| && Distinct(s)
    ensures Without(s, s[i]) == s[..i] + s[i + 1..]
  {
    if i > 0 {
      TailAt(s, i);
      hide Distinct;
      WithoutAt(s[1..], i - 1);
    } else {
      assert s[..0] == [];
    }
  }

  lemma TailAt<T>(s: seq<T>, i: nat)
    requires 0 < i < |s| && Distinct(s)
    ensures Distinct(s[1..]) && s[1..][i - 1] == s[i] && s[0] != s[i]
    ensures [s[0]] + (s[1..][..i - 1] + s[1..][i..]) == s[..i] + s[i + 1..]
  {
    assert s[1..][i..] == s[i + 1..];
  }

  lemma DistinctWithout<T>(s: seq<T>, i: nat)
    requires i < |s| && Distinct(s)
    ensures var r := s[..i] + s[i + 1..]; Distinct(r) && s[i] !in r && forall x :: x in r ==> x in s
  {
    var r := s[..i] + s[i + 1..];
    forall j | 0 <= j < |r| ensures r[j] == s[if j < i then j else j + 1] {}
  }

  lemma DistinctJoin<T>(a: seq<T>, b: seq<T>)
    requires Distinct(a) && Distinct(b) && forall x :: x in b ==> x !in a
    ensures Distinct(a + b)
  {
    forall i, j | 0 <= i < j < |a + b| ensures (a + b)[i] != (a + b)[j] {
      if i < |a| <= j {
        assert (a + b)[j] in b && (a + b)[i] in a;
      }
    }
  }

  /** Removing a node puts the list back as it was before the node was inserted. */
  lemma InsertThenRemove<T>(s: seq<T>, x: T)
    requires Distinct(s) && x !in s
    ensures Without(s + [x], x) == s
  {
    WithoutAt(s + [x], |s|);
    assert (s + [x])[..|s|] == s;
  }

  class SubCache {
    var head: CachedSubscription?
    var tail: CachedSubscription?
    var noOfInserts: int
    var noOfRemoves: int
    /** The list, and every node deleted so far in the order of deletion. */
    ghost var nodes: seq<CachedSubscription>
    ghost var deleted: seq<CachedSubscription>

    /** From head, `next` runs through `nodes` and ends at tail; nothing deleted is reachable, and nothing
        has been deleted twice. */
    ghost predicate Valid()
      reads this, nodes
    {
      && Distinct(nodes) && Distinct(deleted) && (forall n :: n in nodes ==> n !in deleted)
      && head == (if nodes == [] then null else nodes[0])
      && tail == (if nodes == [] then null else nodes[|nodes| - 1])
      && Linked(nodes, 0)
    }

    constructor ()
      ensures Valid() && nodes == [] && deleted == []
    {
      head, tail, noOfInserts, noOfRemoves := null, null, 0, 0;
      nodes, deleted := [], [];
    }

    /** subCacheItemInsert: the node is appended. */
    method Insert(cSubP: CachedSubscription)
      requires Valid() && cSubP !in nodes && cSubP !in deleted
      modifies this, cSubP`next, nodes`next
      ensures Valid() && nodes == old(nodes) + [cSubP] && deleted == old(deleted)
      ensures noOfInserts == old(noOfInserts) + 1 && noOfRemoves == old(noOfRemoves)
    {
      cSubP.next := null;
      noOfInserts := noOfInserts + 1;
      if head == null && tail == null {
        head, tail := cSubP, cSubP;
      } else {
        tail.next := cSubP;
        tail := cSubP;
      }
      nodes := nodes + [cSubP];
    }

    /** subCacheItemRemove: exactly the given node is taken out and deleted, or -1 is returned and nothing changes. */
    method Remove(cSubP: CachedSubscription) returns (r: int)
      requires Valid()
      modifies this, nodes`next
      ensures Valid() && nodes == Without(old(nodes), cSubP)
      ensures r == if cSubP in old(nodes) then 0 else -1
      ensures deleted == old(deleted) + (if r == 0 then [cSubP] else [])
      ensures noOfRemoves == old(noOfRemoves) + (if r == 0 then 1 else 0) && noOfInserts == old(noOfInserts)
      ensures r == -1 ==> unchanged(this) && unchanged(nodes)
    {
      var current, prev: CachedSubscription? := head, null;
      ghost var i := 0;
      while current != null
        invariant 0 <= i <= |nodes| && Valid() && unchanged(this) && unchanged(nodes)
        invariant current == if i < |nodes| then nodes[i] else null
        invariant prev == if i > 0 then nodes[i - 1] else null
        invariant cSubP !in nodes[..i]
        decreases |nodes| - i
      {
        if current == cSubP {
          WithoutAt(nodes, i);
          Unlink(cSubP, prev, i);
          return 0;
        }
        prev := current;
        current := current.next;
        i := i + 1;
      }
      assert nodes[..i] == nodes;
      return -1;
    }

    /** The body of subCacheItemRemove once the node is found at position i. */
    method Unlink(cSubP: CachedSubscription, prev: CachedSubscription?, ghost i: nat)
      requires Valid() && i < |nodes| && nodes[i] == cSubP
      requires prev == if i > 0 then nodes[i - 1] else null
      modifies this, nodes`next
      ensures Valid() && nodes == old(nodes[..i] + nodes[i + 1..]) && deleted == old(deleted) + [cSubP]
      ensures noOfRemoves == old(noOfRemoves) + 1 && noOfInserts == old(noOfInserts)
    {
      ghost var before := nodes;
      ghost var ms := before[..i] + before[i + 1..];
      DistinctWithout(before, i);
      DistinctJoin(deleted, [cSubP]);
      assert cSubP == head <==> i == 0;
      assert cSubP == tail <==> i == |before| - 1;
      assert cSubP.next == if i < |ms| then ms[i] else null;
      if cSubP == head {
        head := cSubP.next;
      }
      if cSubP == tail {
        tail := prev;
      }
      if prev != null {
        prev.next := cSubP.next;
      }
      noOfRemoves := noOfRemoves + 1;
      cSubP.next := null;
      nodes := ms;
      deleted := deleted + [cSubP];
      assert Linked(ms, 0) by {
        forall k | 0 <= k < |ms| ensures ms[k].next == if k + 1 < |ms| then ms[k + 1] else null {
          if k + 1 < i {
            assert ms[k] == before[k] && before[k] != before[i - 1] && before[k] != before[i];
            assert old(before[k].next) == before[k + 1] == ms[k + 1];
          } else if k + 1 == i {
            assert ms[k] == before[k];
          } else {
            assert ms[k] == before[k + 1] && before[k + 1] != before[i] && (i > 0 ==> before[k + 1] != before[i - 1]);
            assert old(before[k + 1].next) == if k + 2 < |before| then before[k + 2] else null;
          }
        }
      }
    }

    /** subCacheDestroy: every node is visited and deleted exactly once, in list order. */
    method Destroy()
      requires Valid()
      modifies this, nodes`next
      ensures Valid() && nodes == [] && deleted == old(deleted) + old(nodes)
      ensures noOfInserts == old(noOfInserts) && noOfRemoves == old(noOfRemoves)
    {
      if head == null {
        return;
      }
      var cSubP := head;
      ghost var i := 0;
      while cSubP.next != null
        invariant 0 <= i < |nodes| && nodes == old(nodes) && cSubP == nodes[i]
        invariant Linked(nodes, i)
        invariant Distinct(nodes)
        invariant deleted == old(deleted) + nodes[..i]
        invariant head == old(head) && noOfInserts == old(noOfInserts) && noOfRemoves == old(noOfRemoves)
        decreases |nodes| - i
      {
        var prev := cSubP;
        cSubP := cSubP.next;
        prev.next := null;
        deleted := deleted + [prev];
        i := i + 1;
      }
      cSubP.next := null;
      deleted := deleted + [cSubP];
      assert nodes[..i] + [nodes[i]] == nodes;
      assert deleted == old(deleted) + (nodes[..i] + [nodes[i]]);
      DistinctJoin(old(deleted), nodes);
      head, tail := null, null;
      nodes := [];
    }

    /** subCacheItemLookup: the first node with that tenant and subscription id. */
    method ItemLookup(tenant: Option<string>, subscriptionId: string) returns (r: CachedSubscription?)
      requires Valid()
      ensures r == null ==> forall n :: n in nodes ==> !IsSub(n, tenant, subscriptionId)
      ensures r != null ==> r in nodes && IsSub(r, tenant, subscriptionId)
      ensures r != null ==> forall i, j :: 0 <= j < i < |nodes| && r == nodes[i] ==> !IsSub(nodes[j], tenant, subscriptionId)
    {
      hide TenantMatch;
      var cSubP := head;
      ghost var i := 0;
      while cSubP != null
        invariant Valid() && 0 <= i <= |nodes| && cSubP == if i < |nodes| then nodes[i] else null
        invariant forall j :: 0 <= j < i ==> !IsSub(nodes[j], tenant, subscriptionId)
        decreases |nodes| - i
      {
        if TenantMatch(tenant, cSubP.data.tenant) && subscriptionId == cSubP.data.subscriptionId {
          return cSubP;
        }
        cSubP := cSubP.next;
        i := i + 1;
      }
      return null;
    }

    /** subCacheMatch: appends the matching nodes, in list order. */
    method Match(q: Query, attrV: seq<string>, subVec: seq<CachedSubscription>) returns (r: seq<CachedSubscription>)
      requires Valid() && forall n :: n in nodes ==> ReadsInside(n.data.servicePath, q.servicePath)
      ensures r == subVec + Matching(nodes, q, attrV)
    {
      hide SubMatches, ReadsInside;
      var cSubP := head;
      ghost var i := 0;
      r := subVec;
      assert nodes[..0] == [];
      while cSubP != null
        invariant Valid() && 0 <= i <= |nodes| && cSubP == if i < |nodes| then nodes[i] else null
        invariant r == subVec + Matching(nodes[..i], q, attrV)
        decreases |nodes| - i
      {
        var m := SubMatch(cSubP.data, q, attrV);
        MatchingSnoc(nodes[..i], cSubP, q, attrV);
        assert nodes[..i + 1] == nodes[..i] + [cSubP];
        if m {
          r := r + [cSubP];
        }
        cSubP := cSubP.next;
        i := i + 1;
      }
      assert nodes[..i] == nodes;
    }

    /** subCacheItems */
    method Items() returns (items: nat)
      requires Valid()
      ensures items == |nodes|
    {
      var cSubP := head;
      items := 0;
      while cSubP != null
        invariant Valid() && items <= |nodes| && cSubP == if items < |nodes| then nodes[items] else null
        decreases |nodes| - items
      {
        items := items + 1;
        cSubP := cSubP.next;
      }
    }
  }

  /** From position `from` on, each node points to the following one, and the last one to NULL. */
  ghost predicate Linked(ns: seq<CachedSubscription>, from: nat)
    reads ns
  {
    forall i {:trigger ns[i].next} :: from <= i < |ns| ==> ns[i].next == if i + 1 < |ns| then ns[i + 1] else null
  }

  predicate IsSub(n: CachedSubscription, tenant: Option<string>, subscriptionId: string)
    reads n
  {
    TenantMatch(tenant, n.data.tenant) && subscriptionId == n.data.subscriptionId
  }

  /** The order-preserving filter of a list of nodes. */
  ghost function Matching(ns: seq<CachedSubscription>, q: Query, attrV: seq<string>): seq<CachedSubscription>
    requires forall n :: n in ns ==> ReadsInside(n.data.servicePath, q.servicePath)
    reads ns
  {
    if ns == [] then []
    else (if SubMatches(ns[0].data, q, attrV) then [ns[0]] else []) + Matching(ns[1..], q, attrV)
  }

  lemma {:induction false} MatchingSnoc(ns: seq<CachedSubscription>, n: CachedSubscription, q: Query, attrV: seq<string>)
    requires forall m :: m in ns + [n] ==> ReadsInside(m.data.servicePath, q.servicePath)
    ensures Matching(ns + [n], q, attrV) == Matching(ns, q, attrV) + (if SubMatches(n.data, q, attrV) then [n] else [])
  {
    hide SubMatches, ReadsInside;
    if ns == [] {
      assert ([] + [n])[1..] == [];
    } else {
      assert (ns + [n])[1..] == ns[1..] + [n];
      MatchingSnoc(ns[1..], n, q, attrV);
    }
  }

  lemma {:induction false} InMatching(ns: seq<CachedSubscription>, q: Query, attrV: seq<string>, n: CachedSubscription)
    requires forall m :: m in ns ==> ReadsInside(m.data.servicePath, q.servicePath)
    ensures n in Matching(ns, q, attrV) <==> n in ns && SubMatches(n.data, q, attrV)
  {
    hide SubMatches, ReadsInside;
    if ns != [] {
      InMatching(ns[1..], q, attrV, n);
      assert ns == [ns[0]] + ns[1..];
    }
  }

  /** Matching a non-empty attribute list selects exactly the nodes selected for one of the attributes alone, and
      in multitenant mode only nodes of the same tenant. */
  lemma MatchingIsUnion(ns: seq<CachedSubscription>, q: Query, attrV: seq<string>, n: CachedSubscription)
    requires attrV != [] && forall m :: m in ns ==> ReadsInside(m.data.servicePath, q.servicePath)
    ensures n in Matching(ns, q, attrV) <==> exists a :: a in attrV && n in Matching(ns, q, [a])
    ensures n in Matching(ns, q, attrV) && q.multitenant ==> TenantMatch(n.data.tenant, q.tenant)
  {
    hide ReadsInside;
    InMatching(ns, q, attrV, n);
    forall a | a in attrV ensures n in Matching(ns, q, [a]) <==> n in ns && SubMatches(n.data, q, [a]) {
      InMatching(ns, q, [a], n);
    }
    if n in ns {
      MatchIsUnion(n.data, q, attrV);
    }
  }
}
