/** kjNodeAttributeMerge: the members of an update are linked into an attribute that exists already. */
module AttributeMerge {
  import opened Sequences
  import opened Kjson
  import opened AttributeMetadata
  import opened Dots
  import opened MergeResult

  // ---- what a merge leaves alone ----

  /** Only the lists of nodes in `zone` have changed. */
  ghost predicate Elsewhere(s: Shape, t: Shape, zone: set<KjNode>) {
    s.kids.Keys <= t.kids.Keys && forall n :: n in s.kids && n !in zone ==> t.kids[n] == s.kids[n]
  }

  /** Only the names of nodes in `some` have changed. */
  ghost predicate NamesElsewhere(nm: NameMap, nm': NameMap, some: set<KjNode>) {
    nm.Keys <= nm'.Keys && forall n :: n in nm && n !in some ==> nm'[n] == nm[n]
  }

  ghost predicate HasChild(s: Shape, nm: NameMap, p: KjNode, name: string) {
    p in s.kids && exists k :: k in s.kids[p] && k in nm && nm[k] == name
  }

  ghost predicate LiveKids(s: Shape, p: KjNode) {
    Live(s, p) && forall k :: k in s.kids[p] ==> Live(s, k)
  }

  /** The nodes still to be merged: nobody's children, linked to each other as they were. */
  ghost predicate Chain(s: Shape, next: Pointers, chain: seq<KjNode>, i: nat) {
    && i <= |chain|
    && (forall k :: i <= k < |chain| ==> Free(s, chain[k]) && chain[k] in next && Live(s, chain[k]))
    && (forall k {:trigger chain[k]} :: i <= k < |chain| ==> next[chain[k]] == if k + 1 < |chain| then chain[k + 1] else null)
    && Distinct(chain)
  }

  /** Where the merge stands. */
  datatype Merge = Merge(s: Shape, nm: NameMap, source: KjNode, update: KjNode)

  ghost predicate MergeOk(m: Merge) {
    && ShapeOk(m.s) && m.nm.Keys == m.s.kids.Keys && m.source != m.update
    && LiveKids(m.s, m.source) && LiveKids(m.s, m.update)
    && HasChild(m.s, m.nm, m.source, "modDate")
    && m.update !in m.s.kids[m.source] && m.update !in m.s.kids[m.update] && m.source !in m.s.kids[m.source]
  }

  ghost function Zone(m: Merge): set<KjNode>
    requires m.source in m.s.kids
  {
    {m.source, m.update} + set k | k in m.s.kids[m.source]
  }

  ghost function Members(m: Merge): seq<KjNode>
    requires m.update in m.s.kids
  {
    m.s.kids[m.update]
  }

  ghost predicate MergeInv(m: Merge, s: Shape, nm: NameMap, next: Pointers, i: nat) {
    && m.source in m.s.kids && m.update in m.s.kids
    && ShapeOk(s) && nm.Keys == s.kids.Keys && next.Keys == s.kids.Keys
    && Elsewhere(m.s, s, Zone(m)) && s.stale == m.s.stale + {m.update}
    && NamesElsewhere(m.nm, nm, set k | k in Members(m))
    && Chain(s, next, Members(m), i)
    && LiveKids(s, m.source) && ParentsOld(m.s, s) && Owned(m)
  }

  ghost predicate Owned(m: Merge)
    requires m.update in m.s.kids
  {
    forall k :: k in Members(m) ==> k in m.s.parent
  }

  /** No node that was nobody's child has become one. */
  ghost predicate ParentsOld(s: Shape, t: Shape) {
    forall n :: n in t.parent && n in s.kids ==> n in s.parent
  }

  /** A node that metadata can be added to: a member of the source, or a new node. */
  ghost predicate Target(m: Merge, s: Shape, n: KjNode)
    requires m.source in m.s.kids
  {
    Live(s, n) && (n in m.s.kids[m.source] || n !in m.s.kids)
  }

  lemma ParentsAdd(s0: Shape, s: Shape, p: KjNode, c: KjNode)
    requires ParentsOld(s0, s) && p in s.kids && (c in s0.kids ==> c in s0.parent)
    ensures ParentsOld(s0, Added(s, p, c))
  {
  }

  lemma ParentsNew(s0: Shape, s: Shape, p: KjNode, n: KjNode)
    requires ParentsOld(s0, s) && p in s.kids && n !in s.kids && s0.kids.Keys <= s.kids.Keys
    ensures p in Created(s, n).kids && ParentsOld(s0, Added(Created(s, n), p, n))
  {
  }

  lemma ParentsRemove(s0: Shape, s: Shape, p: KjNode, j: nat)
    requires ParentsOld(s0, s) && p in s.kids && j < |s.kids[p]|
    ensures ParentsOld(s0, Removed(s, p, j))
  {
    hide Dropped;
  }

  lemma ChainKept(s: Shape, next: Pointers, t: Shape, next': Pointers, ns: seq<KjNode>, chain: seq<KjNode>, i: nat, i': nat)
    requires Chain(s, next, chain, i) && NextKept(next, next', ns) && i <= i' <= |chain|
    requires forall k :: i' <= k < |chain| ==> chain[k] !in ns && Free(t, chain[k]) && Live(t, chain[k])
    ensures Chain(t, next', chain, i')
  {
    hide Distinct, Free, Live;
  }

  lemma AddKeepsFree(s: Shape, p: KjNode, c: KjNode)
    requires p in s.kids && c in s.kids
    ensures forall n :: Free(s, n) && n != c ==> Free(Added(s, p, c), n)
    ensures forall n :: Live(s, n) ==> Live(Added(s, p, c), n)
    ensures Added(s, p, c).stale == s.stale
  {
  }

  lemma RemoveKeepsFree(s: Shape, p: KjNode, j: nat)
    requires p in s.kids && j < |s.kids[p]|
    ensures forall n :: Free(s, n) ==> Free(Removed(s, p, j), n)
    ensures forall n :: Live(s, n) ==> Live(Removed(s, p, j), n)
    ensures Removed(s, p, j).stale == s.stale
  {
    hide Dropped;
  }

  lemma CreateKeepsFree(s: Shape, n: KjNode)
    requires n !in s.kids
    ensures forall k :: Free(s, k) ==> Free(Created(s, n), k)
    ensures forall k :: Live(s, k) ==> Live(Created(s, n), k)
    ensures Created(s, n).stale == s.stale
  {
  }

  /** A node that is nobody's child is in no list. */
  lemma ChainApart(s: Shape, next: Pointers, chain: seq<KjNode>, i: nat, p: KjNode)
    requires ShapeOk(s) && Chain(s, next, chain, i) && p in s.kids
    ensures forall k :: i <= k < |chain| ==> chain[k] !in s.kids[p]
  {
    forall k | i <= k < |chain| ensures chain[k] !in s.kids[p] {
      FreeNotIn(s, chain[k]);
    }
  }

  /** The next member goes to the end of the source's list, or of a target's. */
  lemma MergeAdd(m: Merge, s: Shape, nm: NameMap, next: Pointers, i: nat, p: KjNode, t: Shape, next': Pointers)
    requires MergeInv(m, s, nm, next, i) && i < |Members(m)| && p in s.kids && (p == m.source || Target(m, s, p))
    requires t == Added(s, p, Members(m)[i]) && ShapeOk(t)
    requires NextKept(next, next', s.kids[p] + [Members(m)[i]]) && next'.Keys == t.kids.Keys
    ensures MergeInv(m, t, nm, next', i + 1)
  {
    var c, chain := Members(m)[i], Members(m);
    hide ShapeOk, NextKept, Added;
    assert Free(s, c) && Live(s, c);
    ChainAdd(s, next, chain, i, p, next');
    hide Chain, Free;
    AddKeepsFree(s, p, c);
    AddedKeys(s, p, c);
    assert c in chain;
    assert LiveKids(t, m.source);
    hide LiveKids;
    ParentsAdd(m.s, s, p, c);
    hide ParentsOld, Owned;
  }

  lemma ChainAdd(s: Shape, next: Pointers, chain: seq<KjNode>, i: nat, p: KjNode, next': Pointers)
    requires ShapeOk(s) && p in s.kids && i < |chain| && Chain(s, next, chain, i) && NextKept(next, next', s.kids[p] + [chain[i]])
    ensures Chain(Added(s, p, chain[i]), next', chain, i + 1)
  {
    assert Free(s, chain[i]);
    AddKeepsFree(s, p, chain[i]);
    ChainApart(s, next, chain, i, p);
    DistinctAt(chain);
    hide Added, ShapeOk, NextKept;
    ChainKept(s, next, Added(s, p, chain[i]), next', s.kids[p] + [chain[i]], chain, i, i + 1);
  }

  lemma LiveKidsNew(s: Shape, p: KjNode, n: KjNode, q: KjNode)
    requires p in s.kids && n !in s.kids && n !in s.stale && LiveKids(s, q)
    ensures var t := Added(Created(s, n), p, n); LiveKids(t, q) && Live(t, n)
  {
    CreateKeepsFree(s, n);
    CreatedKeys(s, n);
    AddKeepsFree(Created(s, n), p, n);
    AddedKeys(Created(s, n), p, n);
    hide Added, Created;
  }

  lemma ChainNew(s: Shape, next: Pointers, chain: seq<KjNode>, i: nat, p: KjNode, n: KjNode, next': Pointers)
    requires ShapeOk(s) && p in s.kids && n !in s.kids && Chain(s, next, chain, i) && NextKept(next, next', s.kids[p])
    ensures Chain(Added(Created(s, n), p, n), next', chain, i)
  {
    CreateKeepsFree(s, n);
    CreatedKeys(s, n);
    AddKeepsFree(Created(s, n), p, n);
    ChainApart(s, next, chain, i, p);
    assert forall k :: i <= k < |chain| ==> Free(s, chain[k]) && chain[k] in s.kids && chain[k] != n;
    hide Added, Created, ShapeOk, NextKept, Free;
    ChainKept(s, next, Added(Created(s, n), p, n), next', s.kids[p], chain, i, i);
  }

  lemma MergeRemove(m: Merge, s: Shape, nm: NameMap, next: Pointers, i: nat, j: nat, t: Shape, next': Pointers)
    requires MergeInv(m, s, nm, next, i) && m.source in s.kids && j < |s.kids[m.source]|
    requires t == Removed(s, m.source, j) && ShapeOk(t)
    requires NextKept(next, next', s.kids[m.source]) && next'.Keys == t.kids.Keys
    ensures MergeInv(m, t, nm, next', i)
  {
    RemoveKeepsFree(s, m.source, j);
    ParentsRemove(m.s, s, m.source, j);
    RemovedKeys(s, m.source, j);
    ChainApart(s, next, Members(m), i, m.source);
    DroppedDistinct(s.kids[m.source], j);
    hide Removed, ShapeOk, Dropped;
    ChainKept(s, next, t, next', s.kids[m.source], Members(m), i, i);
    hide Chain, Free, NextKept;
  }

  lemma MergeNew(m: Merge, s: Shape, nm: NameMap, next: Pointers, i: nat, p: KjNode, n: KjNode, name: string, t: Shape, next': Pointers)
    requires MergeInv(m, s, nm, next, i) && n !in s.kids && p in s.kids && (p == m.source || Target(m, s, p))
    requires t == Added(Created(s, n), p, n) && ShapeOk(t)
    requires NextKept(next, next', s.kids[p]) && next'.Keys == t.kids.Keys
    ensures MergeInv(m, t, nm[n := name], next', i)
    ensures Target(m, t, n)
  {
    hide NextKept, Added, Created, Chain, Free;
    StaleKnown(s);
    hide ShapeOk;
    ChainNew(s, next, Members(m), i, p, n, next');
    CreateKeepsFree(s, n);
    CreatedKeys(s, n);
    AddKeepsFree(Created(s, n), p, n);
    AddedKeys(Created(s, n), p, n);
    LiveKidsNew(s, p, n, m.source);
    ParentsNew(m.s, s, p, n);
    hide LiveKids, ParentsOld, Owned;
    assert Elsewhere(m.s, t, Zone(m));
    hide Elsewhere, Zone;
    assert NamesElsewhere(m.nm, nm[n := name], set k | k in Members(m));
    hide NamesElsewhere;
  }

  // ---- one member ----

  lemma MergeRename(m: Merge, s: Shape, nm: NameMap, next: Pointers, i: nat, name: string)
    requires MergeInv(m, s, nm, next, i) && i < |Members(m)|
    ensures Members(m)[i] in nm && Members(m)[i] in s.kids && MergeInv(m, s, nm[Members(m)[i] := name], next, i)
    ensures Free(s, Members(m)[i])
  {
    hide ShapeOk, Elsewhere, LiveKids;
    assert Members(m)[i] in Members(m);
    assert Free(s, Members(m)[i]);
    hide Chain;
  }

  /** The name of a node that is nobody's child does not matter to its future siblings. */
  lemma HasChildRename(s: Shape, nm: NameMap, p: KjNode, name: string, c: KjNode, x: string)
    requires ShapeOk(s) && HasChild(s, nm, p, name) && Free(s, c)
    ensures HasChild(s, nm[c := x], p, name)
  {
    FreeNotIn(s, c);
    var k :| k in s.kids[p] && k in nm && nm[k] == name;
    assert k in nm[c := x];
  }

  lemma HasChildAdd(s: Shape, nm: NameMap, p: KjNode, name: string, q: KjNode, c: KjNode)
    requires HasChild(s, nm, p, name) && q in s.kids
    ensures HasChild(Added(s, q, c), nm, p, name)
  {
    AddedKeys(s, q, c);
    hide Added;
    var k :| k in s.kids[p] && k in nm && nm[k] == name;
    assert k in Added(s, q, c).kids[p];
  }

  lemma HasChildNew(s: Shape, nm: NameMap, p: KjNode, name: string, q: KjNode, n: KjNode, x: string)
    requires HasChild(s, nm, p, name) && q in s.kids && n !in s.kids && n !in nm
    ensures HasChild(Added(Created(s, n), q, n), nm[n := x], p, name)
  {
    CreatedKeys(s, n);
    AddedKeys(Created(s, n), q, n);
    hide Added, Created;
    var k :| k in s.kids[p] && k in nm && nm[k] == name;
    assert k in Added(Created(s, n), q, n).kids[p];
  }

  /** Replacing the child with some name by another one with that name. */
  lemma HasChildReplace(s: Shape, nm: NameMap, p: KjNode, name: string, j: nat, c: KjNode)
    requires HasChild(s, nm, p, name) && j < |s.kids[p]| && c in nm && Distinct(s.kids[p])
    requires s.kids[p][j] in nm && nm[s.kids[p][j]] == nm[c]
    ensures p in Removed(s, p, j).kids && HasChild(Added(Removed(s, p, j), p, c), nm, p, name)
  {
    RemovedKeys(s, p, j);
    DroppedDistinct(s.kids[p], j);
    AddedKeys(Removed(s, p, j), p, c);
    hide Added, Removed, Dropped, Distinct;
    var t := Added(Removed(s, p, j), p, c);
    assert t.kids[p][|t.kids[p]| - 1] == c;
    var k :| k in s.kids[p] && k in nm && nm[k] == name;
    assert k == s.kids[p][j] || k in t.kids[p];
  }

  lemma InvFacts(m: Merge, s: Shape, nm: NameMap, next: Pointers, i: nat)
    requires MergeInv(m, s, nm, next, i)
    ensures m.source in m.s.kids && m.update in m.s.kids && i <= |Members(m)|
    ensures ShapeOk(s) && Live(s, m.source) && m.source in s.kids && nm.Keys == s.kids.Keys && next.Keys == s.kids.Keys
    ensures Distinct(s.kids[m.source])
    ensures forall k :: k in s.kids[m.source] ==> k in s.kids && k in nm
    ensures i < |Members(m)| ==> var c := Members(m)[i];
      Live(s, c) && Free(s, c) && c in s.kids && next[c] == if i + 1 < |Members(m)| then Members(m)[i + 1] else null
  {
    KidsIn(s, m.source);
    hide ShapeOk, Distinct, Elsewhere, NamesElsewhere;
  }

  lemma TargetKept(m: Merge, s: Shape, nm: NameMap, next: Pointers, i: nat, t: Shape, nm': NameMap, next': Pointers, i': nat, n: KjNode)
    requires MergeInv(m, s, nm, next, i) && MergeInv(m, t, nm', next', i') && s.kids.Keys <= t.kids.Keys && Target(m, s, n)
    ensures Target(m, t, n)
  {
    hide ShapeOk, Elsewhere, NamesElsewhere, Chain, LiveKids;
  }

  lemma TargetIn(m: Merge, s: Shape, n: KjNode)
    requires m.source in m.s.kids && Target(m, s, n)
    ensures Live(s, n) && n in s.kids
  {
  }

  /** The member takes the place of one with its name, or joins the others at the end. */
  method AddMember(f: Forest, source: KjNode, node: KjNode, same: KjNode?, ghost j: nat, ghost m: Merge, ghost i: nat)
    requires f.Valid() && source == m.source
    requires MergeInv(m, f.shape, Names(f.shape.kids.Keys), Nexts(f.shape.kids.Keys), i)
    requires HasChild(f.shape, Names(f.shape.kids.Keys), source, "modDate")
    requires i < |Members(m)| && node == Members(m)[i] && source in f.shape.kids && node in f.shape.kids
    requires same != null ==> j < |f.shape.kids[source]| && f.shape.kids[source][j] == same && same.name == node.name
    modifies f`shape, f.shape.kids.Keys`next, source`firstChild, source`lastChild
    ensures f.Valid() && f.shape.kids.Keys == old(f.shape.kids.Keys)
    ensures MergeInv(m, f.shape, Names(f.shape.kids.Keys), Nexts(f.shape.kids.Keys), i + 1)
    ensures HasChild(f.shape, Names(f.shape.kids.Keys), source, "modDate")
    ensures f.shape.kids[source] == (if same != null then Dropped(old(f.shape).kids[source], j) else old(f.shape).kids[source]) + [node]
    ensures forall n :: n in old(f.shape).kids && n != source ==> f.shape.kids[n] == old(f.shape).kids[n]
    ensures Names(f.shape.kids.Keys) == old(Names(f.shape.kids.Keys))
  {
    hide *;
    ghost var s, nm, next := f.shape, Names(f.shape.kids.Keys), Nexts(f.shape.kids.Keys);
    InvFacts(m, s, nm, next, i);
    NameOf(node, s.kids.Keys);
    if same != null {
      NameOf(same, s.kids.Keys);
      HasChildReplace(s, nm, source, "modDate", j, node);
      RemovedKeys(s, source, j);
      f.ChildRemove(source, same, j);
      KeptByRemove(next, s.kids[source], j);
      f.ValidFacts();
      MergeRemove(m, s, nm, next, i, j, f.shape, Nexts(f.shape.kids.Keys));
    } else {
      HasChildAdd(s, nm, source, "modDate", source, node);
    }
    AddedKeys(f.shape, source, node);
    AppendMember(f, source, source, node, m, i);
  }

  /** The next member goes to the end of a list. */
  method AppendMember(f: Forest, p: KjNode, ghost source: KjNode, node: KjNode, ghost m: Merge, ghost i: nat)
    requires f.Valid() && source == m.source && p in f.shape.kids
    requires MergeInv(m, f.shape, Names(f.shape.kids.Keys), Nexts(f.shape.kids.Keys), i)
    requires source in m.s.kids && (p == source || Target(m, f.shape, p))
    requires i < |Members(m)| && node == Members(m)[i]
    modifies f`shape, f.shape.kids.Keys`next, p`firstChild, p`lastChild
    ensures f.Valid() && f.shape == Added(old(f.shape), p, node) && f.shape.kids.Keys == old(f.shape.kids.Keys)
    ensures Names(f.shape.kids.Keys) == old(Names(f.shape.kids.Keys))
    ensures MergeInv(m, f.shape, Names(f.shape.kids.Keys), Nexts(f.shape.kids.Keys), i + 1)
  {
    hide *;
    ghost var s, nm, next := f.shape, Names(f.shape.kids.Keys), Nexts(f.shape.kids.Keys);
    InvFacts(m, s, nm, next, i);
    if p != source {
      TargetIn(m, s, p);
    }
    f.ValidFacts();
    LastIn(s, p);
    KeptByAdd(next, s.kids[p], node);
    AddedKeys(s, p, node);
    f.ChildAdd(p, node);
    f.ValidFacts();
    PointersOf(p, f.shape.kids.Keys);
    assert Names(f.shape.kids.Keys) == nm;
    MergeAdd(m, s, nm, next, i, p, f.shape, Nexts(f.shape.kids.Keys));
  }

  /** A new member of the source, or a new name in mdNames. */
  method AppendNew(f: Forest, p: KjNode, name: string, kind: Kind, text: string, ghost m: Merge, ghost i: nat) returns (n: KjNode)
    requires f.Valid() && p in f.shape.kids
    requires MergeInv(m, f.shape, Names(f.shape.kids.Keys), Nexts(f.shape.kids.Keys), i)
    requires HasChild(f.shape, Names(f.shape.kids.Keys), m.source, "modDate")
    requires m.source in m.s.kids && (p == m.source || Target(m, f.shape, p))
    modifies f`shape, f.shape.kids.Keys`next, p`firstChild, p`lastChild
    ensures f.Valid() && fresh(n) && f.shape.kids.Keys == old(f.shape.kids.Keys) + {n} && n.text == text
    ensures MergeInv(m, f.shape, Names(f.shape.kids.Keys), Nexts(f.shape.kids.Keys), i)
    ensures HasChild(f.shape, Names(f.shape.kids.Keys), m.source, "modDate")
    ensures Target(m, f.shape, n) && n !in old(f.shape).kids && f.shape == Added(Created(old(f.shape), n), p, n)
    ensures Names(f.shape.kids.Keys) == old(Names(f.shape.kids.Keys))[n := name]
  {
    hide *;
    ghost var s, nm, next := f.shape, Names(f.shape.kids.Keys), Nexts(f.shape.kids.Keys);
    InvFacts(m, s, nm, next, i);
    if p != m.source {
      TargetIn(m, s, p);
    }
    n := AddNew(f, p, name, kind, text, 0);
    f.ValidFacts();
    HasChildNew(s, nm, m.source, "modDate", p, n, name);
    CreatedKeys(s, n);
    AddedKeys(Created(s, n), p, n);
    PointersOf(n, f.shape.kids.Keys);
    MergeNew(m, s, nm, next, i, p, n, name, f.shape, Nexts(f.shape.kids.Keys));
  }

  /** What the two lists, and the attribute's own, are after a member has become metadata. */
  ghost predicate MetaDone(s: Shape, t: Shape, source: KjNode, md0: KjNode?, md: KjNode, mdNames: KjNode, node: KjNode, n: KjNode) {
    && s.kids.Keys <= t.kids.Keys && source in s.kids && mdNames in s.kids && md in t.kids && (md0 != null ==> md0 in s.kids)
    && t.kids[source] == s.kids[source] + (if md0 == null then [md] else [])
    && t.kids[md] == (if md0 == null then [] else s.kids[md0]) + [node]
    && t.kids[mdNames] == s.kids[mdNames] + [n]
  }

  ghost function MetaNames(nm: NameMap, md0: KjNode?, md: KjNode, node: KjNode, name: string, n: KjNode): NameMap {
    (if md0 == null then nm[md := "md"] else nm)[node := DotForEq(name)][n := ""]
  }

  lemma MetaNamesIs(nm: NameMap, md0: KjNode?, md: KjNode, node: KjNode, name: string, n: KjNode)
    ensures MetaNames(nm, md0, md, node, name, n) == (if md0 == null then nm[md := "md"] else nm)[node := DotForEq(name)][n := ""]
  {
  }

  lemma MetaDoneOld(s: Shape, t: Shape, source: KjNode, md: KjNode, mdNames: KjNode, node: KjNode, n: KjNode)
    requires MdGrown(s, t, md, mdNames, node, n) && source in s.kids && source != md && source != mdNames
    ensures MetaDone(s, t, source, md, md, mdNames, node, n)
  {
  }

  lemma MetaDoneNew(s: Shape, s1: Shape, t: Shape, source: KjNode, md: KjNode, mdNames: KjNode, node: KjNode, n: KjNode)
    requires source in s.kids && mdNames in s.kids && md !in s.kids && source != mdNames
    requires source in Created(s, md).kids && s1 == Added(Created(s, md), source, md) && MdGrown(s1, t, md, mdNames, node, n)
    ensures MetaDone(s, t, source, null, md, mdNames, node, n)
  {
    CreatedKeys(s, md);
    AddedKeys(Created(s, md), source, md);
    hide Added, Created;
  }

  /** The member becomes metadata: its name without dots under md, and with dots in mdNames. */
  method AddMetadata(f: Forest, source: KjNode, node: KjNode, md0: KjNode?, mdNames: KjNode, ghost m: Merge, ghost i: nat)
      returns (md: KjNode, ghost n: KjNode)
    requires md0 != mdNames && mdNames != source && md0 != source
    requires f.Valid() && source == m.source && source in f.shape.kids
    requires MergeInv(m, f.shape, Names(f.shape.kids.Keys), Nexts(f.shape.kids.Keys), i)
    requires HasChild(f.shape, Names(f.shape.kids.Keys), source, "modDate")
    requires i < |Members(m)| && node == Members(m)[i] && node in f.shape.kids
    requires source in m.s.kids && Target(m, f.shape, mdNames) && (md0 != null ==> Target(m, f.shape, md0))
    modifies f`shape, f.shape.kids.Keys`next, f.shape.kids.Keys`firstChild, f.shape.kids.Keys`lastChild, node`name
    ensures f.Valid() && old(f.shape.kids.Keys) <= f.shape.kids.Keys && fresh(f.shape.kids.Keys - old(f.shape.kids.Keys))
    ensures MergeInv(m, f.shape, Names(f.shape.kids.Keys), Nexts(f.shape.kids.Keys), i + 1)
    ensures HasChild(f.shape, Names(f.shape.kids.Keys), source, "modDate")
    ensures Target(m, f.shape, mdNames) && Target(m, f.shape, md) && (md0 != null ==> md == md0)
    ensures n !in old(f.shape).kids && n.text == old(node.name) && (md0 == null ==> md !in old(f.shape).kids && md != n)
    ensures MetaDone(old(f.shape), f.shape, source, md0, md, mdNames, node, n)
    ensures Names(f.shape.kids.Keys) == MetaNames(old(Names(f.shape.kids.Keys)), md0, md, node, old(node.name), n)
  {
    hide *;
    ghost var s0, nm0, next0 := f.shape, Names(f.shape.kids.Keys), Nexts(f.shape.kids.Keys);
    InvFacts(m, s0, nm0, next0, i);
    TargetIn(m, s0, mdNames);
    if md0 == null {
      md := AppendNew(f, source, "md", KjObject, "", m, i);
      TargetKept(m, s0, nm0, next0, i, f.shape, Names(f.shape.kids.Keys), Nexts(f.shape.kids.Keys), i, mdNames);
    } else {
      md := md0;
    }
    ghost var s1 := f.shape;
    TargetIn(m, s1, md);
    n := AddRenamed(f, source, node, md, mdNames, m, i);
    if md0 == null {
      CreatedKeys(s0, md);
      MetaDoneNew(s0, s1, f.shape, source, md, mdNames, node, n);
    } else {
      MetaDoneOld(s0, f.shape, source, md, mdNames, node, n);
    }
    MetaNamesIs(nm0, md0, md, node, old(node.name), n);
  }

  /** The lists md and mdNames have grown, and no other. */
  ghost predicate MdGrown(s: Shape, t: Shape, md: KjNode, mdNames: KjNode, node: KjNode, n: KjNode) {
    && s.kids.Keys <= t.kids.Keys && md in s.kids && mdNames in s.kids
    && t.kids[md] == s.kids[md] + [node] && t.kids[mdNames] == s.kids[mdNames] + [n]
    && forall k :: k in s.kids && k != md && k != mdNames ==> t.kids[k] == s.kids[k]
  }

  lemma MdGrownIs(s: Shape, md: KjNode, mdNames: KjNode, node: KjNode, n: KjNode)
    requires md in s.kids && mdNames in s.kids && md != mdNames && n !in s.kids
    ensures mdNames in Created(Added(s, md, node), n).kids
    ensures MdGrown(s, Added(Created(Added(s, md, node), n), mdNames, n), md, mdNames, node, n)
  {
    AddedKeys(s, md, node);
    var t := Added(s, md, node);
    CreatedKeys(t, n);
    AddedKeys(Created(t, n), mdNames, n);
    hide Added, Created;
  }

  method AddRenamed(f: Forest, ghost source: KjNode, node: KjNode, md: KjNode, mdNames: KjNode, ghost m: Merge, ghost i: nat)
      returns (ghost n: KjNode)
    requires md != mdNames
    requires f.Valid() && source == m.source && source in f.shape.kids
    requires MergeInv(m, f.shape, Names(f.shape.kids.Keys), Nexts(f.shape.kids.Keys), i)
    requires HasChild(f.shape, Names(f.shape.kids.Keys), source, "modDate")
    requires i < |Members(m)| && node == Members(m)[i] && node in f.shape.kids
    requires source in m.s.kids && Target(m, f.shape, mdNames) && Target(m, f.shape, md)
    modifies f`shape, f.shape.kids.Keys`next, f.shape.kids.Keys`firstChild, f.shape.kids.Keys`lastChild, node`name
    ensures f.Valid() && old(f.shape.kids.Keys) <= f.shape.kids.Keys && fresh(f.shape.kids.Keys - old(f.shape.kids.Keys))
    ensures MergeInv(m, f.shape, Names(f.shape.kids.Keys), Nexts(f.shape.kids.Keys), i + 1)
    ensures HasChild(f.shape, Names(f.shape.kids.Keys), source, "modDate")
    ensures Target(m, f.shape, mdNames) && Target(m, f.shape, md)
    ensures n !in old(f.shape).kids && n.text == old(node.name) && MdGrown(old(f.shape), f.shape, md, mdNames, node, n)
    ensures Names(f.shape.kids.Keys) == old(Names(f.shape.kids.Keys))[node := DotForEq(old(node.name))][n := ""]
  {
    hide *;
    ghost var s0, nm0, next0 := f.shape, Names(f.shape.kids.Keys), Nexts(f.shape.kids.Keys);
    InvFacts(m, s0, nm0, next0, i);
    TargetIn(m, s0, md);
    TargetIn(m, s0, mdNames);
    var nameWithDots := node.name;
    ghost var x := DotForEq(nameWithDots);
    MergeRename(m, s0, nm0, next0, i, x);
    HasChildRename(s0, nm0, source, "modDate", node, x);
    Rename(node, DotForEq(nameWithDots), s0.kids.Keys);
    HasChildAdd(s0, nm0[node := x], source, "modDate", md, node);
    AppendMember(f, md, source, node, m, i);
    ghost var s1, nm1, next1 := f.shape, Names(f.shape.kids.Keys), Nexts(f.shape.kids.Keys);
    TargetKept(m, s0, nm0, next0, i, s1, nm1, next1, i + 1, md);
    TargetKept(m, s0, nm0, next0, i, s1, nm1, next1, i + 1, mdNames);
    var added := AppendNew(f, mdNames, "", KjString, nameWithDots, m, i + 1);
    n := added;
    MdGrownIs(s0, md, mdNames, node, n);
    ghost var s2, nm2, next2 := f.shape, Names(f.shape.kids.Keys), Nexts(f.shape.kids.Keys);
    TargetKept(m, s1, nm1, next1, i + 1, s2, nm2, next2, i + 1, md);
    TargetKept(m, s1, nm1, next1, i + 1, s2, nm2, next2, i + 1, mdNames);
  }

  // ---- what the lists hold ----

  ghost function LayoutOf(s: Shape, nm: NameMap, source: KjNode, md: KjNode?, mdNames: KjNode): Layout
    requires source in s.kids && mdNames in s.kids && (md != null ==> md in s.kids)
  {
    Layout(s.kids[source], nm, md, mdNames, if md == null then [] else s.kids[md], s.kids[mdNames])
  }

  lemma FirstNamedIs(ns: seq<KjNode>, nm: NameMap, nm': NameMap, node: KjNode, name: string, j: nat)
    requires j <= |ns| && node !in ns && (forall n :: n in ns ==> n in nm && n in nm' && nm'[n] == nm[n])
    requires forall k :: 0 <= k < j ==> nm'[ns[k]] != name
    requires j < |ns| ==> nm'[ns[j]] == name
    ensures FirstNamed(ns, nm, name, j)
  {
    assert forall k :: 0 <= k < |ns| ==> ns[k] in ns;
  }

  lemma SameNameMap(nm: NameMap, c: KjNode)
    requires c in nm && nm[c] != "object"
    ensures nm[c := FinalName(nm[c])] == nm
  {
  }

  lemma TopStepIs(a: Layout, c: KjNode, j: nat, b: Layout)
    requires c in a.names && FirstNamed(a.top, a.names, FinalName(a.names[c]), j)
    requires j < |a.top| || Fixed(FinalName(a.names[c]))
    requires b.top == (if j < |a.top| then Dropped(a.top, j) else a.top) + [c] && b.names == a.names[c := FinalName(a.names[c])]
    requires b.mdNode == a.mdNode && b.namesNode == a.namesNode && b.md == a.md && b.mdNames == a.mdNames
    ensures TopStep(a, c, j, b)
  {
  }

  lemma MdStepIs(a: Layout, c: KjNode, md0: KjNode?, md: KjNode, n: KjNode, b: Layout, name: string)
    requires c in a.names && name == FinalName(a.names[c]) && FirstNamed(a.top, a.names, name, |a.top|) && !Fixed(name)
    requires a.mdNode == md0 && n !in a.names && (md0 == null ==> md !in a.names && md != n) && n.text == name
    requires b.top == a.top + (if md0 == null then [md] else []) && b.md == a.md + [c] && b.mdNames == a.mdNames + [n]
    requires b.mdNode == md && b.namesNode == a.namesNode && (md0 != null ==> md == md0)
    requires b.names == MetaNames(a.names[c := name], md0, md, c, name, n) && (md0 == null ==> md != c)
    ensures MdStep(a, c, if md0 == null then md else null, n, b)
  {
    var newMd: KjNode? := if md0 == null then md else null;
    assert b.names == (if newMd == null then a.names else a.names[newMd := "md"])[c := DotForEq(name)][n := ""];
  }

  lemma OutcomeHere(p: Plan, a: Layout, i: nat)
    requires Outcome(p, a, i) && i < |p.members|
    ensures p.members[i] !in a.top && p.members[i] in a.names
  {
  }

  lemma LayoutIs(s: Shape, nm: NameMap, source: KjNode, md: KjNode?, mdNames: KjNode)
    requires source in s.kids && mdNames in s.kids && (md != null ==> md in s.kids)
    ensures var a := LayoutOf(s, nm, source, md, mdNames);
      && a.top == s.kids[source] && a.names == nm && a.mdNode == md && a.namesNode == mdNames
      && a.md == (if md == null then [] else s.kids[md]) && a.mdNames == s.kids[mdNames]
  {
  }

  lemma FinalNameIs(name: string)
    ensures FinalName(name) == if name == "object" then "value" else name
    ensures Fixed(name) <==> name == "type" || name == "value" || name == "creDate" || name == "modDate"
  {
  }

  /** An "object" is called "value" from here on. */
  method GiveFinalName(f: Forest, node: KjNode, ghost m: Merge, ghost i: nat)
    requires f.Valid() && node in f.shape.kids
    requires MergeInv(m, f.shape, Names(f.shape.kids.Keys), Nexts(f.shape.kids.Keys), i)
    requires HasChild(f.shape, Names(f.shape.kids.Keys), m.source, "modDate")
    requires m.update in m.s.kids && i < |Members(m)| && node == Members(m)[i]
    modifies node`name
    ensures f.Valid() && node in old(Names(f.shape.kids.Keys)) && node.name == FinalName(old(Names(f.shape.kids.Keys))[node])
    ensures Names(f.shape.kids.Keys) == old(Names(f.shape.kids.Keys))[node := node.name]
    ensures Nexts(f.shape.kids.Keys) == old(Nexts(f.shape.kids.Keys))
    ensures MergeInv(m, f.shape, Names(f.shape.kids.Keys), Nexts(f.shape.kids.Keys), i)
    ensures HasChild(f.shape, Names(f.shape.kids.Keys), m.source, "modDate")
  {
    hide *;
    ghost var s, nm, next := f.shape, Names(f.shape.kids.Keys), Nexts(f.shape.kids.Keys);
    InvFacts(m, s, nm, next, i);
    NameOf(node, s.kids.Keys);
    FinalNameIs(node.name);
    if node.name == "object" {
      MergeRename(m, s, nm, next, i, "value");
      HasChildRename(s, nm, m.source, "modDate", node, "value");
      Rename(node, "value", s.kids.Keys);
    } else {
      SameNameMap(nm, node);
    }
  }

  /** One round of the loop. */
  method MergeMember(f: Forest, source: KjNode, node: KjNode, md0: KjNode?, mdNames: KjNode, ghost m: Merge, ghost i: nat, ghost p: Plan)
      returns (next: KjNode?, md: KjNode?)
    requires md0 != mdNames && mdNames != source && md0 != source
    requires f.Valid() && source == m.source && source in f.shape.kids
    requires MergeInv(m, f.shape, Names(f.shape.kids.Keys), Nexts(f.shape.kids.Keys), i)
    requires HasChild(f.shape, Names(f.shape.kids.Keys), source, "modDate")
    requires i < |Members(m)| && node == Members(m)[i] && node in f.shape.kids && Members(m) == p.members
    requires source in m.s.kids && Target(m, f.shape, mdNames) && (md0 != null ==> Target(m, f.shape, md0))
    requires mdNames in f.shape.kids && (md0 != null ==> md0 in f.shape.kids)
    requires Outcome(p, LayoutOf(f.shape, Names(f.shape.kids.Keys), source, md0, mdNames), i)
    modifies f`shape, f.shape.kids.Keys`next, f.shape.kids.Keys`firstChild, f.shape.kids.Keys`lastChild, node`name
    ensures f.Valid() && old(f.shape.kids.Keys) <= f.shape.kids.Keys && fresh(f.shape.kids.Keys - old(f.shape.kids.Keys))
    ensures MergeInv(m, f.shape, Names(f.shape.kids.Keys), Nexts(f.shape.kids.Keys), i + 1)
    ensures HasChild(f.shape, Names(f.shape.kids.Keys), source, "modDate")
    ensures Target(m, f.shape, mdNames) && (md != null ==> Target(m, f.shape, md) && md in f.shape.kids)
    ensures next == if i + 1 < |Members(m)| then Members(m)[i + 1] else null
    ensures md != mdNames && md != source && (md0 != null ==> md == md0) && mdNames in f.shape.kids && source in f.shape.kids
    ensures Outcome(p, LayoutOf(f.shape, Names(f.shape.kids.Keys), source, md, mdNames), i + 1)
  {
    hide *;
    ghost var s0, nm0, next0 := f.shape, Names(f.shape.kids.Keys), Nexts(f.shape.kids.Keys);
    ghost var a := LayoutOf(s0, nm0, source, md0, mdNames);
    LayoutIs(s0, nm0, source, md0, mdNames);
    InvFacts(m, s0, nm0, next0, i);
    OutcomeHere(p, a, i);
    PointersOf(node, s0.kids.Keys);
    next, md := node.next, md0;
    GiveFinalName(f, node, m, i);
    ghost var nm1 := Names(f.shape.kids.Keys);
    AllNames(s0.kids.Keys);
    FinalNameIs(node.name);
    var same; ghost var j;
    same, j := f.Lookup(source, node.name);
    FirstNamedIs(s0.kids[source], nm0, nm1, node, node.name, j);
    if node.name == "type" || node.name == "value" || node.name == "creDate" || node.name == "modDate" || same != null {
      PlaceOnTop(f, source, node, same, j, md, mdNames, m, i, p, nm0);
    } else {
      md := PlaceInMd(f, source, node, md0, mdNames, m, i, p, nm0);
    }
  }

  method PlaceOnTop(f: Forest, source: KjNode, node: KjNode, same: KjNode?, ghost j: nat, ghost md: KjNode?, ghost mdNames: KjNode,
                    ghost m: Merge, ghost i: nat, ghost p: Plan, ghost nm0: NameMap)
    requires md != mdNames && mdNames != source && md != source
    requires f.Valid() && source == m.source && source in f.shape.kids
    requires MergeInv(m, f.shape, Names(f.shape.kids.Keys), Nexts(f.shape.kids.Keys), i)
    requires HasChild(f.shape, Names(f.shape.kids.Keys), source, "modDate")
    requires i < |Members(m)| && node == Members(m)[i] && node in f.shape.kids && Members(m) == p.members
    requires source in m.s.kids && Target(m, f.shape, mdNames) && (md != null ==> Target(m, f.shape, md))
    requires mdNames in f.shape.kids && (md != null ==> md in f.shape.kids)
    requires node in nm0 && node.name == FinalName(nm0[node]) && Names(f.shape.kids.Keys) == nm0[node := node.name]
    requires Outcome(p, LayoutOf(f.shape, nm0, source, md, mdNames), i)
    requires FirstNamed(f.shape.kids[source], nm0, node.name, j) && (j < |f.shape.kids[source]| || Fixed(node.name))
    requires same == if j < |f.shape.kids[source]| then f.shape.kids[source][j] else null
    requires same != null ==> same.name == node.name
    modifies f`shape, f.shape.kids.Keys`next, source`firstChild, source`lastChild
    ensures f.Valid() && f.shape.kids.Keys == old(f.shape.kids.Keys)
    ensures MergeInv(m, f.shape, Names(f.shape.kids.Keys), Nexts(f.shape.kids.Keys), i + 1)
    ensures HasChild(f.shape, Names(f.shape.kids.Keys), source, "modDate")
    ensures Target(m, f.shape, mdNames) && (md != null ==> Target(m, f.shape, md))
    ensures Outcome(p, LayoutOf(f.shape, Names(f.shape.kids.Keys), source, md, mdNames), i + 1)
  {
    hide *;
    ghost var s0, nm1, next0 := f.shape, Names(f.shape.kids.Keys), Nexts(f.shape.kids.Keys);
    ghost var a := LayoutOf(s0, nm0, source, md, mdNames);
    LayoutIs(s0, nm0, source, md, mdNames);
    AddMember(f, source, node, same, j, m, i);
    TargetKept(m, s0, nm1, next0, i, f.shape, Names(f.shape.kids.Keys), Nexts(f.shape.kids.Keys), i + 1, mdNames);
    if md != null {
      TargetKept(m, s0, nm1, next0, i, f.shape, Names(f.shape.kids.Keys), Nexts(f.shape.kids.Keys), i + 1, md);
    }
    LayoutIs(f.shape, nm1, source, md, mdNames);
    TopStepIs(a, node, j, LayoutOf(f.shape, nm1, source, md, mdNames));
    OutcomeTop(p, a, i, j, LayoutOf(f.shape, nm1, source, md, mdNames));
  }

  method PlaceInMd(f: Forest, source: KjNode, node: KjNode, md0: KjNode?, mdNames: KjNode,
                   ghost m: Merge, ghost i: nat, ghost p: Plan, ghost nm0: NameMap) returns (md: KjNode)
    requires md0 != mdNames && mdNames != source && md0 != source
    requires f.Valid() && source == m.source && source in f.shape.kids
    requires MergeInv(m, f.shape, Names(f.shape.kids.Keys), Nexts(f.shape.kids.Keys), i)
    requires HasChild(f.shape, Names(f.shape.kids.Keys), source, "modDate")
    requires i < |Members(m)| && node == Members(m)[i] && node in f.shape.kids && Members(m) == p.members
    requires source in m.s.kids && Target(m, f.shape, mdNames) && (md0 != null ==> Target(m, f.shape, md0))
    requires mdNames in f.shape.kids && (md0 != null ==> md0 in f.shape.kids)
    requires node in nm0 && node.name == FinalName(nm0[node]) && Names(f.shape.kids.Keys) == nm0[node := node.name] && nm0.Keys == f.shape.kids.Keys
    requires Outcome(p, LayoutOf(f.shape, nm0, source, md0, mdNames), i)
    requires FirstNamed(f.shape.kids[source], nm0, node.name, |f.shape.kids[source]|) && !Fixed(node.name)
    modifies f`shape, f.shape.kids.Keys`next, f.shape.kids.Keys`firstChild, f.shape.kids.Keys`lastChild, node`name
    ensures f.Valid() && old(f.shape.kids.Keys) <= f.shape.kids.Keys && fresh(f.shape.kids.Keys - old(f.shape.kids.Keys))
    ensures MergeInv(m, f.shape, Names(f.shape.kids.Keys), Nexts(f.shape.kids.Keys), i + 1)
    ensures HasChild(f.shape, Names(f.shape.kids.Keys), source, "modDate")
    ensures Target(m, f.shape, mdNames) && Target(m, f.shape, md) && md in f.shape.kids && (md0 != null ==> md == md0)
    ensures md != mdNames && md != source
    ensures Outcome(p, LayoutOf(f.shape, Names(f.shape.kids.Keys), source, md, mdNames), i + 1)
  {
    hide *;
    ghost var s0, name := f.shape, node.name;
    ghost var a := LayoutOf(s0, nm0, source, md0, mdNames);
    LayoutIs(s0, nm0, source, md0, mdNames);
    ghost var n;
    md, n := AddMetadata(f, source, node, md0, mdNames, m, i);
    ghost var nm2 := Names(f.shape.kids.Keys);
    MetaDoneFacts(s0, f.shape, source, md0, md, mdNames, node, n);
    LayoutIs(f.shape, nm2, source, md, mdNames);
    MdStepIs(a, node, md0, md, n, LayoutOf(f.shape, nm2, source, md, mdNames), name);
    OutcomeMd(p, a, i, if md0 == null then md else null, n, LayoutOf(f.shape, nm2, source, md, mdNames));
  }

  lemma MetaDoneFacts(s: Shape, t: Shape, source: KjNode, md0: KjNode?, md: KjNode, mdNames: KjNode, node: KjNode, n: KjNode)
    requires MetaDone(s, t, source, md0, md, mdNames, node, n)
    ensures s.kids.Keys <= t.kids.Keys && source in s.kids && mdNames in s.kids && md in t.kids && (md0 != null ==> md0 in s.kids)
    ensures t.kids[source] == s.kids[source] + (if md0 == null then [md] else [])
    ensures t.kids[md] == (if md0 == null then [] else s.kids[md0]) + [node]
    ensures t.kids[mdNames] == s.kids[mdNames] + [n]
  {
  }

  lemma MergeBegin(m: Merge, next: Pointers)
    requires MergeOk(m) && NextsOk(m.s, next)
    ensures ShapeOk(Disowned(m.s, m.update)) && MergeInv(m, Disowned(m.s, m.update), m.nm, next, 0)
    ensures HasChild(Disowned(m.s, m.update), m.nm, m.source, "modDate")
  {
    MergeOkFacts(m);
    hide *;
    DisownedOk(m.s, m.update);
    DisownedKeys(m.s, m.update);
    MergeOkParts(m);
    KidsIn(m.s, m.update);
    NextsKeys(m.s, next, m.update);
    MembersIs(m);
    ParentsDisowned(m);
    DisownedChain(m, next, Disowned(m.s, m.update));
    MergeFirst(m, next, Disowned(m.s, m.update));
  }

  lemma ParentsDisowned(m: Merge)
    requires ShapeOk(m.s) && m.update in m.s.kids
    ensures ParentsOld(m.s, Disowned(m.s, m.update)) && Owned(m)
  {
    KidsIn(m.s, m.update);
    hide ShapeOk;
  }

  lemma MergeOkParts(m: Merge)
    requires MergeOk(m)
    ensures ShapeOk(m.s) && m.nm.Keys == m.s.kids.Keys && LiveKids(m.s, m.update) && LiveKids(m.s, m.source)
    ensures m.source != m.update && m.update in m.s.kids && m.update !in m.s.kids[m.update]
    ensures m.source in m.s.kids && m.update !in m.s.kids[m.source]
  {
    hide ShapeOk;
  }

  lemma MergeFirst(m: Merge, next: Pointers, t: Shape)
    requires m.source in m.s.kids && m.update in m.s.kids && m.source != m.update && m.update !in m.s.kids[m.source]
    requires ShapeOk(t) && m.nm.Keys == m.s.kids.Keys && next.Keys == m.s.kids.Keys
    requires t.kids.Keys == m.s.kids.Keys && t.stale == m.s.stale + {m.update}
    requires forall n :: n in m.s.kids && n != m.update ==> t.kids[n] == m.s.kids[n]
    requires Chain(t, next, Members(m), 0) && LiveKids(m.s, m.source) && HasChild(m.s, m.nm, m.source, "modDate")
    requires ParentsOld(m.s, t) && Owned(m)
    ensures MergeInv(m, t, m.nm, next, 0) && HasChild(t, m.nm, m.source, "modDate")
  {
    hide ShapeOk, Chain, ParentsOld, Owned;
  }

  lemma DisownedKeys(s: Shape, p: KjNode)
    requires p in s.kids
    ensures var t := Disowned(s, p);
      && t.kids.Keys == s.kids.Keys && t.stale == s.stale + {p}
      && forall n :: n in s.kids && n != p ==> t.kids[n] == s.kids[n]
  {
  }

  lemma DisownedChain(m: Merge, next: Pointers, t: Shape)
    requires m.update in m.s.kids && t.kids.Keys == m.s.kids.Keys && t.stale == m.s.stale + {m.update}
    requires LiveKids(m.s, m.update) && m.update !in m.s.kids[m.update]
    requires forall k :: k in Members(m) ==> Free(t, k)
    requires Linked(Members(m), next) && Distinct(Members(m))
    ensures Chain(t, next, Members(m), 0)
  {
    hide Distinct;
    assert forall k :: 0 <= k < |Members(m)| ==> Members(m)[k] in Members(m);
  }

  /** The children called md and mdNames, if there are any. */
  ghost predicate ListsFound(m: Merge, md: KjNode?, mdNames: KjNode?) {
    && m.source in m.s.kids
    && (md == null ==> !NamedBy(m.s.kids[m.source], m.nm, "md"))
    && (md != null ==> md in m.s.kids[m.source] && md in m.nm && m.nm[md] == "md" && md in m.s.kids)
    && (mdNames == null ==> !NamedBy(m.s.kids[m.source], m.nm, "mdNames"))
    && (mdNames != null ==> mdNames in m.s.kids[m.source] && mdNames in m.nm && m.nm[mdNames] == "mdNames" && mdNames in m.s.kids)
  }

  ghost function PlanOf(m: Merge, md: KjNode?, mdNames: KjNode?): Plan
    requires m.source in m.s.kids && m.update in m.s.kids && (md != null ==> md in m.s.kids) && (mdNames != null ==> mdNames in m.s.kids)
  {
    Plan(m.s.kids[m.source], m.nm, Members(m), if md == null then [] else m.s.kids[md], if mdNames == null then [] else m.s.kids[mdNames])
  }

  /** The attribute after the merge: what the plan says, with md and mdNames where they are now. */
  ghost predicate MergedAttribute(m: Merge, s: Shape, nm: NameMap, md0: KjNode?, mdNames0: KjNode?, md: KjNode?, mdNames: KjNode) {
    && ListsFound(m, md0, mdNames0) && m.update in m.s.kids
    && m.source in s.kids && mdNames in s.kids && (md != null ==> md in s.kids)
    && (md0 != null ==> md == md0) && (mdNames0 != null ==> mdNames == mdNames0)
    && Outcome(PlanOf(m, md0, mdNames0), LayoutOf(s, nm, m.source, md, mdNames), |Members(m)|)
  }

  /** kjNodeAttributeMerge: the last member of each fixed or known name overwrites what was there, and the others
      become metadata; only the source's list and the lists of its members change, only members of the update are
      renamed, and the source keeps a modDate. */
  method MergeAttribute(f: Forest, source: KjNode, update: KjNode, now: int, ghost m: Merge)
      returns (ghost date: KjNode, ghost md0: KjNode?, ghost mdNames0: KjNode?, ghost md: KjNode?, ghost mdNames: KjNode)
    requires f.Valid() && m == Merge(f.shape, Names(f.shape.kids.Keys), source, update) && MergeOk(m)
    modifies f`shape, f.shape.kids.Keys`next, f.shape.kids.Keys`firstChild, f.shape.kids.Keys`lastChild,
             f.shape.kids.Keys`name, f.shape.kids.Keys`number
    ensures f.Valid() && source in old(f.shape).kids
    ensures old(f.shape.kids.Keys) <= f.shape.kids.Keys && fresh(f.shape.kids.Keys - old(f.shape.kids.Keys))
    ensures Elsewhere(m.s, f.shape, Zone(m)) && f.shape.stale == m.s.stale + {update} && ParentsOld(m.s, f.shape)
    ensures NamesElsewhere(m.nm, Names(f.shape.kids.Keys), set k | k in Members(m))
    ensures LiveKids(f.shape, source) && HasChild(f.shape, Names(f.shape.kids.Keys), source, "modDate")
    ensures MergedAttribute(m, f.shape, Names(f.shape.kids.Keys), md0, mdNames0, md, mdNames)
    ensures date == First(m.s.kids[source], m.nm, "modDate") && date.number == now
    ensures forall n :: n in m.s.kids && n != date ==> n.number == old(n.number)
  {
    hide *;
    MergeOkFacts(m);
    date := SetModDate(f, source, now);
    md0, mdNames0, md, mdNames := MergeMembers(f, source, update, m);
  }

  method FindTargets(f: Forest, source: KjNode, ghost m: Merge) returns (md: KjNode?, mdNames: KjNode?)
    requires f.Valid() && m.s == f.shape && m.nm == Names(f.shape.kids.Keys) && m.source == source && MergeOk(m)
    requires source in f.shape.kids && m.update in f.shape.kids
    ensures md != null ==> Target(m, Disowned(m.s, m.update), md)
    ensures mdNames != null ==> Target(m, Disowned(m.s, m.update), mdNames)
    ensures ListsFound(m, md, mdNames)
  {
    hide *;
    MergeOkFacts(m);
    MergeOkParts(m);
    KidsIn(m.s, source);
    AllNames(m.s.kids.Keys);
    ghost var j, k;
    md, j := f.Lookup(source, "md");
    if md != null {
      TargetThere(m, md);
    }
    mdNames, k := f.Lookup(source, "mdNames");
    if mdNames != null {
      TargetThere(m, mdNames);
    }
    NotThere(m.s.kids[source], m.nm, j, "md");
    NotThere(m.s.kids[source], m.nm, k, "mdNames");
    ListsFoundIs(m, md, mdNames);
  }

  lemma NotThere(ns: seq<KjNode>, nm: NameMap, j: nat, name: string)
    requires j <= |ns| && (forall n :: n in ns ==> n in nm) && forall k :: 0 <= k < j ==> nm[ns[k]] != name
    ensures j == |ns| ==> !NamedBy(ns, nm, name)
  {
  }

  lemma ListsFoundIs(m: Merge, md: KjNode?, mdNames: KjNode?)
    requires m.source in m.s.kids
    requires md == null ==> !NamedBy(m.s.kids[m.source], m.nm, "md")
    requires md != null ==> md in m.s.kids[m.source] && md in m.nm && m.nm[md] == "md" && md in m.s.kids
    requires mdNames == null ==> !NamedBy(m.s.kids[m.source], m.nm, "mdNames")
    requires mdNames != null ==> mdNames in m.s.kids[m.source] && mdNames in m.nm && m.nm[mdNames] == "mdNames" && mdNames in m.s.kids
    ensures ListsFound(m, md, mdNames)
  {
  }

  /** The first member; from here on the members belong to nobody. */
  method TakeMembers(f: Forest, update: KjNode, ghost m: Merge) returns (node: KjNode?)
    requires f.Valid() && m.s == f.shape && m.nm == Names(f.shape.kids.Keys) && m.update == update && MergeOk(m) && update in m.s.kids
    modifies f`shape
    ensures f.Valid() && f.shape == Disowned(m.s, update) && f.shape.kids.Keys == m.s.kids.Keys
    ensures MergeInv(m, f.shape, Names(f.shape.kids.Keys), Nexts(f.shape.kids.Keys), 0)
    ensures HasChild(f.shape, Names(f.shape.kids.Keys), m.source, "modDate") && Names(f.shape.kids.Keys) == m.nm
    ensures node == if Members(m) == [] then null else Members(m)[0]
  {
    hide *;
    MergeOkFacts(m);
    MembersIs(m);
    f.Start(update);
    node := update.firstChild;
    f.ValidFacts();
    MergeBegin(m, Nexts(m.s.kids.Keys));
    DisownedKeys(m.s, update);
    f.Disown(update);
  }

  method MergeMembers(f: Forest, source: KjNode, update: KjNode, ghost m: Merge)
      returns (ghost md0: KjNode?, ghost mdNames0: KjNode?, ghost md: KjNode?, ghost mdNames: KjNode)
    requires f.Valid() && m == Merge(f.shape, Names(f.shape.kids.Keys), source, update) && MergeOk(m)
    requires source in f.shape.kids && update in f.shape.kids
    modifies f`shape, f.shape.kids.Keys`next, f.shape.kids.Keys`firstChild, f.shape.kids.Keys`lastChild, f.shape.kids.Keys`name
    ensures f.Valid() && old(f.shape.kids.Keys) <= f.shape.kids.Keys && fresh(f.shape.kids.Keys - old(f.shape.kids.Keys))
    ensures Elsewhere(m.s, f.shape, Zone(m)) && f.shape.stale == m.s.stale + {update} && ParentsOld(m.s, f.shape)
    ensures NamesElsewhere(m.nm, Names(f.shape.kids.Keys), set k | k in Members(m))
    ensures LiveKids(f.shape, source) && HasChild(f.shape, Names(f.shape.kids.Keys), source, "modDate")
    ensures MergedAttribute(m, f.shape, Names(f.shape.kids.Keys), md0, mdNames0, md, mdNames)
  {
    hide *;
    MergeOkFacts(m);
    MembersIs(m);
    var mdP, found := FindTargets(f, source, m);
    md0, mdNames0 := mdP, found;
    DisownedKeys(m.s, update);
    var node := TakeMembers(f, update, m);
    md, mdNames := MergeAll(f, source, node, mdP, found, m);
  }

  lemma MembersIs(m: Merge)
    requires m.update in m.s.kids
    ensures Members(m) == m.s.kids[m.update]
  {
  }

  lemma {:induction false} FirstThere(ns: seq<KjNode>, nm: NameMap, name: string)
    requires exists i :: 0 <= i < |ns| && ns[i] in nm && nm[ns[i]] == name
    ensures First(ns, nm, name) != null
    decreases |ns|
  {
    if !(ns[0] in nm && nm[ns[0]] == name) {
      var i :| 0 <= i < |ns| && ns[i] in nm && nm[ns[i]] == name;
      assert ns[1..][i - 1] == ns[i];
      FirstThere(ns[1..], nm, name);
    }
  }

  /** The modification date of an attribute that has one: the first child of that name, and only that, is set. */
  method SetModDate(f: Forest, attr: KjNode, now: int) returns (ghost date: KjNode)
    requires f.Valid() && Live(f.shape, attr) && HasChild(f.shape, Names(f.shape.kids.Keys), attr, "modDate") && attr in f.shape.kids
    modifies f.shape.kids.Keys`number
    ensures f.Valid() && Names(f.shape.kids.Keys) == old(Names(f.shape.kids.Keys)) && Nexts(f.shape.kids.Keys) == old(Nexts(f.shape.kids.Keys))
    ensures date == First(f.shape.kids[attr], Names(f.shape.kids.Keys), "modDate") && date.number == now
    ensures forall n :: n in f.shape.kids && n != date ==> n.number == old(n.number)
  {
    hide *;
    HasChildFound(f.shape, Names(f.shape.kids.Keys), attr, "modDate");
    FirstThere(f.shape.kids[attr], Names(f.shape.kids.Keys), "modDate");
    var modDate := LookupFirst(f, attr, "modDate");
    date := modDate;
    SetNumber(f, modDate, now);
  }

  method SetNumber(f: Forest, n: KjNode, number: int)
    requires f.Valid()
    modifies n`number
    ensures f.Valid() && Names(f.shape.kids.Keys) == old(Names(f.shape.kids.Keys)) && Nexts(f.shape.kids.Keys) == old(Nexts(f.shape.kids.Keys))
    ensures n.number == number
  {
    hide *;
    n.number := number;
  }

  lemma MergeOkFacts(m: Merge)
    requires MergeOk(m)
    ensures Live(m.s, m.source) && Live(m.s, m.update) && m.source in m.s.kids && m.update in m.s.kids
    ensures HasChild(m.s, m.nm, m.source, "modDate")
  {
  }

  lemma HasChildFound(s: Shape, nm: NameMap, p: KjNode, name: string)
    requires HasChild(s, nm, p, name)
    ensures p in s.kids && exists i :: 0 <= i < |s.kids[p]| && s.kids[p][i] in nm && nm[s.kids[p][i]] == name
  {
    var k :| k in s.kids[p] && k in nm && nm[k] == name;
    var i :| 0 <= i < |s.kids[p]| && s.kids[p][i] == k;
  }

  lemma TargetThere(m: Merge, k: KjNode)
    requires MergeOk(m) && m.source in m.s.kids && m.update in m.s.kids && k in m.s.kids[m.source]
    ensures Target(m, Disowned(m.s, m.update), k)
  {
    DisownedKeys(m.s, m.update);
    hide Disowned, ShapeOk;
  }

  /** Before the first member. */
  lemma PlanStarts(m: Merge, md0: KjNode?, found: KjNode?, s: Shape, nm: NameMap, newMdNames: KjNode?, mdNames: KjNode)
    requires MergeOk(m) && ListsFound(m, md0, found) && m.source in m.s.kids && m.update in m.s.kids
    requires m.source in s.kids && mdNames in s.kids && (md0 != null ==> md0 in s.kids && s.kids[md0] == m.s.kids[md0])
    requires if found == null then newMdNames == mdNames && mdNames !in m.s.kids && s.kids[mdNames] == []
             else newMdNames == null && mdNames == found && s.kids[mdNames] == m.s.kids[found]
    requires s.kids[m.source] == m.s.kids[m.source] + (if newMdNames == null then [] else [newMdNames])
    requires nm == if newMdNames == null then m.nm else m.nm[newMdNames := "mdNames"]
    ensures Outcome(PlanOf(m, md0, found), LayoutOf(s, nm, m.source, md0, mdNames), 0)
  {
    var p, a := PlanOf(m, md0, found), LayoutOf(s, nm, m.source, md0, mdNames);
    KidsIn(m.s, m.source);
    KidsIn(m.s, m.update);
    hide ShapeOk, Outcome, NamedBy, LiveKids, HasChild, Distinct;
    OutcomeStart(p, a, newMdNames);
  }

  lemma ListsApart(m: Merge, md0: KjNode?, found: KjNode?)
    requires MergeOk(m) && ListsFound(m, md0, found)
    ensures md0 != m.source && found != m.source && (md0 != null && found != null ==> md0 != found)
    ensures md0 != null ==> md0 in m.s.kids && md0 != m.update
    ensures found != null ==> found in m.s.kids && found != m.update
    ensures m.source in m.s.kids && m.update in m.s.kids && m.source != m.update
  {
    hide ShapeOk, NamedBy, HasChild;
  }

  /** mdNames is there, or is created. */
  method EnsureMdNames(f: Forest, source: KjNode, md0: KjNode?, found: KjNode?, ghost m: Merge) returns (mdNames: KjNode)
    requires f.Valid() && source == m.source && source in f.shape.kids && source in m.s.kids && m.update in m.s.kids
    requires MergeOk(m) && ListsFound(m, md0, found) && f.shape == Disowned(m.s, m.update) && Names(f.shape.kids.Keys) == m.nm
    requires MergeInv(m, f.shape, Names(f.shape.kids.Keys), Nexts(f.shape.kids.Keys), 0)
    requires HasChild(f.shape, Names(f.shape.kids.Keys), source, "modDate")
    requires (found != null ==> Target(m, f.shape, found)) && (md0 != null ==> Target(m, f.shape, md0))
    modifies f`shape, f.shape.kids.Keys`next, source`firstChild, source`lastChild
    ensures f.Valid() && old(f.shape.kids.Keys) <= f.shape.kids.Keys && fresh(f.shape.kids.Keys - old(f.shape.kids.Keys))
    ensures MergeInv(m, f.shape, Names(f.shape.kids.Keys), Nexts(f.shape.kids.Keys), 0)
    ensures HasChild(f.shape, Names(f.shape.kids.Keys), source, "modDate")
    ensures Target(m, f.shape, mdNames) && mdNames in f.shape.kids && (md0 != null ==> Target(m, f.shape, md0) && md0 in f.shape.kids)
    ensures md0 != mdNames && mdNames != source && md0 != source && source in f.shape.kids && (found != null ==> mdNames == found)
    ensures (md0 != null ==> md0 in m.s.kids) && (found != null ==> found in m.s.kids)
    ensures Outcome(PlanOf(m, md0, found), LayoutOf(f.shape, Names(f.shape.kids.Keys), source, md0, mdNames), 0)
  {
    hide *;
    ghost var s0, nm0, next0 := f.shape, Names(f.shape.kids.Keys), Nexts(f.shape.kids.Keys);
    ListsApart(m, md0, found);
    DisownedKeys(m.s, m.update);
    if found == null {
      mdNames := AppendNew(f, source, "mdNames", KjArray, "", m, 0);
      CreatedKeys(s0, mdNames);
      AddedKeys(Created(s0, mdNames), source, mdNames);
      if md0 != null {
        TargetKept(m, s0, nm0, next0, 0, f.shape, Names(f.shape.kids.Keys), Nexts(f.shape.kids.Keys), 0, md0);
      }
      PlanStarts(m, md0, found, f.shape, Names(f.shape.kids.Keys), mdNames, mdNames);
    } else {
      mdNames := found;
      assert s0.kids[source] == m.s.kids[source] + [];
      PlanStarts(m, md0, found, f.shape, nm0, null, mdNames);
    }
  }

  method MergeAll(f: Forest, source: KjNode, first: KjNode?, md0: KjNode?, found: KjNode?, ghost m: Merge)
      returns (ghost md: KjNode?, ghost mdNames: KjNode)
    requires f.Valid() && source == m.source && source in f.shape.kids && source in m.s.kids
    requires MergeOk(m) && ListsFound(m, md0, found) && m.update in m.s.kids
    requires f.shape == Disowned(m.s, m.update) && Names(f.shape.kids.Keys) == m.nm
    requires MergeInv(m, f.shape, Names(f.shape.kids.Keys), Nexts(f.shape.kids.Keys), 0)
    requires HasChild(f.shape, Names(f.shape.kids.Keys), source, "modDate")
    requires first == if Members(m) == [] then null else Members(m)[0]
    requires (found != null ==> Target(m, f.shape, found)) && (md0 != null ==> Target(m, f.shape, md0))
    modifies f`shape, f.shape.kids.Keys`next, f.shape.kids.Keys`firstChild, f.shape.kids.Keys`lastChild, f.shape.kids.Keys`name
    ensures f.Valid() && old(f.shape.kids.Keys) <= f.shape.kids.Keys && fresh(f.shape.kids.Keys - old(f.shape.kids.Keys))
    ensures Elsewhere(m.s, f.shape, Zone(m)) && f.shape.stale == m.s.stale + {m.update} && ParentsOld(m.s, f.shape)
    ensures NamesElsewhere(m.nm, Names(f.shape.kids.Keys), set k | k in Members(m))
    ensures LiveKids(f.shape, source) && HasChild(f.shape, Names(f.shape.kids.Keys), source, "modDate")
    ensures MergedAttribute(m, f.shape, Names(f.shape.kids.Keys), md0, found, md, mdNames)
  {
    hide *;
    var mdNamesP := EnsureMdNames(f, source, md0, found, m);
    var mdP, node := md0, first;
    ghost var p := PlanOf(m, md0, found);
    PlanMembers(m, md0, found);
    ghost var i := 0;
    while node != null
      invariant f.Valid() && source in f.shape.kids && i <= |Members(m)|
      invariant MergeInv(m, f.shape, Names(f.shape.kids.Keys), Nexts(f.shape.kids.Keys), i)
      invariant HasChild(f.shape, Names(f.shape.kids.Keys), source, "modDate")
      invariant Target(m, f.shape, mdNamesP) && (mdP != null ==> Target(m, f.shape, mdP) && mdP in f.shape.kids)
      invariant mdNamesP in f.shape.kids && mdP != mdNamesP && mdNamesP != source && mdP != source && (md0 != null ==> mdP == md0)
      invariant Outcome(p, LayoutOf(f.shape, Names(f.shape.kids.Keys), source, mdP, mdNamesP), i)
      invariant node == if i < |Members(m)| then Members(m)[i] else null
      invariant old(f.shape.kids.Keys) <= f.shape.kids.Keys && fresh(f.shape.kids.Keys - old(f.shape.kids.Keys))
      decreases |Members(m)| - i
    {
      InvFacts(m, f.shape, Names(f.shape.kids.Keys), Nexts(f.shape.kids.Keys), i);
      node, mdP := MergeMember(f, source, node, mdP, mdNamesP, m, i, p);
      i := i + 1;
    }
    md, mdNames := mdP, mdNamesP;
    InvEnd(m, f.shape, Names(f.shape.kids.Keys), Nexts(f.shape.kids.Keys), i);
    MergedAttributeIs(m, f.shape, Names(f.shape.kids.Keys), md0, found, md, mdNames);
  }

  lemma PlanMembers(m: Merge, md: KjNode?, mdNames: KjNode?)
    requires m.source in m.s.kids && m.update in m.s.kids && (md != null ==> md in m.s.kids) && (mdNames != null ==> mdNames in m.s.kids)
    ensures PlanOf(m, md, mdNames).members == Members(m)
  {
  }

  lemma MergedAttributeIs(m: Merge, s: Shape, nm: NameMap, md0: KjNode?, mdNames0: KjNode?, md: KjNode?, mdNames: KjNode)
    requires ListsFound(m, md0, mdNames0) && m.source in m.s.kids && m.update in m.s.kids
    requires (md0 != null ==> md0 in m.s.kids) && (mdNames0 != null ==> mdNames0 in m.s.kids)
    requires m.source in s.kids && mdNames in s.kids && (md != null ==> md in s.kids)
    requires (md0 != null ==> md == md0) && (mdNames0 != null ==> mdNames == mdNames0)
    requires Outcome(PlanOf(m, md0, mdNames0), LayoutOf(s, nm, m.source, md, mdNames), |Members(m)|)
    ensures MergedAttribute(m, s, nm, md0, mdNames0, md, mdNames)
  {
    hide Outcome, NamedBy;
  }

  lemma InvEnd(m: Merge, s: Shape, nm: NameMap, next: Pointers, i: nat)
    requires MergeInv(m, s, nm, next, i)
    ensures m.source in m.s.kids && m.update in m.s.kids
    ensures Elsewhere(m.s, s, Zone(m)) && s.stale == m.s.stale + {m.update}
    ensures ParentsOld(m.s, s)
    ensures NamesElsewhere(m.nm, nm, set k | k in Members(m)) && LiveKids(s, m.source)
  {
    hide ShapeOk, Elsewhere, Zone, NamesElsewhere, Chain, LiveKids;
  }
}
