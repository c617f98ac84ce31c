/** The parts of an entity and of a request that take part in a merge, and what each step may change. */
module EntityShape {
  import opened Sequences
  import opened Kjson
  import opened AttributeMetadata
  import opened AttributeMerge

  /** A step from (s, nm) to (t, nm') that changes the lists of nodes in `zone` and the names of nodes in `some`;
      `done` are nodes whose children have been given away, and `adopted` nodes that were nobody's children. */
  ghost predicate Effect(s: Shape, nm: NameMap, t: Shape, nm': NameMap,
                         zone: set<KjNode>, some: set<KjNode>, done: set<KjNode>, adopted: set<KjNode>) {
    && ShapeOk(t) && nm'.Keys == t.kids.Keys && nm.Keys == s.kids.Keys
    && Elsewhere(s, t, zone) && NamesElsewhere(nm, nm', some) && t.stale == s.stale + done
    && ParentsBut(s, t, adopted)
  }

  ghost predicate ParentsBut(s: Shape, t: Shape, adopted: set<KjNode>) {
    forall n :: n in t.parent && n in s.kids && n !in adopted ==> n in s.parent
  }

  lemma EffectThen(s: Shape, nm: NameMap, t: Shape, nm': NameMap, u: Shape, nm'': NameMap,
                   z1: set<KjNode>, n1: set<KjNode>, d1: set<KjNode>, a1: set<KjNode>,
                   z2: set<KjNode>, n2: set<KjNode>, d2: set<KjNode>, a2: set<KjNode>)
    requires Effect(s, nm, t, nm', z1, n1, d1, a1) && Effect(t, nm', u, nm'', z2, n2, d2, a2)
    ensures Effect(s, nm, u, nm'', z1 + z2, n1 + n2, d1 + d2, a1 + a2)
  {
    hide ShapeOk;
  }

  lemma EffectWider(s: Shape, nm: NameMap, t: Shape, nm': NameMap, d: set<KjNode>,
                    z1: set<KjNode>, n1: set<KjNode>, a1: set<KjNode>, z2: set<KjNode>, n2: set<KjNode>, a2: set<KjNode>)
    requires Effect(s, nm, t, nm', z1, n1, d, a1)
    requires forall n :: n in s.kids && n in z1 ==> n in z2
    requires forall n :: n in s.kids && n in n1 ==> n in n2
    requires forall n :: n in s.kids && n in a1 ==> n in a2 || n in s.parent
    ensures Effect(s, nm, t, nm', z2, n2, d, a2)
  {
    hide ShapeOk;
  }

  /** Numbers are as they were, apart from members of t, before or after, whose number is now. */
  ghost predicate OnlyNow(s: Shape, num: NumberMap, t: Shape, num': NumberMap, p: KjNode, now: int) {
    && num.Keys == s.kids.Keys && num'.Keys == t.kids.Keys && p in s.kids && p in t.kids
    && forall n :: n in num ==> n in num' && (num'[n] == num[n] || (num'[n] == now && (n in s.kids[p] || n in t.kids[p])))
  }

  // ---- the nodes that matter ----

  /** The entity from the database, its attrs and attrNames, and the request. */
  datatype Entity = Entity(source: KjNode, attrs: KjNode, attrNames: KjNode, mods: KjNode)

  ghost predicate EntityOk(e: Entity, s: Shape) {
    && ShapeOk(s)
    && Live(s, e.source) && Free(s, e.source) && Live(s, e.mods) && Free(s, e.mods) && e.source != e.mods
    && e.attrs in s.kids[e.source] && e.attrNames in s.kids[e.source] && e.attrs != e.attrNames
    && Live(s, e.attrs) && Live(s, e.attrNames)
  }

  /** An attribute lies below the parts of the entity and of the request, and shares nothing with them. */
  lemma EntityApart(e: Entity, s: Shape, x: KjNode)
    requires EntityOk(e, s) && (x in s.kids[e.attrs] || x in s.kids[e.mods])
    ensures x in s.kids && x != e.source && x != e.mods && x != e.attrs && x != e.attrNames
    ensures var ks := s.kids[x]; e.source !in ks && e.mods !in ks && e.attrs !in ks && e.attrNames !in ks
    ensures x !in s.kids[x]
  {
    hide Distinct;
  }

  /** What a step on attribute x, and possibly on an attribute y of the entity, leaves of another attribute. */
  ghost predicate AttrOk(s: Shape, nm: NameMap, a: KjNode) {
    LiveKids(s, a) && HasChild(s, nm, a, "modDate")
  }

  /** x and its children; and what hangs below them. */
  ghost function Around(s: Shape, x: KjNode): set<KjNode>
    requires x in s.kids
  {
    {x} + set k | k in s.kids[x]
  }

  ghost function Below(s: Shape, x: KjNode): set<KjNode>
    requires x in s.kids
  {
    set n | n in s.parent && s.parent[n] in Around(s, x)
  }

  lemma OtherAttr(s: Shape, p: KjNode, q: KjNode, a: KjNode, x: KjNode)
    requires ShapeOk(s) && p in s.kids && q in s.kids && a in s.kids[p] && x in s.kids[q] && a != x && p !in s.kids[x] && q != a
    requires p != x
    ensures a in s.kids && x in s.kids && a !in Around(s, x) && a !in Below(s, x) && x !in s.kids[a]
    ensures forall k :: k in s.kids[a] ==> k !in Below(s, x)
  {
    KidsIn(s, p);
    KidsIn(s, q);
    KidsIn(s, x);
    KidsIn(s, a);
    hide ShapeOk, Distinct;
  }

  lemma AttrKept(s: Shape, nm: NameMap, t: Shape, nm': NameMap, zone: set<KjNode>, some: set<KjNode>, done: set<KjNode>,
                 adopted: set<KjNode>, a: KjNode)
    requires Effect(s, nm, t, nm', zone, some, done, adopted) && AttrOk(s, nm, a)
    requires a !in zone && a !in done && forall k :: k in s.kids[a] ==> k !in some && k !in done
    ensures AttrOk(t, nm', a)
  {
    hide ShapeOk, ParentsBut;
    var k :| k in s.kids[a] && k in nm && nm[k] == "modDate";
    assert k in t.kids[a] && nm'[k] == "modDate";
  }

  lemma LiveKidsKept(s: Shape, nm: NameMap, t: Shape, nm': NameMap, zone: set<KjNode>, some: set<KjNode>, done: set<KjNode>,
                 adopted: set<KjNode>, a: KjNode)
    requires Effect(s, nm, t, nm', zone, some, done, adopted) && LiveKids(s, a)
    requires a !in zone && a !in done && forall k :: k in s.kids[a] ==> k !in done
    ensures LiveKids(t, a)
  {
    hide ShapeOk, ParentsBut, NamesElsewhere;
  }

  /** The entity and the request keep their places. */
  lemma EntityKept(e: Entity, s: Shape, nm: NameMap, t: Shape, nm': NameMap, zone: set<KjNode>, some: set<KjNode>, done: set<KjNode>)
    requires EntityOk(e, s) && Effect(s, nm, t, nm', zone, some, done, {})
    requires e.source !in zone && e.source !in done && e.mods !in done && e.attrs !in done && e.attrNames !in done
    ensures EntityOk(e, t)
  {
    hide ShapeOk, NamesElsewhere;
  }
}
