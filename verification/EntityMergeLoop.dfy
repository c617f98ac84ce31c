/** The loop over the attributes of a request, and the agreement of attrs and attrNames it keeps. */
module EntityMergeLoop {
  import opened Sequences
  import opened Kjson
  import opened AttributeMetadata
  import opened AttributeMerge
  import opened Dots
  import opened EntityShape
  import opened EntityMerge

  /** The entity and the request before the merge, and the time of the merge. */
  datatype Goal = Goal(e: Entity, s: Shape, nm: NameMap, num: NumberMap, now: int)

  ghost predicate GoalOk(g: Goal) {
    && EntityOk(g.e, g.s) && g.nm.Keys == g.s.kids.Keys && g.num.Keys == g.s.kids.Keys
  }

  ghost function Mods(g: Goal): seq<KjNode>
    requires g.e.mods in g.s.kids
  {
    g.s.kids[g.e.mods]
  }

  ghost function Attrs(g: Goal): seq<KjNode>
    requires g.e.attrs in g.s.kids
  {
    g.s.kids[g.e.attrs]
  }

  /** The attributes of the request, up to position i, whose names are new. */
  ghost function NewOnes(g: Goal, i: nat): seq<KjNode>
    requires g.e.mods in g.s.kids && g.e.attrs in g.s.kids && i <= |Mods(g)|
    requires forall n :: n in Mods(g) ==> n in g.nm
  {
    if i == 0 then []
    else
      var before, n := NewOnes(g, i - 1), Mods(g)[i - 1];
      assert n in Mods(g);
      if n.kind == KjObject && !NamedBy(Attrs(g) + before, g.nm, g.nm[n]) then before + [n] else before
  }

  /** Each new name is the dot form of the attribute's name. */
  ghost predicate DotForms(names: seq<KjNode>, attrs: seq<KjNode>, nm: NameMap) {
    |names| == |attrs| && forall i :: 0 <= i < |attrs| ==> attrs[i] in nm && names[i].text == EqForDot(nm[attrs[i]])
  }

  ghost predicate Usable(g: Goal) {
    && GoalOk(g) && g.e.mods in g.s.kids && g.e.attrs in g.s.kids && g.e.attrNames in g.s.kids
    && (forall n :: n in Mods(g) ==> n in g.nm) && (forall n :: n in Attrs(g) ==> n in g.nm)
  }

  /** Names of attributes do not change during the merge. */
  ghost predicate SameNames(g: Goal, nm: NameMap)
    requires g.e.mods in g.s.kids && g.e.attrs in g.s.kids
  {
    && (forall n :: n in Attrs(g) && n in g.nm ==> n in nm && nm[n] == g.nm[n])
    && (forall n :: n in Mods(g) && n in g.nm ==> n in nm && nm[n] == g.nm[n])
  }

  /** After i attributes of the request. */
  ghost predicate MergedTo(g: Goal, s: Shape, nm: NameMap, i: nat, kept: seq<KjNode>, names: seq<KjNode>) {
    && Usable(g) && i <= |Mods(g)|
    && EntityOk(g.e, s) && nm.Keys == s.kids.Keys
    && g.e.mods in s.kids && s.kids[g.e.mods] == kept + Mods(g)[i..]
    && g.e.attrs in s.kids && s.kids[g.e.attrs] == Attrs(g) + NewOnes(g, i)
    && g.e.attrNames in s.kids && s.kids[g.e.attrNames] == g.s.kids[g.e.attrNames] + names && DotForms(names, NewOnes(g, i), g.nm)
    && (forall a :: a in s.kids[g.e.attrs] ==> AttrOk(s, nm, a))
    && (forall k :: i <= k < |Mods(g)| ==> LiveKids(s, Mods(g)[k]))
    && (forall k :: 0 <= k < i ==> Mods(g)[k] in kept || Mods(g)[k] in NewOnes(g, i))
    && SameNames(g, nm)
  }

  lemma {:induction false} NewOnesFrom(g: Goal, i: nat)
    requires Usable(g) && i <= |Mods(g)|
    ensures forall n :: n in NewOnes(g, i) ==> n in Mods(g)
  {
    if i > 0 {
      NewOnesFrom(g, i - 1);
    }
  }

  // ---- what a step on attribute x of the request leaves alone ----

  lemma EntityParts(e: Entity, s: Shape)
    requires EntityOk(e, s)
    ensures ShapeOk(s) && e.source in s.kids && e.mods in s.kids && e.attrs in s.kids && e.attrNames in s.kids
    ensures e.mods != e.attrs && e.mods != e.attrNames && e.attrs != e.attrNames && e.source != e.attrs && e.source != e.attrNames && e.source != e.mods
    ensures forall a :: a in s.kids[e.attrs] ==> a in s.kids && a !in s.kids[e.mods]
    ensures forall a :: a in s.kids[e.mods] ==> a in s.kids
    ensures Distinct(s.kids[e.mods]) && Distinct(s.kids[e.attrs])
  {
    KidsIn(s, e.attrs);
    KidsIn(s, e.mods);
    KidsIn(s, e.source);
    hide ShapeOk, Distinct;
  }

  /** Another attribute of the entity. */
  lemma AttrApart(e: Entity, s: Shape, x: KjNode, a: KjNode)
    requires EntityOk(e, s) && e.attrs in s.kids && e.mods in s.kids && a in s.kids[e.attrs] && a != x
    requires x in s.kids[e.mods] || x in s.kids[e.attrs]
    ensures a in s.kids && x in s.kids && a !in Around(s, x) && a !in Below(s, x) && x !in s.kids[a]
    ensures forall k :: k in s.kids[a] ==> k !in Below(s, x)
  {
    EntityApart(e, s, x);
    EntityApart(e, s, a);
    EntityParts(e, s);
    hide EntityOk, Around, Below;
    OtherAttr(s, e.attrs, if x in s.kids[e.mods] then e.mods else e.attrs, a, x);
  }

  /** Another attribute of the request. */
  lemma ModApart(e: Entity, s: Shape, x: KjNode, r: KjNode)
    requires EntityOk(e, s) && e.attrs in s.kids && e.mods in s.kids && r in s.kids[e.mods] && r != x
    requires x in s.kids[e.mods] || x in s.kids[e.attrs]
    ensures r in s.kids && x in s.kids && r !in Around(s, x) && r !in Below(s, x) && x !in s.kids[r]
    ensures forall k :: k in s.kids[r] ==> k !in Below(s, x)
  {
    EntityApart(e, s, x);
    EntityApart(e, s, r);
    EntityParts(e, s);
    hide EntityOk, Around, Below;
    OtherAttr(s, e.mods, if x in s.kids[e.mods] then e.mods else e.attrs, r, x);
  }

  lemma SelfApart(e: Entity, s: Shape, x: KjNode)
    requires EntityOk(e, s) && e.mods in s.kids && x in s.kids[e.mods]
    ensures x in s.kids && x !in Below(s, x)
    ensures e.source !in Around(s, x) && e.mods !in Around(s, x) && e.attrs !in Around(s, x) && e.attrNames !in Around(s, x)
  {
    EntityApart(e, s, x);
    EntityParts(e, s);
    KidsIn(s, e.mods);
    hide EntityOk, ShapeOk, Distinct;
  }

  lemma Here(g: Goal, s: Shape, nm: NameMap, i: nat, kept: seq<KjNode>, names: seq<KjNode>)
    requires MergedTo(g, s, nm, i, kept, names) && i < |Mods(g)|
    ensures g.e.mods in g.s.kids && g.e.attrs in g.s.kids
    ensures var x := Mods(g)[i];
      && EntityOk(g.e, s) && g.e.mods in s.kids && g.e.attrs in s.kids && g.e.attrNames in s.kids && Usable(g) && nm.Keys == s.kids.Keys
      && x in s.kids && x in g.nm && x in nm && nm[x] == g.nm[x] && LiveKids(s, x)
      && |kept| < |s.kids[g.e.mods]| && s.kids[g.e.mods][|kept|] == x && x in s.kids[g.e.mods]
      && (if |kept| + 1 < |s.kids[g.e.mods]| then s.kids[g.e.mods][|kept| + 1] else null)
         == (if i + 1 < |Mods(g)| then Mods(g)[i + 1] else null)
      && Dropped(s.kids[g.e.mods], |kept|) == kept + Mods(g)[i + 1..]
      && s.kids[g.e.mods] == kept + [x] + Mods(g)[i + 1..]
  {
    EntityParts(g.e, s);
    hide EntityOk, NewOnes, ShapeOk, AttrOk, DotForms, Distinct;
    HereInList(s.kids[g.e.mods], kept, Mods(g), i);
    hide Dropped;
  }

  lemma HereInList(ks: seq<KjNode>, kept: seq<KjNode>, mods: seq<KjNode>, i: nat)
    requires i < |mods| && ks == kept + mods[i..]
    ensures |kept| < |ks| && ks[|kept|] == mods[i] && mods[i] in ks && mods[i] in mods
    ensures (if |kept| + 1 < |ks| then ks[|kept| + 1] else null) == (if i + 1 < |mods| then mods[i + 1] else null)
    ensures Dropped(ks, |kept|) == kept + mods[i + 1..] && ks == kept + [mods[i]] + mods[i + 1..]
  {
  }

  /** Every attribute of the request is still there, or in the entity. */
  lemma ModsSomewhere(g: Goal, s: Shape, nm: NameMap, i: nat, kept: seq<KjNode>, names: seq<KjNode>, n: KjNode)
    requires MergedTo(g, s, nm, i, kept, names) && n in Mods(g)
    ensures n in s.kids[g.e.mods] || n in s.kids[g.e.attrs]
  {
    hide EntityOk, NewOnes, ShapeOk, AttrOk, LiveKids;
    var k :| 0 <= k < |Mods(g)| && Mods(g)[k] == n;
    if k >= i {
      assert Mods(g)[i..][k - i] == n;
    }
  }

  lemma NamesStay(g: Goal, s: Shape, nm: NameMap, i: nat, kept: seq<KjNode>, names: seq<KjNode>, nm': NameMap, x: KjNode)
    requires MergedTo(g, s, nm, i, kept, names) && i < |Mods(g)| && x == Mods(g)[i] && x in s.kids
    requires NamesElsewhere(nm, nm', Below(s, x))
    ensures SameNames(g, nm')
  {
    Here(g, s, nm, i, kept, names);
    SelfApart(g.e, s, x);
    forall n | n in Attrs(g) && n in g.nm ensures n in nm' && nm'[n] == g.nm[n] {
      NameStays(g, s, nm, i, kept, names, nm', x, n);
    }
    forall n | n in Mods(g) && n in g.nm ensures n in nm' && nm'[n] == g.nm[n] {
      NameStays(g, s, nm, i, kept, names, nm', x, n);
    }
  }

  lemma NameStays(g: Goal, s: Shape, nm: NameMap, i: nat, kept: seq<KjNode>, names: seq<KjNode>, nm': NameMap, x: KjNode, n: KjNode)
    requires MergedTo(g, s, nm, i, kept, names) && i < |Mods(g)| && x == Mods(g)[i] && x in s.kids && x in s.kids[g.e.mods]
    requires NamesElsewhere(nm, nm', Below(s, x)) && x !in Below(s, x)
    requires (n in Attrs(g) || n in Mods(g)) && n in g.nm
    ensures n in nm' && nm'[n] == g.nm[n]
  {
    if n in Mods(g) {
      ModsSomewhere(g, s, nm, i, kept, names, n);
    }
    hide EntityOk, NewOnes, ShapeOk, AttrOk, LiveKids, Below;
    if n != x {
      if n in s.kids[g.e.attrs] {
        AttrApart(g.e, s, x, n);
      } else {
        ModApart(g.e, s, x, n);
      }
    }
  }

  /** After a step on x (and on attribute y of the entity) the others are as they were. */
  lemma OthersStay(g: Goal, s: Shape, nm: NameMap, i: nat, kept: seq<KjNode>, names: seq<KjNode>, x: KjNode, y: KjNode?,
                   t: Shape, nm': NameMap, zone: set<KjNode>, done: set<KjNode>)
    requires MergedTo(g, s, nm, i, kept, names) && i < |Mods(g)| && x == Mods(g)[i] && x in s.kids
    requires Effect(s, nm, t, nm', zone, Below(s, x), done, {}) && done <= {x} && g.e.source !in zone
    requires forall a :: a in s.kids[g.e.attrs] && a != y ==> a !in zone
    requires forall k :: i < k < |Mods(g)| ==> Mods(g)[k] !in zone
    ensures EntityOk(g.e, t) && SameNames(g, nm')
    ensures forall a :: a in s.kids[g.e.attrs] && a != y ==> AttrOk(t, nm', a)
    ensures forall k :: i < k < |Mods(g)| ==> LiveKids(t, Mods(g)[k])
  {
    Here(g, s, nm, i, kept, names);
    SelfApart(g.e, s, x);
    AroundHas(s, x);
    NamesStayEffect(s, nm, t, nm', zone, Below(s, x), done);
    NamesStay(g, s, nm, i, kept, names, nm', x);
    EntityKept(g.e, s, nm, t, nm', zone, Below(s, x), done);
    forall a | a in s.kids[g.e.attrs] && a != y ensures AttrOk(t, nm', a) {
      AttrStays(g, s, nm, i, kept, names, x, t, nm', zone, done, a);
    }
    forall k | i < k < |Mods(g)| ensures LiveKids(t, Mods(g)[k]) {
      ModStays(g, s, nm, i, kept, names, x, t, nm', zone, done, k);
    }
  }

  lemma NamesStayEffect(s: Shape, nm: NameMap, t: Shape, nm': NameMap, zone: set<KjNode>, some: set<KjNode>, done: set<KjNode>)
    requires Effect(s, nm, t, nm', zone, some, done, {})
    ensures NamesElsewhere(nm, nm', some) && nm'.Keys == t.kids.Keys && Elsewhere(s, t, zone) && ShapeOk(t)
  {
  }

  lemma AttrStays(g: Goal, s: Shape, nm: NameMap, i: nat, kept: seq<KjNode>, names: seq<KjNode>, x: KjNode,
                  t: Shape, nm': NameMap, zone: set<KjNode>, done: set<KjNode>, a: KjNode)
    requires MergedTo(g, s, nm, i, kept, names) && x in s.kids && x in s.kids[g.e.mods]
    requires Effect(s, nm, t, nm', zone, Below(s, x), done, {}) && done <= {x}
    requires a in s.kids[g.e.attrs] && a !in zone
    ensures AttrOk(t, nm', a)
  {
    EntityParts(g.e, s);
    AttrApart(g.e, s, x, a);
    hide EntityOk, NewOnes, ShapeOk, AttrOk, LiveKids, Below, Effect;
    AttrKept(s, nm, t, nm', zone, Below(s, x), done, {}, a);
  }

  lemma ModStays(g: Goal, s: Shape, nm: NameMap, i: nat, kept: seq<KjNode>, names: seq<KjNode>, x: KjNode,
                 t: Shape, nm': NameMap, zone: set<KjNode>, done: set<KjNode>, k: nat)
    requires MergedTo(g, s, nm, i, kept, names) && i < k < |Mods(g)| && x == Mods(g)[i] && x in s.kids && x in s.kids[g.e.mods]
    requires Effect(s, nm, t, nm', zone, Below(s, x), done, {}) && done <= {x} && Mods(g)[k] !in zone
    ensures LiveKids(t, Mods(g)[k])
  {
    var r := Mods(g)[k];
    assert Mods(g)[i..][k - i] == r;
    EntityParts(g.e, g.s);
    EntityParts(g.e, s);
    DistinctAt(Mods(g));
    hide EntityOk, NewOnes, ShapeOk, AttrOk, Below, Effect, LiveKids;
    assert r in s.kids[g.e.mods] && r != x;
    ModApart(g.e, s, x, r);
    LiveKidsKept(s, nm, t, nm', zone, Below(s, x), done, {}, r);
  }

  // ---- the steps ----

  lemma NewOnesNext(g: Goal, i: nat)
    requires Usable(g) && i < |Mods(g)|
    ensures Mods(g)[i] in g.nm
    ensures NewOnes(g, i + 1)
         == if Mods(g)[i].kind == KjObject && !NamedBy(Attrs(g) + NewOnes(g, i), g.nm, g.nm[Mods(g)[i]])
            then NewOnes(g, i) + [Mods(g)[i]] else NewOnes(g, i)
  {
    assert Mods(g)[i] in Mods(g);
  }

  /** The names of the entity's attributes, looked up now or at the start. */
  lemma SameLookup(g: Goal, s: Shape, nm: NameMap, i: nat, kept: seq<KjNode>, names: seq<KjNode>, name: string)
    requires MergedTo(g, s, nm, i, kept, names)
    ensures NamedBy(Attrs(g) + NewOnes(g, i), g.nm, name) <==> exists k :: k in s.kids[g.e.attrs] && k in nm && nm[k] == name
  {
    NewOnesFrom(g, i);
    hide NewOnes, EntityOk, AttrOk, LiveKids, DotForms;
    var ns := Attrs(g) + NewOnes(g, i);
    assert forall k :: k in ns ==> k in g.nm && k in nm && nm[k] == g.nm[k];
  }

  lemma StepSkip(g: Goal, s: Shape, nm: NameMap, i: nat, kept: seq<KjNode>, names: seq<KjNode>)
    requires MergedTo(g, s, nm, i, kept, names) && i < |Mods(g)| && Mods(g)[i].kind != KjObject
    ensures MergedTo(g, s, nm, i + 1, kept + [Mods(g)[i]], names)
  {
    Here(g, s, nm, i, kept, names);
    NewOnesNext(g, i);
    hide NewOnes, EntityOk, AttrOk, LiveKids, DotForms, SameNames, Usable, Dropped;
  }

  lemma StepRename(g: Goal, s: Shape, nm: NameMap, i: nat, kept: seq<KjNode>, names: seq<KjNode>, nm': NameMap)
    requires MergedTo(g, s, nm, i, kept, names) && i < |Mods(g)| && Mods(g)[i] in s.kids
    requires Effect(s, nm, s, nm', {}, Below(s, Mods(g)[i]), {}, {})
    ensures MergedTo(g, s, nm', i, kept, names)
  {
    OthersStay(g, s, nm, i, kept, names, Mods(g)[i], null, s, nm', {}, {});
    NamesStayEffect(s, nm, s, nm', {}, Below(s, Mods(g)[i]), {});
    hide NewOnes, EntityOk, AttrOk, LiveKids, DotForms, SameNames, Usable, Effect, Below;
  }

  /** x has been merged into attribute y of the entity. */
  lemma StepMerge(g: Goal, s: Shape, nm: NameMap, i: nat, kept: seq<KjNode>, names: seq<KjNode>, y: KjNode, t: Shape, nm': NameMap)
    requires MergedTo(g, s, nm, i, kept, names) && i < |Mods(g)| && Mods(g)[i] in s.kids
    requires y in s.kids && y in s.kids[g.e.attrs] && y in nm && nm[y] == nm[Mods(g)[i]]
    requires Effect(s, nm, t, nm', Around(s, y) + {Mods(g)[i]}, Below(s, Mods(g)[i]), {Mods(g)[i]}, {}) && AttrOk(t, nm', y)
    ensures MergedTo(g, t, nm', i + 1, kept + [Mods(g)[i]], names)
  {
    var x := Mods(g)[i];
    var zone := Around(s, y) + {x};
    MergeZone(g, s, nm, i, kept, names, x, y);
    OthersStay(g, s, nm, i, kept, names, x, y, t, nm', zone, {x});
    NamesStayEffect(s, nm, t, nm', zone, Below(s, x), {x});
    Here(g, s, nm, i, kept, names);
    NewOnesNext(g, i);
    SameLookup(g, s, nm, i, kept, names, nm[x]);
    MergeLists(g.e, s, t, zone);
    NamedHere(s.kids[g.e.attrs], nm, y, nm[x]);
    hide *;
    StepMergeInv(g, s, nm, i, kept, names, x, y, t, nm');
  }

  lemma NamedHere(ns: seq<KjNode>, nm: NameMap, y: KjNode, name: string)
    requires y in ns && y in nm && nm[y] == name
    ensures exists k :: k in ns && k in nm && nm[k] == name
  {
  }

  lemma StepMergeInv(g: Goal, s: Shape, nm: NameMap, i: nat, kept: seq<KjNode>, names: seq<KjNode>, x: KjNode, y: KjNode,
                     t: Shape, nm': NameMap)
    requires MergedTo(g, s, nm, i, kept, names) && i < |Mods(g)| && x == Mods(g)[i]
    requires s.kids[g.e.mods] == kept + [x] + Mods(g)[i + 1..]
    requires NewOnes(g, i + 1) == NewOnes(g, i)
    requires EntityOk(g.e, t) && nm'.Keys == t.kids.Keys && SameNames(g, nm')
    requires g.e.mods in t.kids && t.kids[g.e.mods] == s.kids[g.e.mods]
    requires g.e.attrs in t.kids && t.kids[g.e.attrs] == s.kids[g.e.attrs]
    requires g.e.attrNames in t.kids && t.kids[g.e.attrNames] == s.kids[g.e.attrNames]
    requires AttrOk(t, nm', y) && forall a :: a in s.kids[g.e.attrs] && a != y ==> AttrOk(t, nm', a)
    requires forall k :: i < k < |Mods(g)| ==> LiveKids(t, Mods(g)[k])
    ensures MergedTo(g, t, nm', i + 1, kept + [x], names)
  {
    hide NewOnes, EntityOk, AttrOk, LiveKids, DotForms, SameNames, Usable;
  }

  lemma MergeLists(e: Entity, s: Shape, t: Shape, zone: set<KjNode>)
    requires Elsewhere(s, t, zone) && e.mods in s.kids && e.attrs in s.kids && e.attrNames in s.kids
    requires e.mods !in zone && e.attrs !in zone && e.attrNames !in zone
    ensures e.mods in t.kids && e.attrs in t.kids && e.attrNames in t.kids
    ensures t.kids[e.mods] == s.kids[e.mods] && t.kids[e.attrs] == s.kids[e.attrs] && t.kids[e.attrNames] == s.kids[e.attrNames]
  {
  }

  lemma MergeZone(g: Goal, s: Shape, nm: NameMap, i: nat, kept: seq<KjNode>, names: seq<KjNode>, x: KjNode, y: KjNode)
    requires MergedTo(g, s, nm, i, kept, names) && i < |Mods(g)| && Mods(g)[i] == x && x in s.kids
    requires y in s.kids && y in s.kids[g.e.attrs]
    ensures var zone := Around(s, y) + {x};
      && g.e.source !in zone && g.e.mods !in zone && g.e.attrs !in zone && g.e.attrNames !in zone
      && (forall a :: a in s.kids[g.e.attrs] && a != y ==> a !in zone)
      && (forall k :: i < k < |Mods(g)| ==> Mods(g)[k] !in zone)
  {
    Here(g, s, nm, i, kept, names);
    EntityParts(g.e, s);
    hide *;
    EntityApart(g.e, s, x);
    EntityApart(g.e, s, y);
    PartsApart(g.e, s, y);
    forall a | a in s.kids[g.e.attrs] && a != y ensures a !in Around(s, y) + {x} {
      AttrApart(g.e, s, y, a);
    }
    forall k | i < k < |Mods(g)| ensures Mods(g)[k] !in Around(s, y) + {x} {
      RestInMods(g, s, nm, i, kept, names, k);
      ModApart(g.e, s, y, Mods(g)[k]);
    }
  }

  lemma PartsApart(e: Entity, s: Shape, y: KjNode)
    requires y in s.kids && y != e.source && y != e.mods && y != e.attrs && y != e.attrNames
    requires e.source !in s.kids[y] && e.mods !in s.kids[y] && e.attrs !in s.kids[y] && e.attrNames !in s.kids[y]
    ensures e.source !in Around(s, y) && e.mods !in Around(s, y) && e.attrs !in Around(s, y) && e.attrNames !in Around(s, y)
  {
  }

  lemma RestInMods(g: Goal, s: Shape, nm: NameMap, i: nat, kept: seq<KjNode>, names: seq<KjNode>, k: nat)
    requires MergedTo(g, s, nm, i, kept, names) && i < k < |Mods(g)|
    ensures Mods(g)[k] in s.kids[g.e.mods] && Mods(g)[k] != Mods(g)[i] && Mods(g)[k] !in s.kids[g.e.attrs]
  {
    EntityParts(g.e, s);
    EntityParts(g.e, g.s);
    DistinctAt(Mods(g));
    hide NewOnes, EntityOk, AttrOk, LiveKids, DotForms, ShapeOk, Distinct, SameNames, Usable;
    assert Mods(g)[i..][k - i] == Mods(g)[k];
  }

  lemma AddZoneApart(g: Goal, s: Shape, nm: NameMap, i: nat, kept: seq<KjNode>, names: seq<KjNode>, x: KjNode)
    requires MergedTo(g, s, nm, i, kept, names) && i < |Mods(g)| && Mods(g)[i] == x && x in s.kids
    ensures var zone := AddZone(g.e, s, x);
      && g.e.source !in zone
      && (forall a :: a in s.kids[g.e.attrs] ==> a !in zone)
      && (forall k :: i < k < |Mods(g)| ==> Mods(g)[k] !in zone)
  {
    hide *;
    Here(g, s, nm, i, kept, names);
    EntityParts(g.e, s);
    EntityApart(g.e, s, x);
    PartsApart(g.e, s, x);
    NotInAddZone(g.e, s, x, g.e.source);
    forall a | a in s.kids[g.e.attrs] ensures a !in AddZone(g.e, s, x) {
      AttrNotInAddZone(g.e, s, x, a);
    }
    forall k | i < k < |Mods(g)| ensures Mods(g)[k] !in AddZone(g.e, s, x) {
      RestInMods(g, s, nm, i, kept, names, k);
      ModNotInAddZone(g.e, s, x, Mods(g)[k]);
    }
  }

  lemma NotInAddZone(e: Entity, s: Shape, x: KjNode, a: KjNode)
    requires x in s.kids && a !in Around(s, x) && a != e.mods && a != e.attrs && a != e.attrNames
    ensures a !in AddZone(e, s, x)
  {
  }

  lemma AttrNotInAddZone(e: Entity, s: Shape, x: KjNode, a: KjNode)
    requires EntityOk(e, s) && e.attrs in s.kids && e.mods in s.kids && a in s.kids[e.attrs] && x in s.kids[e.mods] && x in s.kids
    ensures a !in AddZone(e, s, x)
  {
    hide *;
    EntityParts(e, s);
    AttrApart(e, s, x, a);
    EntityApart(e, s, a);
    NotInAddZone(e, s, x, a);
  }

  lemma ModNotInAddZone(e: Entity, s: Shape, x: KjNode, r: KjNode)
    requires EntityOk(e, s) && e.attrs in s.kids && e.mods in s.kids && r in s.kids[e.mods] && x in s.kids[e.mods] && x in s.kids && r != x
    ensures r !in AddZone(e, s, x)
  {
    hide *;
    ModApart(e, s, x, r);
    EntityApart(e, s, r);
    NotInAddZone(e, s, x, r);
  }

  /** x has been added to the entity, and its name to attrNames. */
  lemma StepAdd(g: Goal, s: Shape, nm: NameMap, i: nat, kept: seq<KjNode>, names: seq<KjNode>, t: Shape, nm': NameMap, n: KjNode)
    requires MergedTo(g, s, nm, i, kept, names) && i < |Mods(g)| && Mods(g)[i].kind == KjObject
    requires Mods(g)[i] in s.kids && Mods(g)[i] in nm && !NamedBy(Attrs(g) + NewOnes(g, i), g.nm, nm[Mods(g)[i]])
    requires Effect(s, nm, t, nm', AddZone(g.e, s, Mods(g)[i]), Below(s, Mods(g)[i]), {}, {}) && AttrOk(t, nm', Mods(g)[i])
    requires g.e.mods in t.kids && t.kids[g.e.mods] == kept + Mods(g)[i + 1..]
    requires g.e.attrs in t.kids && t.kids[g.e.attrs] == s.kids[g.e.attrs] + [Mods(g)[i]]
    requires g.e.attrNames in t.kids && t.kids[g.e.attrNames] == s.kids[g.e.attrNames] + [n] && n.text == EqForDot(nm[Mods(g)[i]])
    ensures MergedTo(g, t, nm', i + 1, kept, names + [n])
  {
    var x := Mods(g)[i];
    hide *;
    Here(g, s, nm, i, kept, names);
    AddZoneApart(g, s, nm, i, kept, names, x);
    OthersStay(g, s, nm, i, kept, names, x, null, t, nm', AddZone(g.e, s, x), {});
    NamesStayEffect(s, nm, t, nm', AddZone(g.e, s, x), Below(s, x), {});
    NewOnesNext(g, i);
    StepAddInv(g, s, nm, i, kept, names, x, t, nm', n);
  }

  lemma StepAddInv(g: Goal, s: Shape, nm: NameMap, i: nat, kept: seq<KjNode>, names: seq<KjNode>, x: KjNode,
                   t: Shape, nm': NameMap, n: KjNode)
    requires MergedTo(g, s, nm, i, kept, names) && i < |Mods(g)| && x == Mods(g)[i]
    requires NewOnes(g, i + 1) == NewOnes(g, i) + [x] && x in g.nm && n.text == EqForDot(g.nm[x])
    requires EntityOk(g.e, t) && nm'.Keys == t.kids.Keys && SameNames(g, nm')
    requires g.e.mods in t.kids && t.kids[g.e.mods] == kept + Mods(g)[i + 1..]
    requires g.e.attrs in t.kids && t.kids[g.e.attrs] == s.kids[g.e.attrs] + [x]
    requires g.e.attrNames in t.kids && t.kids[g.e.attrNames] == s.kids[g.e.attrNames] + [n]
    requires AttrOk(t, nm', x) && forall a :: a in s.kids[g.e.attrs] ==> AttrOk(t, nm', a)
    requires forall k :: i < k < |Mods(g)| ==> LiveKids(t, Mods(g)[k])
    ensures MergedTo(g, t, nm', i + 1, kept, names + [n])
  {
    DotFormsSnoc(names, NewOnes(g, i), g.nm, n, x);
    hide NewOnes, EntityOk, AttrOk, LiveKids, DotForms, SameNames, Usable;
    assert t.kids[g.e.attrs] == Attrs(g) + NewOnes(g, i + 1);
    assert t.kids[g.e.attrNames] == g.s.kids[g.e.attrNames] + (names + [n]);
    assert NewOnes(g, i + 1)[|NewOnes(g, i)|] == x;
  }

  lemma DotFormsSnoc(names: seq<KjNode>, attrs: seq<KjNode>, nm: NameMap, n: KjNode, x: KjNode)
    requires DotForms(names, attrs, nm) && x in nm && n.text == EqForDot(nm[x])
    ensures DotForms(names + [n], attrs + [x], nm)
  {
  }

  // ---- one attribute that exists already ----

  /** Attribute x of the request is merged into attribute y of the entity, and nothing else is touched. */
  method MergeExisting(f: Forest, e: Entity, y: KjNode, x: KjNode, now: int)
      returns (ghost date: KjNode, ghost md0: KjNode?, ghost mdNames0: KjNode?, ghost md: KjNode?, ghost mdNames: KjNode)
    requires f.Valid() && EntityOk(e, f.shape) && e.attrs in f.shape.kids && e.mods in f.shape.kids
    requires y in f.shape.kids && x in f.shape.kids && y in f.shape.kids[e.attrs] && x in f.shape.kids[e.mods]
    requires AttrOk(f.shape, Names(f.shape.kids.Keys), y) && LiveKids(f.shape, x)
    modifies f`shape, f.shape.kids.Keys`next, f.shape.kids.Keys`firstChild, f.shape.kids.Keys`lastChild,
             f.shape.kids.Keys`name, f.shape.kids.Keys`number
    ensures f.Valid() && old(f.shape.kids.Keys) <= f.shape.kids.Keys && fresh(f.shape.kids.Keys - old(f.shape.kids.Keys))
    ensures Effect(old(f.shape), old(Names(f.shape.kids.Keys)), f.shape, Names(f.shape.kids.Keys),
                   Around(old(f.shape), y) + {x}, Below(old(f.shape), x), {x}, {})
    ensures AttrOk(f.shape, Names(f.shape.kids.Keys), y)
    ensures MergedAttribute(Merge(old(f.shape), old(Names(f.shape.kids.Keys)), y, x), f.shape, Names(f.shape.kids.Keys),
                            md0, mdNames0, md, mdNames)
    ensures y in f.shape.kids && date == First(f.shape.kids[y], Names(f.shape.kids.Keys), "modDate") && date.number == now
    ensures date in f.shape.kids
    ensures OnlyNow(old(f.shape), old(Numbers(f.shape.kids.Keys)), f.shape, Numbers(f.shape.kids.Keys), y, now)
    ensures NumbersKept(old(Names(f.shape.kids.Keys)), old(Numbers(f.shape.kids.Keys)), Names(f.shape.kids.Keys), Numbers(f.shape.kids.Keys))
  {
    hide *;
    ghost var s, nm, num := f.shape, Names(f.shape.kids.Keys), Numbers(f.shape.kids.Keys);
    AllNumbers(s.kids.Keys);
    AllNames(s.kids.Keys);
    ghost var m := Merge(s, nm, y, x);
    CanMerge(e, m);
    ghost var first;
    first, md0, mdNames0, md, mdNames := MergeAttribute(f, y, x, now, m);
    f.ValidFacts();
    AllNames(f.shape.kids.Keys);
    MergeEffect(m, f.shape, Names(f.shape.kids.Keys));
    KidsIn(f.shape, y);
    date := SetModDate(f, y, now);
    AllNumbers(f.shape.kids.Keys);
    FirstHas(s.kids[y], nm, "modDate");
    FirstHas(f.shape.kids[y], Names(f.shape.kids.Keys), "modDate");
    OnlyTwo(s, num, f.shape, Numbers(f.shape.kids.Keys), y, now, first, date);
    NumbersKeptBut(nm, num, Names(f.shape.kids.Keys), Numbers(f.shape.kids.Keys), first, date);
  }

  lemma OnlyTwo(s: Shape, num: NumberMap, t: Shape, num': NumberMap, p: KjNode, now: int, first: KjNode, second: KjNode)
    requires num.Keys == s.kids.Keys && num'.Keys == t.kids.Keys && s.kids.Keys <= t.kids.Keys && p in s.kids
    requires first in s.kids[p] && second in t.kids[p]
    requires forall n :: n in num ==> num'[n] == num[n] || ((n == first || n == second) && num'[n] == now)
    ensures OnlyNow(s, num, t, num', p, now)
  {
  }

  lemma CanMerge(e: Entity, m: Merge)
    requires EntityOk(e, m.s) && e.attrs in m.s.kids && e.mods in m.s.kids && m.nm.Keys == m.s.kids.Keys
    requires m.source in m.s.kids[e.attrs] && m.update in m.s.kids[e.mods]
    requires AttrOk(m.s, m.nm, m.source) && LiveKids(m.s, m.update)
    ensures MergeOk(m)
  {
    EntityParts(e, m.s);
    AttrApart(e, m.s, m.update, m.source);
    EntityApart(e, m.s, m.update);
    EntityApart(e, m.s, m.source);
    hide EntityOk, ShapeOk, Around, Below, Distinct;
  }

  lemma MergeEffect(m: Merge, t: Shape, nm': NameMap)
    requires MergeOk(m) && m.source in m.s.kids && m.update in m.s.kids && ShapeOk(t) && nm'.Keys == t.kids.Keys
    requires Elsewhere(m.s, t, Zone(m)) && t.stale == m.s.stale + {m.update} && ParentsOld(m.s, t)
    requires NamesElsewhere(m.nm, nm', set k | k in Members(m))
    requires LiveKids(t, m.source) && HasChild(t, nm', m.source, "modDate")
    ensures Effect(m.s, m.nm, t, nm', Around(m.s, m.source) + {m.update}, Below(m.s, m.update), {m.update}, {})
    ensures AttrOk(t, nm', m.source) && Live(t, m.source)
  {
    KidsIn(m.s, m.update);
    hide ShapeOk, LiveKids, HasChild, Distinct;
  }

  // ---- what each round does to the content of attributes ----

  /** Only nodes called "modDate" may have another number. */
  ghost predicate NumbersKept(nm: NameMap, num: NumberMap, nm': NameMap, num': NumberMap) {
    forall n :: n in num && n in nm && n in nm' && nm[n] != "modDate" && nm'[n] != "modDate" ==> n in num' && num'[n] == num[n]
  }

  lemma NumbersKeptBut(nm: NameMap, num: NumberMap, nm': NameMap, num': NumberMap, first: KjNode, second: KjNode)
    requires num.Keys <= num'.Keys && forall n :: n in num && n != first && n != second ==> num'[n] == num[n]
    requires first in nm && nm[first] == "modDate" && second in nm' && nm'[second] == "modDate"
    ensures NumbersKept(nm, num, nm', num')
  {
  }

  lemma NumbersKeptBefore(s: Shape, nm: NameMap, x: KjNode, num: NumberMap, nm': NameMap, num': NumberMap)
    requires x in s.kids && NumbersKept(ObjectNamed(s, nm, x), num, nm', num')
    ensures NumbersKept(nm, num, nm', num')
  {
    RelationshipHas(s.kids[x], nm);
    hide RelationshipObject;
  }

  /** The tree between two rounds, what is left of the request, and what has been added to attrNames. */
  datatype Stage = Stage(s: Shape, nm: NameMap, num: NumberMap, kept: seq<KjNode>, names: seq<KjNode>)

  /** A round: nothing to do, a merge into an attribute y of the entity, or a new attribute. */
  datatype Round =
    | Passed
    | Merging(y: KjNode, md0: KjNode?, mdNames0: KjNode?, md: KjNode?, mdNames: KjNode)
    | Joining(k: Taken, dates: Dates)

  /** The names once objectToValue has looked at x. */
  ghost function ObjectNamed(s: Shape, nm: NameMap, x: KjNode): NameMap
    requires x in s.kids
  {
    var r := RelationshipObject(s.kids[x], nm);
    if r == null then nm else nm[r := "value"]
  }

  ghost predicate MergeRound(e: Entity, x: KjNode, a: Stage, r: Round, nm: NameMap, b: Stage)
    requires r.Merging?
  {
    && x in a.s.kids && e.attrs in a.s.kids && r.y in a.s.kids && r.y in a.s.kids[e.attrs] && r.y in nm && x in nm && nm[r.y] == nm[x]
    && MergedAttribute(Merge(a.s, nm, r.y, x), b.s, b.nm, r.md0, r.mdNames0, r.md, r.mdNames)
    && Effect(a.s, nm, b.s, b.nm, Around(a.s, r.y) + {x}, Below(a.s, x), {x}, {})
  }

  ghost predicate JoinRound(e: Entity, x: KjNode, a: Stage, r: Round, nm: NameMap, b: Stage)
    requires r.Joining?
  {
    && x in a.s.kids && e.attrs in a.s.kids && x in nm && !NamedBy(a.s.kids[e.attrs], nm, nm[x])
    && e.attrs in b.s.kids && b.s.kids[e.attrs] == a.s.kids[e.attrs] + [x]
    && AddedAttribute(e, a.s, nm, |a.kept|, x, r.k, r.dates, b.s, b.nm)
    && Effect(a.s, nm, b.s, b.nm, AddZone(e, a.s, x), Below(a.s, x), {}, {})
  }

  /** The dates that a round sets, and that no other number changes. */
  ghost predicate DatesSet(now: int, x: KjNode, a: Stage, r: Round, b: Stage) {
    match r
    case Passed => b.num == a.num
    case Merging(y, _, _, _, _) =>
      && OnlyNow(a.s, a.num, b.s, b.num, y, now) && NumbersKept(a.nm, a.num, b.nm, b.num)
      && var date := First(b.s.kids[y], b.nm, "modDate"); date != null && date in b.num && b.num[date] == now
    case Joining(k, dates) =>
      && OnlyNow(a.s, a.num, b.s, b.num, x, now)
      && (forall n :: n in a.num && n != dates.modDate ==> n in b.num && b.num[n] == a.num[n])
      && dates.modDate in b.nm && b.nm[dates.modDate] == "modDate" && dates.creDate in b.nm && b.nm[dates.creDate] == "creDate"
      && dates.modDate in b.num && b.num[dates.modDate] == now && dates.creDate in b.num
      && x in k.s.kids && (!NamedBy(k.s.kids[x], k.nm, "creDate") ==> b.num[dates.creDate] == now)
  }

  ghost predicate RoundOk(e: Entity, now: int, x: KjNode, a: Stage, r: Round, b: Stage) {
    && DatesSet(now, x, a, r, b)
    && match r
       case Passed => x.kind != KjObject && b.s == a.s && b.nm == a.nm
       case Merging(_, _, _, _, _) => x.kind == KjObject && x in a.s.kids && MergeRound(e, x, a, r, ObjectNamed(a.s, a.nm, x), b)
       case Joining(_, _) => x.kind == KjObject && x in a.s.kids && JoinRound(e, x, a, r, ObjectNamed(a.s, a.nm, x), b)
  }

  /** The rounds up to member i of the request. */
  ghost predicate Log(g: Goal, stages: seq<Stage>, rounds: seq<Round>) {
    && Usable(g) && |stages| == |rounds| + 1 && |rounds| <= |Mods(g)| && stages[0] == Stage(g.s, g.nm, g.num, [], [])
    && StagesOk(g, stages) && RoundsOk(g.e, g.now, Mods(g), stages, rounds)
  }

  ghost predicate StagesOk(g: Goal, stages: seq<Stage>) {
    forall k :: 0 <= k < |stages| ==>
      MergedTo(g, stages[k].s, stages[k].nm, k, stages[k].kept, stages[k].names) && stages[k].num.Keys == stages[k].s.kids.Keys
  }

  ghost predicate RoundsOk(e: Entity, now: int, mods: seq<KjNode>, stages: seq<Stage>, rounds: seq<Round>)
    requires |stages| == |rounds| + 1 && |rounds| <= |mods|
  {
    forall k :: 0 <= k < |rounds| ==> RoundOk(e, now, mods[k], stages[k], rounds[k], stages[k + 1])
  }

  lemma StagesSnoc(g: Goal, stages: seq<Stage>, b: Stage)
    requires StagesOk(g, stages) && MergedTo(g, b.s, b.nm, |stages|, b.kept, b.names) && b.num.Keys == b.s.kids.Keys
    ensures StagesOk(g, stages + [b])
  {
    hide MergedTo;
  }

  lemma RoundsSnoc(e: Entity, now: int, mods: seq<KjNode>, stages: seq<Stage>, rounds: seq<Round>, r: Round, b: Stage)
    requires |stages| == |rounds| + 1 && |rounds| < |mods| && RoundsOk(e, now, mods, stages, rounds)
    requires RoundOk(e, now, mods[|rounds|], stages[|rounds|], r, b)
    ensures RoundsOk(e, now, mods, stages + [b], rounds + [r])
  {
    hide RoundOk;
  }

  lemma LogStart(g: Goal)
    requires MergedTo(g, g.s, g.nm, 0, [], [])
    ensures Log(g, [Stage(g.s, g.nm, g.num, [], [])], [])
  {
    assert Usable(g);
    hide MergedTo, Usable;
  }

  lemma LogSnoc(g: Goal, stages: seq<Stage>, rounds: seq<Round>, r: Round, b: Stage)
    requires Log(g, stages, rounds) && |rounds| < |Mods(g)|
    requires MergedTo(g, b.s, b.nm, |rounds| + 1, b.kept, b.names) && b.num.Keys == b.s.kids.Keys
    requires RoundOk(g.e, g.now, Mods(g)[|rounds|], stages[|rounds|], r, b)
    ensures Log(g, stages + [b], rounds + [r])
  {
    StagesSnoc(g, stages, b);
    RoundsSnoc(g.e, g.now, Mods(g), stages, rounds, r, b);
    hide StagesOk, RoundsOk, RoundOk, MergedTo;
  }

  lemma LogLast(g: Goal, stages: seq<Stage>, rounds: seq<Round>)
    requires Log(g, stages, rounds)
    ensures Usable(g) && g.e.mods in g.s.kids && |stages| == |rounds| + 1 && |rounds| <= |Mods(g)|
    ensures var b := stages[|rounds|]; MergedTo(g, b.s, b.nm, |rounds|, b.kept, b.names)
  {
    assert g.e.mods in g.s.kids;
    hide MergedTo, RoundOk, Usable;
  }

  // ---- an attribute that the request does not name ----

  /** The attribute, its members and what they hold are as they were at stage o. */
  ghost predicate SameAttribute(o: Stage, s: Shape, nm: NameMap, a: KjNode) {
    && a in o.s.kids && a in s.kids && s.kids[a] == o.s.kids[a]
    && forall c :: c in o.s.kids[a] ==>
      c in o.s.kids && c in s.kids && s.kids[c] == o.s.kids[c] && c in o.nm && c in nm && nm[c] == o.nm[c]
  }

  lemma SameUnder(o: Stage, s: Shape, nm: NameMap, t: Shape, nm': NameMap, zone: set<KjNode>, some: set<KjNode>, a: KjNode)
    requires SameAttribute(o, s, nm, a) && Elsewhere(s, t, zone) && NamesElsewhere(nm, nm', some)
    requires a !in zone && forall c :: c in s.kids[a] ==> c !in zone && c !in some
    ensures SameAttribute(o, t, nm', a)
  {
  }

  lemma ChildApart(e: Entity, s: Shape, y: KjNode, a: KjNode, c: KjNode)
    requires EntityOk(e, s) && e.attrs in s.kids && e.mods in s.kids && a != y && a in s.kids && c in s.kids[a]
    requires a in s.kids[e.attrs] || a in s.kids[e.mods]
    requires y in s.kids[e.mods] || y in s.kids[e.attrs]
    ensures y in s.kids && c !in Around(s, y) && c != e.attrs && c != e.mods && c != e.attrNames
  {
    EntityApart(e, s, a);
    EntityApart(e, s, y);
    KidsIn(s, a);
    KidsIn(s, y);
    KidsIn(s, e.attrs);
    KidsIn(s, e.mods);
    hide ShapeOk, Distinct;
  }

  lemma RenameKeeps(g: Goal, st: Stage, i: nat, x: KjNode)
    requires MergedTo(g, st.s, st.nm, i, st.kept, st.names) && i < |Mods(g)| && x == Mods(g)[i]
    ensures x in st.s.kids && NamesElsewhere(st.nm, ObjectNamed(st.s, st.nm, x), Below(st.s, x))
    ensures ObjectNamed(st.s, st.nm, x).Keys == st.nm.Keys
  {
    hide *;
    Here(g, st.s, st.nm, i, st.kept, st.names);
    EntityParts(g.e, st.s);
    RelationshipChild(st.s, st.nm, x);
  }

  lemma RelationshipChild(s: Shape, nm: NameMap, x: KjNode)
    requires ShapeOk(s) && x in s.kids && nm.Keys == s.kids.Keys
    ensures NamesElsewhere(nm, ObjectNamed(s, nm, x), Below(s, x)) && ObjectNamed(s, nm, x).Keys == nm.Keys
  {
    FirstHas(s.kids[x], nm, "object");
    KidsIn(s, x);
    hide ShapeOk, Distinct, First;
  }

  /** From any round on: an attribute of the entity that the request does not name in these rounds keeps its members,
      their lists and their names. */
  lemma {:induction false} UntouchedSince(g: Goal, stages: seq<Stage>, rounds: seq<Round>, j: nat, i: nat, a: KjNode)
    requires Log(g, stages, rounds) && j <= i < |stages| && g.e.attrs in stages[j].s.kids && a in stages[j].s.kids[g.e.attrs]
    requires forall k :: j <= k < i && Mods(g)[k].kind == KjObject && Mods(g)[k] in g.nm && a in g.nm ==> g.nm[Mods(g)[k]] != g.nm[a]
    ensures SameAttribute(stages[j], stages[i].s, stages[i].nm, a)
    ensures g.e.attrs in stages[i].s.kids && a in stages[i].s.kids[g.e.attrs]
  {
    hide *;
    LogLast(g, stages, rounds);
    if i == j {
      LogStage(g, stages, rounds, j);
      SameAtFirst(g, stages[j], j, a);
    } else {
      UntouchedSince(g, stages, rounds, j, i - 1, a);
      LogAt(g, stages, rounds, i - 1);
      LogStage(g, stages, rounds, i);
      var x, st, b := Mods(g)[i - 1], stages[i - 1], stages[i];
      AttrHere(g, st, i - 1, x, a);
      UntouchedRound(g, stages[j], st, i - 1, x, rounds[i - 1], b, a);
      AttrsGrow(g, st, b, i - 1, a);
    }
  }

  lemma AttrsGrow(g: Goal, st: Stage, b: Stage, i: nat, a: KjNode)
    requires MergedTo(g, st.s, st.nm, i, st.kept, st.names) && MergedTo(g, b.s, b.nm, i + 1, b.kept, b.names)
    requires g.e.attrs in st.s.kids && a in st.s.kids[g.e.attrs]
    ensures g.e.attrs in b.s.kids && a in b.s.kids[g.e.attrs]
  {
    NewOnesNext(g, i);
    hide NewOnes, EntityOk, AttrOk, LiveKids, DotForms, SameNames;
  }

  /** The numbers of the attribute's members are as they were at stage o. */
  ghost predicate SameNumbers(o: Stage, num: NumberMap, a: KjNode) {
    a in o.s.kids && forall c :: c in o.s.kids[a] ==> c in o.num && c in num && num[c] == o.num[c]
  }

  /** And their numbers, so that its dates are what they were. */
  lemma {:induction false} NumbersSince(g: Goal, stages: seq<Stage>, rounds: seq<Round>, j: nat, i: nat, a: KjNode)
    requires Log(g, stages, rounds) && j <= i < |stages| && g.e.attrs in stages[j].s.kids && a in stages[j].s.kids[g.e.attrs]
    requires forall k :: j <= k < i && Mods(g)[k].kind == KjObject && Mods(g)[k] in g.nm && a in g.nm ==> g.nm[Mods(g)[k]] != g.nm[a]
    ensures SameNumbers(stages[j], stages[i].num, a)
  {
    hide *;
    LogLast(g, stages, rounds);
    LogStage(g, stages, rounds, i);
    if i == j {
      NumbersAtFirst(g, stages[j], j, a);
    } else {
      NumbersSince(g, stages, rounds, j, i - 1, a);
      UntouchedSince(g, stages, rounds, j, i - 1, a);
      UntouchedSince(g, stages, rounds, j, i, a);
      LogAt(g, stages, rounds, i - 1);
      AttrHere(g, stages[i - 1], i - 1, Mods(g)[i - 1], a);
      NumbersRound(g, stages[j], stages[i - 1], i - 1, Mods(g)[i - 1], rounds[i - 1], stages[i], a);
    }
  }

  lemma NumbersAtFirst(g: Goal, o: Stage, j: nat, a: KjNode)
    requires MergedTo(g, o.s, o.nm, j, o.kept, o.names) && g.e.attrs in o.s.kids && a in o.s.kids[g.e.attrs] && o.num.Keys == o.s.kids.Keys
    ensures SameNumbers(o, o.num, a)
  {
    EntityParts(g.e, o.s);
    KidsIn(o.s, a);
    hide NewOnes, EntityOk, AttrOk, LiveKids, DotForms, SameNames, ShapeOk, Distinct;
  }

  lemma NumbersRound(g: Goal, o: Stage, st: Stage, i: nat, x: KjNode, r: Round, b: Stage, a: KjNode)
    requires MergedTo(g, st.s, st.nm, i, st.kept, st.names) && MergedTo(g, b.s, b.nm, i + 1, b.kept, b.names)
    requires i < |Mods(g)| && x == Mods(g)[i] && RoundOk(g.e, g.now, x, st, r, b)
    requires SameAttribute(o, st.s, st.nm, a) && SameAttribute(o, b.s, b.nm, a) && SameNumbers(o, st.num, a)
    requires a in g.nm && x in g.nm && (x.kind == KjObject ==> g.nm[x] != g.nm[a])
    ensures SameNumbers(o, b.num, a)
  {
    hide MergedTo, MergeRound, JoinRound, SameAttribute, SameNumbers, ObjectNamed, OnlyNow;
    if r.Passed? {
      assert b.num == st.num;
    } else {
      WorkedOnThere(g, st, b, i, r, x);
      StageShape(g, st, i);
      StageShape(g, b, i + 1);
      NumbersApart(o, st, b, WorkedOn(r, x), g.now, a);
    }
  }

  lemma StageShape(g: Goal, st: Stage, i: nat)
    requires MergedTo(g, st.s, st.nm, i, st.kept, st.names)
    ensures ShapeOk(st.s)
  {
    hide NewOnes, AttrOk, LiveKids, DotForms, SameNames, ShapeOk;
  }

  lemma NumbersApart(o: Stage, st: Stage, b: Stage, y: KjNode, now: int, a: KjNode)
    requires ShapeOk(st.s) && ShapeOk(b.s) && OnlyNow(st.s, st.num, b.s, b.num, y, now) && a != y
    requires SameAttribute(o, st.s, st.nm, a) && SameAttribute(o, b.s, b.nm, a) && SameNumbers(o, st.num, a)
    ensures SameNumbers(o, b.num, a)
  {
    KidsIn(st.s, a);
    KidsIn(st.s, y);
    KidsIn(b.s, a);
    KidsIn(b.s, y);
    hide ShapeOk, Distinct;
  }

  /** The attribute that a round works on: one of the entity, or the new one. */
  ghost function WorkedOn(r: Round, x: KjNode): KjNode {
    if r.Merging? then r.y else x
  }

  /** It is in the entity afterwards, under the name of x. */
  lemma WorkedOnThere(g: Goal, st: Stage, b: Stage, i: nat, r: Round, x: KjNode)
    requires MergedTo(g, st.s, st.nm, i, st.kept, st.names) && MergedTo(g, b.s, b.nm, i + 1, b.kept, b.names) && i < |Mods(g)|
    requires x == Mods(g)[i] && RoundOk(g.e, g.now, x, st, r, b) && !r.Passed?
    ensures var a := WorkedOn(r, x); a in g.nm && x in g.nm && g.nm[a] == g.nm[x] && g.e.attrs in b.s.kids && a in b.s.kids[g.e.attrs]
  {
    hide MergedTo, EntityOk, AddedAttribute, MergedAttribute, Effect, Around, Below, ObjectNamed, DatesSet;
    Here(g, st.s, st.nm, i, st.kept, st.names);
    if r.Merging? {
      AttrHere(g, st, i, x, r.y);
      RenameKeeps(g, st, i, x);
      NamesKept(st.nm, ObjectNamed(st.s, st.nm, x), Below(st.s, x), r.y);
      NamesKept(st.nm, ObjectNamed(st.s, st.nm, x), Below(st.s, x), x);
      AttrsGrow(g, st, b, i, r.y);
    } else {
      assert b.s.kids[g.e.attrs][|st.s.kids[g.e.attrs]|] == x;
    }
  }

  lemma LogStage(g: Goal, stages: seq<Stage>, rounds: seq<Round>, k: nat)
    requires Log(g, stages, rounds) && k < |stages|
    ensures MergedTo(g, stages[k].s, stages[k].nm, k, stages[k].kept, stages[k].names)
    ensures stages[k].num.Keys == stages[k].s.kids.Keys
  {
    hide MergedTo, RoundOk, Usable;
  }

  lemma LogAt(g: Goal, stages: seq<Stage>, rounds: seq<Round>, k: nat)
    requires Log(g, stages, rounds) && k < |rounds|
    ensures Usable(g) && g.e.mods in g.s.kids && |stages| == |rounds| + 1 && k < |Mods(g)|
    ensures MergedTo(g, stages[k].s, stages[k].nm, k, stages[k].kept, stages[k].names)
    ensures RoundOk(g.e, g.now, Mods(g)[k], stages[k], rounds[k], stages[k + 1])
  {
    assert g.e.mods in g.s.kids;
    hide MergedTo, RoundOk, Usable;
  }

  lemma SameAtFirst(g: Goal, o: Stage, j: nat, a: KjNode)
    requires MergedTo(g, o.s, o.nm, j, o.kept, o.names) && g.e.attrs in o.s.kids && a in o.s.kids[g.e.attrs]
    ensures SameAttribute(o, o.s, o.nm, a)
  {
    EntityParts(g.e, o.s);
    KidsIn(o.s, a);
    hide NewOnes, EntityOk, AttrOk, LiveKids, DotForms, SameNames, ShapeOk, Distinct;
  }

  /** The attribute is in the entity, under the name it had, and apart from x. */
  lemma AttrHere(g: Goal, st: Stage, i: nat, x: KjNode, a: KjNode)
    requires MergedTo(g, st.s, st.nm, i, st.kept, st.names) && i < |Mods(g)| && x == Mods(g)[i]
    requires g.e.attrs in st.s.kids && a in st.s.kids[g.e.attrs]
    ensures EntityOk(g.e, st.s) && g.e.mods in st.s.kids
    ensures a in st.s.kids && x in st.s.kids && x in st.s.kids[g.e.mods] && a != x
    ensures a in st.nm && x in st.nm && a in g.nm && x in g.nm && st.nm[a] == g.nm[a] && st.nm[x] == g.nm[x]
    ensures a !in Around(st.s, x) && a !in Below(st.s, x) && x !in Below(st.s, x) && x !in st.s.kids[a]
    ensures forall k :: k in st.s.kids[a] ==> k !in Below(st.s, x)
  {
    Here(g, st.s, st.nm, i, st.kept, st.names);
    NewOnesFrom(g, i);
    hide EntityOk, NewOnes, AttrOk, LiveKids, DotForms;
    EntityParts(g.e, st.s);
    AttrApart(g.e, st.s, x, a);
    SelfApart(g.e, st.s, x);
  }

  /** objectToValue on x does not touch the attribute, nor the names of x and of the attribute. */
  lemma UntouchedRename(g: Goal, o: Stage, st: Stage, i: nat, x: KjNode, a: KjNode, nm: NameMap)
    requires MergedTo(g, st.s, st.nm, i, st.kept, st.names) && i < |Mods(g)| && x == Mods(g)[i]
    requires g.e.attrs in st.s.kids && a in st.s.kids[g.e.attrs] && SameAttribute(o, st.s, st.nm, a)
    requires x in st.s.kids && nm == ObjectNamed(st.s, st.nm, x)
    ensures a in nm && x in nm && a in g.nm && x in g.nm && nm[a] == g.nm[a] && nm[x] == g.nm[x] && SameAttribute(o, st.s, nm, a)
  {
    hide *;
    AttrHere(g, st, i, x, a);
    RenameKeeps(g, st, i, x);
    NamesKept(st.nm, nm, Below(st.s, x), a);
    NamesKept(st.nm, nm, Below(st.s, x), x);
    NothingElsewhere(st.s);
    SameUnder(o, st.s, st.nm, st.s, nm, {}, Below(st.s, x), a);
  }

  lemma NamesKept(nm: NameMap, nm': NameMap, some: set<KjNode>, n: KjNode)
    requires NamesElsewhere(nm, nm', some) && n in nm && n !in some
    ensures n in nm' && nm'[n] == nm[n]
  {
  }

  lemma NothingElsewhere(s: Shape)
    ensures Elsewhere(s, s, {})
  {
  }

  lemma UntouchedMerge(g: Goal, o: Stage, st: Stage, i: nat, x: KjNode, r: Round, nm: NameMap, b: Stage, a: KjNode)
    requires MergedTo(g, st.s, st.nm, i, st.kept, st.names) && i < |Mods(g)| && x == Mods(g)[i] && x in st.s.kids
    requires g.e.attrs in st.s.kids && a in st.s.kids[g.e.attrs] && SameAttribute(o, st.s, nm, a) && a in nm && x in nm && nm[a] != nm[x]
    requires r.Merging? && MergeRound(g.e, x, st, r, nm, b)
    ensures SameAttribute(o, b.s, b.nm, a)
  {
    AttrHere(g, st, i, x, a);
    hide MergedTo, EntityOk, MergedAttribute, SameAttribute, Around, Below, ShapeOk, ParentsBut, Elsewhere, NamesElsewhere;
    forall c | c in st.s.kids[a] ensures c !in Around(st.s, r.y) + {x} && c !in Below(st.s, x) {
      ChildApart(g.e, st.s, r.y, a, c);
    }
    AttrApart(g.e, st.s, r.y, a);
    SameUnder(o, st.s, nm, b.s, b.nm, Around(st.s, r.y) + {x}, Below(st.s, x), a);
  }

  lemma UntouchedJoin(g: Goal, o: Stage, st: Stage, i: nat, x: KjNode, r: Round, nm: NameMap, b: Stage, a: KjNode)
    requires MergedTo(g, st.s, st.nm, i, st.kept, st.names) && i < |Mods(g)| && x == Mods(g)[i] && x in st.s.kids
    requires g.e.attrs in st.s.kids && a in st.s.kids[g.e.attrs] && SameAttribute(o, st.s, nm, a)
    requires r.Joining? && JoinRound(g.e, x, st, r, nm, b)
    ensures SameAttribute(o, b.s, b.nm, a)
  {
    AttrHere(g, st, i, x, a);
    hide MergedTo, EntityOk, AddedAttribute, SameAttribute, Around, Below, ShapeOk, ParentsBut, Elsewhere, NamesElsewhere, AddZone;
    forall c | c in st.s.kids[a] ensures c !in AddZone(g.e, st.s, x) && c !in Below(st.s, x) {
      ChildApart(g.e, st.s, x, a, c);
      NotInAddZone(g.e, st.s, x, c);
    }
    AttrNotInAddZone(g.e, st.s, x, a);
    SameUnder(o, st.s, nm, b.s, b.nm, AddZone(g.e, st.s, x), Below(st.s, x), a);
  }

  lemma UntouchedRound(g: Goal, o: Stage, st: Stage, i: nat, x: KjNode, r: Round, b: Stage, a: KjNode)
    requires MergedTo(g, st.s, st.nm, i, st.kept, st.names) && i < |Mods(g)| && x == Mods(g)[i] && RoundOk(g.e, g.now, x, st, r, b)
    requires g.e.attrs in st.s.kids && a in st.s.kids[g.e.attrs] && SameAttribute(o, st.s, st.nm, a) && a in g.nm && x in g.nm
    requires x.kind == KjObject ==> g.nm[x] != g.nm[a]
    ensures SameAttribute(o, b.s, b.nm, a)
  {
    hide MergedTo, MergeRound, JoinRound, SameAttribute, ObjectNamed, DatesSet;
    if !r.Passed? {
      var nm := ObjectNamed(st.s, st.nm, x);
      UntouchedRename(g, o, st, i, x, a, nm);
      if r.Merging? {
        UntouchedMerge(g, o, st, i, x, r, nm, b, a);
      } else {
        UntouchedJoin(g, o, st, i, x, r, nm, b, a);
      }
    }
  }

  // ---- the loop ----

  /** A member of the request that is not an object, and not one of the three names that may be something else. */
  ghost predicate Bad(g: Goal, n: KjNode) {
    n.kind != KjObject && n in g.nm && g.nm[n] !in ["type", "value", "object"]
  }

  lemma FoundName(ns: seq<KjNode>, nm: NameMap, j: nat, name: string)
    requires forall n :: n in ns ==> n in nm
    requires j <= |ns| && forall k :: 0 <= k < j ==> nm[ns[k]] != name
    requires j < |ns| ==> nm[ns[j]] == name
    ensures (exists k :: k in ns && k in nm && nm[k] == name) <==> j < |ns|
  {
    if j < |ns| {
      assert ns[j] in ns;
    }
  }

  lemma AttrsNamed(g: Goal, s: Shape, nm: NameMap, i: nat, kept: seq<KjNode>, names: seq<KjNode>)
    requires MergedTo(g, s, nm, i, kept, names)
    ensures g.e.attrs in s.kids && Live(s, g.e.attrs) && Live(s, g.e.mods)
    ensures forall a :: a in s.kids[g.e.attrs] ==> a in s.kids && a in nm && AttrOk(s, nm, a)
    ensures Usable(g) && EntityOk(g.e, s) && g.e.mods in s.kids && g.e.attrNames in s.kids
  {
    EntityParts(g.e, s);
    hide NewOnes, AttrOk, LiveKids, DotForms, SameNames, Usable, ShapeOk;
  }

  /** The round of an attribute that is an object; `st` is the tree before objectToValue looked at it. */
  method MergeOrAdd(f: Forest, e: Entity, x: KjNode, now: int, ghost g: Goal, ghost i: nat, ghost st: Stage)
      returns (ghost b: Stage, ghost r: Round)
    requires f.Valid() && e == g.e && MergedTo(g, f.shape, Names(f.shape.kids.Keys), i, st.kept, st.names)
    requires i < |Mods(g)| && x == Mods(g)[i] && x.kind == KjObject
    requires f.shape == st.s && x in st.s.kids && Names(f.shape.kids.Keys) == ObjectNamed(st.s, st.nm, x) && Numbers(f.shape.kids.Keys) == st.num
    modifies f`shape, f.shape.kids.Keys`next, f.shape.kids.Keys`firstChild, f.shape.kids.Keys`lastChild,
             f.shape.kids.Keys`name, f.shape.kids.Keys`number
    ensures f.Valid() && old(f.shape.kids.Keys) <= f.shape.kids.Keys && fresh(f.shape.kids.Keys - old(f.shape.kids.Keys))
    ensures b.s == f.shape && b.nm == Names(f.shape.kids.Keys) && b.num == Numbers(f.shape.kids.Keys)
    ensures MergedTo(g, b.s, b.nm, i + 1, b.kept, b.names) && RoundOk(e, now, x, st, r, b)
  {
    hide *;
    ghost var s, nm, kept, names := f.shape, Names(f.shape.kids.Keys), st.kept, st.names;
    Here(g, s, nm, i, kept, names);
    AttrsNamed(g, s, nm, i, kept, names);
    AllNames(s.kids.Keys);
    var y; ghost var j;
    y, j := f.Lookup(e.attrs, x.name);
    FoundName(s.kids[e.attrs], nm, j, nm[x]);
    SameLookup(g, s, nm, i, kept, names, nm[x]);
    if y != null {
      b, r := MergeInto(f, e, y, x, now, g, i, st);
    } else {
      b, r := AddNewOne(f, e, x, now, g, i, st);
    }
  }

  method MergeInto(f: Forest, e: Entity, y: KjNode, x: KjNode, now: int, ghost g: Goal, ghost i: nat, ghost st: Stage)
      returns (ghost b: Stage, ghost r: Round)
    requires f.Valid() && e == g.e && MergedTo(g, f.shape, Names(f.shape.kids.Keys), i, st.kept, st.names)
    requires i < |Mods(g)| && x == Mods(g)[i] && x.kind == KjObject
    requires f.shape == st.s && x in st.s.kids && Names(f.shape.kids.Keys) == ObjectNamed(st.s, st.nm, x) && Numbers(f.shape.kids.Keys) == st.num
    requires e.attrs in st.s.kids && y in st.s.kids[e.attrs] && y in st.s.kids && y.name == x.name
    modifies f`shape, f.shape.kids.Keys`next, f.shape.kids.Keys`firstChild, f.shape.kids.Keys`lastChild,
             f.shape.kids.Keys`name, f.shape.kids.Keys`number
    ensures f.Valid() && old(f.shape.kids.Keys) <= f.shape.kids.Keys && fresh(f.shape.kids.Keys - old(f.shape.kids.Keys))
    ensures b.s == f.shape && b.nm == Names(f.shape.kids.Keys) && b.num == Numbers(f.shape.kids.Keys)
    ensures MergedTo(g, b.s, b.nm, i + 1, b.kept, b.names) && RoundOk(e, now, x, st, r, b)
  {
    hide *;
    ghost var s, nm := f.shape, Names(f.shape.kids.Keys);
    Here(g, s, nm, i, st.kept, st.names);
    AttrsNamed(g, s, nm, i, st.kept, st.names);
    AllNames(s.kids.Keys);
    ghost var date, md0, mdNames0, md, mdNames := MergeExisting(f, e, y, x, now);
    StepMerge(g, s, nm, i, st.kept, st.names, y, f.shape, Names(f.shape.kids.Keys));
    b := Stage(f.shape, Names(f.shape.kids.Keys), Numbers(f.shape.kids.Keys), st.kept + [x], st.names);
    r := Merging(y, md0, mdNames0, md, mdNames);
    AllNumbers(f.shape.kids.Keys);
    MergeRoundIs(e, now, x, st, r, nm, b, date);
  }

  method AddNewOne(f: Forest, e: Entity, x: KjNode, now: int, ghost g: Goal, ghost i: nat, ghost st: Stage)
      returns (ghost b: Stage, ghost r: Round)
    requires f.Valid() && e == g.e && MergedTo(g, f.shape, Names(f.shape.kids.Keys), i, st.kept, st.names)
    requires i < |Mods(g)| && x == Mods(g)[i] && x.kind == KjObject
    requires f.shape == st.s && x in st.s.kids && Names(f.shape.kids.Keys) == ObjectNamed(st.s, st.nm, x) && Numbers(f.shape.kids.Keys) == st.num
    requires e.attrs in st.s.kids && !NamedBy(Attrs(g) + NewOnes(g, i), g.nm, x.name)
    requires !exists k :: k in st.s.kids[e.attrs] && k in Names(f.shape.kids.Keys) && Names(f.shape.kids.Keys)[k] == x.name
    modifies f`shape, f.shape.kids.Keys`next, f.shape.kids.Keys`firstChild, f.shape.kids.Keys`lastChild,
             f.shape.kids.Keys`name, f.shape.kids.Keys`number
    ensures f.Valid() && old(f.shape.kids.Keys) <= f.shape.kids.Keys && fresh(f.shape.kids.Keys - old(f.shape.kids.Keys))
    ensures b.s == f.shape && b.nm == Names(f.shape.kids.Keys) && b.num == Numbers(f.shape.kids.Keys)
    ensures MergedTo(g, b.s, b.nm, i + 1, b.kept, b.names) && RoundOk(e, now, x, st, r, b)
  {
    hide *;
    ghost var s, nm := f.shape, Names(f.shape.kids.Keys);
    Here(g, s, nm, i, st.kept, st.names);
    AttrsNamed(g, s, nm, i, st.kept, st.names);
    NameOf(x, s.kids.Keys);
    AllNumbers(s.kids.Keys);
    CanAddHere(g, s, nm, i, st.kept, st.names);
    ghost var n, k, dates := AddAttribute(f, e, x, now, |st.kept|);
    StepAdd(g, s, nm, i, st.kept, st.names, f.shape, Names(f.shape.kids.Keys), n);
    b := Stage(f.shape, Names(f.shape.kids.Keys), Numbers(f.shape.kids.Keys), st.kept, st.names + [n]);
    r := Joining(k, dates);
    f.ValidFacts();
    DatesThere(e, s, nm, |st.kept|, x, k, dates, f.shape, b.nm);
    AllNumbers(f.shape.kids.Keys);
    AllNames(f.shape.kids.Keys);
    OnlyOne(s, st.num, f.shape, b.num, x, now, dates.modDate);
    JoinRoundIs(e, now, x, st, r, nm, b);
  }

  lemma DatesThere(e: Entity, s: Shape, nm: NameMap, j: nat, x: KjNode, k: Taken, d: Dates, t: Shape, nm': NameMap)
    requires AddedAttribute(e, s, nm, j, x, k, d, t, nm') && ShapeOk(t)
    ensures x in k.s.kids && x in t.kids && d.modDate in t.kids[x] && d.modDate in t.kids && d.creDate in t.kids[x] && d.creDate in t.kids
  {
    KidsIn(t, x);
    hide TakenFrom, Effect, ShapeOk, Distinct;
    var ks := t.kids[x];
    assert forall c :: c in ks[..|ks| - 1] ==> c in ks;
  }

  lemma OnlyOne(s: Shape, num: NumberMap, t: Shape, num': NumberMap, p: KjNode, now: int, date: KjNode)
    requires num.Keys == s.kids.Keys && num'.Keys == t.kids.Keys && s.kids.Keys <= t.kids.Keys && p in s.kids && date in t.kids[p]
    requires forall n :: n in num ==> num'[n] == num[n] || (n == date && num'[n] == now)
    ensures OnlyNow(s, num, t, num', p, now)
  {
  }

  lemma MergeRoundIs(e: Entity, now: int, x: KjNode, a: Stage, r: Round, nm: NameMap, b: Stage, date: KjNode)
    requires r.Merging? && x.kind == KjObject && x in a.s.kids && nm == ObjectNamed(a.s, a.nm, x)
    requires e.attrs in a.s.kids && r.y in a.s.kids && r.y in a.s.kids[e.attrs] && r.y in nm && x in nm && nm[r.y] == nm[x]
    requires MergedAttribute(Merge(a.s, nm, r.y, x), b.s, b.nm, r.md0, r.mdNames0, r.md, r.mdNames)
    requires Effect(a.s, nm, b.s, b.nm, Around(a.s, r.y) + {x}, Below(a.s, x), {x}, {})
    requires OnlyNow(a.s, a.num, b.s, b.num, r.y, now) && r.y in b.s.kids && NumbersKept(nm, a.num, b.nm, b.num)
    requires date == First(b.s.kids[r.y], b.nm, "modDate") && date in b.num && b.num[date] == now
    ensures RoundOk(e, now, x, a, r, b)
  {
    NumbersKeptBefore(a.s, a.nm, x, a.num, b.nm, b.num);
    hide MergedAttribute, Effect, ObjectNamed, OnlyNow, NumbersKept, First;
  }

  lemma JoinRoundIs(e: Entity, now: int, x: KjNode, a: Stage, r: Round, nm: NameMap, b: Stage)
    requires r.Joining? && x.kind == KjObject && x in a.s.kids && nm == ObjectNamed(a.s, a.nm, x)
    requires e.attrs in a.s.kids && x in nm && !exists k :: k in a.s.kids[e.attrs] && k in nm && nm[k] == nm[x]
    requires e.attrs in b.s.kids && b.s.kids[e.attrs] == a.s.kids[e.attrs] + [x]
    requires AddedAttribute(e, a.s, nm, |a.kept|, x, r.k, r.dates, b.s, b.nm)
    requires Effect(a.s, nm, b.s, b.nm, AddZone(e, a.s, x), Below(a.s, x), {}, {})
    requires OnlyNow(a.s, a.num, b.s, b.num, x, now)
    requires forall n :: n in a.num && n != r.dates.modDate ==> n in b.num && b.num[n] == a.num[n]
    requires var d := r.dates;
      d.modDate in b.nm && b.nm[d.modDate] == "modDate" && d.creDate in b.nm && b.nm[d.creDate] == "creDate"
    requires r.dates.modDate in b.num && b.num[r.dates.modDate] == now && r.dates.creDate in b.num
    requires x in r.k.s.kids && (!NamedBy(r.k.s.kids[x], r.k.nm, "creDate") ==> b.num[r.dates.creDate] == now)
    ensures RoundOk(e, now, x, a, r, b)
  {
    hide AddedAttribute, Effect, ObjectNamed, OnlyNow;
  }

  lemma CanAddHere(g: Goal, s: Shape, nm: NameMap, i: nat, kept: seq<KjNode>, names: seq<KjNode>)
    requires MergedTo(g, s, nm, i, kept, names) && i < |Mods(g)|
    ensures CanAdd(g.e, s, nm, Mods(g)[i], |kept|)
  {
    Here(g, s, nm, i, kept, names);
    hide NewOnes, EntityOk, AttrOk, LiveKids, DotForms, SameNames, Usable, MergedTo;
  }

  /** objectToValue on the attribute at hand. */
  method RenameObject(f: Forest, x: KjNode, ghost g: Goal, ghost i: nat, ghost kept: seq<KjNode>, ghost names: seq<KjNode>)
    requires f.Valid() && MergedTo(g, f.shape, Names(f.shape.kids.Keys), i, kept, names) && i < |Mods(g)| && x == Mods(g)[i]
    modifies f.shape.kids.Keys`name
    ensures f.Valid() && MergedTo(g, f.shape, Names(f.shape.kids.Keys), i, kept, names)
    ensures x in f.shape.kids && Names(f.shape.kids.Keys) == ObjectNamed(f.shape, old(Names(f.shape.kids.Keys)), x)
  {
    hide *;
    ghost var s, nm := f.shape, Names(f.shape.kids.Keys);
    Here(g, s, nm, i, kept, names);
    LiveKidsLive(s, x);
    f.ValidFacts();
    ghost var renamed := ObjectToValue(f, x);
    ObjectNamedIs(s, nm, x, renamed);
    EffectOfRename(s, nm, x, renamed);
    StepRename(g, s, nm, i, kept, names, Names(f.shape.kids.Keys));
  }

  lemma ObjectNamedIs(s: Shape, nm: NameMap, x: KjNode, renamed: KjNode?)
    requires x in s.kids && renamed == RelationshipObject(s.kids[x], nm)
    ensures ObjectNamed(s, nm, x) == if renamed == null then nm else nm[renamed := "value"]
  {
  }

  /** What the loop does with one member of the request. */
  method VisitMember(f: Forest, e: Entity, x: KjNode, now: int, ghost g: Goal, ghost i: nat, ghost st: Stage)
      returns (ok: bool, ghost b: Stage, ghost r: Round)
    requires f.Valid() && e == g.e && MergedTo(g, st.s, st.nm, i, st.kept, st.names) && i < |Mods(g)| && x == Mods(g)[i]
    requires f.shape == st.s && Names(f.shape.kids.Keys) == st.nm && Numbers(f.shape.kids.Keys) == st.num
    modifies f`shape, f.shape.kids.Keys`next, f.shape.kids.Keys`firstChild, f.shape.kids.Keys`lastChild,
             f.shape.kids.Keys`name, f.shape.kids.Keys`number
    ensures f.Valid() && old(f.shape.kids.Keys) <= f.shape.kids.Keys && fresh(f.shape.kids.Keys - old(f.shape.kids.Keys))
    ensures ok <==> !Bad(g, x)
    ensures b.s == f.shape && b.nm == Names(f.shape.kids.Keys) && b.num == Numbers(f.shape.kids.Keys) && b.num.Keys == b.s.kids.Keys
    ensures if ok then MergedTo(g, b.s, b.nm, i + 1, b.kept, b.names) && RoundOk(e, now, x, st, r, b) else b == st
  {
    hide *;
    Here(g, st.s, st.nm, i, st.kept, st.names);
    NameOf(x, f.shape.kids.Keys);
    BadIs(g, x);
    if x.kind == KjObject {
      RenameObject(f, x, g, i, st.kept, st.names);
      b, r := MergeOrAdd(f, e, x, now, g, i, st);
      ok := true;
    } else if x.name == "type" || x.name == "value" || x.name == "object" {
      StepSkip(g, st.s, st.nm, i, st.kept, st.names);
      b, r := st.(kept := st.kept + [x]), Passed;
      PassedIs(e, now, x, st, b);
      ok := true;
    } else {
      ok, b, r := false, st, Passed;
    }
    AllNumbers(f.shape.kids.Keys);
  }

  /** The loop: it stops at the first bad member, and the log says what every round did. */
  method MergeLoop(f: Forest, e: Entity, now: int, ghost g: Goal) returns (ok: bool, ghost stages: seq<Stage>, ghost rounds: seq<Round>)
    requires f.Valid() && e == g.e && now == g.now && g.s == f.shape && g.nm == Names(f.shape.kids.Keys)
    requires g.num == Numbers(f.shape.kids.Keys) && MergedTo(g, g.s, g.nm, 0, [], [])
    modifies f`shape, f.shape.kids.Keys`next, f.shape.kids.Keys`firstChild, f.shape.kids.Keys`lastChild,
             f.shape.kids.Keys`name, f.shape.kids.Keys`number
    ensures g.e.mods in g.s.kids && |stages| == |rounds| + 1 && |rounds| <= |Mods(g)|
    ensures f.Valid() && stages[|rounds|].s == f.shape
    ensures stages[|rounds|].nm == Names(f.shape.kids.Keys) && stages[|rounds|].num == Numbers(f.shape.kids.Keys)
    ensures forall k :: 0 <= k < |rounds| ==> !Bad(g, Mods(g)[k])
    ensures if ok then |rounds| == |Mods(g)| else |rounds| < |Mods(g)| && Bad(g, Mods(g)[|rounds|])
    ensures Log(g, stages, rounds)
  {
    hide *;
    AttrsNamed(g, f.shape, Names(f.shape.kids.Keys), 0, [], []);
    f.Start(e.mods);
    FirstMod(g, f.shape, Names(f.shape.kids.Keys));
    var x := e.mods.firstChild;
    ghost var st := Stage(g.s, g.nm, g.num, [], []);
    stages, rounds := [st], [];
    LogStart(g);
    VisitedStart(g, st);
    NextModIs(g, 0);
    while x != null
      invariant f.Valid() && Visited(g, stages, rounds, st)
      invariant g.e.mods in g.s.kids && x == NextMod(g, |rounds|)
      invariant st.s == f.shape && st.nm == Names(f.shape.kids.Keys) && st.num == Numbers(f.shape.kids.Keys)
      invariant old(f.shape.kids.Keys) <= f.shape.kids.Keys && fresh(f.shape.kids.Keys - old(f.shape.kids.Keys))
      decreases |Mods(g)| - |rounds|
    {
      VisitedLast(g, stages, rounds, st);
      NextModIs(g, |rounds|);
      NextModIs(g, |rounds| + 1);
      Here(g, st.s, st.nm, |rounds|, st.kept, st.names);
      f.Follow(e.mods, |st.kept|);
      var next := x.next;
      var fine;
      fine, stages, rounds, st := VisitAndLog(f, e, x, now, g, stages, rounds, st);
      if !fine {
        VisitedLast(g, stages, rounds, st);
        return false, stages, rounds;
      }
      x := next;
    }
    VisitedLast(g, stages, rounds, st);
    NextModIs(g, |rounds|);
    ok := true;
  }

  method VisitAndLog(f: Forest, e: Entity, x: KjNode, now: int, ghost g: Goal, ghost stages: seq<Stage>, ghost rounds: seq<Round>, ghost st: Stage)
      returns (fine: bool, ghost stages': seq<Stage>, ghost rounds': seq<Round>, ghost st': Stage)
    requires f.Valid() && e == g.e && now == g.now && Visited(g, stages, rounds, st) && |rounds| < |Mods(g)| && x == Mods(g)[|rounds|]
    requires st.s == f.shape && st.nm == Names(f.shape.kids.Keys) && st.num == Numbers(f.shape.kids.Keys)
    modifies f`shape, f.shape.kids.Keys`next, f.shape.kids.Keys`firstChild, f.shape.kids.Keys`lastChild,
             f.shape.kids.Keys`name, f.shape.kids.Keys`number
    ensures f.Valid() && old(f.shape.kids.Keys) <= f.shape.kids.Keys && fresh(f.shape.kids.Keys - old(f.shape.kids.Keys))
    ensures st'.s == f.shape && st'.nm == Names(f.shape.kids.Keys) && st'.num == Numbers(f.shape.kids.Keys)
    ensures fine <==> !Bad(g, x)
    ensures |rounds'| == if fine then |rounds| + 1 else |rounds|
    ensures Visited(g, stages', rounds', st')
  {
    hide *;
    VisitedLast(g, stages, rounds, st);
    ghost var b, r;
    fine, b, r := VisitMember(f, e, x, now, g, |rounds|, st);
    stages', rounds', st' := stages, rounds, st;
    if fine {
      VisitedNext(g, stages, rounds, st, r, b);
      stages', rounds', st' := stages + [b], rounds + [r], b;
    }
  }

  /** The member of the request to be visited next. */
  ghost function NextMod(g: Goal, i: nat): KjNode?
    requires g.e.mods in g.s.kids
  {
    if i < |Mods(g)| then Mods(g)[i] else null
  }

  lemma NextModIs(g: Goal, i: nat)
    requires g.e.mods in g.s.kids
    ensures NextMod(g, i) == if i < |Mods(g)| then Mods(g)[i] else null
  {
  }

  /** The log so far, its last stage, and that no bad member has been met. */
  ghost predicate Visited(g: Goal, stages: seq<Stage>, rounds: seq<Round>, st: Stage) {
    && g.e.mods in g.s.kids && Log(g, stages, rounds) && |stages| == |rounds| + 1 && st == stages[|rounds|]
    && |rounds| <= |Mods(g)| && forall k :: 0 <= k < |rounds| ==> !Bad(g, Mods(g)[k])
  }

  lemma VisitedStart(g: Goal, st: Stage)
    requires g.e.mods in g.s.kids && Log(g, [st], [])
    ensures Visited(g, [st], [], st)
  {
    hide Log;
  }

  lemma VisitedLast(g: Goal, stages: seq<Stage>, rounds: seq<Round>, st: Stage)
    requires Visited(g, stages, rounds, st)
    ensures g.e.mods in g.s.kids && Log(g, stages, rounds) && |stages| == |rounds| + 1 && st == stages[|rounds|]
    ensures |rounds| <= |Mods(g)| && forall k :: 0 <= k < |rounds| ==> !Bad(g, Mods(g)[k])
    ensures MergedTo(g, st.s, st.nm, |rounds|, st.kept, st.names)
  {
    LogLast(g, stages, rounds);
    hide Log, Bad, MergedTo;
  }

  lemma VisitedNext(g: Goal, stages: seq<Stage>, rounds: seq<Round>, st: Stage, r: Round, b: Stage)
    requires Visited(g, stages, rounds, st) && |rounds| < |Mods(g)| && !Bad(g, Mods(g)[|rounds|])
    requires MergedTo(g, b.s, b.nm, |rounds| + 1, b.kept, b.names) && b.num.Keys == b.s.kids.Keys
    requires RoundOk(g.e, g.now, Mods(g)[|rounds|], st, r, b)
    ensures Visited(g, stages + [b], rounds + [r], b)
  {
    LogSnoc(g, stages, rounds, r, b);
    hide Log, Bad, MergedTo, RoundOk;
  }

  lemma PassedIs(e: Entity, now: int, x: KjNode, a: Stage, b: Stage)
    requires x.kind != KjObject && b.s == a.s && b.nm == a.nm && b.num == a.num
    ensures RoundOk(e, now, x, a, Passed, b)
  {
  }

  lemma BadIs(g: Goal, n: KjNode)
    requires n in g.nm
    ensures Bad(g, n) <==> n.kind != KjObject && g.nm[n] !in ["type", "value", "object"]
  {
  }

  lemma FirstMod(g: Goal, s: Shape, nm: NameMap)
    requires MergedTo(g, s, nm, 0, [], []) && g.e.mods in s.kids
    ensures g.e.mods in g.s.kids && s.kids[g.e.mods] == Mods(g)
  {
    hide NewOnes, EntityOk, AttrOk, LiveKids, DotForms, SameNames;
    assert [] + Mods(g)[0..] == Mods(g);
  }
}
