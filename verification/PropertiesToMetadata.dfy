/** kjAttributePropertiesToMetadataVector as a whole. */
module PropertiesToMetadata {
  import opened Sequences
  import opened Kjson
  import opened AttributeMetadata
  import opened MetadataLoop

  /** The last children called "md" and "mdNames". */
  method FindMetadata(f: Forest, attr: KjNode) returns (md: KjNode?, mdNames: KjNode?)
    requires f.Valid() && Live(f.shape, attr)
    ensures md != null ==> md in f.shape.kids[attr] && md.name == "md"
    ensures md == null ==> forall k :: k in f.shape.kids[attr] ==> k.name != "md"
    ensures mdNames != null ==> mdNames in f.shape.kids[attr] && mdNames.name == "mdNames"
    ensures mdNames == null ==> forall k :: k in f.shape.kids[attr] ==> k.name != "mdNames"
  {
    hide *;
    f.Start(attr);
    ghost var ks := f.shape.kids[attr];
    md, mdNames := null, null;
    var prop := attr.firstChild;
    ghost var i := 0;
    while prop != null
      invariant i <= |ks| && prop == if i < |ks| then ks[i] else null
      invariant md != null ==> md in ks && md.name == "md"
      invariant md == null ==> forall k :: 0 <= k < i ==> ks[k].name != "md"
      invariant mdNames != null ==> mdNames in ks && mdNames.name == "mdNames"
      invariant mdNames == null ==> forall k :: 0 <= k < i ==> ks[k].name != "mdNames"
      decreases |ks| - i
    {
      f.Follow(attr, i);
      if prop.name == "md" {
        md := prop;
      } else if prop.name == "mdNames" {
        mdNames := prop;
      }
      prop := prop.next;
      i := i + 1;
    }
  }

  /** The names left right under an attribute. */
  predicate TopName(name: string) {
    name in ["type", "creDate", "modDate", "value", "md", "mdNames"]
  }

  /** What the function does to the tree: nothing is lost or duplicated, and order is kept. */
  ghost predicate Moved(s: Shape, names: NameMap, attr: KjNode, t: Shape, md: KjNode?, mdNames: KjNode, added: seq<KjNode>)
    requires attr in s.kids && (forall k :: k in s.kids[attr] ==> k in names)
  {
    var orig := s.kids[attr];
    && s.kids.Keys <= t.kids.Keys && t.stale == s.stale && attr !in t.parent
    && t.kids[attr] == Staying(orig, names) + (if mdNames in s.kids then [] else [mdNames])
                                            + (if md == null || md in s.kids then [] else [md])
    && mdNames in t.kids && t.kids[mdNames] == KidsBefore(s, mdNames) + added && (forall n :: n in added ==> n !in s.kids)
    && (md == null ==> Moving(orig, names) == [])
    && (md != null ==> md in t.kids && t.kids[md] == KidsBefore(s, md) + Moving(orig, names))
    && (forall n :: n in s.kids && n != attr && n != md && n != mdNames ==> t.kids[n] == s.kids[n])
    && (forall n :: n in t.kids && n !in s.kids && n != md && n != mdNames ==> t.kids[n] == [])
  }

  ghost function KidsBefore(s: Shape, n: KjNode): seq<KjNode> {
    if n in s.kids then s.kids[n] else []
  }

  /** Only an "object" is renamed, to "value": a child of the attribute, or the first one in a Relationship that was
      moved. */
  ghost predicate Renamed(s: Shape, names: NameMap, attr: KjNode, n: KjNode, name: string)
    requires attr in s.kids && n in names && (forall k :: k in s.kids[attr] ==> k in names)
  {
    || name == names[n]
    || (names[n] == "object" && name == "value" && (n in s.kids[attr] || ObjectOf(s, names, Moving(s.kids[attr], names), n)))
  }

  ghost predicate Ready(s: Shape, attr: KjNode) {
    Live(s, attr) && Free(s, attr) && forall k :: k in s.kids[attr] ==> Live(s, k)
  }

  lemma ReadyWithNew(s: Shape, attr: KjNode, n: KjNode)
    requires ShapeOk(s) && Ready(s, attr) && n !in s.kids
    ensures var t := Added(Created(s, n), attr, n);
      && attr in s.kids && ShapeOk(t) && Ready(t, attr)
      && t.kids.Keys == s.kids.Keys + {n} && t.stale == s.stale
      && t.kids[attr] == s.kids[attr] + [n] && t.kids[n] == []
      && (forall k :: k in s.kids && k != attr ==> t.kids[k] == s.kids[k])
      && (forall k :: k in s.parent && k != n ==> k in t.parent && t.parent[k] == s.parent[k])
      && (forall k :: k in t.parent && k != n ==> k in s.parent)
  {
    CreatedOk(s, n);
    CreatedKeys(s, n);
    AddedOk(Created(s, n), attr, n);
    AddedKeys(Created(s, n), attr, n);
    AttrStaysFree(s, attr, n);
    StaleKnown(s);
    hide ShapeOk, Apart, AwayFrom, Distinct;
    assert attr != n;
  }

  /** A node mdNames joins the attribute, and stays. */
  lemma WithMdNames(s: Shape, names: NameMap, attr: KjNode, md: KjNode?, n: KjNode)
    requires ShapeOk(s) && Ready(s, attr) && names.Keys == s.kids.Keys && n !in s.kids
    requires md != null ==> attr in s.kids && md in s.kids[attr] && md in names && names[md] == "md"
    ensures attr in s.kids && BeginOk(Begin(Added(Created(s, n), attr, n), attr, md, n, names[n := "mdNames"]))
  {
    ReadyWithNew(s, attr, n);
    var t, nm := Added(Created(s, n), attr, n), names[n := "mdNames"];
    hide ShapeOk, Ready, Added, Created;
    assert t.kids[attr][|s.kids[attr]|] == n;
    assert md != null ==> md != n && md in t.kids[attr];
    BeginFrom(Begin(Added(Created(s, n), attr, n), attr, md, n, names[n := "mdNames"]));
  }

  lemma BeginFrom(g: Begin)
    requires ShapeOk(g.shape) && Ready(g.shape, g.attr) && g.names.Keys == g.shape.kids.Keys
    requires g.attr in g.shape.kids && g.mdNames in g.shape.kids[g.attr] && g.mdNames in g.names && g.names[g.mdNames] == "mdNames"
    requires g.md != null ==> g.md in g.shape.kids[g.attr] && g.md in g.names && g.names[g.md] == "md"
    ensures BeginOk(g)
  {
    hide ShapeOk;
  }

  lemma {:induction false} SameNames(ns: seq<KjNode>, names: NameMap, names': NameMap)
    requires forall k :: k in ns ==> k in names && k in names' && names[k] == names'[k]
    ensures Staying(ns, names) == Staying(ns, names') && Moving(ns, names) == Moving(ns, names')
    decreases |ns|
  {
    if ns != [] {
      var u, n := ns[..|ns| - 1], ns[|ns| - 1];
      SameNames(u, names, names');
    }
  }

  // ---- from the loop to the whole function ----

  lemma AllSeen(g: Begin)
    requires Named(g)
    ensures Stay(g, |Base(g)|) == Staying(g.shape.kids[g.attr], g.names)
    ensures Move(g, |Base(g)|) == Moving(g.shape.kids[g.attr], g.names)
  {
    assert Base(g)[..|Base(g)|] == Base(g);
  }

  /** Only special names are left on top. */
  lemma TopNames(g: Begin, t: Shape, md: KjNode?, added: seq<KjNode>, nm: NameMap)
    requires BeginOk(g) && Named(g) && Progress(g, t, md, |Base(g)|, added) && NamesOk(g, nm, |Base(g)|)
    requires md != null ==> md in nm && nm[md] == "md"
    ensures forall k :: k in t.kids[g.attr] ==> k in nm && TopName(nm[k])
  {
    LoopKids(g, t, md, added);
    forall k | k in t.kids[g.attr] ensures k in nm && TopName(nm[k]) {
      hide *;
      if k in Stay(g, |Base(g)|) {
        StayTop(g, nm, k);
      } else {
        FinalTop();
      }
    }
  }

  lemma LoopKids(g: Begin, t: Shape, md: KjNode?, added: seq<KjNode>)
    requires Named(g) && Progress(g, t, md, |Base(g)|, added)
    ensures g.attr in t.kids && forall k :: k in t.kids[g.attr] ==> k in Stay(g, |Base(g)|) || k == md
  {
    hide Stay, Move;
    assert Base(g)[|Base(g)|..] == [];
  }

  lemma StayTop(g: Begin, nm: NameMap, k: KjNode)
    requires Named(g) && NamesOk(g, nm, |Base(g)|) && k in Stay(g, |Base(g)|)
    ensures k in nm && TopName(nm[k])
  {
    AllSeen(g);
    StayingOrMoving(g.shape.kids[g.attr], g.names);
    FinalTop();
    hide Stay, Move, Staying, Moving, Special, TopName, FinalName, NameKept;
    assert k in Base(g) && Special(g.names[k]);
    var i :| 0 <= i < |Base(g)| && Base(g)[i] == k;
    assert nm[Base(g)[i]] == FinalName(g.names[k]);
  }

  lemma FinalTop()
    ensures forall x :: Special(x) ==> TopName(FinalName(x))
    ensures TopName("md")
  {
  }

  lemma MovedWithOld(g: Begin, t: Shape, md: KjNode?, added: seq<KjNode>)
    requires BeginOk(g) && Named(g) && Progress(g, t, md, |Base(g)|, added)
    ensures Moved(g.shape, g.names, g.attr, t, md, g.mdNames, added)
  {
    AllSeen(g);
    BeginFacts(g);
    hide BeginOk, Stay, Move, Staying, Moving, ShapeOk, Distinct;
    assert Base(g)[|Base(g)|..] == [];
  }

  lemma MovedWithNew(s: Shape, names: NameMap, attr: KjNode, md0: KjNode?, n: KjNode, g: Begin, t: Shape, md: KjNode?, added: seq<KjNode>)
    requires ShapeOk(s) && Ready(s, attr) && names.Keys == s.kids.Keys && n !in s.kids && attr in s.kids
    requires g == Begin(Added(Created(s, n), attr, n), attr, md0, n, names[n := "mdNames"])
    requires BeginOk(g) && Named(g) && Progress(g, t, md, |Base(g)|, added)
    ensures forall k :: k in s.kids[attr] ==> k in names
    ensures Moving(s.kids[attr], names) == Move(g, |Base(g)|)
    ensures Moved(s, names, attr, t, md, n, added)
  {
    var orig, nm := s.kids[attr], g.names;
    AllSeen(g);
    BeginFacts(g);
    ReadyWithNew(s, attr, n);
    KidsIn(s, attr);
    SameNames(orig, names, nm);
    Snoc(orig, n, nm);
    MdNamesSpecial();
    assert Moving(orig, names) == Move(g, |Base(g)|) && Stay(g, |Base(g)|) == Staying(orig, names) + [n];
    hide *;
    MovedFrom(s, names, attr, n, g, t, md, added);
  }

  lemma MdNamesSpecial()
    ensures Special("mdNames")
  {
  }

  lemma MovedFrom(s: Shape, names: NameMap, attr: KjNode, n: KjNode, g: Begin, t: Shape, md: KjNode?, added: seq<KjNode>)
    requires attr in s.kids && (forall k :: k in s.kids[attr] ==> k in names) && n !in s.kids && attr == g.attr && g.mdNames == n
    requires g.shape.kids.Keys == s.kids.Keys + {n} && g.shape.stale == s.stale && g.shape.kids[n] == []
    requires forall k :: k in s.kids && k != attr ==> g.shape.kids[k] == s.kids[k]
    requires Named(g) && Progress(g, t, md, |Base(g)|, added) && (g.md != null ==> g.md in s.kids && g.md != attr)
    requires Moving(s.kids[attr], names) == Move(g, |Base(g)|)
    requires Stay(g, |Base(g)|) == Staying(s.kids[attr], names) + [n]
    ensures Moved(s, names, attr, t, md, n, added)
  {
    hide Stay, Move, Staying, Moving, Named;
    assert Base(g)[|Base(g)|..] == [];
  }

  /** What hangs below the nodes that are moved is not touched by a new mdNames. */
  lemma SameBelow(s: Shape, names: NameMap, attr: KjNode, n: KjNode, t: Shape, names': NameMap, moved: seq<KjNode>)
    requires ShapeOk(s) && names.Keys == s.kids.Keys && n !in s.kids && attr in s.kids && attr !in moved && n !in moved
    requires t.kids.Keys == s.kids.Keys + {n} && names' == names[n := "mdNames"]
    requires forall k :: k in s.kids && k != attr ==> t.kids[k] == s.kids[k]
    ensures forall p :: p in moved ==> (p in s.kids <==> p in t.kids)
    ensures forall p :: p in moved && p in s.kids ==> RelationshipObject(s.kids[p], names) == RelationshipObject(t.kids[p], names')
  {
    hide RelationshipObject, Distinct;
    forall p | p in moved && p in s.kids ensures RelationshipObject(s.kids[p], names) == RelationshipObject(t.kids[p], names') {
      KidsIn(s, p);
      hide ShapeOk;
      RelationshipSame(s.kids[p], names, names');
    }
  }

  lemma MovedApart(s: Shape, names: NameMap, attr: KjNode, n: KjNode)
    requires ShapeOk(s) && Ready(s, attr) && names.Keys == s.kids.Keys && n !in s.kids && attr in s.kids
    requires forall k :: k in s.kids[attr] ==> k in names
    ensures attr !in Moving(s.kids[attr], names) && n !in Moving(s.kids[attr], names)
  {
    KidsIn(s, attr);
    StayingOrMoving(s.kids[attr], names);
    hide ShapeOk, Distinct, Moving, Special;
  }

  lemma RenamedWithNew(s: Shape, names: NameMap, attr: KjNode, md0: KjNode?, n: KjNode, g: Begin, nm: NameMap)
    requires ShapeOk(s) && Ready(s, attr) && names.Keys == s.kids.Keys && n !in s.kids && attr in s.kids
    requires g == Begin(Added(Created(s, n), attr, n), attr, md0, n, names[n := "mdNames"])
    requires Named(g) && NamesOk(g, nm, |Base(g)|)
    requires (forall k :: k in s.kids[attr] ==> k in names) && Moving(s.kids[attr], names) == Move(g, |Base(g)|)
    ensures forall x :: x in names ==> x in nm && Renamed(s, names, attr, x, nm[x])
    ensures forall p :: p in Moving(s.kids[attr], names) ==> ObjectDone(s, names, p, nm)
  {
    hide *;
    ReadyWithNew(s, attr, n);
    MovedApart(s, names, attr, n);
    var moved := Moving(s.kids[attr], names);
    SameBelow(s, names, attr, n, g.shape, g.names, moved);
    NamesOkAll(g, nm);
    forall x | x in names ensures x in nm && Renamed(s, names, attr, x, nm[x]) {
      assert x in g.names;
      RenamedSame(s, names, attr, n, g, nm, x);
    }
    forall p | p in moved ensures ObjectDone(s, names, p, nm) {
      assert ObjectDone(g.shape, g.names, p, nm);
      ObjectDoneSame(s, names, g.shape, g.names, p, nm);
    }
  }

  lemma NamesOkAll(g: Begin, nm: NameMap)
    requires Named(g) && NamesOk(g, nm, |Base(g)|)
    ensures forall x :: x in g.names ==> x in nm && NameKept(g, x, nm[x], |Base(g)|)
    ensures forall p :: p in Move(g, |Base(g)|) ==> ObjectDone(g.shape, g.names, p, nm)
  {
    hide Move, NameKept, ObjectDone, FinalName;
  }

  lemma ObjectDoneSame(s: Shape, names: NameMap, t: Shape, names': NameMap, p: KjNode, nm: NameMap)
    requires ObjectDone(t, names', p, nm) && (p in s.kids <==> p in t.kids)
    requires p in s.kids ==> RelationshipObject(s.kids[p], names) == RelationshipObject(t.kids[p], names')
    ensures ObjectDone(s, names, p, nm)
  {
    hide RelationshipObject;
  }

  lemma RenamedSame(s: Shape, names: NameMap, attr: KjNode, n: KjNode, g: Begin, nm: NameMap, x: KjNode)
    requires attr in s.kids && (forall k :: k in s.kids[attr] ==> k in names) && names.Keys == s.kids.Keys && n !in s.kids
    requires Named(g) && g.attr == attr && g.shape.kids.Keys == s.kids.Keys + {n} && g.shape.kids[attr] == s.kids[attr] + [n]
    requires g.names == names[n := "mdNames"] && Moving(s.kids[attr], names) == Move(g, |Base(g)|)
    requires forall k :: k in g.shape.parent && k != n ==> k in s.parent && g.shape.parent[k] == s.parent[k]
    requires forall p :: p in Moving(s.kids[attr], names) ==> (p in s.kids <==> p in g.shape.kids)
    requires forall p :: p in Moving(s.kids[attr], names) && p in s.kids ==>
      RelationshipObject(s.kids[p], names) == RelationshipObject(g.shape.kids[p], g.names)
    requires x in names && x in nm && NameKept(g, x, nm[x], |Base(g)|)
    ensures Renamed(s, names, attr, x, nm[x])
  {
    hide Moving, Move, RelationshipObject;
    assert x != n && g.names[x] == names[x];
  }

  lemma RenamedWithOld(g: Begin, nm: NameMap)
    requires Named(g) && NamesOk(g, nm, |Base(g)|)
    ensures forall x :: x in g.names ==> x in nm && Renamed(g.shape, g.names, g.attr, x, nm[x])
    ensures forall p :: p in Moving(g.shape.kids[g.attr], g.names) ==> ObjectDone(g.shape, g.names, p, nm)
  {
    AllSeen(g);
    hide Stay, Move, Moving, FinalName, ObjectDone, ObjectOf;
    forall x | x in g.names ensures x in nm && Renamed(g.shape, g.names, g.attr, x, nm[x]) {
      assert NameKept(g, x, nm[x], |Base(g)|);
    }
  }

  lemma KidsNamed(s: Shape, names: NameMap, attr: KjNode)
    requires ShapeOk(s) && Ready(s, attr) && names.Keys == s.kids.Keys
    ensures attr in s.kids && forall k :: k in s.kids[attr] ==> k in names && k in s.kids
  {
    KidsIn(s, attr);
    hide ShapeOk;
  }

  /** What the caller gets. */
  ghost predicate Done(s: Shape, names: NameMap, attr: KjNode, t: Shape, nm: NameMap, md: KjNode?, mdNames: KjNode, added: seq<KjNode>) {
    && attr in s.kids && (forall k :: k in s.kids[attr] ==> k in names)
    && Moved(s, names, attr, t, md, mdNames, added)
    && (forall x :: x in names ==> x in nm && Renamed(s, names, attr, x, nm[x]))
    && (forall p :: p in Moving(s.kids[attr], names) ==> ObjectDone(s, names, p, nm))
    && (forall k :: k in t.kids[attr] ==> k in nm && TopName(nm[k]))
    && (mdNames in s.kids ==> mdNames in s.kids[attr])
    && (md != null && md in s.kids ==> md in s.kids[attr])
    && (md != null ==> md in nm && nm[md] == "md") && mdNames in nm && nm[mdNames] == "mdNames"
  }

  /** The attribute before the loop: as it was, or with a new mdNames. */
  ghost predicate Prepared(s: Shape, names: NameMap, g: Begin) {
    && ShapeOk(s) && Ready(s, g.attr) && names.Keys == s.kids.Keys && g.attr in s.kids && BeginOk(g)
    && if g.mdNames in s.kids then g.shape == s && g.names == names
       else g.shape == Added(Created(s, g.mdNames), g.attr, g.mdNames) && g.names == names[g.mdNames := "mdNames"]
  }

  /** An attribute without mdNames gets one. */
  method AddMdNames(f: Forest, attr: KjNode, md: KjNode?) returns (mdNames: KjNode, ghost g: Begin)
    requires f.Valid() && Ready(f.shape, attr) && attr in f.shape.kids
    requires md != null ==> md in f.shape.kids[attr] && md in f.shape.kids && md.name == "md"
    modifies f`shape, f.shape.kids.Keys`next, attr`firstChild, attr`lastChild
    ensures f.Valid() && g == Begin(f.shape, attr, md, mdNames, Names(f.shape.kids.Keys))
    ensures Prepared(old(f.shape), old(Names(f.shape.kids.Keys)), g)
    ensures old(f.shape.kids.Keys) <= f.shape.kids.Keys && fresh(f.shape.kids.Keys - old(f.shape.kids.Keys))
  {
    hide *;
    f.ValidFacts();
    ghost var s, names := f.shape, Names(f.shape.kids.Keys);
    AllNames(s.kids.Keys);
    ReadyLive(s, attr);
    mdNames := AddNew(f, attr, "mdNames", KjArray, "", 0);
    WithMdNames(s, names, attr, md, mdNames);
    ReadyWithNew(s, attr, mdNames);
    g := Begin(f.shape, attr, md, mdNames, Names(f.shape.kids.Keys));
    PreparedIs(s, names, g);
  }

  method Prepare(f: Forest, attr: KjNode) returns (md: KjNode?, mdNames: KjNode, ghost g: Begin)
    requires f.Valid() && Ready(f.shape, attr)
    modifies f`shape, f.shape.kids.Keys`next, f.shape.kids.Keys`firstChild, f.shape.kids.Keys`lastChild
    ensures f.Valid() && g == Begin(f.shape, attr, md, mdNames, Names(f.shape.kids.Keys))
    ensures Prepared(old(f.shape), old(Names(f.shape.kids.Keys)), g)
    ensures old(f.shape.kids.Keys) <= f.shape.kids.Keys && fresh(f.shape.kids.Keys - old(f.shape.kids.Keys))
  {
    hide *;
    f.ValidFacts();
    ghost var s, names := f.shape, Names(f.shape.kids.Keys);
    AllNames(s.kids.Keys);
    KidsNamed(s, names, attr);
    ReadyLive(s, attr);
    var found;
    md, found := FindMetadata(f, attr);
    if found == null {
      mdNames, g := AddMdNames(f, attr, md);
    } else {
      mdNames := found;
      g := Begin(s, attr, md, mdNames, names);
      BeginFrom(g);
      PreparedIs(s, names, g);
    }
  }

  lemma PreparedIs(s: Shape, names: NameMap, g: Begin)
    requires ShapeOk(s) && Ready(s, g.attr) && names.Keys == s.kids.Keys && g.attr in s.kids && BeginOk(g)
    requires if g.mdNames in s.kids then g.shape == s && g.names == names
             else g.shape == Added(Created(s, g.mdNames), g.attr, g.mdNames) && g.names == names[g.mdNames := "mdNames"]
    ensures Prepared(s, names, g)
  {
  }

  lemma DoneFrom(s: Shape, names: NameMap, g: Begin, t: Shape, nm: NameMap, md: KjNode?, added: seq<KjNode>)
    requires Prepared(s, names, g) && Named(g) && Progress(g, t, md, |Base(g)|, added) && NamesOk(g, nm, |Base(g)|)
    requires md != null ==> md in nm && nm[md] == "md"
    ensures Done(s, names, g.attr, t, nm, md, g.mdNames, added)
    ensures Moving(s.kids[g.attr], names) == Move(g, |Base(g)|)
    ensures forall k :: k in s.kids[g.attr] ==> k in names && k in g.names && g.names[k] == names[k]
  {
    KidsNamed(s, names, g.attr);
    TopNames(g, t, md, added, nm);
    MdOld(g, t, md, added);
    MdNamesNamed(g, nm);
    if g.mdNames in s.kids {
      AllSeen(g);
      MovedWithOld(g, t, md, added);
      RenamedWithOld(g, nm);
      BeginKids(g);
      hide *;
      DoneIs(s, names, g.attr, t, nm, md, g.mdNames, added);
    } else {
      ReadyWithNew(s, g.attr, g.mdNames);
      MovedWithNew(s, names, g.attr, g.md, g.mdNames, g, t, md, added);
      RenamedWithNew(s, names, g.attr, g.md, g.mdNames, g, nm);
      hide *;
      DoneIs(s, names, g.attr, t, nm, md, g.mdNames, added);
    }
  }

  lemma MdNamesNamed(g: Begin, nm: NameMap)
    requires BeginOk(g) && Named(g) && NamesOk(g, nm, |Base(g)|)
    ensures g.mdNames in nm && nm[g.mdNames] == "mdNames"
  {
    hide ShapeOk, ObjectsDone, NameKept;
    var k :| 0 <= k < |Base(g)| && Base(g)[k] == g.mdNames;
    assert nm[Base(g)[k]] == FinalName(g.names[g.mdNames]);
  }

  lemma BeginKids(g: Begin)
    requires BeginOk(g)
    ensures g.attr in g.shape.kids && g.mdNames in g.shape.kids[g.attr]
  {
  }

  lemma MdOld(g: Begin, t: Shape, md: KjNode?, added: seq<KjNode>)
    requires BeginOk(g) && Named(g) && Progress(g, t, md, |Base(g)|, added)
    ensures md != null && md in g.shape.kids ==> md in g.shape.kids[g.attr]
  {
    hide Stay, Move, ShapeOk;
  }

  lemma DoneIs(s: Shape, names: NameMap, attr: KjNode, t: Shape, nm: NameMap, md: KjNode?, mdNames: KjNode, added: seq<KjNode>)
    requires attr in s.kids && (forall k :: k in s.kids[attr] ==> k in names)
    requires Moved(s, names, attr, t, md, mdNames, added)
    requires forall x :: x in names ==> x in nm && Renamed(s, names, attr, x, nm[x])
    requires forall p :: p in Moving(s.kids[attr], names) ==> ObjectDone(s, names, p, nm)
    requires attr in t.kids && forall k :: k in t.kids[attr] ==> k in nm && TopName(nm[k])
    requires mdNames in s.kids ==> mdNames in s.kids[attr]
    requires md != null && md in s.kids ==> md in s.kids[attr]
    requires (md != null ==> md in nm && nm[md] == "md") && mdNames in nm && nm[mdNames] == "mdNames"
    ensures Done(s, names, attr, t, nm, md, mdNames, added)
  {
    hide Moved, Renamed, TopName, ObjectDone;
  }

  /** Where the members of the attribute are afterwards, and under which names. */
  ghost predicate Placed(ks: seq<KjNode>, names: NameMap, attr: KjNode, t: Shape, nm: NameMap, md: KjNode?, mdNames: KjNode) {
    && attr in t.kids && mdNames in t.kids
    && (forall c :: c in ks ==> c in names && PlacedOne(names, attr, t, nm, md, mdNames, c))
    && (md != null ==> md in t.kids[attr] && md in nm && nm[md] == "md")
    && mdNames in t.kids[attr] && mdNames in nm && nm[mdNames] == "mdNames"
  }

  /** A member with one of seven names stays a member, and any other one becomes a member of md that is listed in
      mdNames. */
  ghost predicate PlacedOne(names: NameMap, attr: KjNode, t: Shape, nm: NameMap, md: KjNode?, mdNames: KjNode, c: KjNode)
    requires attr in t.kids && mdNames in t.kids && c in names
  {
    && c in nm
    && if names[c] in ["type", "value", "object", "creDate", "modDate", "md", "mdNames"]
       then c in t.kids[attr] && nm[c] == if names[c] == "object" then "value" else names[c]
       else && md != null && md in t.kids && c in t.kids[md] && c !in t.kids[attr] && nm[c] == names[c]
            && exists l :: l in t.kids[mdNames] && l.text == names[c]
  }

  lemma {:induction false} SpecialStays(ns: seq<KjNode>, names: NameMap)
    requires forall n :: n in ns ==> n in names
    ensures forall n :: n in ns && Special(names[n]) ==> n in Staying(ns, names)
    decreases |ns|
  {
    if ns != [] {
      var u, n := ns[..|ns| - 1], ns[|ns| - 1];
      assert ns == u + [n];
      Snoc(u, n, names);
      hide *;
      SpecialStays(u, names);
    }
  }

  lemma TextAt(added: seq<KjNode>, moved: seq<KjNode>, names: NameMap, c: KjNode, before: seq<KjNode>)
    requires TextsOk(added, moved, names) && c in moved
    ensures c in names && exists l :: l in before + added && l.text == names[c]
  {
    var k :| 0 <= k < |moved| && moved[k] == c;
    assert (before + added)[|before| + k].text == names[c];
  }

  lemma PlacedStays(s: Shape, names: NameMap, attr: KjNode, t: Shape, nm: NameMap, md: KjNode?, mdNames: KjNode, added: seq<KjNode>, c: KjNode)
    requires Done(s, names, attr, t, nm, md, mdNames, added) && mdNames in t.kids && attr in t.kids
    requires c in s.kids[attr] && Special(names[c])
    ensures PlacedOne(names, attr, t, nm, md, mdNames, c)
  {
    SpecialStays(s.kids[attr], names);
    hide Staying, Moving, Special, ObjectOf, ObjectDone;
    assert c in t.kids[attr] && TopName(nm[c]) && Renamed(s, names, attr, c, nm[c]);
    hide Moved, Renamed;
    NotTopName();
    SpecialNames(names[c]);
  }

  lemma NotTopName()
    ensures !TopName("object")
  {
  }

  lemma SpecialNames(name: string)
    ensures Special(name) <==> name in ["type", "value", "object", "creDate", "modDate", "md", "mdNames"]
  {
  }

  lemma PlacedMoves(s: Shape, names: NameMap, attr: KjNode, t: Shape, nm: NameMap, md: KjNode?, mdNames: KjNode, added: seq<KjNode>, c: KjNode)
    requires ShapeOk(s) && Done(s, names, attr, t, nm, md, mdNames, added) && mdNames in t.kids && attr in t.kids
    requires c in s.kids[attr] && !Special(names[c])
    requires TextsOk(added, Moving(s.kids[attr], names), names)
    ensures PlacedOne(names, attr, t, nm, md, mdNames, c)
  {
    StayingOrMoving(s.kids[attr], names);
    KidsIn(s, attr);
    TextAt(added, Moving(s.kids[attr], names), names, c, KidsBefore(s, mdNames));
    SpecialNames(names[c]);
    SpecialNames("object");
    hide ShapeOk, Distinct, Staying, Moving, Special, ObjectOf, ObjectDone, TextsOk, TopName;
    assert Renamed(s, names, attr, c, nm[c]);
  }

  lemma AllPlaced(s: Shape, names: NameMap, attr: KjNode, t: Shape, nm: NameMap, md: KjNode?, mdNames: KjNode, added: seq<KjNode>)
    requires ShapeOk(s) && Done(s, names, attr, t, nm, md, mdNames, added) && attr in s.kids
    requires (forall k :: k in s.kids[attr] ==> k in names) && TextsOk(added, Moving(s.kids[attr], names), names)
    ensures Placed(s.kids[attr], names, attr, t, nm, md, mdNames)
  {
    ListsPlaced(s, names, attr, t, nm, md, mdNames, added);
    hide Done, Special, TextsOk, Moving, PlacedOne, ShapeOk;
    forall c | c in s.kids[attr] ensures PlacedOne(names, attr, t, nm, md, mdNames, c) {
      if Special(names[c]) {
        PlacedStays(s, names, attr, t, nm, md, mdNames, added, c);
      } else {
        PlacedMoves(s, names, attr, t, nm, md, mdNames, added, c);
      }
    }
  }

  lemma ListsPlaced(s: Shape, names: NameMap, attr: KjNode, t: Shape, nm: NameMap, md: KjNode?, mdNames: KjNode, added: seq<KjNode>)
    requires ShapeOk(s) && Done(s, names, attr, t, nm, md, mdNames, added)
    ensures attr in t.kids && mdNames in t.kids && mdNames in t.kids[attr] && mdNames in nm && nm[mdNames] == "mdNames"
    ensures md != null ==> md in t.kids[attr] && md in nm && nm[md] == "md"
  {
    SpecialStays(s.kids[attr], names);
    KidsIn(s, attr);
    SpecialNames("md");
    SpecialNames("mdNames");
    hide ShapeOk, Distinct, Staying, Moving, Special, ObjectOf, ObjectDone, TopName;
    if mdNames in s.kids {
      assert Renamed(s, names, attr, mdNames, nm[mdNames]);
    }
    if md != null && md in s.kids {
      assert Renamed(s, names, attr, md, nm[md]);
    }
  }

  /** The function: every property that is not special is moved under md, and its name under mdNames, in the order
      they had; md is only created when it is needed. */
  method ToMetadata(f: Forest, attr: KjNode) returns (ghost md: KjNode?, ghost mdNames: KjNode, ghost added: seq<KjNode>)
    requires f.Valid() && Ready(f.shape, attr)
    modifies f`shape, f.shape.kids.Keys`next, f.shape.kids.Keys`firstChild, f.shape.kids.Keys`lastChild, f.shape.kids.Keys`name
    ensures f.Valid()
    ensures Done(old(f.shape), old(Names(f.shape.kids.Keys)), attr, f.shape, Names(f.shape.kids.Keys), md, mdNames, added)
    ensures TextsOk(added, Moving(old(f.shape).kids[attr], old(Names(f.shape.kids.Keys))), old(Names(f.shape.kids.Keys)))
    ensures attr in old(f.shape).kids
    ensures Placed(old(f.shape).kids[attr], old(Names(f.shape.kids.Keys)), attr, f.shape, Names(f.shape.kids.Keys), md, mdNames)
    ensures old(f.shape.kids.Keys) <= f.shape.kids.Keys && fresh(f.shape.kids.Keys - old(f.shape.kids.Keys))
  {
    hide *;
    f.ValidFacts();
    ghost var s, names := f.shape, Names(f.shape.kids.Keys);
    var mdP, mdNamesP; ghost var g;
    mdP, mdNamesP, g := Prepare(f, attr);
    PreparedBegin(s, names, g);
    mdNames := mdNamesP;
    md, added := MoveLoop(f, attr, mdP, mdNamesP, g);
    AllNames(f.shape.kids.Keys);
    DoneFrom(s, names, g, f.shape, Names(f.shape.kids.Keys), md, added);
    ghost var moved := Moving(s.kids[attr], names);
    StayingOrMoving(s.kids[attr], names);
    forall k | k in moved ensures k in names && k in g.names && g.names[k] == names[k] {
      assert k in s.kids[attr];
    }
    TextsBack(added, moved, g.names, names);
    AllPlaced(s, names, attr, f.shape, Names(f.shape.kids.Keys), md, mdNames, added);
  }

  lemma PreparedBegin(s: Shape, names: NameMap, g: Begin)
    requires Prepared(s, names, g)
    ensures BeginOk(g) && g.attr in s.kids
  {
  }

  lemma TextsBack(added: seq<KjNode>, moved: seq<KjNode>, names: NameMap, names': NameMap)
    requires TextsOk(added, moved, names) && forall k :: k in moved ==> k in names' && k in names && names[k] == names'[k]
    ensures TextsOk(added, moved, names')
  {
  }

  lemma ReadyLive(s: Shape, attr: KjNode)
    requires Ready(s, attr)
    ensures Live(s, attr)
  {
  }
}
