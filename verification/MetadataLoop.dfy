/** The loop of kjAttributePropertiesToMetadataVector, which removes from and appends to the list it walks. */
module MetadataLoop {
  import opened Sequences
  import opened Kjson
  import opened AttributeMetadata

  /** The tree as the loop finds it: the attribute, its md (if any) and its mdNames. */
  datatype Begin = Begin(shape: Shape, attr: KjNode, md: KjNode?, mdNames: KjNode, names: NameMap)

  ghost predicate BeginOk(g: Begin) {
    && ShapeOk(g.shape) && Live(g.shape, g.attr) && Free(g.shape, g.attr)
    && g.names.Keys == g.shape.kids.Keys
    && (forall k :: k in g.shape.kids[g.attr] ==> Live(g.shape, k))
    && g.mdNames in g.shape.kids[g.attr] && g.mdNames in g.names && g.names[g.mdNames] == "mdNames"
    && (g.md != null ==> g.md in g.shape.kids[g.attr] && g.md in g.names && g.names[g.md] == "md")
  }

  ghost function Base(g: Begin): seq<KjNode>
    requires g.attr in g.shape.kids
  {
    g.shape.kids[g.attr]
  }

  ghost predicate Named(g: Begin) {
    g.attr in g.shape.kids && forall n :: n in Base(g) ==> n in g.names
  }

  ghost function Stay(g: Begin, i: nat): seq<KjNode>
    requires Named(g) && i <= |Base(g)|
  {
    assert forall n :: n in Base(g)[..i] ==> n in Base(g);
    Staying(Base(g)[..i], g.names)
  }

  ghost function Move(g: Begin, i: nat): seq<KjNode>
    requires Named(g) && i <= |Base(g)|
  {
    assert forall n :: n in Base(g)[..i] ==> n in Base(g);
    Moving(Base(g)[..i], g.names)
  }

  /** After i nodes: what stays, what has not been looked at, and a new md at the end; md and mdNames have grown by
      what was moved; nothing else has changed. */
  ghost predicate Progress(g: Begin, s: Shape, md: KjNode?, i: nat, added: seq<KjNode>) {
    && Named(g) && i <= |Base(g)|
    && g.shape.kids.Keys <= s.kids.Keys && s.stale == g.shape.stale && g.attr !in s.parent
    && s.kids[g.attr] == Stay(g, i) + Base(g)[i..] + (if g.md == null && md != null then [md] else [])
    && (g.md != null ==> md == g.md)
    && (md == null ==> Move(g, i) == [])
    && (md != null ==> md in s.kids && md != g.attr && md != g.mdNames && s.kids[md] == MdBefore(g) + Move(g, i))
    && (g.md == null && md != null ==> md !in g.shape.kids)
    && g.mdNames in g.shape.kids && s.kids[g.mdNames] == g.shape.kids[g.mdNames] + added
    && |added| == |Move(g, i)| && (forall n :: n in added ==> n !in g.shape.kids)
    && (forall n :: n in g.shape.kids && n != g.attr && n != md && n != g.mdNames ==> s.kids[n] == g.shape.kids[n])
    && (forall n :: n in s.kids && n !in g.shape.kids && n != md ==> s.kids[n] == [])
  }

  ghost function MdBefore(g: Begin): seq<KjNode> {
    if g.md != null && g.md in g.shape.kids then g.shape.kids[g.md] else []
  }

  lemma BeginFacts(g: Begin)
    requires BeginOk(g)
    ensures Named(g)
    ensures forall n :: n in Base(g) ==> n != g.attr && n in g.shape.kids && n !in g.shape.stale && n in g.shape.parent && g.shape.parent[n] == g.attr
    ensures g.mdNames in g.shape.kids && g.mdNames != g.attr
    ensures g.md != null ==> g.md in g.shape.kids && g.md != g.attr && g.md != g.mdNames
    ensures Distinct(Base(g)) && g.attr !in g.shape.stale
  {
    KidsIn(g.shape, g.attr);
    hide ShapeOk;
  }

  lemma ProgressStart(g: Begin)
    requires BeginOk(g)
    ensures Progress(g, g.shape, g.md, 0, [])
  {
    BeginFacts(g);
    hide BeginOk;
    var b := Base(g);
    assert b[..0] == [] && b[0..] == b;
    assert Stay(g, 0) == [] && Move(g, 0) == [];
  }

  lemma StayNext(g: Begin, i: nat)
    requires Named(g) && i < |Base(g)|
    ensures Base(g)[i] in g.names
    ensures Stay(g, i + 1) == Stay(g, i) + if Special(g.names[Base(g)[i]]) then [Base(g)[i]] else []
    ensures Move(g, i + 1) == Move(g, i) + if Special(g.names[Base(g)[i]]) then [] else [Base(g)[i]]
  {
    var b := Base(g);
    assert b[..i + 1] == b[..i] + [b[i]];
    forall n | n in b[..i] + [b[i]] ensures n in g.names {
      assert n in b;
    }
    Snoc(b[..i], b[i], g.names);
  }

  /** Where the node to look at is, and what follows it. */
  lemma Position(g: Begin, s: Shape, md: KjNode?, i: nat, added: seq<KjNode>)
    requires Progress(g, s, md, i, added) && i < |Base(g)|
    ensures g.attr in s.kids
    ensures var ks, j, b := s.kids[g.attr], |Stay(g, i)|, Base(g);
      && j < |ks| && ks[j] == b[i]
      && (if j + 1 < |ks| then ks[j + 1] else null)
         == (if i + 1 < |b| then b[i + 1] else if g.md == null && md != null then md else null)
      && Dropped(ks, j) == Stay(g, i) + b[i + 1..] + (if g.md == null && md != null then [md] else [])
  {
    hide Stay, Move;
  }

  lemma ProgressStay(g: Begin, s: Shape, md: KjNode?, i: nat, added: seq<KjNode>)
    requires Progress(g, s, md, i, added) && i < |Base(g)|
    requires Base(g)[i] in g.names && Special(g.names[Base(g)[i]])
    ensures Progress(g, s, md, i + 1, added)
  {
    StayNext(g, i);
    hide Stay, Move, Special;
    var b := Base(g);
    assert b[i..] == [b[i]] + b[i + 1..];
    assert Stay(g, i) + b[i..] == Stay(g, i + 1) + b[i + 1..];
  }

  lemma ProgressNewMd(g: Begin, s: Shape, i: nat, added: seq<KjNode>, md: KjNode)
    requires BeginOk(g) && Progress(g, s, null, i, added) && md !in s.kids
    ensures g.attr in s.kids && Progress(g, Added(Created(s, md), g.attr, md), md, i, added)
  {
    BeginFacts(g);
    CreatedKeys(s, md);
    AddedKeys(Created(s, md), g.attr, md);
    AttrStaysFree(s, g.attr, md);
    ProgressAttr(g, s, i, added);
    hide *;
    ProgressWithMd(g, s, i, added, md, Added(Created(s, md), g.attr, md));
  }

  lemma ProgressAttr(g: Begin, s: Shape, i: nat, added: seq<KjNode>)
    requires Progress(g, s, null, i, added)
    ensures g.attr in s.kids && s.kids[g.attr] == Stay(g, i) + Base(g)[i..] && g.md == null && Move(g, i) == []
  {
    hide Stay, Move;
  }

  lemma ProgressWithMd(g: Begin, s: Shape, i: nat, added: seq<KjNode>, md: KjNode, t: Shape)
    requires Named(g) && i <= |Base(g)| && Progress(g, s, null, i, added) && md !in s.kids && g.mdNames in s.kids && g.attr in s.kids && g.attr != g.mdNames
    requires t.kids.Keys == s.kids.Keys + {md} && t.stale == s.stale && g.attr !in t.parent
    requires t.kids[g.attr] == s.kids[g.attr] + [md] && t.kids[md] == []
    requires forall k :: k in s.kids && k != g.attr ==> t.kids[k] == s.kids[k]
    ensures Progress(g, t, md, i, added)
  {
    hide Stay, Move;
    assert g.md == null && MdBefore(g) + Move(g, i) == [];
    assert s.kids[g.attr] == Stay(g, i) + Base(g)[i..];
    assert t.kids[g.attr] == Stay(g, i) + Base(g)[i..] + [md];
  }

  lemma AttrStaysFree(s: Shape, attr: KjNode, md: KjNode)
    requires attr in s.kids && attr !in s.parent && md !in s.kids
    ensures attr !in Added(Created(s, md), attr, md).parent && Added(Created(s, md), attr, md).stale == s.stale
  {
  }

  lemma ProgressMove(g: Begin, s: Shape, md: KjNode, i: nat, added: seq<KjNode>, n: KjNode)
    requires BeginOk(g) && Progress(g, s, md, i, added) && i < |Base(g)| && n !in s.kids
    requires Base(g)[i] in g.names && !Special(g.names[Base(g)[i]])
    ensures g.attr in s.kids && md in s.kids && g.mdNames in s.kids && |Stay(g, i)| < |s.kids[g.attr]|
    ensures Progress(g, MovedShape(s, g.attr, md, g.mdNames, |Stay(g, i)|, n), md, i + 1, added + [n])
  {
    BeginFacts(g);
    Position(g, s, md, i, added);
    StayNext(g, i);
    MovedKids(s, g.attr, md, g.mdNames, |Stay(g, i)|, n);
    assert Base(g)[i] in Base(g);
    hide *;
    ProgressAfter(g, s, MovedShape(s, g.attr, md, g.mdNames, |Stay(g, i)|, n), md, i, added, n);
  }

  lemma ProgressAfter(g: Begin, s: Shape, t: Shape, md: KjNode, i: nat, added: seq<KjNode>, n: KjNode)
    requires Progress(g, s, md, i, added) && i < |Base(g)| && n !in s.kids
    requires Stay(g, i + 1) == Stay(g, i) && Move(g, i + 1) == Move(g, i) + [Base(g)[i]]
    requires g.attr in s.kids && md in s.kids && g.mdNames in s.kids && Base(g)[i] != g.attr
    requires t.kids.Keys == s.kids.Keys + {n} && t.stale == s.stale
    requires t.kids[g.attr] == Stay(g, i) + Base(g)[i + 1..] + (if g.md == null then [md] else [])
    requires t.kids[md] == s.kids[md] + [Base(g)[i]]
    requires t.kids[g.mdNames] == s.kids[g.mdNames] + [n] && t.kids[n] == []
    requires forall k :: k in s.kids && k != g.attr && k != md && k != g.mdNames ==> t.kids[k] == s.kids[k]
    requires t.parent.Keys <= s.parent.Keys + {n, Base(g)[i]}
    ensures Progress(g, t, md, i + 1, added + [n])
  {
    hide Stay, Move, MdBefore, Named;
    assert t.kids[md] == MdBefore(g) + Move(g, i + 1);
    assert t.kids[g.mdNames] == g.shape.kids[g.mdNames] + (added + [n]);
  }

  // ---- names ----

  ghost predicate NameKept(g: Begin, n: KjNode, name: string, i: nat)
    requires Named(g) && n in g.names && i <= |Base(g)|
  {
    || name == g.names[n]
    || (g.names[n] == "object" && name == "value" && (n in Base(g) || ObjectOf(g.shape, g.names, Move(g, i), n)))
  }

  ghost predicate ObjectsDone(g: Begin, nm: NameMap, i: nat)
    requires Named(g) && i <= |Base(g)|
  {
    forall p :: p in Move(g, i) ==> ObjectDone(g.shape, g.names, p, nm)
  }

  ghost predicate NamesOk(g: Begin, nm: NameMap, i: nat)
    requires Named(g)
  {
    && i <= |Base(g)| && g.names.Keys <= nm.Keys
    && (forall k :: 0 <= k < |Base(g)| ==>
          nm[Base(g)[k]] == if k < i then FinalName(g.names[Base(g)[k]]) else g.names[Base(g)[k]])
    && (forall n :: n in g.names ==> NameKept(g, n, nm[n], i))
    && ObjectsDone(g, nm, i)
  }

  lemma NamesStay(g: Begin, nm: NameMap, i: nat)
    requires Named(g) && NamesOk(g, nm, i) && i < |Base(g)|
    ensures Base(g)[i] in nm && nm[Base(g)[i]] == g.names[Base(g)[i]]
    ensures nm[Base(g)[i]] != "object" && Special(g.names[Base(g)[i]]) ==> NamesOk(g, nm, i + 1)
  {
    StayNext(g, i);
    hide ObjectOf, ObjectDone, Special, Move, Stay;
  }

  lemma NamesObject(g: Begin, nm: NameMap, i: nat)
    requires BeginOk(g) && Named(g) && NamesOk(g, nm, i) && i < |Base(g)| && g.names[Base(g)[i]] == "object"
    ensures NamesOk(g, nm[Base(g)[i] := "value"], i + 1)
  {
    BeginFacts(g);
    hide BeginOk;
    assert Base(g)[i] in Base(g);
    ObjectIsSpecial();
    StayNext(g, i);
    hide Move, Stay, Special, ObjectOf;
  }

  lemma ObjectIsSpecial()
    ensures Special("object")
  {
  }

  lemma MovedIn(g: Begin, i: nat)
    requires Named(g) && i < |Base(g)| && !Special(g.names[Base(g)[i]])
    ensures Base(g)[i] in Move(g, |Base(g)|)
  {
    assert Base(g)[..|Base(g)|] == Base(g);
    StayingOrMoving(Base(g), g.names);
    hide Special;
  }

  lemma PropUntouched(g: Begin, s: Shape, md: KjNode, i: nat, added: seq<KjNode>)
    requires BeginOk(g) && Progress(g, s, md, i, added) && i < |Base(g)| && !Special(g.names[Base(g)[i]])
    ensures var prop := Base(g)[i];
      && prop != g.attr && prop != md && prop != g.mdNames && prop in g.shape.kids && prop in s.kids
      && s.kids[prop] == g.shape.kids[prop]
    ensures g.names.Keys <= s.kids.Keys
  {
    BeginFacts(g);
    assert Base(g)[i] in Base(g);
    hide ShapeOk, Stay, Move, Live, Free;
  }

  /** A grandchild that was renamed is a child of a node that is moved. */
  lemma NamesMove(g: Begin, s: Shape, md: KjNode, nm: NameMap, i: nat, added: seq<KjNode>, renamed: KjNode?, n: KjNode)
    requires BeginOk(g) && Named(g) && NamesOk(g, nm, i) && i < |Base(g)| && !Special(g.names[Base(g)[i]])
    requires Progress(g, s, md, i, added) && n !in s.kids
    requires Base(g)[i] in s.kids && renamed == RelationshipObject(s.kids[Base(g)[i]], nm)
    ensures NamesOk(g, Renaming(nm, renamed, n, ""), i + 1)
  {
    BeginFacts(g);
    var prop := Base(g)[i];
    assert prop in Base(g);
    KidsIn(g.shape, prop);
    PropUntouched(g, s, md, i, added);
    NotYetRenamed(g, nm, i);
    RelationshipSame(g.shape.kids[prop], g.names, nm);
    RelationshipHas(g.shape.kids[prop], g.names);
    StayNext(g, i);
    hide BeginOk, Progress, Move, Stay, Special, ShapeOk, Live, Free, Distinct, RelationshipObject, NamesOk;
    assert n !in g.names;
    if renamed != null {
      assert g.shape.parent[renamed] == prop && renamed !in Base(g) && renamed in g.names;
    }
    NamesAfterMove(g, nm, i, renamed, n);
  }

  /** What hangs below a node that has not been visited has its old names. */
  lemma NotYetRenamed(g: Begin, nm: NameMap, i: nat)
    requires BeginOk(g) && Named(g) && NamesOk(g, nm, i) && i < |Base(g)| && Base(g)[i] in g.shape.kids
    ensures forall c :: c in g.shape.kids[Base(g)[i]] ==> c in g.names && c in nm && nm[c] == g.names[c]
  {
    var prop := Base(g)[i];
    assert prop in Base(g);
    BeginFacts(g);
    KidsIn(g.shape, prop);
    NotMoved(g, i);
    hide ShapeOk, Live, Free, Distinct, Move, RelationshipObject, ObjectDone;
    forall c | c in g.shape.kids[prop] ensures c in g.names && c in nm && nm[c] == g.names[c] {
      assert g.shape.parent[c] == prop && NameKept(g, c, nm[c], i);
    }
  }

  lemma NotMoved(g: Begin, i: nat)
    requires BeginOk(g) && Named(g) && i < |Base(g)|
    ensures Base(g)[i] !in Move(g, i)
  {
    BeginFacts(g);
    DistinctAt(Base(g));
    forall n | n in Base(g)[..i] ensures n in g.names {
      assert n in Base(g);
    }
    StayingOrMoving(Base(g)[..i], g.names);
    hide BeginOk, Staying, Moving, Distinct, Special;
  }

  lemma NamesAfterMove(g: Begin, nm: NameMap, i: nat, renamed: KjNode?, n: KjNode)
    requires Named(g) && NamesOk(g, nm, i) && i < |Base(g)| && g.names[Base(g)[i]] != "object" && n !in g.names
    requires Move(g, i + 1) == Move(g, i) + [Base(g)[i]] && Base(g)[i] in g.shape.kids
    requires renamed == RelationshipObject(g.shape.kids[Base(g)[i]], g.names)
    requires renamed != null ==>
      && renamed !in Base(g) && renamed in g.names && g.names[renamed] == "object"
      && renamed in g.shape.parent && g.shape.parent[renamed] == Base(g)[i]
    ensures NamesOk(g, Renaming(nm, renamed, n, ""), i + 1)
  {
    hide Move, RelationshipObject;
    assert forall k :: 0 <= k < |Base(g)| ==> Base(g)[k] in Base(g);
    var nm' := Renaming(nm, renamed, n, "");
    forall p | p in Move(g, i + 1) ensures ObjectDone(g.shape, g.names, p, nm') {
      if p in g.shape.kids {
        RelationshipHas(g.shape.kids[p], g.names);
      }
      assert p != Base(g)[i] ==> ObjectDone(g.shape, g.names, p, nm);
    }
    forall x | x in g.names ensures NameKept(g, x, nm'[x], i + 1) {
      assert NameKept(g, x, nm[x], i);
    }
  }

  // ---- the loop ----

  /** The nodes added to mdNames hold the names of what was moved. */
  ghost predicate TextsOk(added: seq<KjNode>, moved: seq<KjNode>, names: NameMap) {
    |added| == |moved| && forall k :: 0 <= k < |added| ==> moved[k] in names && added[k].text == names[moved[k]]
  }

  lemma TextsSnoc(added: seq<KjNode>, moved: seq<KjNode>, names: NameMap, n: KjNode, m: KjNode)
    requires TextsOk(added, moved, names) && m in names && n.text == names[m]
    ensures TextsOk(added + [n], moved + [m], names)
  {
  }

  /** One round, on a node that is moved. */
  method MoveOne(f: Forest, prop: KjNode, attr: KjNode, md0: KjNode?, mdNames: KjNode, ghost g: Begin, ghost i: nat, ghost added: seq<KjNode>)
      returns (md: KjNode, ghost added': seq<KjNode>)
    requires f.Valid() && BeginOk(g) && attr == g.attr && mdNames == g.mdNames
    requires Progress(g, f.shape, md0, i, added) && NamesOk(g, Names(f.shape.kids.Keys), i)
    requires i < |Base(g)| && prop == Base(g)[i] && !Special(g.names[prop])
    requires TextsOk(added, Move(g, i), g.names) && (md0 != null ==> md0.name == "md")
    modifies f`shape, f.shape.kids.Keys`next, f.shape.kids.Keys`firstChild, f.shape.kids.Keys`lastChild, f.shape.kids.Keys`name
    ensures f.Valid() && Progress(g, f.shape, md, i + 1, added') && NamesOk(g, Names(f.shape.kids.Keys), i + 1)
    ensures md.name == "md" && (md0 != null ==> md == md0) && (md0 == null ==> fresh(md))
    ensures old(f.shape.kids.Keys) <= f.shape.kids.Keys && fresh(f.shape.kids.Keys - old(f.shape.kids.Keys))
    ensures TextsOk(added', Move(g, i + 1), g.names)
  {
    hide *;
    ProgressLive(g, f.shape, md0, i, added);
    if md0 == null {
      md := NewMd(f, attr, g, i, added);
    } else {
      md := md0;
    }
    added' := MoveInto(f, prop, attr, md, mdNames, g, i, added);
  }

  method NewMd(f: Forest, attr: KjNode, ghost g: Begin, ghost i: nat, ghost added: seq<KjNode>) returns (md: KjNode)
    requires f.Valid() && BeginOk(g) && attr == g.attr
    requires Progress(g, f.shape, null, i, added) && NamesOk(g, Names(f.shape.kids.Keys), i)
    modifies f`shape, f.shape.kids.Keys`next, attr`firstChild, attr`lastChild
    ensures f.Valid() && Progress(g, f.shape, md, i, added) && NamesOk(g, Names(f.shape.kids.Keys), i)
    ensures fresh(md) && md.name == "md" && f.shape.kids.Keys == old(f.shape.kids.Keys) + {md}
  {
    hide *;
    ghost var s, nm := f.shape, Names(f.shape.kids.Keys);
    ProgressLive(g, s, null, i, added);
    md := AddNew(f, attr, "md", KjObject, "", 0);
    ProgressNewMd(g, s, i, added, md);
    CreatedKeys(s, md);
    AddedKeys(Created(s, md), attr, md);
    NamesWithNew(g, nm, i, md, "md");
  }

  lemma NamesWithNew(g: Begin, nm: NameMap, i: nat, n: KjNode, name: string)
    requires Named(g) && NamesOk(g, nm, i) && n !in g.names
    ensures NamesOk(g, nm[n := name], i)
  {
    hide NameKept, Move, RelationshipObject;
    assert forall k :: 0 <= k < |Base(g)| ==> Base(g)[k] in Base(g);
    forall p | p in Move(g, i) ensures ObjectDone(g.shape, g.names, p, nm[n := name]) {
      if p in g.shape.kids {
        RelationshipHas(g.shape.kids[p], g.names);
      }
      assert ObjectDone(g.shape, g.names, p, nm);
    }
  }

  lemma ProgressLive(g: Begin, s: Shape, md: KjNode?, i: nat, added: seq<KjNode>)
    requires BeginOk(g) && Progress(g, s, md, i, added)
    ensures Named(g) && i <= |Base(g)| && Live(s, g.attr) && Live(s, g.mdNames) && g.attr != g.mdNames
    ensures g.names.Keys <= s.kids.Keys
    ensures g.attr in s.kids && g.mdNames in s.kids
    ensures md != null ==> Live(s, md) && md in s.kids && md != g.attr && md != g.mdNames
    ensures forall k :: 0 <= k < |Base(g)| ==> Live(s, Base(g)[k]) && Base(g)[k] in g.names
  {
    BeginFacts(g);
    StaleKnown(g.shape);
    hide ShapeOk, Stay, Move, MdBefore;
    assert forall k :: 0 <= k < |Base(g)| ==> Base(g)[k] in Base(g);
  }

  method MoveInto(f: Forest, prop: KjNode, attr: KjNode, md: KjNode, mdNames: KjNode, ghost g: Begin, ghost i: nat, ghost added: seq<KjNode>)
      returns (ghost added': seq<KjNode>)
    requires f.Valid() && BeginOk(g) && attr == g.attr && mdNames == g.mdNames
    requires Progress(g, f.shape, md, i, added) && NamesOk(g, Names(f.shape.kids.Keys), i)
    requires i < |Base(g)| && prop == Base(g)[i] && !Special(g.names[prop])
    requires TextsOk(added, Move(g, i), g.names) && md.name == "md"
    modifies f`shape, f.shape.kids.Keys`next, f.shape.kids.Keys`firstChild, f.shape.kids.Keys`lastChild, f.shape.kids.Keys`name
    ensures f.Valid() && Progress(g, f.shape, md, i + 1, added') && NamesOk(g, Names(f.shape.kids.Keys), i + 1)
    ensures md.name == "md"
    ensures old(f.shape.kids.Keys) <= f.shape.kids.Keys && fresh(f.shape.kids.Keys - old(f.shape.kids.Keys))
    ensures TextsOk(added', Move(g, i + 1), g.names)
  {
    hide *;
    ghost var s, nm := f.shape, Names(f.shape.kids.Keys);
    ProgressLive(g, s, md, i, added);
    Position(g, s, md, i, added);
    PropUntouched(g, s, md, i, added);
    NamesStay(g, nm, i);
    NameOf(prop, s.kids.Keys);
    NameOf(md, s.kids.Keys);
    ghost var n, renamed := MoveProperty(f, attr, md, mdNames, prop, |Stay(g, i)|);
    ProgressMove(g, s, md, i, added, n);
    NamesMove(g, s, md, nm, i, added, renamed, n);
    StayNext(g, i);
    TextsSnoc(added, Move(g, i), g.names, n, prop);
    added' := added + [n];
    MovedKids(s, attr, md, mdNames, |Stay(g, i)|, n);
    NameOf(md, f.shape.kids.Keys);
    RenamingIs(nm, renamed, n, "");
  }

  /** What the loop has left at the end of the list: nothing, or an md that was added while there was more to see. */
  ghost predicate AtNode(g: Begin, prop: KjNode?, md: KjNode?, seesMd: bool, i: nat) {
    && g.attr in g.shape.kids && i <= |Base(g)| + 1
    && (seesMd ==> g.md == null && md != null)
    && prop == (if i < |Base(g)| then Base(g)[i] else if i == |Base(g)| && seesMd then md else null)
  }

  ghost function Seen(g: Begin, i: nat): nat
    requires g.attr in g.shape.kids
  {
    if i <= |Base(g)| then i else |Base(g)|
  }

  /** The state of the loop at node `prop`. */
  ghost predicate LoopInv(g: Begin, s: Shape, nm: NameMap, prop: KjNode?, md: KjNode?, seesMd: bool, i: nat, added: seq<KjNode>) {
    && BeginOk(g) && Named(g) && i <= |Base(g)| + 1 && AtNode(g, prop, md, seesMd, i)
    && Seen(g, i) <= |Base(g)| && Progress(g, s, md, Seen(g, i), added) && NamesOk(g, nm, Seen(g, i))
    && (i < |Base(g)| ==> (seesMd <==> g.md == null && md != null))
    && nm.Keys == s.kids.Keys && (md != null ==> md in nm && nm[md] == "md")
  }

  /** The node at hand, where it is, and what follows. */
  lemma AtHand(g: Begin, s: Shape, nm: NameMap, prop: KjNode, md: KjNode?, seesMd: bool, i: nat, added: seq<KjNode>) returns (j: nat)
    requires LoopInv(g, s, nm, prop, md, seesMd, i, added)
    ensures i <= |Base(g)| && g.attr in s.kids && j < |s.kids[g.attr]| && s.kids[g.attr][j] == prop && prop in s.kids && prop in nm
    ensures (if j + 1 < |s.kids[g.attr]| then s.kids[g.attr][j + 1] else null) == NextNode(g, md, i)
    ensures i < |Base(g)| ==> prop == Base(g)[i] && prop in g.names && nm[prop] == g.names[prop]
    ensures i == |Base(g)| ==> nm[prop] == "md"
    ensures g.attr in s.kids && Live(s, g.attr)
  {
    ProgressLive(g, s, md, Seen(g, i), added);
    if i < |Base(g)| {
      Position(g, s, md, i, added);
      SpecialCurrent(g, nm, i);
      j := |Stay(g, i)|;
      assert Live(s, Base(g)[i]);
    } else {
      hide BeginOk, NamesOk;
      AfterLast(g, s, prop, added);
      j := |s.kids[g.attr]| - 1;
    }
  }

  ghost function NextNode(g: Begin, md: KjNode?, i: nat): KjNode?
    requires g.attr in g.shape.kids
  {
    if i + 1 < |Base(g)| then Base(g)[i + 1]
    else if i + 1 == |Base(g)| && g.md == null && md != null then md
    else null
  }

  lemma AfterLast(g: Begin, s: Shape, md: KjNode, added: seq<KjNode>)
    requires g.attr in g.shape.kids && Progress(g, s, md, |Base(g)|, added) && g.md == null
    ensures g.attr in s.kids && s.kids[g.attr] != [] && s.kids[g.attr][|s.kids[g.attr]| - 1] == md
  {
  }

  lemma SpecialCurrent(g: Begin, nm: NameMap, i: nat)
    requires Named(g) && NamesOk(g, nm, i) && i < |Base(g)|
    ensures Base(g)[i] in nm && Base(g)[i] in g.names && nm[Base(g)[i]] == g.names[Base(g)[i]]
  {
  }

  ghost predicate NewNames(nm: NameMap, prop: KjNode, nm': NameMap) {
    prop in nm && nm' == if nm[prop] == "object" then nm[prop := "value"] else nm
  }

  lemma StepStay(g: Begin, s: Shape, nm: NameMap, nm': NameMap, prop: KjNode, md: KjNode?, seesMd: bool, i: nat, added: seq<KjNode>)
    requires LoopInv(g, s, nm, prop, md, seesMd, i, added) && i <= |Base(g)| && NewNames(nm, prop, nm') && Special(nm[prop])
    requires i < |Base(g)| ==> prop == Base(g)[i] && prop in g.names && nm[prop] == g.names[prop]
    requires i == |Base(g)| ==> nm[prop] == "md"
    ensures LoopInv(g, s, nm', NextNode(g, md, i), md, seesMd, i + 1, added)
    ensures Move(g, Seen(g, i + 1)) == Move(g, Seen(g, i))
  {
    hide *;
    LoopFacts(g, s, nm, prop, md, seesMd, i, added);
    SeenFacts(g, i);
    if i < |Base(g)| {
      ProgressStay(g, s, md, i, added);
      StayNext(g, i);
      NamesStep(g, nm, nm', i);
    } else {
      NewNamesIf(nm, prop, nm');
    }
    StepStayInv(g, s, nm, nm', prop, md, seesMd, i, added);
  }

  lemma SeenFacts(g: Begin, i: nat)
    requires Named(g)
    ensures g.attr in g.shape.kids
    ensures i <= |Base(g)| ==> Seen(g, i) == i
    ensures i >= |Base(g)| ==> Seen(g, i) == |Base(g)|
    ensures i < |Base(g)| ==> Seen(g, i + 1) == i + 1
    ensures i >= |Base(g)| ==> Seen(g, i + 1) == |Base(g)|
  {
  }

  lemma NewNamesIf(nm: NameMap, prop: KjNode, nm': NameMap)
    requires NewNames(nm, prop, nm')
    ensures prop in nm && (nm[prop] != "object" ==> nm' == nm)
  {
  }

  lemma StepStayInv(g: Begin, s: Shape, nm: NameMap, nm': NameMap, prop: KjNode, md: KjNode?, seesMd: bool, i: nat, added: seq<KjNode>)
    requires LoopInv(g, s, nm, prop, md, seesMd, i, added) && i <= |Base(g)| && NewNames(nm, prop, nm')
    requires Progress(g, s, md, Seen(g, i + 1), added) && NamesOk(g, nm', Seen(g, i + 1))
    ensures LoopInv(g, s, nm', NextNode(g, md, i), md, seesMd, i + 1, added)
  {
    assert g.attr in g.shape.kids;
    AtNodeStay(g, prop, md, seesMd, i);
    KeepsMd(nm, prop, nm', md);
    hide BeginOk, Progress, NamesOk, Named, AtNode, NextNode, NewNames;
  }

  lemma AtNodeStay(g: Begin, prop: KjNode, md: KjNode?, seesMd: bool, i: nat)
    requires g.attr in g.shape.kids && AtNode(g, prop, md, seesMd, i) && i <= |Base(g)|
    requires i < |Base(g)| ==> (seesMd <==> g.md == null && md != null)
    ensures AtNode(g, NextNode(g, md, i), md, seesMd, i + 1)
  {
  }

  lemma KeepsMd(nm: NameMap, prop: KjNode, nm': NameMap, md: KjNode?)
    requires NewNames(nm, prop, nm') && (md != null ==> md in nm && nm[md] == "md")
    ensures nm'.Keys == nm.Keys && (md != null ==> md in nm' && nm'[md] == "md")
  {
  }

  lemma NamesStep(g: Begin, nm: NameMap, nm': NameMap, i: nat)
    requires BeginOk(g) && Named(g) && NamesOk(g, nm, i) && i < |Base(g)| && NewNames(nm, Base(g)[i], nm')
    requires Base(g)[i] in g.names && Special(g.names[Base(g)[i]])
    ensures NamesOk(g, nm', i + 1)
  {
    hide BeginOk;
    NamesStay(g, nm, i);
    if nm[Base(g)[i]] == "object" {
      NamesObject(g, nm, i);
    }
    hide NamesOk;
  }

  lemma StepMove(g: Begin, s: Shape, nm: NameMap, md0: KjNode?, md: KjNode, seesMd: bool, i: nat, added: seq<KjNode>)
    requires BeginOk(g) && Named(g) && i < |Base(g)| && Progress(g, s, md, i + 1, added) && NamesOk(g, nm, i + 1)
    requires md0 != null ==> md == md0
    requires nm.Keys == s.kids.Keys && md in nm && nm[md] == "md"
    ensures LoopInv(g, s, nm, NextNode(g, md0, i), md, g.md == null && NextNode(g, md0, i) != null, i + 1, added)
    ensures Seen(g, i + 1) == i + 1 && Seen(g, i) == i
  {
    assert g.attr in g.shape.kids;
    hide BeginOk, Progress, NamesOk, Move, Named;
  }

  lemma LoopFacts(g: Begin, s: Shape, nm: NameMap, prop: KjNode?, md: KjNode?, seesMd: bool, i: nat, added: seq<KjNode>)
    requires LoopInv(g, s, nm, prop, md, seesMd, i, added)
    ensures BeginOk(g) && Named(g) && Seen(g, i) <= |Base(g)| && Seen(g, i) <= i <= |Base(g)| + 1
    ensures Progress(g, s, md, Seen(g, i), added) && NamesOk(g, nm, Seen(g, i))
    ensures i <= |Base(g)| ==> Seen(g, i) == i
    ensures prop == null ==> Seen(g, i) == |Base(g)|
    ensures md != null ==> md in nm && nm[md] == "md"
  {
    hide BeginOk, Progress, NamesOk, Move, Named;
  }

  /** One round of the loop. */
  method Visit(f: Forest, prop: KjNode, attr: KjNode, md0: KjNode?, mdNames: KjNode, ghost g: Begin, ghost i: nat,
               ghost added: seq<KjNode>, ghost seesMd: bool)
      returns (next: KjNode?, md: KjNode?, ghost added': seq<KjNode>, ghost seesMd': bool)
    requires f.Valid() && attr == g.attr && mdNames == g.mdNames
    requires LoopInv(g, f.shape, Names(f.shape.kids.Keys), prop, md0, seesMd, i, added)
    requires Named(g) && Seen(g, i) <= |Base(g)| && TextsOk(added, Move(g, Seen(g, i)), g.names)
    modifies f`shape, f.shape.kids.Keys`next, f.shape.kids.Keys`firstChild, f.shape.kids.Keys`lastChild, f.shape.kids.Keys`name
    ensures f.Valid() && i <= |Base(g)| && LoopInv(g, f.shape, Names(f.shape.kids.Keys), next, md, seesMd', i + 1, added')
    ensures Seen(g, i + 1) <= |Base(g)| && TextsOk(added', Move(g, Seen(g, i + 1)), g.names)
    ensures old(f.shape.kids.Keys) <= f.shape.kids.Keys && fresh(f.shape.kids.Keys - old(f.shape.kids.Keys))
  {
    hide *;
    ghost var s, nm := f.shape, Names(f.shape.kids.Keys);
    LoopFacts(g, s, nm, prop, md0, seesMd, i, added);
    ghost var j := AtHand(g, s, nm, prop, md0, seesMd, i, added);
    f.Follow(attr, j);
    NameOf(prop, s.kids.Keys);
    next, md := prop.next, md0;
    added', seesMd' := added, seesMd;
    if Special(prop.name) {
      if prop.name == "object" {
        Rename(prop, "value", s.kids.Keys);
      }
      NewNamesIs(nm, prop, Names(s.kids.Keys));
      StepStay(g, s, nm, Names(s.kids.Keys), prop, md, seesMd, i, added);
      LoopFacts(g, s, Names(s.kids.Keys), next, md, seesMd, i + 1, added);
    } else {
      MdIsSpecial();
      if md0 != null {
        NameOf(md0, s.kids.Keys);
      }
      md, added' := MoveOne(f, prop, attr, md0, mdNames, g, i, added);
      ProgressLive(g, f.shape, md, i + 1, added');
      NameOf(md, f.shape.kids.Keys);
      seesMd' := g.md == null && next != null;
      StepMove(g, f.shape, Names(f.shape.kids.Keys), md0, md, seesMd, i, added');
    }
  }

  lemma NewNamesIs(nm: NameMap, prop: KjNode, nm': NameMap)
    requires prop in nm && nm' == if nm[prop] == "object" then nm[prop := "value"] else nm
    ensures NewNames(nm, prop, nm')
  {
  }

  lemma MdIsSpecial()
    ensures Special("md")
  {
  }

  lemma LoopStart(g: Begin, prop: KjNode?)
    requires BeginOk(g) && prop == if g.attr in g.shape.kids && Base(g) != [] then Base(g)[0] else null
    ensures LoopInv(g, g.shape, g.names, prop, g.md, false, 0, [])
    ensures Seen(g, 0) == 0 && Named(g) && Move(g, 0) == []
  {
    hide *;
    BeginNames(g);
    ProgressStart(g);
    BeginFacts(g);
    NamesStart(g);
    BeginLive(g);
    LoopFirst(g, prop);
  }

  lemma LoopFirst(g: Begin, prop: KjNode?)
    requires g.attr in g.shape.kids && prop == if Base(g) != [] then Base(g)[0] else null
    requires BeginOk(g) && Named(g) && Progress(g, g.shape, g.md, 0, []) && NamesOk(g, g.names, 0)
    requires g.names.Keys == g.shape.kids.Keys && (g.md != null ==> g.md in g.names && g.names[g.md] == "md")
    ensures LoopInv(g, g.shape, g.names, prop, g.md, false, 0, [])
    ensures Seen(g, 0) == 0 && Move(g, 0) == []
  {
    hide Progress, BeginOk, NamesOk, Named;
    assert Base(g)[..0] == [];
  }

  lemma BeginNames(g: Begin)
    requires BeginOk(g)
    ensures g.names.Keys == g.shape.kids.Keys && (g.md != null ==> g.md in g.names && g.names[g.md] == "md")
  {
  }

  lemma NamesStart(g: Begin)
    requires Named(g)
    ensures NamesOk(g, g.names, 0)
  {
    assert Base(g)[..0] == [] && Move(g, 0) == [];
    hide Move;
    assert forall k :: 0 <= k < |Base(g)| ==> Base(g)[k] in Base(g);
  }

  /** The whole loop. */
  method MoveLoop(f: Forest, attr: KjNode, md0: KjNode?, mdNames: KjNode, ghost g: Begin)
      returns (ghost md: KjNode?, ghost added: seq<KjNode>)
    requires f.Valid() && BeginOk(g) && g == Begin(f.shape, attr, md0, mdNames, Names(f.shape.kids.Keys))
    modifies f`shape, f.shape.kids.Keys`next, f.shape.kids.Keys`firstChild, f.shape.kids.Keys`lastChild, f.shape.kids.Keys`name
    ensures f.Valid() && Named(g) && Progress(g, f.shape, md, |Base(g)|, added)
    ensures NamesOk(g, Names(f.shape.kids.Keys), |Base(g)|)
    ensures TextsOk(added, Move(g, |Base(g)|), g.names) && (md != null ==> md in f.shape.kids && md.name == "md")
    ensures old(f.shape.kids.Keys) <= f.shape.kids.Keys && fresh(f.shape.kids.Keys - old(f.shape.kids.Keys))
  {
    hide *;
    BeginLive(g);
    f.Start(attr);
    var prop, mdP := attr.firstChild, md0;
    BaseIs(g);
    LoopStart(g, prop);
    added := [];
    NoTexts(g.names);
    ghost var i, seesMd := 0, false;
    while prop != null
      invariant f.Valid() && LoopInv(g, f.shape, Names(f.shape.kids.Keys), prop, mdP, seesMd, i, added)
      invariant Named(g) && i <= |Base(g)| + 1 && Seen(g, i) <= |Base(g)| && TextsOk(added, Move(g, Seen(g, i)), g.names)
      invariant old(f.shape.kids.Keys) <= f.shape.kids.Keys && fresh(f.shape.kids.Keys - old(f.shape.kids.Keys))
      decreases |Base(g)| + 1 - i
    {
      prop, mdP, added, seesMd := Visit(f, prop, attr, mdP, mdNames, g, i, added, seesMd);
      i := i + 1;
    }
    md := mdP;
    LoopFacts(g, f.shape, Names(f.shape.kids.Keys), prop, mdP, seesMd, i, added);
    if md != null {
      ProgressLive(g, f.shape, md, |Base(g)|, added);
      NameOf(md, f.shape.kids.Keys);
    }
  }

  lemma NoTexts(names: NameMap)
    ensures TextsOk([], [], names)
  {
  }

  lemma BeginLive(g: Begin)
    requires BeginOk(g)
    ensures Live(g.shape, g.attr) && g.attr in g.shape.kids
  {
  }

  lemma BaseIs(g: Begin)
    requires g.attr in g.shape.kids
    ensures Base(g) == g.shape.kids[g.attr]
  {
  }
}
