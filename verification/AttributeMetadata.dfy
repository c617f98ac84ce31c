/** Moving the properties of an attribute to its metadata, where the database keeps them. */
module AttributeMetadata {
  import opened Sequences
  import opened Kjson

  /** "object" is called "value" in the database. */
  function FinalName(name: string): string {
    if name == "object" then "value" else name
  }

  ghost predicate DistinctNames(ns: seq<KjNode>, nm: NameMap) {
    && (forall n :: n in ns ==> n in nm)
    && forall i, j :: 0 <= i < j < |ns| ==> nm[ns[i]] != nm[ns[j]]
  }

  ghost predicate NamedBy(ns: seq<KjNode>, nm: NameMap, name: string) {
    exists k :: k in ns && k in nm && nm[k] == name
  }

  lemma NewNameDistinct(ns: seq<KjNode>, x: KjNode, nm: NameMap)
    requires DistinctNames(ns, nm) && x in nm && !NamedBy(ns, nm, nm[x])
    ensures DistinctNames(ns + [x], nm)
  {
    forall i | 0 <= i < |ns| ensures nm[ns[i]] != nm[x] {
      assert ns[i] in ns;
    }
  }

  lemma DistinctNamesSame(ns: seq<KjNode>, nm: NameMap, nm': NameMap)
    requires DistinctNames(ns, nm) && forall n :: n in ns ==> n in nm' && n in nm && nm'[n] == nm[n]
    ensures DistinctNames(ns, nm')
  {
    assert forall j :: 0 <= j < |ns| ==> ns[j] in ns;
  }

  /** The names that stay right under an attribute. */
  predicate Special(name: string) {
    name in ["type", "creDate", "modDate", "value", "object", "md", "mdNames"]
  }

  /** The children with special names, and the others: what stays and what is moved. */
  ghost function Staying(ns: seq<KjNode>, names: NameMap): seq<KjNode>
    requires forall n :: n in ns ==> n in names
  {
    if ns == [] then []
    else Staying(ns[..|ns| - 1], names) + if Special(names[ns[|ns| - 1]]) then [ns[|ns| - 1]] else []
  }

  ghost function Moving(ns: seq<KjNode>, names: NameMap): seq<KjNode>
    requires forall n :: n in ns ==> n in names
  {
    if ns == [] then []
    else Moving(ns[..|ns| - 1], names) + if Special(names[ns[|ns| - 1]]) then [] else [ns[|ns| - 1]]
  }

  lemma Snoc(ns: seq<KjNode>, n: KjNode, names: NameMap)
    requires forall k :: k in ns + [n] ==> k in names
    ensures n in names && forall k :: k in ns ==> k in names
    ensures Staying(ns + [n], names) == Staying(ns, names) + if Special(names[n]) then [n] else []
    ensures Moving(ns + [n], names) == Moving(ns, names) + if Special(names[n]) then [] else [n]
  {
    var t := ns + [n];
    assert t[..|ns|] == ns && t[|ns|] == n;
    assert forall k :: k in ns ==> k in t;
  }

  lemma {:induction false} StayingOrMoving(ns: seq<KjNode>, names: NameMap)
    requires forall n :: n in ns ==> n in names
    ensures forall n :: n in Staying(ns, names) ==> n in ns && Special(names[n])
    ensures forall n :: n in Moving(ns, names) ==> n in ns && !Special(names[n])
    ensures forall n :: n in ns && !Special(names[n]) ==> n in Moving(ns, names)
    decreases |ns|
  {
    if ns != [] {
      var u, n := ns[..|ns| - 1], ns[|ns| - 1];
      assert ns == u + [n];
      Snoc(u, n, names);
      hide *;
      StayingOrMoving(u, names);
    }
  }

  /** Nothing is lost and nothing is duplicated. */
  lemma {:induction false} NothingLost(ns: seq<KjNode>, names: NameMap)
    requires forall n :: n in ns ==> n in names
    ensures multiset(Staying(ns, names)) + multiset(Moving(ns, names)) == multiset(ns)
    decreases |ns|
  {
    if ns != [] {
      var u, n := ns[..|ns| - 1], ns[|ns| - 1];
      assert ns == u + [n];
      Snoc(u, n, names);
      hide *;
      NothingLost(u, names);
    }
  }

  method Rename(n: KjNode, name: string, ghost nodes: set<KjNode>)
    requires n in nodes
    modifies n`name
    ensures n.name == name && Names(nodes) == old(Names(nodes))[n := name]
  {
    n.name := name;
  }

  /** The first node with that name. */
  ghost function First(ns: seq<KjNode>, nm: NameMap, name: string): KjNode? {
    if ns == [] then null
    else if ns[0] in nm && nm[ns[0]] == name then ns[0]
    else First(ns[1..], nm, name)
  }

  lemma {:induction false} FirstAt(ns: seq<KjNode>, nm: NameMap, name: string, j: nat)
    requires j <= |ns| && (forall k :: 0 <= k < j ==> ns[k] in nm && nm[ns[k]] != name)
    requires j < |ns| ==> ns[j] in nm && nm[ns[j]] == name
    ensures First(ns, nm, name) == if j < |ns| then ns[j] else null
    decreases |ns|
  {
    if j > 0 {
      FirstAt(ns[1..], nm, name, j - 1);
    }
  }

  /** The "object" of a Relationship. */
  ghost function RelationshipObject(ns: seq<KjNode>, nm: NameMap): KjNode? {
    var typeNode := First(ns, nm, "type");
    if typeNode != null && typeNode.text == "Relationship" then First(ns, nm, "object") else null
  }

  /** With the first "type" at position i and the first "object" at position j, or past the end. */
  lemma RelationshipObjectAt(ns: seq<KjNode>, nm: NameMap, i: nat, j: nat)
    requires i <= |ns| && j <= |ns| && forall n :: n in ns ==> n in nm
    requires (forall k :: 0 <= k < i ==> nm[ns[k]] != "type") && (i < |ns| ==> nm[ns[i]] == "type")
    requires (forall k :: 0 <= k < j ==> nm[ns[k]] != "object") && (j < |ns| ==> nm[ns[j]] == "object")
    ensures RelationshipObject(ns, nm) == if i < |ns| && ns[i].text == "Relationship" && j < |ns| then ns[j] else null
  {
    FirstAt(ns, nm, "type", i);
    FirstAt(ns, nm, "object", j);
    hide First;
  }

  /** objectToValue: in a Relationship, the first "object" is called "value". */
  method ObjectToValue(f: Forest, attr: KjNode) returns (ghost renamed: KjNode?)
    requires f.Valid() && Live(f.shape, attr) && attr in f.shape.kids
    modifies f.shape.kids.Keys`name
    ensures f.Valid()
    ensures renamed == RelationshipObject(f.shape.kids[attr], old(Names(f.shape.kids.Keys)))
    ensures renamed == null ==> Names(f.shape.kids.Keys) == old(Names(f.shape.kids.Keys))
    ensures renamed != null ==>
      && renamed in f.shape.kids[attr] && renamed in f.shape.kids && old(Names(f.shape.kids.Keys))[renamed] == "object"
      && Names(f.shape.kids.Keys) == old(Names(f.shape.kids.Keys))[renamed := "value"]
  {
    hide *;
    RelationshipIs(f.shape.kids[attr], Names(f.shape.kids.Keys));
    renamed := null;
    var typeNode := LookupFirst(f, attr, "type");
    if typeNode != null && typeNode.text == "Relationship" {
      var objectNode := LookupFirst(f, attr, "object");
      if objectNode != null {
        NameOf(objectNode, f.shape.kids.Keys);
        Rename(objectNode, "value", f.shape.kids.Keys);
        renamed := objectNode;
      }
    }
  }

  method LookupFirst(f: Forest, p: KjNode, name: string) returns (r: KjNode?)
    requires f.Valid() && Live(f.shape, p) && p in f.shape.kids
    ensures r == First(f.shape.kids[p], Names(f.shape.kids.Keys), name)
    ensures r != null ==> r in f.shape.kids[p] && r in f.shape.kids && r.name == name
  {
    hide *;
    f.ValidFacts();
    AllNames(f.shape.kids.Keys);
    KidsIn(f.shape, p);
    ghost var i;
    r, i := f.Lookup(p, name);
    FirstAt(f.shape.kids[p], Names(f.shape.kids.Keys), name, i);
  }

  lemma {:induction false} FirstHas(ns: seq<KjNode>, nm: NameMap, name: string)
    ensures First(ns, nm, name) != null ==>
      First(ns, nm, name) in ns && First(ns, nm, name) in nm && nm[First(ns, nm, name)] == name
  {
    if ns != [] {
      FirstHas(ns[1..], nm, name);
    }
  }

  lemma RelationshipHas(ns: seq<KjNode>, nm: NameMap)
    ensures var o := RelationshipObject(ns, nm); o != null ==> o in ns && o in nm && nm[o] == "object"
  {
    FirstHas(ns, nm, "object");
    hide First;
  }

  lemma {:induction false} FirstSame(ns: seq<KjNode>, nm: NameMap, nm': NameMap, name: string)
    requires forall n :: n in ns ==> n in nm && n in nm' && nm[n] == nm'[n]
    ensures First(ns, nm, name) == First(ns, nm', name)
  {
    if ns != [] {
      FirstSame(ns[1..], nm, nm', name);
    }
  }

  lemma RelationshipSame(ns: seq<KjNode>, nm: NameMap, nm': NameMap)
    requires forall n :: n in ns ==> n in nm && n in nm' && nm[n] == nm'[n]
    ensures RelationshipObject(ns, nm) == RelationshipObject(ns, nm')
  {
    FirstSame(ns, nm, nm', "type");
    FirstSame(ns, nm, nm', "object");
    hide First;
  }

  /** In a Relationship that has become metadata, the first "object" is a "value". */
  ghost predicate ObjectDone(s: Shape, names: NameMap, p: KjNode, nm: NameMap) {
    p in s.kids ==> var o := RelationshipObject(s.kids[p], names); o != null ==> o in nm && nm[o] == "value"
  }

  /** The node is the first "object" of a Relationship among these. */
  ghost predicate ObjectOf(s: Shape, names: NameMap, moved: seq<KjNode>, n: KjNode) {
    n in s.parent && s.parent[n] in moved && s.parent[n] in s.kids && n == RelationshipObject(s.kids[s.parent[n]], names)
  }

  lemma RelationshipIs(ns: seq<KjNode>, nm: NameMap)
    ensures var typeNode := First(ns, nm, "type");
      RelationshipObject(ns, nm) == if typeNode != null && typeNode.text == "Relationship" then First(ns, nm, "object") else null
  {
  }

  /** The property leaves the attribute for md, and a new node joins mdNames. */
  ghost function MovedShape(s: Shape, attr: KjNode, md: KjNode, mdNames: KjNode, j: nat, n: KjNode): Shape
    requires attr in s.kids && md in s.kids && mdNames in s.kids && j < |s.kids[attr]|
  {
    Added(Created(Added(Removed(s, attr, j), md, s.kids[attr][j]), n), mdNames, n)
  }

  lemma MovedKids(s: Shape, attr: KjNode, md: KjNode, mdNames: KjNode, j: nat, n: KjNode)
    requires attr in s.kids && md in s.kids && mdNames in s.kids && j < |s.kids[attr]| && n !in s.kids
    requires attr != md && attr != mdNames && md != mdNames
    ensures var t := MovedShape(s, attr, md, mdNames, j, n);
      && t.kids.Keys == s.kids.Keys + {n} && t.stale == s.stale
      && t.kids[attr] == Dropped(s.kids[attr], j)
      && t.kids[md] == s.kids[md] + [s.kids[attr][j]]
      && t.kids[mdNames] == s.kids[mdNames] + [n] && t.kids[n] == []
      && (forall k :: k in s.kids && k != attr && k != md && k != mdNames ==> t.kids[k] == s.kids[k])
      && t.parent.Keys <= s.parent.Keys + {n, s.kids[attr][j]}
  {
    hide Dropped;
  }

  ghost function Renaming(names: NameMap, renamed: KjNode?, n: KjNode, name: string): NameMap {
    (if renamed == null then names else names[renamed := "value"])[n := name]
  }

  /** A new node at the end of a list. */
  method AddNew(f: Forest, p: KjNode, name: string, kind: Kind, text: string, number: int) returns (n: KjNode)
    requires f.Valid() && Live(f.shape, p)
    modifies f`shape, f.shape.kids.Keys`next, p`firstChild, p`lastChild
    ensures f.Valid() && fresh(n) && n !in old(f.shape).kids
    ensures n.name == name && n.kind == kind && n.text == text && n.number == number
    ensures f.shape == Added(Created(old(f.shape), n), p, n)
    ensures Names(f.shape.kids.Keys) == old(Names(f.shape.kids.Keys))[n := name]
    ensures NextKept(old(Nexts(f.shape.kids.Keys)), Nexts(f.shape.kids.Keys), old(f.shape).kids[p])
  {
    hide *;
    ghost var s, next, names := f.shape, Nexts(f.shape.kids.Keys), Names(f.shape.kids.Keys);
    f.ValidFacts();
    f.Start(p);
    PointersOf(p, s.kids.Keys);
    n := f.Create(name, kind, text, number);
    NewFacts(s, next, p, n);
    f.ChildAdd(p, n);
  }

  lemma NewFacts(s: Shape, next: Pointers, p: KjNode, n: KjNode)
    requires ShapeOk(s) && Live(s, p) && p in s.kids && n !in s.kids && next.Keys == s.kids.Keys
    ensures Live(Created(s, n), p) && Free(Created(s, n), n) && p in Created(s, n).kids
    ensures Created(s, n).kids.Keys == s.kids.Keys + {n} && Added(Created(s, n), p, n).kids.Keys == s.kids.Keys + {n}
    ensures NextKept(next, NextsAdded(Set(next, n, null), LastOf(Created(s, n).kids[p]), n), s.kids[p])
  {
    hide *;
    StillLive(s, p, n, 0);
    CreatedOk(s, n);
    CreatedKeys(s, n);
    AddedKeys(Created(s, n), p, n);
    LastIn(s, p);
    KeptByNew(next, s.kids[p], n);
  }

  /** The property leaves its list, and its "object" becomes a "value". */
  method Detach(f: Forest, attr: KjNode, prop: KjNode, ghost j: nat) returns (ghost renamed: KjNode?)
    requires f.Valid() && Live(f.shape, attr) && Live(f.shape, prop) && prop != attr
    requires j < |f.shape.kids[attr]| && f.shape.kids[attr][j] == prop
    modifies f`shape, attr`firstChild, attr`lastChild, f.shape.kids.Keys`next, f.shape.kids.Keys`name
    ensures f.Valid() && f.shape == Removed(old(f.shape), attr, j) && prop.name == old(prop.name)
    ensures prop in old(f.shape).kids && renamed == RelationshipObject(old(f.shape).kids[prop], old(Names(f.shape.kids.Keys)))
    ensures renamed != null ==>
      renamed in old(f.shape).kids[prop] && renamed in old(f.shape).kids && old(Names(f.shape.kids.Keys))[renamed] == "object"
    ensures Names(f.shape.kids.Keys)
         == if renamed == null then old(Names(f.shape.kids.Keys)) else old(Names(f.shape.kids.Keys))[renamed := "value"]
  {
    hide *;
    ghost var s0, names := f.shape, Names(f.shape.kids.Keys);
    f.Start(attr);
    f.Start(prop);
    NameOf(prop, s0.kids.Keys);
    StillLive(s0, attr, prop, j);
    f.ValidFacts();
    RemovedOk(s0, attr, j);
    RemovedKeys(s0, attr, j);
    FreeNotIn(Removed(s0, attr, j), prop);
    f.ChildRemove(attr, prop, j);
    assert Names(f.shape.kids.Keys) == names;
    renamed := ObjectToValue(f, prop);
    NameOf(prop, s0.kids.Keys);
  }

  lemma AllNames(ns: set<KjNode>)
    ensures Names(ns).Keys == ns && forall n :: n in ns ==> Names(ns)[n] == n.name
  {
  }

  lemma NameOf(n: KjNode, ns: set<KjNode>)
    requires n in ns
    ensures n in Names(ns) && Names(ns)[n] == n.name && Names(ns).Keys == ns
  {
  }

  lemma MovedIs(s: Shape, attr: KjNode, md: KjNode, mdNames: KjNode, j: nat, n: KjNode)
    requires attr in s.kids && md in s.kids && mdNames in s.kids && j < |s.kids[attr]|
    ensures md in Removed(s, attr, j).kids && mdNames in Created(Added(Removed(s, attr, j), md, s.kids[attr][j]), n).kids
    ensures MovedShape(s, attr, md, mdNames, j, n) == Added(Created(Added(Removed(s, attr, j), md, s.kids[attr][j]), n), mdNames, n)
  {
  }

  lemma RenamingIs(names: NameMap, renamed: KjNode?, n: KjNode, name: string)
    ensures Renaming(names, renamed, n, name) == (if renamed == null then names else names[renamed := "value"])[n := name]
  {
  }

  method MoveProperty(f: Forest, attr: KjNode, md: KjNode, mdNames: KjNode, prop: KjNode, ghost j: nat)
      returns (ghost n: KjNode, ghost renamed: KjNode?)
    requires f.Valid() && Live(f.shape, attr) && Live(f.shape, md) && Live(f.shape, mdNames) && Live(f.shape, prop)
    requires j < |f.shape.kids[attr]| && f.shape.kids[attr][j] == prop
    requires attr != md && attr != mdNames && md != mdNames && prop != attr && prop != md && prop != mdNames
    modifies f`shape, f.shape.kids.Keys`next, f.shape.kids.Keys`firstChild, f.shape.kids.Keys`lastChild, f.shape.kids.Keys`name
    ensures f.Valid() && fresh(n) && n !in old(f.shape).kids && n.text == old(prop.name)
    ensures f.shape == MovedShape(old(f.shape), attr, md, mdNames, j, n)
    ensures prop in old(f.shape).kids && renamed == RelationshipObject(old(f.shape).kids[prop], old(Names(f.shape.kids.Keys)))
    ensures renamed != null ==>
      renamed in old(f.shape).kids[prop] && renamed in old(f.shape).kids && old(Names(f.shape.kids.Keys))[renamed] == "object"
    ensures Names(f.shape.kids.Keys) == Renaming(old(Names(f.shape.kids.Keys)), renamed, n, "")
  {
    hide *;
    ghost var s := f.shape;
    f.Start(attr);
    f.Start(md);
    f.Start(mdNames);
    f.ValidFacts();
    StillLive(s, attr, prop, j);
    RemovedOk(s, attr, j);
    RemovedKeys(s, attr, j);
    renamed := Detach(f, attr, prop, j);
    StillLive(f.shape, md, prop, 0);
    AddedKeys(f.shape, md, prop);
    f.ChildAdd(md, prop);
    n := AddNew(f, mdNames, "", KjString, prop.name, 0);
    MovedIs(s, attr, md, mdNames, j, n);
    RenamingIs(old(Names(f.shape.kids.Keys)), renamed, n, "");
  }
}
